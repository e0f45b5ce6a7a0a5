/** Transcript entries of an agent session, and the layered compaction that keeps the
    transcript inside its token budget. */
module Compaction {
  import opened Common

  /** What an action hash is taken over.  SHA-256 of the canonical form is taken to be
      injective, so the identity stands for its own hash. */
  datatype ActionId = ActionId(tool: string, source: string, version: Option<string>, risk: Risk, args: string)

  predicate Effectful(id: ActionId) { id.risk != Read }

  datatype Entry =
    | Task(text: string)
    | Context(name: string, data: string)
    | Steer(text: string)
    | Handoff(summary: string)
    | UseTool(turn: nat, tool: string, args: string)
    | FinishAction(turn: nat)
    | ToolResult(turn: nat, tool: string, ok: bool, payload: string, truncated: bool,
                 hash: Option<ActionId>, replayOf: Option<nat>, spilledTo: Option<string>, untrusted: bool)
    | ErrorNote(turn: nat, message: string)

  /** The session's fixed parameters; the token estimate and the per-tool payload summary are
      arbitrary functions. */
  datatype Config = Config(task: string, keepLast: nat, soft: nat, hard: nat,
                           estimate: Entry -> nat, summarize: Entry -> string)

  function Tokens(cfg: Config, tr: seq<Entry>): nat {
    if tr == [] then 0 else Tokens(cfg, tr[..|tr| - 1]) + cfg.estimate(tr[|tr| - 1])
  }

  /** The estimate of a transcript is the sum of its entries' estimates. */
  lemma {:induction false} TokensAdd(cfg: Config, a: seq<Entry>, b: seq<Entry>)
    ensures Tokens(cfg, a + b) == Tokens(cfg, a) + Tokens(cfg, b)
    ensures forall e :: Tokens(cfg, [e]) == cfg.estimate(e)
  {
    assert forall e: Entry :: [e][..0] == [];
    if b == [] {
      assert a + b == a;
    } else {
      var n := |b| - 1;
      assert (a + b)[..|a + b| - 1] == a + b[..n];
      TokensAdd(cfg, a, b[..n]);
    }
  }

  function Results(tr: seq<Entry>): seq<Entry> {
    if tr == [] then []
    else
      var rest := Results(tr[..|tr| - 1]);
      if tr[|tr| - 1].ToolResult? then rest + [tr[|tr| - 1]] else rest
  }

  lemma {:induction false} ResultsAreResults(tr: seq<Entry>)
    ensures forall i :: 0 <= i < |Results(tr)| ==> Results(tr)[i].ToolResult?
  {
    if tr != [] {
      ResultsAreResults(tr[..|tr| - 1]);
    }
  }

  /** Layer one: payloads of tool results older than the last `keepLast` are summarised. */
  function Micro(cfg: Config, tr: seq<Entry>): (r: seq<Entry>)
    requires cfg.keepLast >= 1
    ensures |r| == |tr|
  {
    var results := Results(tr);
    if |results| <= cfg.keepLast then tr
    else
      ResultsAreResults(tr);
      var cutoff := results[|results| - cfg.keepLast].turn;
      seq(|tr|, i requires 0 <= i < |tr| => MicroEntry(cfg, tr[i], cutoff))
  }

  function MicroEntry(cfg: Config, e: Entry, cutoff: nat): Entry {
    if !e.ToolResult? || e.turn >= cutoff || e.truncated then e
    else e.(payload := cfg.summarize(e), truncated := true)
  }

  /** `b` is `a` with possibly a summarised payload. */
  predicate EntrySame(a: Entry, b: Entry) {
    a == b || (a.ToolResult? && b.ToolResult? && b == a.(payload := b.payload, truncated := true))
  }

  /** Equal except that the right side may hold summarised tool-result payloads. */
  predicate SameUpToMicro(a: seq<Entry>, b: seq<Entry>) {
    |a| == |b| && forall i :: 0 <= i < |a| ==> EntrySame(a[i], b[i])
  }

  /** Equal except for summarised payloads and task texts. */
  predicate Alike(a: seq<Entry>, b: seq<Entry>) {
    |a| == |b| && forall i :: 0 <= i < |a| ==> EntrySame(a[i], b[i]) || (a[i].Task? && b[i].Task?)
  }

  lemma MicroKeeps(cfg: Config, a: seq<Entry>, b: seq<Entry>)
    requires cfg.keepLast >= 1 && SameUpToMicro(a, b)
    ensures SameUpToMicro(a, Micro(cfg, b))
  {
  }

  lemma {:induction false} ResultsConcat(a: seq<Entry>, b: seq<Entry>)
    ensures Results(a + b) == Results(a) + Results(b)
  {
    if b == [] {
      assert a + b == a;
    } else {
      var n := |b| - 1;
      assert (a + b)[..|a + b| - 1] == a + b[..n];
      ResultsConcat(a, b[..n]);
    }
  }

  /** One result per turn, in turn order. */
  predicate TurnsIncrease(tr: seq<Entry>) {
    forall i, j :: 0 <= i < j < |tr| && tr[i].ToolResult? && tr[j].ToolResult? ==> tr[i].turn < tr[j].turn
  }

  /** A result's place among the results is the number of results before it. */
  lemma ResultPlace(tr: seq<Entry>, i: nat)
    requires i < |tr|
    ensures |Results(tr)| == |Results(tr[..i])| + (if tr[i].ToolResult? then 1 else 0) + |Results(tr[i + 1..])|
    ensures tr[i].ToolResult? ==> Results(tr)[|Results(tr[..i])|] == tr[i]
  {
    assert tr == tr[..i] + ([tr[i]] + tr[i + 1..]);
    ResultsConcat(tr[..i], [tr[i]] + tr[i + 1..]);
    ResultsConcat([tr[i]], tr[i + 1..]);
    assert Results([tr[i]]) == if tr[i].ToolResult? then [tr[i]] else [] by { assert [tr[i]][..0] == []; }
  }

  lemma {:induction false} ResultsKeepOrder(tr: seq<Entry>, k: nat, l: nat)
    requires TurnsIncrease(tr) && k < l < |Results(tr)|
    ensures Results(tr)[k].ToolResult? && Results(tr)[l].ToolResult? && Results(tr)[k].turn < Results(tr)[l].turn
  {
    var n := |tr| - 1;
    if l < |Results(tr[..n])| {
      ResultsKeepOrder(tr[..n], k, l);
    } else {
      var j := ResultSource(tr[..n], k);
    }
  }

  lemma {:induction false} ResultSource(tr: seq<Entry>, k: nat) returns (j: nat)
    requires k < |Results(tr)|
    ensures j < |tr| && tr[j].ToolResult? && tr[j] == Results(tr)[k]
  {
    var n := |tr| - 1;
    if k < |Results(tr[..n])| {
      j := ResultSource(tr[..n], k);
    } else {
      j := n;
    }
  }

  /** The result at `i` has a lower turn number than the oldest result to be spared exactly when it is older. */
  predicate InOrder(cfg: Config, tr: seq<Entry>, i: nat)
    requires cfg.keepLast >= 1 && i < |tr| && tr[i].ToolResult?
  {
    var results := Results(tr);
    ResultsAreResults(tr);
    |results| > cfg.keepLast ==>
      (tr[i].turn < results[|results| - cfg.keepLast].turn <==> |Results(tr[i + 1..])| >= cfg.keepLast)
  }

  /** Microcompaction is meant to summarise exactly the payloads that have `keepLast` newer results and were not
      shortened before, and to leave everything else as it is.  It goes by turn numbers, so on any
      transcript it does so exactly where those agree with the order of the results. */
  lemma MicroExactly(cfg: Config, tr: seq<Entry>, i: nat)
    requires cfg.keepLast >= 1 && i < |tr|
    ensures Micro(cfg, tr)[i] == (
        if tr[i].ToolResult? && !tr[i].truncated && |Results(tr[i + 1..])| >= cfg.keepLast
        then tr[i].(payload := cfg.summarize(tr[i]), truncated := true) else tr[i])
      <==> (tr[i].ToolResult? && !tr[i].truncated ==> InOrder(cfg, tr, i))
  {
    ResultPlace(tr, i);
    ResultsAreResults(tr);
  }

  /** With one result per turn they agree everywhere. */
  lemma TurnsGiveOrder(cfg: Config, tr: seq<Entry>, i: nat)
    requires cfg.keepLast >= 1 && i < |tr| && tr[i].ToolResult? && TurnsIncrease(tr)
    ensures InOrder(cfg, tr, i)
  {
    var results := Results(tr);
    ResultPlace(tr, i);
    if |results| > cfg.keepLast {
      var place, cut := |Results(tr[..i])|, |results| - cfg.keepLast;
      if place < cut {
        ResultsKeepOrder(tr, place, cut);
      } else if cut < place {
        ResultsKeepOrder(tr, cut, place);
      }
    }
  }

  /** JavaScript `slice(-k)` for positive k. */
  function LastEntries(tr: seq<Entry>, k: nat): seq<Entry> {
    if |tr| <= k then tr else tr[|tr| - k..]
  }

  /** Stands for the fixed text of the emergency handoff; only that it is not empty matters. */
  const EMERGENCY := "handoff detail omitted"

  /** Layer two: objective, summary, and the most recent entries. */
  function HandoffBase(cfg: Config, micro: seq<Entry>, summary: string): seq<Entry> {
    [Task(cfg.task), Handoff(summary)] + LastEntries(micro, cfg.keepLast)
  }

  /** Drop kept entries, oldest first, while the transcript is over the hard limit. */
  function DropOldest(cfg: Config, tr: seq<Entry>): (r: seq<Entry>)
    requires |tr| >= 2
    ensures 2 <= |r| <= |tr| && r == tr[..2] + tr[|tr| - |r| + 2..]
    ensures |r| == 2 || Tokens(cfg, r) <= cfg.hard
    decreases |tr|
  {
    if |tr| > 2 && Tokens(cfg, tr) > cfg.hard then
      var shorter := tr[..2] + tr[3..];
      var r := DropOldest(cfg, shorter);
      assert shorter[|shorter| - |r| + 2..] == tr[|tr| - |r| + 2..];
      r
    else tr
  }

  /** Nothing is dropped that would have fit. */
  lemma {:induction false} DropIsLeast(cfg: Config, tr: seq<Entry>)
    requires |tr| >= 2
    ensures var r := DropOldest(cfg, tr); |r| < |tr| ==> Tokens(cfg, tr[..2] + tr[|tr| - |r| + 1..]) > cfg.hard
  {
    hide Tokens;
    if |tr| > 2 && Tokens(cfg, tr) > cfg.hard {
      var shorter, r := tr[..2] + tr[3..], DropOldest(cfg, tr);
      DropIsLeast(cfg, shorter);
      if |r| < |shorter| {
        assert shorter[..2] + shorter[|shorter| - |r| + 1..] == tr[..2] + tr[|tr| - |r| + 1..];
      } else {
        assert tr[..2] + tr[|tr| - |r| + 1..] == tr;
      }
    }
  }

  method DropLoop(cfg: Config, tr: seq<Entry>) returns (r: seq<Entry>)
    requires |tr| >= 2
    ensures r == DropOldest(cfg, tr)
    ensures 2 <= |r| <= |tr| && r == tr[..2] + tr[|tr| - |r| + 2..]
    ensures |r| == 2 || Tokens(cfg, r) <= cfg.hard
    ensures |r| < |tr| ==> Tokens(cfg, tr[..2] + tr[|tr| - |r| + 1..]) > cfg.hard
  {
    hide Tokens, DropOldest;
    DropIsLeast(cfg, tr);
    r := tr;
    while |r| > 2 && Tokens(cfg, r) > cfg.hard
      invariant |r| >= 2 && DropOldest(cfg, r) == DropOldest(cfg, tr)
    {
      DropNext(cfg, r);
      r := r[..2] + r[3..];
    }
    DropNext(cfg, r);
  }

  lemma DropNext(cfg: Config, tr: seq<Entry>)
    requires |tr| >= 2
    ensures DropOldest(cfg, tr) == if |tr| > 2 && Tokens(cfg, tr) > cfg.hard then DropOldest(cfg, tr[..2] + tr[3..]) else tr
  {
    hide Tokens;
  }

  /** The transcript a full compaction leaves in memory. */
  function FullTranscript(cfg: Config, micro: seq<Entry>, summary: string): seq<Entry> {
    var base := HandoffBase(cfg, micro, summary);
    if Tokens(cfg, base) <= cfg.hard then base
    else
      var dropped := DropOldest(cfg, base);
      if Tokens(cfg, dropped) <= cfg.hard then dropped
      else
        var short := [dropped[0], Handoff(EMERGENCY)] + dropped[2..];
        if Tokens(cfg, short) <= cfg.hard then short else [dropped[0]] + dropped[2..]
  }

  /** The summary of the first handoff entry, if there is one. */
  function FirstHandoff(tr: seq<Entry>): Option<string> {
    if tr == [] then None
    else if tr[0].Handoff? then Some(tr[0].summary)
    else FirstHandoff(tr[1..])
  }

  datatype GateOutcome =
    | Unchanged
    | Summarised(transcript: seq<Entry>)
    | Condensed(transcript: seq<Entry>, summary: string, kept: seq<Entry>, overflow: bool)

  /** The compaction gate at the start of a turn. */
  function Gate(cfg: Config, tr: seq<Entry>, summary: string): GateOutcome
    requires cfg.keepLast >= 1
  {
    if Tokens(cfg, tr) <= cfg.soft then Unchanged
    else
      var micro := Micro(cfg, tr);
      if Tokens(cfg, micro) > cfg.hard then
        var full := FullTranscript(cfg, micro, summary);
        var handoff := FirstHandoff(full);
        Condensed(full,
                  if handoff.Some? then handoff.value else "",
                  if handoff.Some? then full[if |full| < 2 then |full| else 2..] else full[if |full| < 1 then |full| else 1..],
                  Tokens(cfg, full) > cfg.hard)
      else if Tokens(cfg, micro) < Tokens(cfg, tr) then Summarised(micro)
      else Unchanged
  }

  function AfterGate(tr: seq<Entry>, g: GateOutcome): seq<Entry> {
    match g
    case Unchanged => tr
    case Summarised(t) => t
    case Condensed(t, _, _, _) => t
  }

  /** The gate takes the mildest treatment: none up to the soft limit, summarised payloads where they bring the transcript
      down to the hard limit, a full compaction only where they do not.  It leaves the transcript within the hard limit or reports overflow, unless the soft
      limit is set above the hard one and the transcript lies between them. */
  lemma GateBound(cfg: Config, tr: seq<Entry>, summary: string)
    requires cfg.keepLast >= 1
    ensures Gate(cfg, tr, summary).Condensed? <==> Tokens(cfg, tr) > cfg.soft && Tokens(cfg, Micro(cfg, tr)) > cfg.hard
    ensures Gate(cfg, tr, summary) == Summarised(Micro(cfg, tr)) <==>
      Tokens(cfg, tr) > cfg.soft && Tokens(cfg, Micro(cfg, tr)) <= cfg.hard && Tokens(cfg, Micro(cfg, tr)) < Tokens(cfg, tr)
    ensures Gate(cfg, tr, summary).Summarised? ==> Gate(cfg, tr, summary).transcript == Micro(cfg, tr)
    ensures var g := Gate(cfg, tr, summary);
      (Tokens(cfg, AfterGate(tr, g)) <= cfg.hard || (g.Condensed? && g.overflow))
        <==> !(cfg.hard < Tokens(cfg, tr) <= cfg.soft)
  {
  }

  predicate IsSuffix(a: seq<Entry>, b: seq<Entry>) { |a| <= |b| && a == b[|b| - |a|..] }

  /** What a full compaction keeps: the objective, at most one handoff, then a suffix of the
      summarised transcript; and the logged pieces rebuild exactly what memory holds. */
  lemma CondensedParts(cfg: Config, tr: seq<Entry>, summary: string)
    requires cfg.keepLast >= 1 && summary != "" && Gate(cfg, tr, summary).Condensed?
    ensures var g := Gate(cfg, tr, summary);
      && IsSuffix(g.kept, Micro(cfg, tr)) && |g.kept| <= cfg.keepLast
      && g.transcript == [Task(cfg.task)] + (if g.summary == "" then [] else [Handoff(g.summary)]) + g.kept
  {
    hide Micro, Tokens, LastEntries, FullTranscript, FirstHandoff;
    var micro := Micro(cfg, tr);
    var full := FullTranscript(cfg, micro, summary);
    FullParts(cfg, micro, summary);
    var kept := full[if FirstHandoff(full).Some? then 2 else 1..];
    LastIsSuffix(micro, cfg.keepLast, kept);
  }

  /** The transcript a full compaction would leave with the last `k` entries. */
  function Keeping(cfg: Config, micro: seq<Entry>, summary: string, k: nat): seq<Entry>
    requires k <= |micro|
  {
    [Task(cfg.task), Handoff(summary)] + micro[|micro| - k..]
  }

  /** How much a full compaction keeps: of the last `keepLast` entries as many of the newest as fit behind the objective and
      the summary; with one more it would be over the hard limit.  The summary gives way only when not even it fits:
      first to the emergency text, then to nothing. */
  lemma CondensedExactly(cfg: Config, tr: seq<Entry>, summary: string)
    requires cfg.keepLast >= 1 && summary != "" && Gate(cfg, tr, summary).Condensed?
    ensures var g, micro := Gate(cfg, tr, summary), Micro(cfg, tr);
      var k := |g.kept|;
      && k <= |micro| && k <= cfg.keepLast && g.kept == micro[|micro| - k..]
      && (k < |micro| && k < cfg.keepLast ==> Tokens(cfg, Keeping(cfg, micro, summary, k + 1)) > cfg.hard)
      && (g.overflow <==> Tokens(cfg, g.transcript) > cfg.hard)
      && (if Tokens(cfg, Keeping(cfg, micro, summary, k)) <= cfg.hard
          then g.summary == summary && g.transcript == Keeping(cfg, micro, summary, k)
          else k == 0 && if Tokens(cfg, [Task(cfg.task), Handoff(EMERGENCY)]) <= cfg.hard
               then g.summary == EMERGENCY && g.transcript == [Task(cfg.task), Handoff(EMERGENCY)]
               else g.summary == "" && g.transcript == [Task(cfg.task)])
  {
    hide Micro, Tokens, FirstHandoff, FullTranscript;
    var micro, g := Micro(cfg, tr), Gate(cfg, tr, summary);
    CondensedParts(cfg, tr, summary);
    FullExactly(cfg, micro, summary);
    var full := FullTranscript(cfg, micro, summary);
    if |full| >= 2 {
      SecondIsHandoff(full);
    } else {
      assert FirstHandoff(full) == None by { NoHandoff(full); }
    }
  }

  lemma NoHandoff(tr: seq<Entry>)
    requires |tr| == 1 && !tr[0].Handoff?
    ensures FirstHandoff(tr) == None
  {
    assert tr[1..] == [];
  }

  /** The same of the transcript itself. */
  lemma FullExactly(cfg: Config, micro: seq<Entry>, summary: string)
    requires cfg.keepLast >= 1
    ensures var full := FullTranscript(cfg, micro, summary);
      && (|full| >= 2 ==> full[1].Handoff? && full[0] == Task(cfg.task))
      && (|full| < 2 ==> full == [Task(cfg.task)])
      && var k: nat := if |full| >= 2 then |full| - 2 else 0;
         && k <= |micro| && k <= cfg.keepLast
         && (k < |micro| && k < cfg.keepLast ==> Tokens(cfg, Keeping(cfg, micro, summary, k + 1)) > cfg.hard)
         && (if Tokens(cfg, Keeping(cfg, micro, summary, k)) <= cfg.hard
             then full == Keeping(cfg, micro, summary, k)
             else k == 0 && full == if Tokens(cfg, [Task(cfg.task), Handoff(EMERGENCY)]) <= cfg.hard
                                    then [Task(cfg.task), Handoff(EMERGENCY)] else [Task(cfg.task)])
  {
    hide Tokens, DropOldest;
    var base := HandoffBase(cfg, micro, summary);
    var n := |base| - 2;
    assert base == Keeping(cfg, micro, summary, n);
    if Tokens(cfg, base) > cfg.hard {
      var k := DroppedKeeps(cfg, micro, summary, n);
      var dropped := Keeping(cfg, micro, summary, k);
      if k == 0 {
        assert [dropped[0], Handoff(EMERGENCY)] + dropped[2..] == [Task(cfg.task), Handoff(EMERGENCY)];
        assert [dropped[0]] + dropped[2..] == [Task(cfg.task)];
      }
    }
  }

  lemma DroppedKeeps(cfg: Config, micro: seq<Entry>, summary: string, n: nat) returns (k: nat)
    requires n <= |micro| && Tokens(cfg, Keeping(cfg, micro, summary, n)) > cfg.hard
    ensures k <= n && DropOldest(cfg, Keeping(cfg, micro, summary, n)) == Keeping(cfg, micro, summary, k)
    ensures k < n ==> Tokens(cfg, Keeping(cfg, micro, summary, k + 1)) > cfg.hard
    ensures k == 0 || Tokens(cfg, Keeping(cfg, micro, summary, k)) <= cfg.hard
  {
    hide Tokens;
    var base := Keeping(cfg, micro, summary, n);
    DropIsLeast(cfg, base);
    var dropped := DropOldest(cfg, base);
    k := |dropped| - 2;
    assert dropped == Keeping(cfg, micro, summary, k);
    assert k < n ==> base[..2] + base[|base| - |dropped| + 1..] == Keeping(cfg, micro, summary, k + 1);
  }

  lemma LastIsSuffix(tr: seq<Entry>, k: nat, kept: seq<Entry>)
    requires IsSuffix(kept, LastEntries(tr, k))
    ensures IsSuffix(kept, tr) && |kept| <= k
  {
  }

  lemma FullParts(cfg: Config, micro: seq<Entry>, summary: string)
    requires summary != ""
    ensures var full := FullTranscript(cfg, micro, summary);
      var h := FirstHandoff(full);
      && |full| >= (if h.Some? then 2 else 1) && full[0] == Task(cfg.task)
      && (h.Some? ==> h.value != "" && full[1] == Handoff(h.value))
      && IsSuffix(full[if h.Some? then 2 else 1..], LastEntries(micro, cfg.keepLast))
  {
    hide Tokens, LastEntries;
    var base := HandoffBase(cfg, micro, summary);
    var full := FullTranscript(cfg, micro, summary);
    assert base[2..] == LastEntries(micro, cfg.keepLast);
    if full == [Task(cfg.task)] {
      assert full[1..] == [];
    } else {
      if Tokens(cfg, base) > cfg.hard {
        var dropped := DropOldest(cfg, base);
        assert dropped[2..] == base[|base| - |dropped| + 2..];
      }
      SecondIsHandoff(full);
    }
  }

  lemma SecondIsHandoff(tr: seq<Entry>)
    requires |tr| >= 2 && !tr[0].Handoff? && tr[1].Handoff?
    ensures FirstHandoff(tr) == Some(tr[1].summary)
  {
    assert FirstHandoff(tr) == FirstHandoff(tr[1..]);
  }
}
