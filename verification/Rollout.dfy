/** The append-only session log and the session rebuilt from it. */
module Rollout {
  import opened Common
  import opened Compaction

  datatype Line =
    | Meta(task: string)
    | Resumed(priorTurns: nat)
    | Item(entry: Entry)
    | Started(turn: nat, tool: string)
    | Finished(turn: nat, tool: string)
    | EffectCommitted(entry: Entry)
    | Compacted(summary: string, kept: seq<Entry>)
    | TurnRecord(turn: nat)
    | SessionEnd

  datatype Disposition = ToolNotStarted | ToolOutcomeUnknown

  datatype OpenTurn = OpenTurn(turn: nat, tool: string, disposition: Disposition)

  // ----- what the log says, line by line -----

  predicate HasMeta(log: seq<Line>) { exists i :: 0 <= i < |log| && log[i].Meta? }

  /** The task of the first meta line; the empty string when there is none. */
  function MetaTask(log: seq<Line>): string {
    if log == [] then ""
    else if log[0].Meta? then log[0].task
    else MetaTask(log[1..])
  }

  predicate HasCompaction(log: seq<Line>) { exists i :: 0 <= i < |log| && log[i].Compacted? }

  function Baseline(task: string, summary: string, kept: seq<Entry>): seq<Entry> {
    [Task(task)] + (if summary == "" then [] else [Handoff(summary)]) + kept
  }

  /** The transcript: items accumulate, a compacted line starts over from its baseline. */
  function Replay(log: seq<Line>, task: string): seq<Entry> {
    if log == [] then []
    else
      ReplayLine(Replay(log[..|log| - 1], task), log[|log| - 1], task)
  }

  function ReplayLine(before: seq<Entry>, line: Line, task: string): seq<Entry> {
    if line.Item? then before + [line.entry]
    else if line.Compacted? then Baseline(task, line.summary, line.kept)
    else before
  }

  /** A successful result that carries its action hash. */
  predicate Hashed(e: Entry) { e.ToolResult? && e.ok && e.hash.Some? }

  function AddResult(effects: map<ActionId, Entry>, e: Entry): map<ActionId, Entry> {
    if Hashed(e) && e.hash.value !in effects then effects[e.hash.value := e] else effects
  }

  /** The first committed result of every action hash. */
  function Ledger(log: seq<Line>): map<ActionId, Entry> {
    if log == [] then map[]
    else
      var before := Ledger(log[..|log| - 1]);
      if log[|log| - 1].EffectCommitted? then AddResult(before, log[|log| - 1].entry) else before
  }

  /** Add the results of a transcript, earlier entries first. */
  function AddResults(effects: map<ActionId, Entry>, tr: seq<Entry>): map<ActionId, Entry> {
    if tr == [] then effects else AddResult(AddResults(effects, tr[..|tr| - 1]), tr[|tr| - 1])
  }

  function CommittedEffects(log: seq<Line>): map<ActionId, Entry> {
    AddResults(Ledger(log), Replay(log, MetaTask(log)))
  }

  /** A successful result of the action. */
  predicate IsSuccess(e: Entry, id: ActionId) { e.ToolResult? && e.ok && e.hash == Some(id) }

  predicate HasStarted(log: seq<Line>, turn: nat, tool: string) { Started(turn, tool) in log }

  predicate HasFinished(log: seq<Line>, turn: nat, tool: string) { Finished(turn, tool) in log }

  predicate ResultFor(tr: seq<Entry>, from: nat, turn: nat) {
    exists j :: from <= j < |tr| && tr[j].ToolResult? && tr[j].turn == turn
  }

  /** The position after the last use-tool action, zero when there is none. */
  function AfterLastUse(tr: seq<Entry>): (k: nat)
    ensures k <= |tr|
    ensures k > 0 ==> tr[k - 1].UseTool?
  {
    if tr == [] then 0
    else if tr[|tr| - 1].UseTool? then |tr|
    else AfterLastUse(tr[..|tr| - 1])
  }

  /** The last use-tool action, when no result of its turn follows it. */
  function FindOpen(log: seq<Line>, tr: seq<Entry>): Option<OpenTurn> {
    var k := AfterLastUse(tr);
    if k == 0 || ResultFor(tr, k, tr[k - 1].turn) then None
    else
      var turn, tool := tr[k - 1].turn, tr[k - 1].tool;
      Some(OpenTurn(turn, tool,
                    if HasStarted(log, turn, tool) && !HasFinished(log, turn, tool)
                    then ToolOutcomeUnknown else ToolNotStarted))
  }

  datatype Rebuilt = Rebuilt(transcript: seq<Entry>, effects: map<ActionId, Entry>, open: Option<OpenTurn>)

  function Reconstruct(log: seq<Line>): Rebuilt {
    var tr := Replay(log, MetaTask(log));
    Rebuilt(tr, CommittedEffects(log), FindOpen(log, tr))
  }

  // ----- the rebuilding procedure -----

  lemma ReplayLast(log: seq<Line>, task: string, k: nat)
    requires k < |log|
    ensures Replay(log[..k + 1], task) == ReplayLine(Replay(log[..k], task), log[k], task)
  {
    assert log[..k + 1][..k] == log[..k];
  }

  lemma {:induction false} ReplayWithoutCompaction(log: seq<Line>, task: string, task': string)
    requires !HasCompaction(log)
    ensures Replay(log, task) == Replay(log, task')
  {
    if log != [] {
      var init := log[..|log| - 1];
      assert forall i :: 0 <= i < |init| ==> init[i] == log[i];
      ReplayWithoutCompaction(init, task, task');
    }
  }

  method FindMetaTask(log: seq<Line>) returns (task: string)
    ensures task == MetaTask(log)
  {
    var i := 0;
    while i < |log|
      invariant i <= |log| && MetaTask(log) == MetaTask(log[i..])
    {
      if log[i].Meta? { return log[i].task; }
      assert log[i..][1..] == log[i + 1..];
      i := i + 1;
    }
    return "";
  }

  /** Newest to oldest for the baseline, then forward over its suffix. */
  method RebuildTranscript(log: seq<Line>) returns (tr: seq<Entry>)
    ensures tr == Replay(log, MetaTask(log))
  {
    var task := FindMetaTask(log);
    var i: nat := |log|;
    while i > 0 && !log[i - 1].Compacted?
      invariant i <= |log|
      invariant forall j :: i <= j < |log| ==> !log[j].Compacted?
    {
      i := i - 1;
    }
    if i > 0 {
      var baseline := log[i - 1];
      tr := [Task(task)];
      if |baseline.summary| > 0 { tr := tr + [Handoff(baseline.summary)]; }
      tr := tr + baseline.kept;
      ReplayLast(log, task, i - 1);
    } else {
      tr := [];
    }
    assert tr == Replay(log[..i], task);
    var k := i;
    while k < |log|
      invariant i <= k <= |log| && tr == Replay(log[..k], task)
    {
      ReplayLast(log, task, k);
      if log[k].Item? { tr := tr + [log[k].entry]; }
      k := k + 1;
    }
    assert log[..|log|] == log;
  }

  method RebuildEffects(log: seq<Line>, tr: seq<Entry>) returns (effects: map<ActionId, Entry>)
    ensures effects == AddResults(Ledger(log), tr)
  {
    effects := map[];
    var i := 0;
    while i < |log|
      invariant i <= |log| && effects == Ledger(log[..i])
    {
      assert log[..i + 1][..i] == log[..i];
      if log[i].EffectCommitted? { effects := AddResult(effects, log[i].entry); }
      i := i + 1;
    }
    assert log[..|log|] == log;
    i := 0;
    while i < |tr|
      invariant i <= |tr| && effects == AddResults(Ledger(log), tr[..i])
    {
      assert tr[..i + 1][..i] == tr[..i];
      effects := AddResult(effects, tr[i]);
      i := i + 1;
    }
    assert tr[..|tr|] == tr;
  }

  /** Scan backwards for the last use-tool action and look for its result. */
  method RebuildOpen(log: seq<Line>, tr: seq<Entry>) returns (open: Option<OpenTurn>)
    ensures open == FindOpen(log, tr)
  {
    var i: nat := |tr|;
    assert tr[..i] == tr;
    while i > 0
      invariant i <= |tr|
      invariant AfterLastUse(tr) == AfterLastUse(tr[..i]) <= i
    {
      assert tr[..i][..i - 1] == tr[..i - 1];
      if tr[i - 1].UseTool? {
        var e := tr[i - 1];
        if ResultFor(tr, i, e.turn) { return None; }
        var started, finished := Started(e.turn, e.tool) in log, Finished(e.turn, e.tool) in log;
        return Some(OpenTurn(e.turn, e.tool, if started && !finished then ToolOutcomeUnknown else ToolNotStarted));
      }
      i := i - 1;
    }
    return None;
  }

  /** `reconstructSession`. */
  method ReconstructSession(log: seq<Line>) returns (r: Rebuilt)
    ensures r == Reconstruct(log)
  {
    var tr := RebuildTranscript(log);
    var effects := RebuildEffects(log, tr);
    var open := RebuildOpen(log, tr);
    r := Rebuilt(tr, effects, open);
  }
}
