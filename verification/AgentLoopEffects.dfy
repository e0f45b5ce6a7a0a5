/** Committed effects: a session that was resumed executes no action with a ledger line anywhere in the log, a
    session that began afresh none with a ledger line since, and a request for such an action replays the
    committed result. */
module AgentLoopEffects {
  import opened Common
  import opened Compaction
  import opened Rollout
  import opened AgentLoop
  import opened AgentLoopRecovery

  /** Memory knows every committed effect, with the committed entry. */
  predicate Covers(effects: map<ActionId, Entry>, ledger: map<ActionId, Entry>) {
    forall id :: id in ledger ==> id in effects && effects[id] == ledger[id]
  }

  lemma {:induction false} AddResultsCovers(effects: map<ActionId, Entry>, tr: seq<Entry>)
    ensures Covers(AddResults(effects, tr), effects)
  {
    if tr != [] {
      AddResultsCovers(effects, tr[..|tr| - 1]);
    }
  }

  /** A ledger line, once written, stays the ledger's answer. */
  lemma {:induction false} LedgerMonotone(log: seq<Line>, k: nat)
    requires k <= |log|
    ensures Covers(Ledger(log), Ledger(log[..k]))
  {
    if k < |log| {
      var init := log[..|log| - 1];
      LedgerMonotone(init, k);
      assert init[..k] == log[..k];
      LedgerAppend(init, log[|log| - 1]);
      assert init + [log[|log| - 1]] == log;
    } else {
      assert log[..k] == log;
    }
  }

  /** The ledger lines the running session knows: all of the log for a session that was resumed, those it wrote
      itself for one that began afresh. */
  function Known(log: seq<Line>): map<ActionId, Entry> {
    if log == [] then map[]
    else
      var init, line := log[..|log| - 1], log[|log| - 1];
      if Begins(line) then map[]
      else if line.Resumed? then Ledger(init)
      else if line.EffectCommitted? then AddResult(Known(init), line.entry)
      else Known(init)
  }

  /** Where that knowledge begins. */
  function KnownFrom(log: seq<Line>): (from: nat)
    ensures from <= |log|
  {
    if log == [] || log[|log| - 1].Resumed? then 0
    else if Begins(log[|log| - 1]) then |log| - 1
    else KnownFrom(log[..|log| - 1])
  }

  lemma KnownAppend(log: seq<Line>, line: Line)
    ensures Known(log + [line]) ==
      if Begins(line) then map[]
      else if line.Resumed? then Ledger(log)
      else if line.EffectCommitted? then AddResult(Known(log), line.entry)
      else Known(log)
  {
    assert (log + [line])[..|log|] == log;
  }

  lemma KnownFromAppend(log: seq<Line>, line: Line)
    ensures KnownFrom(log + [line]) == if line.Resumed? then 0 else if Begins(line) then |log| else KnownFrom(log)
  {
    assert (log + [line])[..|log|] == log;
  }

  /** The action a started or running tool call is for. */
  function ActiveId(phase: Phase): Option<ActionId> {
    match phase
    case Running(id) => Some(id)
    case Invoked(id) => Some(id)
    case CommitDue(id, _) => Some(id)
    case _ => None
  }

  predicate MemoryCovers(s: Session) {
    s.mem.Some? ==>
      var m := s.mem.value;
      var active := ActiveId(m.phase);
      && Covers(m.effects, Known(s.log))
      && (active.Some? && Effectful(active.value) ==> active.value !in m.effects)
      && (m.phase.CommitDue? ==> Effectful(m.phase.id) && IsSuccess(m.phase.result, m.phase.id))
  }

  /** No recorded call was for an effect its session knew to be committed. */
  predicate CallsFresh(s: Session) {
    forall i :: 0 <= i < |s.calls| ==>
      var c := s.calls[i];
      c.at <= |s.log| && (Effectful(c.id) ==> c.id !in Known(s.log[..c.at]))
  }

  /** A replayed result agrees with what its session knew when it was written. */
  predicate ReplayAgrees(ledger: map<ActionId, Entry>, e: Entry) {
    e.ToolResult? && e.replayOf.Some? && e.hash.Some? && e.hash.value in ledger ==>
      var first := ledger[e.hash.value];
      first.ToolResult? && e.payload == first.payload && e.truncated == first.truncated
      && e.spilledTo == first.spilledTo && e.untrusted == first.untrusted && e.replayOf == Some(first.turn)
  }

  predicate ReplaysAgree(log: seq<Line>) {
    forall i :: 0 <= i < |log| && log[i].Item? ==> ReplayAgrees(Known(log[..i]), log[i].entry)
  }

  predicate EffectsSafe(s: Session) { MemoryCovers(s) && CallsFresh(s) && ReplaysAgree(s.log) }

  lemma CallsAppend(s: Session, line: Line, mem: Option<Memory>)
    requires CallsFresh(s)
    ensures CallsFresh(Session(s.log + [line], mem, s.calls))
  {
    hide Known;
    forall i | 0 <= i < |s.calls|
      ensures (s.log + [line])[..s.calls[i].at] == s.log[..s.calls[i].at]
    {
    }
  }

  lemma ReplaysAppend(log: seq<Line>, line: Line)
    requires ReplaysAgree(log) && (line.Item? ==> ReplayAgrees(Known(log), line.entry))
    ensures ReplaysAgree(log + [line])
  {
    hide Known, ReplayAgrees;
    var log' := log + [line];
    assert log'[..|log|] == log;
    forall i | 0 <= i < |log'| && log'[i].Item?
      ensures ReplayAgrees(Known(log'[..i]), log'[i].entry)
    {
      if i < |log| {
        assert log'[..i] == log[..i];
      }
    }
  }

  /** What must hold of the effects after a step. */
  predicate PhaseCovers(m: Memory) {
    var active := ActiveId(m.phase);
    && (active.Some? && Effectful(active.value) ==> active.value !in m.effects)
    && (m.phase.CommitDue? ==> Effectful(m.phase.id) && IsSuccess(m.phase.result, m.phase.id))
  }

  /** A step that appends one line. */
  lemma LineStep(s: Session, s': Session, line: Line)
    requires CallsFresh(s) && ReplaysAgree(s.log) && s'.calls == s.calls && s'.log == s.log + [line]
    requires line.Item? ==> ReplayAgrees(Known(s.log), line.entry)
    requires s'.mem.Some? ==> Covers(s'.mem.value.effects, Known(s'.log)) && PhaseCovers(s'.mem.value)
    ensures EffectsSafe(s')
  {
    hide Known, CallsFresh, ReplaysAgree, ReplayAgrees, Covers;
    CallsAppend(s, line, s'.mem);
    ReplaysAppend(s.log, line);
  }

  /** A step that appends one line which is neither a start nor a ledger line, and leaves the effects alone. */
  lemma PlainStep(s: Session, s': Session, line: Line)
    requires EffectsSafe(s) && s.mem.Some? && s'.mem.Some? && s'.calls == s.calls && s'.log == s.log + [line]
    requires s'.mem.value.effects == s.mem.value.effects && !line.EffectCommitted? && !Starts(line)
    requires line.Item? ==> ReplayAgrees(Known(s.log), line.entry)
    requires PhaseCovers(s'.mem.value)
    ensures EffectsSafe(s')
  {
    hide Known, CallsFresh, ReplaysAgree, ReplayAgrees, PhaseCovers;
    KnownAppend(s.log, line);
    LineStep(s, s', line);
  }

  lemma InvokeStep(cfg: Config, s: Session)
    requires EffectsSafe(s) && Enabled(cfg, s, Invoke)
    ensures EffectsSafe(Step(cfg, s, Invoke))
  {
    hide Known, ReplaysAgree;
    assert s.log[..|s.log|] == s.log;
    var s' := Step(cfg, s, Invoke);
    forall i | 0 <= i < |s'.calls|
      ensures var c := s'.calls[i]; c.at <= |s'.log| && (Effectful(c.id) ==> c.id !in Known(s'.log[..c.at]))
    {
    }
  }

  lemma CommitStep(cfg: Config, s: Session)
    requires EffectsSafe(s) && Enabled(cfg, s, Commit)
    ensures EffectsSafe(Step(cfg, s, Commit))
  {
    hide Known, CallsFresh, ReplaysAgree, ReplayAgrees;
    var line := EffectCommitted(s.mem.value.phase.result);
    KnownAppend(s.log, line);
    LineStep(s, Step(cfg, s, Commit), line);
  }

  lemma ResumeStep(cfg: Config, s: Session, prior: nat)
    requires EffectsSafe(s) && Enabled(cfg, s, Resume(prior))
    ensures EffectsSafe(Step(cfg, s, Resume(prior)))
  {
    hide Known, Ledger, CallsFresh, ReplaysAgree, ReplayAgrees, Replay, MetaTask, AddResults, FindOpen;
    var r := Reconstruct(s.log);
    AddResultsCovers(Ledger(s.log), r.transcript);
    AddResultsCovers(r.effects, r.transcript);
    KnownAppend(s.log, Resumed(prior));
    LineStep(s, Step(cfg, s, Resume(prior)), Resumed(prior));
  }

  lemma BeginStep(cfg: Config, s: Session)
    requires EffectsSafe(s) && Enabled(cfg, s, Begin)
    ensures EffectsSafe(Step(cfg, s, Begin))
  {
    hide Known, CallsFresh, ReplaysAgree;
    var line := Item(Task(cfg.task));
    KnownAppend(s.log, line);
    LineStep(s, Step(cfg, s, Begin), line);
  }

  lemma SilentStep(s: Session, s': Session)
    requires EffectsSafe(s) && s'.calls == s.calls && s'.log == s.log
    requires s'.mem.Some? ==>
      s.mem.Some? && s'.mem.value.effects == s.mem.value.effects && ActiveId(s'.mem.value.phase).None?
    ensures EffectsSafe(s')
  {
    hide Known, ReplaysAgree;
  }

  lemma GateStep(cfg: Config, s: Session, summary: string)
    requires EffectsSafe(s) && Enabled(cfg, s, RunGate(summary))
    ensures EffectsSafe(Step(cfg, s, RunGate(summary)))
  {
    hide Known, CallsFresh, ReplaysAgree, Gate;
    var s' := Step(cfg, s, RunGate(summary));
    if s'.log == s.log { SilentStep(s, s'); } else { PlainStep(s, s', s'.log[|s.log|]); }
  }

  /** A result pushed for a call, a refusal, a repair or a replay. */
  lemma PushStep(cfg: Config, s: Session, ev: Event)
    requires EffectsSafe(s) && Enabled(cfg, s, ev) && (ev.Refuse? || ev.Deduplicate? || ev.Hang? || ev.Return? || ev.WriteRepair?)
    ensures EffectsSafe(Step(cfg, s, ev))
  {
    hide Known, CallsFresh, ReplaysAgree;
    var s' := Step(cfg, s, ev);
    PlainStep(s, s', s'.log[|s.log|]);
  }

  /** Every other line. */
  lemma OtherStep(cfg: Config, s: Session, ev: Event)
    requires EffectsSafe(s) && Enabled(cfg, s, ev)
    requires ev.AddContext? || ev.WriteMeta? || ev.WriteRecord? || ev.SteerIn? || ev.InvalidReply? || ev.ChooseFinish?
      || ev.RejectFinish? || ev.ChooseTool? || ev.UnknownTool? || ev.StartTool? || ev.FinishTool?
    ensures EffectsSafe(Step(cfg, s, ev))
  {
    hide Known, CallsFresh, ReplaysAgree, Gate, Reconstruct, Covers;
    var s' := Step(cfg, s, ev);
    PlainStep(s, s', s'.log[|s.log|]);
  }

  lemma StepEffectsSafe(cfg: Config, s: Session, ev: Event)
    requires EffectsSafe(s) && Enabled(cfg, s, ev)
    ensures EffectsSafe(Step(cfg, s, ev))
  {
    hide Known, CallsFresh, ReplaysAgree, Gate, Reconstruct, Covers, PhaseCovers;
    match ev
    case Begin => BeginStep(cfg, s);
    case Resume(prior) => ResumeStep(cfg, s, prior);
    case Invoke => InvokeStep(cfg, s);
    case Commit => CommitStep(cfg, s);
    case RunGate(summary) => GateStep(cfg, s, summary);
    case Crash => SilentStep(s, Step(cfg, s, ev));
    case NextTurn => SilentStep(s, Step(cfg, s, ev));
    case End => LineStep(s, Step(cfg, s, ev), SessionEnd);
    case Refuse(_) => PushStep(cfg, s, ev);
    case Deduplicate(_) => PushStep(cfg, s, ev);
    case Hang(_) => PushStep(cfg, s, ev);
    case Return(_, _, _, _, _) => PushStep(cfg, s, ev);
    case WriteRepair(_) => PushStep(cfg, s, ev);
    case _ => OtherStep(cfg, s, ev);
  }

  lemma {:induction false} RunEffectsSafe(cfg: Config, evs: seq<Event>)
    ensures EffectsSafe(Run(cfg, evs))
  {
    if evs != [] {
      hide Enabled, Step, EffectsSafe;
      var init, ev := evs[..|evs| - 1], evs[|evs| - 1];
      RunEffectsSafe(cfg, init);
      if Enabled(cfg, Run(cfg, init), ev) {
        StepEffectsSafe(cfg, Run(cfg, init), ev);
      }
    } else {
      EmptyEffectsSafe();
    }
  }

  lemma EmptyEffectsSafe()
    ensures EffectsSafe(EMPTY)
  {
  }

  /** An action with a ledger line is called again only by a session that began afresh after that line: through any
      crashes, resumes and compactions a resumed session never does, nor does the session that wrote it. */
  lemma CommittedNeverReexecuted(cfg: Config, evs: seq<Event>, i: nat, c: nat)
    requires var s := Run(cfg, evs);
      && c < |s.calls| && s.calls[c].id.risk != Read
      && i < |s.log| && s.log[i].EffectCommitted? && IsSuccess(s.log[i].entry, s.calls[c].id)
    ensures var s := Run(cfg, evs);
      s.calls[c].at <= i || (s.calls[c].at <= |s.log| && i < KnownFrom(s.log[..s.calls[c].at]))
  {
    RunEffectsSafe(cfg, evs);
    hide Run;
    var s := Run(cfg, evs);
    var call := s.calls[c];
    if i < call.at && KnownFrom(s.log[..call.at]) <= i {
      InKnown(s.log[..call.at], i, call.id);
    }
  }

  lemma {:induction false} InKnown(log: seq<Line>, i: nat, id: ActionId)
    requires KnownFrom(log) <= i < |log| && log[i].EffectCommitted? && IsSuccess(log[i].entry, id)
    ensures id in Known(log)
  {
    var init, line := log[..|log| - 1], log[|log| - 1];
    if line.Resumed? {
      InLedger(init, i, id);
    } else if i < |init| {
      InKnown(init, i, id);
    }
  }

  lemma {:induction false} InLedger(log: seq<Line>, i: nat, id: ActionId)
    requires i < |log| && log[i].EffectCommitted? && IsSuccess(log[i].entry, id)
    ensures id in Ledger(log)
  {
    var init := log[..|log| - 1];
    if i < |init| {
      InLedger(init, i, id);
      LedgerAppend(init, log[|log| - 1]);
      assert init + [log[|log| - 1]] == log;
    }
  }

  /** The first ledger line with a success of its action, from a position on. */
  predicate FirstCommit(log: seq<Line>, from: nat, i: nat) {
    && from <= i < |log| && log[i].EffectCommitted? && log[i].entry.ToolResult? && log[i].entry.ok && log[i].entry.hash.Some?
    && forall k :: from <= k < i && log[k].EffectCommitted? ==> !IsSuccess(log[k].entry, log[i].entry.hash.value)
  }

  predicate NoCommit(log: seq<Line>, from: nat, id: ActionId) {
    forall k :: from <= k < |log| && log[k].EffectCommitted? ==> !IsSuccess(log[k].entry, id)
  }

  lemma {:induction false} NotYetInLedger(log: seq<Line>, id: ActionId)
    requires NoCommit(log, 0, id)
    ensures id !in Ledger(log)
  {
    if log != [] {
      NotYetInLedger(log[..|log| - 1], id);
    }
  }

  lemma {:induction false} NotYetKnown(log: seq<Line>, id: ActionId)
    requires NoCommit(log, KnownFrom(log), id)
    ensures id !in Known(log)
  {
    if log != [] {
      var init, line := log[..|log| - 1], log[|log| - 1];
      if line.Resumed? {
        NotYetInLedger(init, id);
      } else if !Begins(line) {
        NotYetKnown(init, id);
      }
    }
  }

  lemma FirstCommitIsLedger(log: seq<Line>, i: nat)
    requires FirstCommit(log, 0, i)
    ensures var id := log[i].entry.hash.value; id in Ledger(log) && Ledger(log)[id] == log[i].entry
  {
    var e := log[i].entry;
    NotYetInLedger(log[..i], e.hash.value);
    LedgerAppend(log[..i], log[i]);
    assert log[..i] + [log[i]] == log[..i + 1];
    LedgerMonotone(log, i + 1);
  }

  /** What a session knows of an action is the first ledger line within its knowledge. */
  lemma {:induction false} FirstCommitIsKnown(log: seq<Line>, i: nat)
    requires FirstCommit(log, KnownFrom(log), i)
    ensures var id := log[i].entry.hash.value; id in Known(log) && Known(log)[id] == log[i].entry
  {
    var init, line := log[..|log| - 1], log[|log| - 1];
    if line.Resumed? {
      FirstCommitIsLedger(init, i);
    } else if i < |init| {
      FirstCommitIsKnown(init, i);
    } else {
      NotYetKnown(init, line.entry.hash.value);
    }
  }

  /** Every request for an action its session knows to be committed replays the first committed result within
      that knowledge, field for field. */
  lemma ReplayIsVerbatim(cfg: Config, evs: seq<Event>, i: nat, j: nat)
    requires var log := Run(cfg, evs).log;
      && j < |log| && FirstCommit(log[..j], KnownFrom(log[..j]), i) && log[j].Item?
      && log[j].entry.ToolResult? && log[j].entry.replayOf.Some? && log[j].entry.hash == log[i].entry.hash
    ensures var first, replay := Run(cfg, evs).log[i].entry, Run(cfg, evs).log[j].entry;
      && replay.payload == first.payload && replay.truncated == first.truncated
      && replay.spilledTo == first.spilledTo && replay.untrusted == first.untrusted
      && replay.replayOf == Some(first.turn)
  {
    RunEffectsSafe(cfg, evs);
    hide Run, Known;
    var log := Run(cfg, evs).log;
    FirstCommitIsKnown(log[..j], i);
    assert ReplayAgrees(Known(log[..j]), log[j].entry);
  }
}
