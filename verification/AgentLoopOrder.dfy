/** The write order of a tool turn, on which every later classification of a crash rests: the action, its start marker, the
    call, its result, the ledger line of a successful effect, and the finish marker, each right behind the other. */
module AgentLoopOrder {
  import opened Common
  import opened Compaction
  import opened Rollout
  import opened AgentLoop
  import opened AgentLoopRecovery
  import opened AgentLoopTurns

  predicate ActionLine(line: Line, turn: nat, tool: string) {
    line.Item? && line.entry.UseTool? && line.entry.turn == turn && line.entry.tool == tool
  }

  /** The result of a call: under the action's hash, or a failure without one when the tool did not return. */
  predicate ResultLine(line: Line, turn: nat, id: ActionId) {
    && line.Item? && line.entry.ToolResult? && line.entry.turn == turn && line.entry.tool == id.tool && line.entry.replayOf.None?
    && (line.entry.hash == Some(id) || (line.entry.hash.None? && !line.entry.ok))
  }

  /** A turn's result that calls for no ledger line. */
  predicate Unledgered(line: Line, turn: nat, tool: string) {
    && line.Item? && line.entry.ToolResult? && line.entry.turn == turn && line.entry.tool == tool && line.entry.hash.Some?
    && ResultLine(line, turn, line.entry.hash.value) && !(line.entry.ok && line.entry.hash.value.risk != Read)
  }

  /** The ledger line repeats the successful effect's result right before it. */
  predicate Ledgered(log: seq<Line>, j: nat)
    requires j < |log|
  {
    && log[j].EffectCommitted? && j > 0 && log[j - 1] == Item(log[j].entry)
    && log[j].entry.ToolResult? && log[j].entry.ok && log[j].entry.hash.Some? && log[j].entry.hash.value.risk != Read
    && ResultLine(log[j - 1], log[j].entry.turn, log[j].entry.hash.value)
  }

  /** What is right behind what, for the line at `j`. */
  predicate Ordered(log: seq<Line>, j: nat)
    requires j < |log|
  {
    match log[j]
    case Started(turn, tool) => j > 0 && ActionLine(log[j - 1], turn, tool)
    case EffectCommitted(_) => Ledgered(log, j)
    case Finished(turn, tool) =>
      j > 0 && (Unledgered(log[j - 1], turn, tool)
                || (Ledgered(log, j - 1) && log[j - 1].entry.turn == turn && log[j - 1].entry.tool == tool))
    case _ => true
  }

  predicate AllOrdered(log: seq<Line>) { forall j :: 0 <= j < |log| ==> Ordered(log, j) }

  /** A call is made right behind its start marker, and the next line is its result, unless its session is over. */
  predicate CallOrdered(log: seq<Line>, c: Call) {
    && 0 < c.at <= |log| && log[c.at - 1] == Started(c.turn, c.id.tool)
    && (c.at < |log| ==> ResultLine(log[c.at], c.turn, c.id) || Starts(log[c.at]) || log[c.at].SessionEnd?)
  }

  predicate CallsOrdered(log: seq<Line>, calls: seq<Call>) {
    forall i :: 0 <= i < |calls| ==> CallOrdered(log, calls[i])
  }

  /** The last line is the one the phase stands at. */
  predicate LastLine(log: seq<Line>, turn: nat, phase: Phase) {
    match phase
    case Chosen(tool) => log != [] && ActionLine(log[|log| - 1], turn, tool)
    case Running(id) => log != [] && log[|log| - 1] == Started(turn, id.tool)
    case Invoked(id) => log != [] && log[|log| - 1] == Started(turn, id.tool)
    case CommitDue(id, e) =>
      log != [] && log[|log| - 1] == Item(e) && e.ToolResult? && e.ok && e.hash == Some(id) && id.risk != Read && e.turn == turn
      && ResultLine(log[|log| - 1], turn, id)
    case Closing(tool) =>
      log != [] && (Unledgered(log[|log| - 1], turn, tool)
                    || (Ledgered(log, |log| - 1) && log[|log| - 1].entry.turn == turn && log[|log| - 1].entry.tool == tool))
    case _ => true
  }

  /** A call that the log has nothing behind is the one being made, or its session is gone. */
  predicate OpenCalls(log: seq<Line>, calls: seq<Call>, mem: Option<Memory>) {
    forall i :: 0 <= i < |calls| && calls[i].at == |log| ==>
      mem.None? || (mem.value.phase == Invoked(calls[i].id) && mem.value.turn == calls[i].turn)
  }

  predicate OrderKept(s: Session) {
    && AllOrdered(s.log) && CallsOrdered(s.log, s.calls) && OpenCalls(s.log, s.calls, s.mem)
    && (s.mem.Some? ==> LastLine(s.log, s.mem.value.turn, s.mem.value.phase))
  }

  lemma OrderedAppend(log: seq<Line>, line: Line)
    requires AllOrdered(log) && Ordered(log + [line], |log|)
    ensures AllOrdered(log + [line])
  {
    hide ActionLine, ResultLine, Unledgered;
    var log' := log + [line];
    forall j | 0 <= j < |log'|
      ensures Ordered(log', j)
    {
      if j < |log| {
        assert Ordered(log, j);
        assert log'[j] == log[j] && (j > 0 ==> log'[j - 1] == log[j - 1]) && (j > 1 ==> log'[j - 2] == log[j - 2]);
      }
    }
  }

  /** A line behind the calls: for the open one it must be its result or the end of its session. */
  lemma CallsAppendOrdered(log: seq<Line>, calls: seq<Call>, line: Line)
    requires CallsOrdered(log, calls)
    requires forall i :: 0 <= i < |calls| && calls[i].at == |log| ==>
      ResultLine(line, calls[i].turn, calls[i].id) || Starts(line) || line.SessionEnd?
    ensures CallsOrdered(log + [line], calls)
  {
    hide ResultLine;
    forall i | 0 <= i < |calls|
      ensures CallOrdered(log + [line], calls[i])
    {
      assert CallOrdered(log, calls[i]);
      var log' := log + [line];
      assert log'[calls[i].at - 1] == log[calls[i].at - 1];
    }
  }

  lemma LineOrderKept(s: Session, s': Session, line: Line)
    requires OrderKept(s) && s'.log == s.log + [line] && s'.calls == s.calls
    requires Ordered(s'.log, |s.log|)
    requires s.mem.Some? && s.mem.value.phase.Invoked? ==> ResultLine(line, s.mem.value.turn, s.mem.value.phase.id) || line.SessionEnd?
    requires s.mem.None? ==> Starts(line)
    requires s'.mem.Some? ==> LastLine(s'.log, s'.mem.value.turn, s'.mem.value.phase)
    ensures OrderKept(s')
  {
    hide AllOrdered, Ordered, LastLine, ResultLine, CallOrdered;
    OrderedAppend(s.log, line);
    CallsAppendOrdered(s.log, s.calls, line);
    CallsEarlier(s.log, s.calls);
  }

  lemma CallsEarlier(log: seq<Line>, calls: seq<Call>)
    requires CallsOrdered(log, calls)
    ensures forall i :: 0 <= i < |calls| ==> calls[i].at <= |log|
  {
    hide ResultLine;
    forall i | 0 <= i < |calls|
      ensures calls[i].at <= |log|
    {
      assert CallOrdered(log, calls[i]);
    }
  }

  lemma ResultOrderKept(cfg: Config, s: Session, ev: Event)
    requires OrderKept(s) && Enabled(cfg, s, ev) && WritesResult(ev)
    ensures OrderKept(Step(cfg, s, ev))
  {
    hide AllOrdered, CallsOrdered, OpenCalls;
    var s' := Step(cfg, s, ev);
    LineOrderKept(s, s', s'.log[|s.log|]);
  }

  lemma ActionOrderKept(cfg: Config, s: Session, ev: Event)
    requires OrderKept(s) && Enabled(cfg, s, ev) && WritesAction(ev)
    ensures OrderKept(Step(cfg, s, ev))
  {
    hide AllOrdered, CallsOrdered, OpenCalls;
    var s' := Step(cfg, s, ev);
    LineOrderKept(s, s', s'.log[|s.log|]);
  }

  lemma OtherOrderKept(cfg: Config, s: Session, ev: Event)
    requires OrderKept(s) && Enabled(cfg, s, ev) && !WritesResult(ev) && !WritesAction(ev) && (Writes(ev) || ev.End? || ev.Begin? || ev.Resume?)
    ensures OrderKept(Step(cfg, s, ev))
  {
    hide AllOrdered, CallsOrdered, OpenCalls, ResultLine, Gate, Reconstruct, AddResults;
    var s' := Step(cfg, s, ev);
    LineOrderKept(s, s', s'.log[|s.log|]);
  }

  lemma GateOrderKept(cfg: Config, s: Session, summary: string)
    requires OrderKept(s) && Enabled(cfg, s, RunGate(summary))
    ensures OrderKept(Step(cfg, s, RunGate(summary)))
  {
    hide AllOrdered, CallsOrdered, ResultLine, Gate;
    var s' := Step(cfg, s, RunGate(summary));
    if s'.log != s.log {
      LineOrderKept(s, s', s'.log[|s.log|]);
    }
  }

  lemma SilentOrderKept(cfg: Config, s: Session, ev: Event)
    requires OrderKept(s) && Enabled(cfg, s, ev) && (ev.Crash? || ev.NextTurn?)
    ensures OrderKept(Step(cfg, s, ev))
  {
    hide AllOrdered, CallsOrdered, ResultLine;
  }

  lemma InvokeOrderKept(cfg: Config, s: Session)
    requires OrderKept(s) && Enabled(cfg, s, Invoke)
    ensures OrderKept(Step(cfg, s, Invoke))
  {
    hide AllOrdered, ResultLine;
    var s' := Step(cfg, s, Invoke);
    forall i | 0 <= i < |s'.calls|
      ensures CallOrdered(s'.log, s'.calls[i])
    {
      if i < |s.calls| {
        assert CallOrdered(s.log, s.calls[i]) && s'.calls[i] == s.calls[i];
      }
    }
  }

  lemma StepOrderKept(cfg: Config, s: Session, ev: Event)
    requires OrderKept(s) && Enabled(cfg, s, ev)
    ensures OrderKept(Step(cfg, s, ev))
  {
    hide OrderKept, Step, Enabled;
    if ev.RunGate? { GateOrderKept(cfg, s, ev.summary); }
    else if ev.Invoke? { InvokeOrderKept(cfg, s); }
    else if ev.Crash? || ev.NextTurn? { SilentOrderKept(cfg, s, ev); }
    else if WritesResult(ev) { ResultOrderKept(cfg, s, ev); }
    else if WritesAction(ev) { ActionOrderKept(cfg, s, ev); }
    else { OtherOrderKept(cfg, s, ev); }
  }

  /** In every run: a start marker is right behind its action; a call right behind its start marker, and the next line is
      its result unless its session is over; a ledger line right behind the successful effect it repeats; a finish marker
      right behind that, or behind a result that has no ledger line because it failed or only read. */
  lemma {:induction false} RunOrderKept(cfg: Config, evs: seq<Event>)
    ensures OrderKept(Run(cfg, evs))
  {
    if evs != [] {
      hide Enabled, Step, OrderKept;
      var init, ev := evs[..|evs| - 1], evs[|evs| - 1];
      RunOrderKept(cfg, init);
      if Enabled(cfg, Run(cfg, init), ev) {
        StepOrderKept(cfg, Run(cfg, init), ev);
      }
    } else {
      EmptyOrderKept();
    }
  }

  lemma EmptyOrderKept()
    ensures OrderKept(EMPTY)
  {
  }
}
