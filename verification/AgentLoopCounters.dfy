/** The turn counters the two resuming callers pass, both read off the turn records: how far behind the log
    they can be, and exactly when they are. */
module AgentLoopCounters {
  import opened Common
  import opened Compaction
  import opened Rollout
  import opened AgentLoop
  import opened AgentLoopRecovery
  import opened AgentLoopTurns
  import opened AgentLoopReports

  /** The refine capability takes the highest recorded turn, a conversation the number of records. */
  datatype Caller = HighestRecord | RecordCount

  function Counter(c: Caller, log: seq<Line>): nat {
    if log == [] then 0
    else
      var rest, line := Counter(c, log[..|log| - 1]), log[|log| - 1];
      if !line.TurnRecord? then rest
      else if c.RecordCount? then rest + 1
      else if rest < line.turn then line.turn else rest
  }

  lemma CounterGrows(c: Caller, log: seq<Line>, line: Line)
    ensures var n := Counter(c, log);
      Counter(c, log + [line]) ==
        if !line.TurnRecord? then n else if c.RecordCount? then n + 1 else if n < line.turn then line.turn else n
  {
    assert (log + [line])[..|log|] == log;
  }

  /** The highest recorded turn is recorded, and no recorded turn is higher. */
  lemma {:induction false} HighestIsRecorded(log: seq<Line>)
    ensures Counter(HighestRecord, log) > 0 ==> TurnRecord(Counter(HighestRecord, log)) in log
    ensures forall t: nat :: TurnRecord(t) in log ==> t <= Counter(HighestRecord, log)
  {
    if log != [] {
      var init := log[..|log| - 1];
      HighestIsRecorded(init);
      assert log == init + [log[|log| - 1]];
    }
  }

  /** Every resume that takes place is given this caller's counter. */
  predicate Driven(c: Caller, cfg: Config, evs: seq<Event>) {
    evs == [] ||
    (var init, ev := evs[..|evs| - 1], evs[|evs| - 1];
     && Driven(c, cfg, init)
     && (ev.Resume? && Enabled(cfg, Run(cfg, init), ev) ==> ev.priorTurns == Counter(c, Run(cfg, init).log)))
  }

  /** A line of the current turn is in the log, and its record may still be due. */
  predicate Begun(phase: Phase) {
    phase.FinishChosen? || phase.Chosen? || phase.Running? || phase.Invoked? || phase.CommitDue? || phase.Closing? || phase.RecordDue?
  }

  predicate HasTurn(log: seq<Line>, turn: nat) { exists i :: 0 <= i < |log| && LineTurn(log[i]) == turn }

  /** The counter is at most one behind; when it is behind, the next turn has the missing number, unless the
      session began afresh on a log that had lines. */
  predicate Trails(c: Caller, log: seq<Line>, m: Memory) {
    var n, next := Counter(c, log), if AtBoundary(m.phase) then m.turn + 1 else m.turn;
    && next <= n + 1
    && (StartedOver(log) || ((!CounterOk(log, n) ==> next == n + 1) && (c.HighestRecord? ==> n <= next)))
    && (m.phase.Repair? || m.phase.RepairRecord? ==> !StartedOver(log) && m.turn == n)
    && (m.phase.RepairRecord? ==> HasTurn(log, m.phase.repaired))
    && (Begun(m.phase) ==> HasTurn(log, m.turn))
    && (!AtBoundary(m.phase) ==> m.turn >= 1)
  }

  predicate Behind(c: Caller, s: Session) {
    CounterOk(s.log, Counter(c, s.log) + 1) && (s.mem.Some? ==> Trails(c, s.log, s.mem.value))
  }

  lemma HasTurnAppend(log: seq<Line>, line: Line, turn: nat)
    ensures HasTurn(log + [line], turn) <==> HasTurn(log, turn) || LineTurn(line) == turn
    ensures HasTurn(log, turn) ==> forall n :: CounterOk(log, n) ==> turn <= n
  {
    var log' := log + [line];
    assert log'[|log|] == line && forall i :: 0 <= i < |log| ==> log'[i] == log[i];
  }

  lemma CounterUp(log: seq<Line>, n: nat)
    requires CounterOk(log, n)
    ensures CounterOk(log, n + 1)
  {
  }

  lemma ActionHasTurn(log: seq<Line>)
    ensures LastAction(log).Some? ==> HasTurn(log, LastAction(log).value.turn)
  {
    LastActionMeaning(log);
    hide LastAction;
    if LastAction(log).Some? {
      assert LineTurn(log[LastAction(log).value.at]) == LastAction(log).value.turn;
    }
  }

  /** How a new line moves the counter and what it covers. */
  lemma LineCounted(c: Caller, log: seq<Line>, line: Line, turn: nat)
    requires CounterOk(log, Counter(c, log) + 1) && LineTurn(line) <= Counter(c, log) + 1
    ensures var n, n' := Counter(c, log), Counter(c, log + [line]);
      && n' == (if !line.TurnRecord? then n else if c.RecordCount? then n + 1 else if n < line.turn then line.turn else n)
      && CounterOk(log + [line], n' + 1)
      && (n' == n ==> (CounterOk(log + [line], n') <==> CounterOk(log, n) && LineTurn(line) <= n))
      && (n' == n + 1 ==> CounterOk(log + [line], n'))
    ensures HasTurn(log + [line], turn) <==> HasTurn(log, turn) || LineTurn(line) == turn
    ensures HasTurn(log, LineTurn(line)) && CounterOk(log, Counter(c, log)) ==> LineTurn(line) <= Counter(c, log)
    ensures StartedOver(log + [line]) == if Begins(line) then log != [] else !line.Resumed? && StartedOver(log)
  {
    hide CounterOk, HasTurn;
    var n := Counter(c, log);
    CounterGrows(c, log, line);
    MarksAppend(log, line);
    CounterAppend(log, line, n);
    CounterAppend(log, line, n + 1);
    CounterAppend(log, line, n + 2);
    HasTurnAppend(log, line, turn);
    HasTurnAppend(log, line, LineTurn(line));
    CounterUp(log, n + 1);
  }

  /** A line written within a turn. */
  lemma TurnLine(c: Caller, log: seq<Line>, m: Memory, line: Line, m': Memory)
    requires CounterOk(log, Counter(c, log) + 1) && Trails(c, log, m) && !AtBoundary(m.phase)
    requires (LineTurn(line) == 0 || LineTurn(line) == m.turn) && !Starts(line)
    requires m'.turn == m.turn && (m'.phase.Between? || !AtBoundary(m'.phase))
    requires line.TurnRecord? ==> LineTurn(line) == m.turn
    requires m'.phase.Between? ==> line.TurnRecord?
    requires Begun(m'.phase) ==> Begun(m.phase) || LineTurn(line) == m.turn
    ensures CounterOk(log + [line], Counter(c, log + [line]) + 1) && Trails(c, log + [line], m')
  {
    hide CounterOk, HasTurn, Counter, StartedOver;
    LineCounted(c, log, line, m.turn);
  }

  /** A line written while booting or repairing. */
  lemma BoundaryLine(c: Caller, log: seq<Line>, m: Memory, line: Line, m': Memory)
    requires CounterOk(log, Counter(c, log) + 1) && Trails(c, log, m) && AtBoundary(m.phase) && !m.phase.Between?
    requires m'.turn == m.turn && !Starts(line)
    requires match m.phase
      case Repair(open) =>
        LineTurn(line) == open.turn && HasTurn(log, open.turn) && !line.TurnRecord? && m'.phase == RepairRecord(open.turn)
      case RepairRecord(t) => line == TurnRecord(t) && m'.phase.Between?
      case _ => LineTurn(line) == 0 && !line.TurnRecord? && (m'.phase.Boot? || m'.phase.Between?)
    ensures CounterOk(log + [line], Counter(c, log + [line]) + 1) && Trails(c, log + [line], m')
  {
    hide CounterOk, HasTurn, Counter, StartedOver;
    HasTurnBound(log, m.phase, Counter(c, log) + 1);
    LineCounted(c, log, line, LineTurn(line));
  }

  /** Booting and repairing. */
  lemma BoundaryBehind(c: Caller, cfg: Config, s: Session, ev: Event)
    requires TurnsSound(s) && Behind(c, s) && Enabled(cfg, s, ev)
    requires ev.AddContext? || ev.WriteMeta? || ev.WriteRepair? || (ev.WriteRecord? && s.mem.value.phase.RepairRecord?)
    ensures Behind(c, Step(cfg, s, ev))
  {
    hide CounterOk, HasTurn, Counter, LastAction, Mirrors, CallsSound, Accounted, ShowsUse, Trails;
    var m, s' := s.mem.value, Step(cfg, s, ev);
    ActionHasTurn(s.log);
    BoundaryLine(c, s.log, m, s'.log[|s.log|], s'.mem.value);
  }

  /** Turn records, steering, errors and finish actions. */
  lemma RecordBehind(c: Caller, cfg: Config, s: Session, ev: Event)
    requires Behind(c, s) && Enabled(cfg, s, ev) && !(ev.WriteRecord? && s.mem.value.phase.RepairRecord?)
    requires ev.WriteRecord? || ev.SteerIn? || ev.InvalidReply? || ev.ChooseFinish? || ev.RejectFinish? || ev.UnknownTool?
    ensures Behind(c, Step(cfg, s, ev))
  {
    hide CounterOk, HasTurn, Counter, Trails;
    var m, s' := s.mem.value, Step(cfg, s, ev);
    TurnLine(c, s.log, m, s'.log[|s.log|], s'.mem.value);
  }

  /** The lines of a tool action. */
  lemma ActionBehind(c: Caller, cfg: Config, s: Session, ev: Event)
    requires Behind(c, s) && Enabled(cfg, s, ev) && WritesAction(ev)
    ensures Behind(c, Step(cfg, s, ev))
  {
    hide CounterOk, HasTurn, Counter, Trails;
    var m, s' := s.mem.value, Step(cfg, s, ev);
    TurnLine(c, s.log, m, s'.log[|s.log|], s'.mem.value);
  }

  lemma ResultBehind(c: Caller, cfg: Config, s: Session, ev: Event)
    requires Behind(c, s) && Enabled(cfg, s, ev) && WritesResult(ev) && !ev.WriteRepair?
    ensures Behind(c, Step(cfg, s, ev))
  {
    hide CounterOk, HasTurn, Counter, Trails;
    var m, s' := s.mem.value, Step(cfg, s, ev);
    TurnLine(c, s.log, m, s'.log[|s.log|], s'.mem.value);
  }

  lemma HasTurnBound(log: seq<Line>, phase: Phase, n: nat)
    requires CounterOk(log, n)
    ensures phase.RepairRecord? && HasTurn(log, phase.repaired) ==> phase.repaired <= n
    ensures phase.Repair? && HasTurn(log, phase.open.turn) ==> phase.open.turn <= n
  {
  }

  /** The fresh start, whose counter is zero, and the resume, whose counter is the caller's. */
  lemma StartBehind(c: Caller, cfg: Config, s: Session, ev: Event)
    requires Behind(c, s) && Enabled(cfg, s, ev) && (ev.Begin? || ev.Resume?)
    requires ev.Resume? ==> ev.priorTurns == Counter(c, s.log)
    ensures Behind(c, Step(cfg, s, ev))
  {
    hide CounterOk, HasTurn, Counter, Reconstruct, StartedOver;
    var s' := Step(cfg, s, ev);
    LineCounted(c, s.log, s'.log[|s.log|], 0);
    if s.log == [] { FirstLine(c, s'.log[0]); }
  }

  lemma FirstLine(c: Caller, line: Line)
    requires LineTurn(line) == 0 && !line.TurnRecord?
    ensures [] + [line] == [line] && Counter(c, [line]) == 0 && CounterOk([line], 0)
  {
  }

  /** Gates, calls, new turns, ends and crashes. */
  lemma OuterBehind(c: Caller, cfg: Config, s: Session, ev: Event)
    requires Behind(c, s) && Enabled(cfg, s, ev) && (ev.RunGate? || ev.Invoke? || ev.NextTurn? || ev.End? || ev.Crash?)
    ensures Behind(c, Step(cfg, s, ev))
  {
    hide CounterOk, HasTurn, Counter, Gate, StartedOver;
    var s' := Step(cfg, s, ev);
    if s'.log != s.log {
      LineCounted(c, s.log, s'.log[|s.log|], if s'.mem.Some? then s'.mem.value.turn else 0);
    }
  }

  lemma StepBehind(c: Caller, cfg: Config, s: Session, ev: Event)
    requires TurnsSound(s) && Behind(c, s) && Enabled(cfg, s, ev)
    requires ev.Resume? ==> ev.priorTurns == Counter(c, s.log)
    ensures Behind(c, Step(cfg, s, ev))
  {
    hide TurnsSound, Behind, Step;
    match ev
    case Begin => StartBehind(c, cfg, s, ev);
    case Resume(_) => StartBehind(c, cfg, s, ev);
    case RunGate(_) => OuterBehind(c, cfg, s, ev);
    case Invoke => OuterBehind(c, cfg, s, ev);
    case NextTurn => OuterBehind(c, cfg, s, ev);
    case End => OuterBehind(c, cfg, s, ev);
    case Crash => OuterBehind(c, cfg, s, ev);
    case AddContext(_, _) => BoundaryBehind(c, cfg, s, ev);
    case WriteMeta => BoundaryBehind(c, cfg, s, ev);
    case WriteRepair(_) => BoundaryBehind(c, cfg, s, ev);
    case WriteRecord =>
      if s.mem.value.phase.RepairRecord? { BoundaryBehind(c, cfg, s, ev); } else { RecordBehind(c, cfg, s, ev); }
    case _ =>
      if WritesAction(ev) { ActionBehind(c, cfg, s, ev); }
      else if WritesResult(ev) { ResultBehind(c, cfg, s, ev); }
      else { RecordBehind(c, cfg, s, ev); }
  }

  lemma {:induction false} RunBehind(c: Caller, cfg: Config, evs: seq<Event>)
    requires Driven(c, cfg, evs)
    ensures Behind(c, Run(cfg, evs))
  {
    if evs != [] {
      hide Enabled, Step, TurnsSound, Behind;
      var init, ev := evs[..|evs| - 1], evs[|evs| - 1];
      RunBehind(c, cfg, init);
      RunTurnsSound(cfg, init);
      if Enabled(cfg, Run(cfg, init), ev) {
        StepBehind(c, cfg, Run(cfg, init), ev);
      }
    } else {
      EmptyBehind(c);
    }
  }

  lemma EmptyBehind(c: Caller)
    ensures Behind(c, EMPTY)
  {
  }

  /** In every run that a caller drives with its own counter the counter is at most one behind the log, so it is
      sufficient exactly when the log has no line of the next number.  A crash after a line of the current
      turn was logged, of a session that did not begin afresh on an older log, finds it sufficient exactly when that
      turn is counted already: for the highest record, when a steering, compaction or repair record of that turn
      has been written.  When it is not, the first turn after the resume has the interrupted turn's number again. */
  lemma CallerCounter(c: Caller, cfg: Config, evs: seq<Event>)
    requires Driven(c, cfg, evs)
    ensures var s := Run(cfg, evs);
      var n := Counter(c, s.log);
      && CounterOk(s.log, n + 1)
      && (CounterOk(s.log, n) <==> !HasTurn(s.log, n + 1))
      && (s.mem.Some? && Begun(s.mem.value.phase) ==> s.mem.value.turn <= n + 1)
      && (s.mem.Some? && Begun(s.mem.value.phase) && !StartedOver(s.log) ==>
            && (CounterOk(s.log, n) <==> s.mem.value.turn <= n)
            && (c.HighestRecord? ==> (CounterOk(s.log, n) <==> TurnRecord(s.mem.value.turn) in s.log))
            && (!CounterOk(s.log, n) ==> s.mem.value.turn == n + 1))
  {
    hide Run, Counter, CounterOk, HasTurn, StartedOver;
    RunBehind(c, cfg, evs);
    var s := Run(cfg, evs);
    var n := Counter(c, s.log);
    NextNumber(s.log, n);
    if s.mem.Some? {
      if CounterOk(s.log, n) { TurnCovered(s.log, s.mem.value.turn, n); }
      HighestIsRecorded(s.log);
    }
  }

  lemma NextNumber(log: seq<Line>, n: nat)
    requires CounterOk(log, n + 1)
    ensures CounterOk(log, n) <==> !HasTurn(log, n + 1)
  {
  }

  lemma TurnCovered(log: seq<Line>, turn: nat, n: nat)
    requires CounterOk(log, n)
    ensures HasTurn(log, turn) ==> turn <= n
  {
  }
}
