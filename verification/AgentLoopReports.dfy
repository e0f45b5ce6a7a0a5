/** What the reports on interrupted turns are worth: exactly when they are right, for arbitrary turn
    counters, and that they always are when every session started with a sufficient one. */
module AgentLoopReports {
  import opened Common
  import opened Compaction
  import opened Rollout
  import opened AgentLoop
  import opened AgentLoopRecovery
  import opened AgentLoopTurns

  // ----- for every run -----

  /** An unknown outcome is reported exactly for an action that was marked started. */
  predicate ReportRight(a: Action, open: OpenTurn) { open.disposition == ToolOutcomeUnknown <==> a.marked }

  /** No older marker misleads the report: for a started action no older finish marker, for one not
      started no older unfinished start marker, with its turn number and tool. */
  predicate Unmisled(log: seq<Line>, a: Action)
    requires a.at <= |log|
  {
    var started, finished := HasStarted(log[..a.at], a.turn, a.tool), HasFinished(log[..a.at], a.turn, a.tool);
    if a.marked then !finished else !started || finished
  }

  lemma SplitMarkers(log: seq<Line>, at: nat, line: Line)
    requires at <= |log|
    ensures line in log <==> line in log[..at] || line in log[at..]
  {
    assert log == log[..at] + log[at..];
  }

  lemma OpenMeaning(s: Session)
    requires TurnsSound(s)
    ensures var open, act := Reconstruct(s.log).open, LastAction(s.log);
      && (act.Some? && act.value.current && act.value.marked && !act.value.answered ==> open.Some?)
      && (open.Some? ==>
            && act.Some? && act.value.at < |s.log| && !act.value.answered
            && open.value.turn == act.value.turn && open.value.tool == act.value.tool
            && (ReportRight(act.value, open.value) <==> Unmisled(s.log, act.value)))
  {
    hide LastAction, Replay, MetaTask, ShowsUse, CommittedEffects, CallsSound;
    OpenIsAction(s.log);
    LastActionMeaning(s.log);
    var act := LastAction(s.log);
    if act.Some? {
      var a := act.value;
      SplitMarkers(s.log, a.at, Started(a.turn, a.tool));
      SplitMarkers(s.log, a.at, Finished(a.turn, a.tool));
    }
  }

  /** At every crash point of every run, whatever counters its resumes were given: the open turn is the
      log's last tool action, without a result; calls were made for it only after it was marked started; and the
      report on it is right exactly when no older marker misleads it. */
  lemma ReportExactly(cfg: Config, evs: seq<Event>)
    ensures var s := Run(cfg, evs);
      var open, act := Reconstruct(s.log).open, LastAction(s.log);
      open.Some? ==>
        && act.Some? && act.value.at < |s.log| && !act.value.answered
        && open.value.turn == act.value.turn && open.value.tool == act.value.tool
        && (ReportRight(act.value, open.value) <==> Unmisled(s.log, act.value))
        && forall i :: 0 <= i < |s.calls| && s.calls[i].at > act.value.at ==> act.value.marked
  {
    RunTurnsSound(cfg, evs);
    hide Run, LastAction, Reconstruct, Mirrors, Accounted, PhaseSound, Unmisled, ShowsUse;
    var s := Run(cfg, evs);
    OpenMeaning(s);
    forall i | 0 <= i < |s.calls| && LastAction(s.log).Some? && s.calls[i].at > LastAction(s.log).value.at
      ensures LastAction(s.log).value.marked
    {
      assert CallSound(s.log, LastAction(s.log), s.calls[i]);
    }
  }

  /** A call whose result never became durable is never lost to a resume: after any crash the rebuilt session reports
      that turn, unless a session has begun afresh since the call, with an unknown outcome exactly when no older
      finish marker has its number and tool. */
  lemma LostCallIsReported(cfg: Config, evs: seq<Event>, i: nat)
    requires var s := Run(cfg, evs);
      s.mem.None? && i < |s.calls| && !Answered(s.log, s.calls[i]) && !Abandoned(s.log, s.calls[i])
    ensures var s := Run(cfg, evs);
      var open, act := Reconstruct(s.log).open, LastAction(s.log);
      && open.Some? && open.value.turn == s.calls[i].turn && open.value.tool == s.calls[i].id.tool
      && act.Some? && act.value.at < |s.log|
      && (open.value.disposition == ToolOutcomeUnknown <==>
            !HasFinished(s.log[..act.value.at], open.value.turn, open.value.tool))
  {
    RunTurnsSound(cfg, evs);
    hide Run, LastAction, Reconstruct, Mirrors, PhaseSound, ShowsUse, Answered, Abandoned;
    var s := Run(cfg, evs);
    assert CallSound(s.log, LastAction(s.log), s.calls[i]);
    OpenMeaning(s);
  }

  /** One action from the moment it is logged, on any log: the report is right while it is not started exactly when
      no older start marker is left unfinished, right after it is started exactly when there is no older
      finish marker, and so right at both crash points exactly when there is no older marker at all. */
  lemma NewActionReport(log: seq<Line>, turn: nat, tool: string, args: string)
    ensures var asked := log + [Item(UseTool(turn, tool, args))];
      var started := asked + [Started(turn, tool)];
      var idle, busy := Reconstruct(asked).open, Reconstruct(started).open;
      && idle.Some? && idle.value.turn == turn && idle.value.tool == tool
      && busy.Some? && busy.value.turn == turn && busy.value.tool == tool
      && (idle.value.disposition == ToolNotStarted <==> !HasStarted(log, turn, tool) || HasFinished(log, turn, tool))
      && (busy.value.disposition == ToolOutcomeUnknown <==> !HasFinished(log, turn, tool))
      && ((idle.value.disposition == ToolNotStarted && busy.value.disposition == ToolOutcomeUnknown) <==>
            (!HasStarted(log, turn, tool) && !HasFinished(log, turn, tool)))
  {
    hide Replay, MetaTask, CommittedEffects, AfterLastUse, ResultFor;
    var use := Item(UseTool(turn, tool, args));
    var asked := log + [use];
    RestoredAppend(log, use);
    RestoredAppend(asked, Started(turn, tool));
    LastUsePush(Restored(log), use.entry);
    NoResultAfterEnd(Restored(asked), turn);
  }

  // ----- turns count from one -----

  predicate AtBoundary(phase: Phase) { phase.Boot? || phase.Between? || phase.Repair? || phase.RepairRecord? }

  predicate Positive(s: Session) {
    && (s.mem.Some? && !AtBoundary(s.mem.value.phase) ==> s.mem.value.turn >= 1)
    && forall i :: 0 <= i < |s.calls| ==> s.calls[i].turn >= 1
  }

  lemma StepPositive(cfg: Config, s: Session, ev: Event)
    requires Positive(s) && Enabled(cfg, s, ev)
    ensures Positive(Step(cfg, s, ev))
  {
    hide Gate, Reconstruct, AddResults;
  }

  lemma {:induction false} RunPositive(cfg: Config, evs: seq<Event>)
    ensures Positive(Run(cfg, evs))
  {
    if evs != [] {
      hide Enabled, Step, Positive;
      var init, ev := evs[..|evs| - 1], evs[|evs| - 1];
      RunPositive(cfg, init);
      if Enabled(cfg, Run(cfg, init), ev) {
        StepPositive(cfg, Run(cfg, init), ev);
      }
    } else {
      EmptyPositive();
    }
  }

  lemma EmptyPositive()
    ensures Positive(EMPTY)
  {
  }

  // ----- for runs whose sessions start with sufficient counters -----

  /** A fresh start counts from zero, a resume from the number it is given. */
  predicate StartsCounted(log: seq<Line>, ev: Event) {
    && (ev.Begin? ==> CounterOk(log, 0))
    && (ev.Resume? ==> CounterOk(log, ev.priorTurns))
  }

  /** Every start that takes place has a counter at least as high as every logged turn number. */
  predicate Counted(cfg: Config, evs: seq<Event>) {
    evs == [] ||
    (var init, ev := evs[..|evs| - 1], evs[|evs| - 1];
     && Counted(cfg, init)
     && (Enabled(cfg, Run(cfg, init), ev) ==> StartsCounted(Run(cfg, init).log, ev)))
  }

  predicate IsToolLine(line: Line) {
    line.Started? || line.Finished? || (line.Item? && (line.entry.UseTool? || line.entry.ToolResult?))
  }

  predicate ToolsBelow(lines: seq<Line>, turn: nat) {
    forall i :: 0 <= i < |lines| && IsToolLine(lines[i]) ==> LineTurn(lines[i]) < turn
  }

  /** Results of the transcript are results of the log. */
  predicate ResultsLogged(log: seq<Line>, tr: seq<Entry>) {
    forall i :: 0 <= i < |tr| && tr[i].ToolResult? ==> exists k :: 0 <= k < |log| && IsResult(log[k], tr[i].turn)
  }

  predicate PhaseFresh(log: seq<Line>, m: Memory) {
    match m.phase
    case TurnOpen => ToolsBelow(log, m.turn)
    case SteerRecord => ToolsBelow(log, m.turn)
    case Gated => ToolsBelow(log, m.turn)
    case CompactRecord(_) => ToolsBelow(log, m.turn)
    case RepairRecord(t) => t <= m.turn
    case _ => true
  }

  /** Tool lines before the last action have lower turn numbers, those after it have its number. */
  predicate LastIsNewest(log: seq<Line>, a: Action) {
    && a.at < |log| && ToolsBelow(log[..a.at], a.turn)
    && forall i :: a.at < i < |log| && IsToolLine(log[i]) ==> LineTurn(log[i]) == a.turn
  }

  /** Turn numbers are never reused for a tool. */
  predicate Fresh(s: Session) {
    var act, tr := LastAction(s.log), Skeleton(s.log);
    && (act.Some? ==> LastIsNewest(s.log, act.value))
    && (act.None? ==> ToolsBelow(s.log, 0))
    && (s.mem.Some? ==> CounterOk(s.log, s.mem.value.turn) && PhaseFresh(s.log, s.mem.value))
    && ResultsLogged(s.log, tr) && TurnsIncrease(tr) && CallsKept(s.log, s.calls)
  }

  /** No session has begun afresh since a call was made. */
  predicate CallsKept(log: seq<Line>, calls: seq<Call>) {
    forall i :: 0 <= i < |calls| ==> calls[i].at <= |log| && !Abandoned(log, calls[i])
  }

  lemma CallsKeptAppend(log: seq<Line>, calls: seq<Call>, line: Line)
    requires CallsKept(log, calls) && (Begins(line) ==> calls == [])
    ensures CallsKept(log + [line], calls)
  {
    hide Answered, Abandoned;
    forall i | 0 <= i < |calls|
      ensures !Abandoned(log + [line], calls[i])
    {
      AnsweredAppend(log, line, calls[i]);
    }
  }

  /** Calls leave start markers with their turn numbers, so a log without turn numbers has seen none. */
  lemma NoCallsYet(s: Session)
    requires TurnsSound(s) && Positive(s) && CounterOk(s.log, 0)
    ensures s.calls == []
  {
    hide TurnsSound, CounterOk;
    if s.calls != [] {
      CallNumber(s, 0, 0);
    }
  }

  lemma CallNumber(s: Session, i: nat, n: nat)
    requires TurnsSound(s) && CounterOk(s.log, n) && i < |s.calls|
    ensures s.calls[i].turn <= n
  {
    hide CounterOk, LastAction, Mirrors, Accounted, PhaseSound, ShowsUse, Answered, Abandoned;
    assert CallSound(s.log, LastAction(s.log), s.calls[i]);
    CallCounted(s.log, s.calls[i], n);
  }

  lemma CallCounted(log: seq<Line>, c: Call, n: nat)
    requires CounterOk(log, n) && c.at <= |log| && Started(c.turn, c.id.tool) in log[..c.at]
    ensures c.turn <= n
  {
    var k :| 0 <= k < |log[..c.at]| && log[..c.at][k] == Started(c.turn, c.id.tool);
    assert LineTurn(log[k]) <= n;
  }

  lemma CounterAppend(log: seq<Line>, line: Line, turn: nat)
    ensures CounterOk(log + [line], turn) <==> CounterOk(log, turn) && LineTurn(line) <= turn
    ensures ToolsBelow(log + [line], turn) <==> ToolsBelow(log, turn) && (IsToolLine(line) ==> LineTurn(line) < turn)
  {
    var log' := log + [line];
    assert log'[|log|] == line && forall i :: 0 <= i < |log| ==> log'[i] == log[i];
  }

  lemma ResultsLoggedAppend(log: seq<Line>, line: Line, tr: seq<Entry>)
    requires ResultsLogged(log, tr)
    ensures ResultsLogged(log + [line], tr)
    ensures line.Item? ==> ResultsLogged(log + [line], tr + [line.entry])
  {
    var log' := log + [line];
    forall i | 0 <= i < |tr| && tr[i].ToolResult?
      ensures exists k :: 0 <= k < |log'| && IsResult(log'[k], tr[i].turn)
    {
      var k :| 0 <= k < |log| && IsResult(log[k], tr[i].turn);
      assert log'[k] == log[k];
    }
    assert line.Item? && line.entry.ToolResult? ==> IsResult(log'[|log|], line.entry.turn);
  }

  /** A compaction keeps the order and the origin of results. */
  lemma BaselineFresh(log: seq<Line>, tr: seq<Entry>, task: string, summary: string, kept: seq<Entry>)
    requires ResultsLogged(log, tr) && TurnsIncrease(tr) && KeepsSuffix(kept, tr)
    ensures ResultsLogged(log, Baseline(task, summary, kept)) && TurnsIncrease(Baseline(task, summary, kept))
  {
    var base, off := Baseline(task, summary, kept), |tr| - |kept|;
    var shift := |base| - |kept|;
    assert base[shift..] == kept;
    forall i | 0 <= i < |base| && base[i].ToolResult?
      ensures shift <= i && tr[i - shift + off].ToolResult? && tr[i - shift + off].turn == base[i].turn
    {
      assert base[i] == kept[i - shift] && tr[off..][i - shift] == tr[i - shift + off];
    }
  }

  /** A result of an unanswered action is newer than every result of the transcript. */
  lemma ResultIsNew(log: seq<Line>, tr: seq<Entry>, a: Action, e: Entry)
    requires LastAction(log) == Some(a) && !a.answered && LastIsNewest(log, a)
    requires ResultsLogged(log, tr) && TurnsIncrease(tr) && e.ToolResult? && e.turn == a.turn
    ensures TurnsIncrease(tr + [e])
  {
    LastActionMeaning(log);
    hide LastAction;
    forall i | 0 <= i < |tr| && tr[i].ToolResult?
      ensures tr[i].turn < e.turn
    {
      var k :| 0 <= k < |log| && IsResult(log[k], tr[i].turn);
      assert k < a.at ==> log[..a.at][k] == log[k];
    }
  }

  lemma OtherKeepsOrder(tr: seq<Entry>, e: Entry)
    requires TurnsIncrease(tr) && !e.ToolResult?
    ensures TurnsIncrease(tr + [e])
  {
  }

  lemma NewestAppend(log: seq<Line>, line: Line, a: Action)
    requires LastIsNewest(log, a) && (IsToolLine(line) ==> LineTurn(line) == a.turn)
    ensures forall a': Action :: a'.at == a.at && a'.turn == a.turn ==> LastIsNewest(log + [line], a')
  {
    assert (log + [line])[..a.at] == log[..a.at];
  }

  lemma NewestUse(log: seq<Line>, line: Line, a: Action)
    requires ToolsBelow(log, a.turn) && a.at == |log|
    ensures LastIsNewest(log + [line], a)
  {
    assert (log + [line])[..|log|] == log;
  }

  /** An action takes a number above every earlier tool line; other tool lines carry the last action's number, and
      a result comes only while it has none. */
  predicate Fits(log: seq<Line>, act: Option<Action>, line: Line) {
    && (IsUse(line) ==> ToolsBelow(log, line.entry.turn))
    && (!IsUse(line) && IsToolLine(line) ==> act.Some? && LineTurn(line) == act.value.turn)
    && (line.Item? && line.entry.ToolResult? ==> act.Some? && !act.value.answered)
  }

  /** What the log keeps when a line is written. */
  lemma FreshLine(log: seq<Line>, line: Line)
    requires var act, tr := LastAction(log), Skeleton(log);
      && (if act.Some? then LastIsNewest(log, act.value) else ToolsBelow(log, 0))
      && ResultsLogged(log, tr) && TurnsIncrease(tr) && Fits(log, act, line)
    requires line.Compacted? ==> KeepsSuffix(line.kept, Skeleton(log))
    ensures var act, tr := LastAction(log + [line]), Skeleton(log + [line]);
      && (if act.Some? then LastIsNewest(log + [line], act.value) else ToolsBelow(log + [line], 0))
      && ResultsLogged(log + [line], tr) && TurnsIncrease(tr)
  {
    hide LastAction, Replay, ResultsLogged, TurnsIncrease, LastIsNewest, ToolsBelow, KeepsSuffix;
    var act, tr := LastAction(log), Skeleton(log);
    LastActionAppend(log, line);
    ReplayAppend(log, line, "");
    CounterAppend(log, line, 0);
    if IsUse(line) {
      NewestUse(log, line, LastAction(log + [line]).value);
    } else if act.Some? {
      NewestAppend(log, line, act.value);
    }
    if line.Item? {
      ResultsLoggedAppend(log, line, tr);
      if line.entry.ToolResult? {
        ResultIsNew(log, tr, act.value, line.entry);
      } else {
        OtherKeepsOrder(tr, line.entry);
      }
    } else if line.Compacted? {
      BaselineFresh(log, tr, "", line.summary, line.kept);
      ResultsLoggedAppend(log, line, Baseline("", line.summary, line.kept));
    } else {
      ResultsLoggedAppend(log, line, tr);
    }
  }

  /** The action's own line carries its number, so a counter that covers the log covers it. */
  lemma ActionCounted(log: seq<Line>, turn: nat)
    requires CounterOk(log, turn)
    ensures LastAction(log).Some? ==> LastAction(log).value.turn <= turn
  {
    LastActionMeaning(log);
    hide LastAction;
    if LastAction(log).Some? {
      assert LineTurn(log[LastAction(log).value.at]) <= turn;
    }
  }

  lemma NextTurnFresh(log: seq<Line>, turn: nat)
    requires CounterOk(log, turn)
    ensures CounterOk(log, turn + 1) && ToolsBelow(log, turn + 1)
  {
  }

  /** The lines of a turn's action and its markers. */
  lemma ActionFits(cfg: Config, s: Session, ev: Event)
    requires TurnsSound(s) && Fresh(s) && Enabled(cfg, s, ev) && WritesAction(ev)
    ensures var line := Step(cfg, s, ev).log[|s.log|];
      Fits(s.log, LastAction(s.log), line) && LineTurn(line) <= s.mem.value.turn
  {
    hide LastAction, Mirrors, CallsSound, ShowsUse, Accounted, ResultsLogged, TurnsIncrease, LastIsNewest, ToolsBelow, CounterOk;
  }

  lemma ResultFits(cfg: Config, s: Session, ev: Event)
    requires TurnsSound(s) && Fresh(s) && Enabled(cfg, s, ev) && WritesResult(ev)
    ensures var line := Step(cfg, s, ev).log[|s.log|];
      Fits(s.log, LastAction(s.log), line) && LineTurn(line) <= s.mem.value.turn
  {
    hide LastAction, Mirrors, CallsSound, ShowsUse, Accounted, ResultsLogged, TurnsIncrease, LastIsNewest, ToolsBelow, CounterOk;
    ActionCounted(s.log, s.mem.value.turn);
  }

  lemma OtherFits(cfg: Config, s: Session, ev: Event)
    requires Fresh(s) && Enabled(cfg, s, ev) && Writes(ev) && !WritesAction(ev) && !WritesResult(ev)
    ensures var line := Step(cfg, s, ev).log[|s.log|];
      Fits(s.log, LastAction(s.log), line) && LineTurn(line) <= s.mem.value.turn
  {
    hide LastAction, Gate, Reconstruct, ResultsLogged, TurnsIncrease, LastIsNewest, ToolsBelow, CounterOk;
  }

  lemma WriteFits(cfg: Config, s: Session, ev: Event)
    requires TurnsSound(s) && Fresh(s) && Enabled(cfg, s, ev) && Writes(ev)
    ensures var line := Step(cfg, s, ev).log[|s.log|];
      Fits(s.log, LastAction(s.log), line) && LineTurn(line) <= s.mem.value.turn
  {
    hide TurnsSound, Fresh, LastAction, Fits, Gate, Reconstruct;
    if WritesAction(ev) { ActionFits(cfg, s, ev); }
    else if WritesResult(ev) { ResultFits(cfg, s, ev); }
    else { OtherFits(cfg, s, ev); }
  }

  /** A line that fits keeps the log fresh; the phase is left to look at. */
  lemma LineFresh(s: Session, s': Session, line: Line)
    requires Fresh(s) && s'.log == s.log + [line] && s'.calls == s.calls && Fits(s.log, LastAction(s.log), line)
    requires line.Compacted? ==> KeepsSuffix(line.kept, Skeleton(s.log))
    requires Begins(line) ==> s.calls == []
    requires s'.mem.Some? ==>
      var m := s'.mem.value;
      CounterOk(s.log, m.turn) && LineTurn(line) <= m.turn && PhaseFresh(s'.log, m)
    ensures Fresh(s')
  {
    hide LastAction, Skeleton, ResultsLogged, TurnsIncrease, LastIsNewest, ToolsBelow, CounterOk, KeepsSuffix, Fits, CallsKept,
      PhaseFresh;
    FreshLine(s.log, line);
    CallsKeptAppend(s.log, s.calls, line);
    if s'.mem.Some? {
      CounterAppend(s.log, line, s'.mem.value.turn);
    }
  }

  lemma WriteFresh(cfg: Config, s: Session, ev: Event)
    requires TurnsSound(s) && Fresh(s) && Enabled(cfg, s, ev) && Writes(ev)
    ensures Fresh(Step(cfg, s, ev))
  {
    hide TurnsSound, LastAction, Skeleton, Gate, Reconstruct, Fits, ResultsLogged, TurnsIncrease, LastIsNewest, ToolsBelow,
      CounterOk, KeepsSuffix, CallsKept;
    WriteFits(cfg, s, ev);
    var s' := Step(cfg, s, ev);
    var line := s'.log[|s.log|];
    CounterAppend(s.log, line, s.mem.value.turn);
    LineFresh(s, s', line);
  }

  lemma GateFresh(cfg: Config, s: Session, summary: string)
    requires Faithful(cfg, s) && Fresh(s) && Enabled(cfg, s, RunGate(summary))
    ensures Fresh(Step(cfg, s, RunGate(summary)))
  {
    hide Faithful, LastAction, Skeleton, Gate, ResultsLogged, TurnsIncrease, LastIsNewest, ToolsBelow, CounterOk, KeepsSuffix,
      CallsKept;
    var g := Gate(cfg, s.mem.value.transcript, summary);
    if g.Condensed? {
      var line := Compacted(g.summary, g.kept);
      GateKeepsSuffix(cfg, s, summary);
      CounterAppend(s.log, line, s.mem.value.turn);
      LineFresh(s, Step(cfg, s, RunGate(summary)), line);
    }
  }

  /** Beginning, resuming and ending. */
  lemma StartFresh(cfg: Config, s: Session, ev: Event)
    requires TurnsSound(s) && Positive(s) && Fresh(s) && Enabled(cfg, s, ev) && (ev.Begin? || ev.Resume? || ev.End?)
    requires StartsCounted(s.log, ev)
    ensures Fresh(Step(cfg, s, ev))
  {
    hide LastAction, Skeleton, Gate, Reconstruct, ResultsLogged, TurnsIncrease, LastIsNewest, ToolsBelow, CounterOk, TurnsSound,
      Positive, CallsKept;
    var s' := Step(cfg, s, ev);
    if ev.Begin? { NoCallsYet(s); }
    LineFresh(s, s', s'.log[|s.log|]);
  }

  lemma InvokeFresh(cfg: Config, s: Session)
    requires Fresh(s) && Enabled(cfg, s, Invoke)
    ensures Fresh(Step(cfg, s, Invoke))
  {
    hide LastAction, Skeleton, ResultsLogged, TurnsIncrease, LastIsNewest, ToolsBelow, CounterOk;
  }

  /** Calling a tool, starting a turn and crashing. */
  lemma OuterFresh(cfg: Config, s: Session, ev: Event)
    requires Fresh(s) && Enabled(cfg, s, ev) && (ev.NextTurn? || ev.Crash?)
    ensures Fresh(Step(cfg, s, ev))
  {
    hide LastAction, Skeleton, ResultsLogged, TurnsIncrease, LastIsNewest, ToolsBelow, CounterOk, CallsKept;
    if ev.NextTurn? { NextTurnFresh(s.log, s.mem.value.turn); }
  }

  lemma StepFresh(cfg: Config, s: Session, ev: Event)
    requires Faithful(cfg, s) && TurnsSound(s) && Positive(s) && Fresh(s) && Enabled(cfg, s, ev) && StartsCounted(s.log, ev)
    ensures Fresh(Step(cfg, s, ev))
  {
    hide Faithful, TurnsSound, Positive, Fresh, Enabled, Step, StartsCounted;
    if ev.RunGate? { GateFresh(cfg, s, ev.summary); }
    else if ev.Invoke? { InvokeFresh(cfg, s); }
    else if ev.NextTurn? || ev.Crash? { OuterFresh(cfg, s, ev); }
    else if Writes(ev) { WriteFresh(cfg, s, ev); }
    else { StartFresh(cfg, s, ev); }
  }

  lemma {:induction false} RunFresh(cfg: Config, evs: seq<Event>)
    requires Counted(cfg, evs)
    ensures Fresh(Run(cfg, evs))
  {
    if evs != [] {
      hide Enabled, Step, TurnsSound, Faithful, Positive, Fresh, StartsCounted;
      var init, ev := evs[..|evs| - 1], evs[|evs| - 1];
      RunFresh(cfg, init);
      RunTurnsSound(cfg, init);
      RunFaithful(cfg, init);
      RunPositive(cfg, init);
      if Enabled(cfg, Run(cfg, init), ev) {
        StepFresh(cfg, Run(cfg, init), ev);
      }
    } else {
      EmptyFresh();
    }
  }

  lemma EmptyFresh()
    ensures Fresh(EMPTY)
  {
  }

  lemma NewestReport(s: Session, a: Action)
    requires TurnsSound(s) && LastAction(s.log) == Some(a) && LastIsNewest(s.log, a) && Reconstruct(s.log).open.Some?
    ensures var open := Reconstruct(s.log).open.value;
      && open.turn == a.turn && open.tool == a.tool && !a.answered
      && (open.disposition == ToolOutcomeUnknown <==> a.marked)
  {
    hide TurnsSound, LastAction, Reconstruct, LastIsNewest;
    OpenMeaning(s);
    NoOldMarkers(s.log, a);
  }

  lemma UncalledTurn(s: Session, a: Action)
    requires TurnsSound(s) && LastAction(s.log) == Some(a) && LastIsNewest(s.log, a) && !a.marked
    ensures forall i :: 0 <= i < |s.calls| ==> s.calls[i].turn != a.turn
  {
    hide LastAction, LastIsNewest, Mirrors, Accounted, PhaseSound, ShowsUse, Answered, Abandoned;
    forall i | 0 <= i < |s.calls|
      ensures s.calls[i].turn != a.turn
    {
      assert CallSound(s.log, LastAction(s.log), s.calls[i]);
      CallIsOlder(s.log, a, s.calls[i]);
    }
  }

  /** With sufficient counters the report is true of the turn number itself: `ToolNotStarted` means no call was
      ever made under it, `ToolOutcomeUnknown` means it was marked started, and no result has it. */
  lemma OpenTurnIsHonest(cfg: Config, evs: seq<Event>)
    requires Counted(cfg, evs)
    ensures var s := Run(cfg, evs);
      var open := Reconstruct(s.log).open;
      open.Some? ==>
        && (open.value.disposition == ToolOutcomeUnknown <==> HasStarted(s.log, open.value.turn, open.value.tool))
        && (open.value.disposition == ToolNotStarted ==>
              forall i :: 0 <= i < |s.calls| ==> s.calls[i].turn != open.value.turn)
        && forall i :: 0 <= i < |s.log| ==> !IsResult(s.log[i], open.value.turn)
  {
    hide Run, TurnsSound, LastAction, Reconstruct, LastIsNewest, CounterOk, TurnsIncrease, ResultsLogged, PhaseFresh, Skeleton, CallsKept;
    RunTurnsSound(cfg, evs);
    RunFresh(cfg, evs);
    ReportExactly(cfg, evs);
    var s := Run(cfg, evs);
    if Reconstruct(s.log).open.Some? {
      var a := LastAction(s.log).value;
      NewestReport(s, a);
      NoOldMarkers(s.log, a);
      LastActionMeaning(s.log);
      if !a.marked {
        UncalledTurn(s, a);
      }
    }
  }

  lemma NoOldMarkers(log: seq<Line>, a: Action)
    requires LastIsNewest(log, a)
    ensures !HasStarted(log[..a.at], a.turn, a.tool) && !HasFinished(log[..a.at], a.turn, a.tool)
    ensures forall i :: 0 <= i < a.at ==> !IsResult(log[i], a.turn)
    ensures HasStarted(log, a.turn, a.tool) <==> Started(a.turn, a.tool) in log[a.at..]
  {
    SplitMarkers(log, a.at, Started(a.turn, a.tool));
    assert forall i :: 0 <= i < a.at ==> log[..a.at][i] == log[i];
  }

  lemma CallIsOlder(log: seq<Line>, a: Action, c: Call)
    requires LastIsNewest(log, a) && c.at <= a.at && Started(c.turn, c.id.tool) in log[..c.at]
    ensures c.turn < a.turn
  {
    var k :| 0 <= k < |log[..c.at]| && log[..c.at][k] == Started(c.turn, c.id.tool);
    assert log[..a.at][k] == Started(c.turn, c.id.tool);
  }

  /** With sufficient counters a lost call is always reported as unknown. */
  lemma LostCallIsUnknown(cfg: Config, evs: seq<Event>, i: nat)
    requires Counted(cfg, evs)
    requires var s := Run(cfg, evs); s.mem.None? && i < |s.calls| && !Answered(s.log, s.calls[i])
    ensures var s := Run(cfg, evs);
      Reconstruct(s.log).open == Some(OpenTurn(s.calls[i].turn, s.calls[i].id.tool, ToolOutcomeUnknown))
  {
    RunFresh(cfg, evs);
    LostCallIsReported(cfg, evs, i);
    hide Run, Reconstruct, LastAction, Answered, Abandoned;
    ReportExactly(cfg, evs);
    NoOldMarkers(Run(cfg, evs).log, LastAction(Run(cfg, evs).log).value);
  }

  /** With sufficient counters every transcript, rebuilt or in memory, has one result per turn in turn order, so
      microcompaction goes by the order of results throughout. */
  lemma ResultsInTurnOrder(cfg: Config, evs: seq<Event>)
    requires Counted(cfg, evs)
    ensures var s := Run(cfg, evs);
      && TurnsIncrease(Reconstruct(s.log).transcript)
      && (s.mem.Some? ==>
            && TurnsIncrease(s.mem.value.transcript)
            && (cfg.keepLast >= 1 ==>
                  forall i :: 0 <= i < |s.mem.value.transcript| && s.mem.value.transcript[i].ToolResult? ==>
                    InOrder(cfg, s.mem.value.transcript, i)))
  {
    RunFresh(cfg, evs);
    RunFaithful(cfg, evs);
    hide Run, Replay, MetaTask, LastAction, FindOpen, CommittedEffects, MetaSound, SameUpToMicro, Alike;
    var s := Run(cfg, evs);
    var r := Restored(s.log);
    ReplaysAlike(s.log, "", MetaTask(s.log));
    AlikeOrder(Skeleton(s.log), r);
    if s.mem.Some? {
      MemoryEnds(cfg, s);
      var tr := s.mem.value.transcript;
      OrderOfEnd(r, |r| - |tr|);
      AlikeOrder(r[|r| - |tr|..], tr);
      forall i | cfg.keepLast >= 1 && 0 <= i < |tr| && tr[i].ToolResult?
        ensures InOrder(cfg, tr, i)
      {
        TurnsGiveOrder(cfg, tr, i);
      }
    }
  }

  lemma AlikeOrder(a: seq<Entry>, b: seq<Entry>)
    requires Alike(a, b) && TurnsIncrease(a)
    ensures TurnsIncrease(b)
  {
  }

  lemma OrderOfEnd(tr: seq<Entry>, from: nat)
    requires TurnsIncrease(tr) && from <= |tr|
    ensures TurnsIncrease(tr[from..])
  {
  }
}
