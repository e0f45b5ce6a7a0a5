/** Where the session guarantees end: which effects survive a compaction, and the runs in which a
    guarantee does not hold. */
module AgentLoopLimits {
  import opened Common
  import opened Compaction
  import opened Rollout
  import opened AgentLoop
  import opened AgentLoopRecovery
  import opened AgentLoopEffects
  import opened AgentLoopTurns
  import opened AgentLoopReports
  import opened AgentLoopCounters
  import opened AgentLoopSuccess

  /** An effect is remembered across a compaction exactly when its ledger line was written or a success of it
      is among the kept entries: a crash between the result and its ledger line leaves the effect protected only until
      the result is compacted away. */
  lemma SurvivesCompaction(log: seq<Line>, summary: string, kept: seq<Entry>, id: ActionId)
    ensures id in CommittedEffects(log + [Compacted(summary, kept)]) <==>
      || (exists k :: 0 <= k < |log| && log[k].EffectCommitted? && IsSuccess(log[k].entry, id))
      || exists i :: 0 <= i < |kept| && IsSuccess(kept[i], id)
  {
    hide Replay, Ledger, MetaTask, AddResults, IsSuccess;
    var line := Compacted(summary, kept);
    var log' := log + [line];
    LedgerAppend(log, line);
    LedgerExactly(log, id);
    ReplayAppend(log, line, MetaTask(log'));
    ResultsExactly(Ledger(log'), Baseline(MetaTask(log'), summary, kept), id);
    BaselineResults(MetaTask(log'), summary, kept, id);
  }

  lemma BaselineResults(task: string, summary: string, kept: seq<Entry>, id: ActionId)
    ensures HasSuccess(Baseline(task, summary, kept), id) <==> HasSuccess(kept, id)
  {
    var base := Baseline(task, summary, kept);
    var shift := |base| - |kept|;
    assert base[shift..] == kept;
    assert forall i :: 0 <= i < |kept| ==> base[shift + i] == kept[i];
    assert forall i :: 0 <= i < shift ==> !IsSuccess(base[i], id);
    assert forall i :: shift <= i < |base| ==> base[i] == kept[i - shift];
  }

  // ----- runs, event by event -----

  lemma RunMore(cfg: Config, evs: seq<Event>, ev: Event)
    ensures Run(cfg, evs + [ev]) == if Enabled(cfg, Run(cfg, evs), ev) then Step(cfg, Run(cfg, evs), ev) else Run(cfg, evs)
  {
    assert (evs + [ev])[..|evs|] == evs;
  }

  /** A turn that logs, starts and calls a tool. */
  function CallEvents(id: ActionId): seq<Event> {
    [NextTurn, RunGate("h"), ChooseTool(id.tool, id.args), StartTool(id), Invoke]
  }

  function AfterCall(s: Session, m: Memory, id: ActionId): Session {
    var turn := m.turn + 1;
    var use := UseTool(turn, id.tool, id.args);
    Session(s.log + [Item(use), Started(turn, id.tool)],
            Some(Memory(m.transcript + [use], m.effects, turn, Invoked(id))),
            s.calls + [Call(turn, id, |s.log| + 2)])
  }

  lemma RunCall(cfg: Config, evs: seq<Event>, id: ActionId)
    requires var s := Run(cfg, evs);
      && s.mem.Some? && s.mem.value.phase.Between? && cfg.keepLast >= 1 && Tokens(cfg, s.mem.value.transcript) <= cfg.soft
      && !(Effectful(id) && id in s.mem.value.effects)
    ensures Run(cfg, evs + CallEvents(id)) == AfterCall(Run(cfg, evs), Run(cfg, evs).mem.value, id)
  {
    hide Run, Tokens, Micro, Reconstruct;
    var s := Run(cfg, evs);
    var e1 := evs + [NextTurn];
    var e2 := e1 + [RunGate("h")];
    var e3 := e2 + [ChooseTool(id.tool, id.args)];
    var e4 := e3 + [StartTool(id)];
    RunMore(cfg, evs, NextTurn);
    RunMore(cfg, e1, RunGate("h"));
    RunMore(cfg, e2, ChooseTool(id.tool, id.args));
    RunMore(cfg, e3, StartTool(id));
    RunMore(cfg, e4, Invoke);
    assert evs + CallEvents(id) == e4 + [Invoke];
    var turn := s.mem.value.turn + 1;
    assert Run(cfg, e4 + [Invoke]).log == s.log + [Item(UseTool(turn, id.tool, id.args)), Started(turn, id.tool)];
  }

  /** A session that begins afresh, up to its first turn boundary. */
  lemma RunBegin(cfg: Config, evs: seq<Event>)
    requires Run(cfg, evs).mem.None?
    ensures var s := Run(cfg, evs);
      Run(cfg, evs + [Begin, WriteMeta]) ==
        Session(s.log + [Item(Task(cfg.task)), Meta(cfg.task)], Some(Memory([Task(cfg.task)], map[], 0, Between)), s.calls)
  {
    hide Run, Gate, Reconstruct;
    var log := Run(cfg, evs).log;
    RunMore(cfg, evs, Begin);
    RunMore(cfg, evs + [Begin], WriteMeta);
    assert evs + [Begin] + [WriteMeta] == evs + [Begin, WriteMeta];
    assert log + [Item(Task(cfg.task))] + [Meta(cfg.task)] == log + [Item(Task(cfg.task)), Meta(cfg.task)];
  }

  lemma RunStart(cfg: Config)
    ensures Run(cfg, [Begin, WriteMeta]) ==
      Session([Item(Task(cfg.task)), Meta(cfg.task)], Some(Memory([Task(cfg.task)], map[], 0, Between)), [])
  {
    hide Run;
    EmptyRun(cfg);
    RunBegin(cfg, []);
    assert [] + [Begin, WriteMeta] == [Begin, WriteMeta];
  }

  lemma EmptyRun(cfg: Config)
    ensures Run(cfg, []) == EMPTY
  {
  }

  /** A resume that finds the last action answered starts at a turn boundary. */
  lemma RunResume(cfg: Config, evs: seq<Event>, prior: nat)
    requires var s := Run(cfg, evs);
      s.mem.None? && s.log != [] && (LastAction(s.log).Some? ==> LastAction(s.log).value.answered)
    ensures var s := Run(cfg, evs);
      Run(cfg, evs + [Resume(prior)]) ==
        Session(s.log + [Resumed(prior)],
                Some(Memory(Restored(s.log), AddResults(CommittedEffects(s.log), Restored(s.log)), prior, Between)), s.calls)
  {
    RunTurnsSound(cfg, evs);
    RunMore(cfg, evs, Resume(prior));
    hide Run, LastAction, Replay, MetaTask, AddResults, CommittedEffects, FindOpen, CallsSound, Accounted, ShowsUse;
    OpenIsAction(Run(cfg, evs).log);
  }

  /** A sample configuration whose token estimate is ten for the entries of one kind and one for all others. */
  function Sample(big: Entry -> bool): Config {
    Config("task", 1, 9, 9, (e: Entry) => if big(e) then 10 else 1, (e: Entry) => "")
  }

  function ReadCall(): ActionId { ActionId("t", "builtin", None, Read, "") }

  lemma {:induction false} SmallTokens(big: Entry -> bool, tr: seq<Entry>)
    requires forall i :: 0 <= i < |tr| ==> !big(tr[i])
    ensures Tokens(Sample(big), tr) == |tr|
  {
    if tr != [] {
      SmallTokens(big, tr[..|tr| - 1]);
    }
  }

  /** The log at the first crash, and its last action. */
  function FirstLog(id: ActionId): seq<Line> {
    [Item(Task("task")), Meta("task"), Item(UseTool(1, id.tool, id.args)), Started(1, id.tool), Item(FirstResult(id))]
  }

  function FirstResult(id: ActionId): Entry { ToolResult(1, id.tool, true, "", false, Some(id), None, None, false) }

  lemma FirstLogFacts(id: ActionId)
    ensures LastAction(FirstLog(id)) == Some(Action(1, id.tool, 2, true, true, false, true))
    ensures Restored(FirstLog(id)) == [Task("task"), UseTool(1, id.tool, id.args), FirstResult(id)]
  {
    var log := FirstLog(id);
    assert log[..1] == [] + [log[0]] && log[..2] == log[..1] + [log[1]] && log[..3] == log[..2] + [log[2]]
      && log[..4] == log[..3] + [log[3]] && log == log[..4] + [log[4]];
    LastActionAppend([], log[0]);
    LastActionAppend(log[..1], log[1]);
    LastActionAppend(log[..2], log[2]);
    LastActionAppend(log[..3], log[3]);
    LastActionAppend(log[..4], log[4]);
    RestoredAppend([], log[0]);
    RestoredAppend(log[..1], log[1]);
    RestoredAppend(log[..2], log[2]);
    RestoredAppend(log[..3], log[3]);
    RestoredAppend(log[..4], log[4]);
  }

  /** A first turn whose tool returns successfully. */
  lemma RunFirst(cfg: Config, id: ActionId)
    requires cfg.task == "task" && cfg.keepLast >= 1 && Tokens(cfg, [Task("task")]) <= cfg.soft
    ensures var s := Run(cfg, [Begin, WriteMeta] + CallEvents(id) + [Return(true, "", false, None, false)]);
      && s.log == FirstLog(id) && s.calls == [Call(1, id, 4)]
      && s.mem == Some(Memory([Task("task"), UseTool(1, id.tool, id.args), FirstResult(id)], map[], 1,
                              if Effectful(id) then CommitDue(id, FirstResult(id)) else Closing(id.tool)))
  {
    hide Run, Tokens, Reconstruct, Gate;
    RunStart(cfg);
    RunCall(cfg, [Begin, WriteMeta], id);
    RunMore(cfg, [Begin, WriteMeta] + CallEvents(id), Return(true, "", false, None, false));
    var use := UseTool(1, id.tool, id.args);
    assert [Task("task")] + [use] + [FirstResult(id)] == [Task("task"), use, FirstResult(id)];
  }

  lemma {:induction false} DrivenFurther(c: Caller, cfg: Config, evs: seq<Event>, more: seq<Event>)
    requires Driven(c, cfg, evs) && forall i :: 0 <= i < |more| ==> !more[i].Resume?
    ensures Driven(c, cfg, evs + more)
  {
    if more != [] {
      var n := |more| - 1;
      DrivenFurther(c, cfg, evs, more[..n]);
      assert (evs + more)[..|evs + more| - 1] == evs + more[..n];
    } else {
      assert evs + more == evs;
    }
  }

  lemma DrivenResume(c: Caller, cfg: Config, evs: seq<Event>)
    requires Driven(c, cfg, evs)
    ensures Driven(c, cfg, evs + [Resume(Counter(c, Run(cfg, evs).log))])
  {
    assert (evs + [Resume(Counter(c, Run(cfg, evs).log))])[..|evs|] == evs;
  }

  /** The tool runs and finishes, and the process dies before the turn is recorded. */
  function BeforeReuse(): seq<Event> {
    [Begin, WriteMeta] + CallEvents(ReadCall()) + [Return(true, "", false, None, false)] + [FinishTool] + [Crash]
  }

  /** The resumed session calls the tool again under the number its caller's counter leaves free, and dies. */
  function ReusedNumber(): seq<Event> { SecondCall() + [Crash] }

  function SecondCall(): seq<Event> { BeforeReuse() + [Resume(0)] + CallEvents(ReadCall()) }

  lemma RunBeforeReuse(cfg: Config)
    requires cfg == Sample((e: Entry) => false)
    ensures var s := Run(cfg, BeforeReuse());
      s.log == FirstLog(ReadCall()) + [Finished(1, "t")] && s.mem.None? && s.calls == [Call(1, ReadCall(), 4)]
  {
    hide Run, Gate, Reconstruct;
    var id := ReadCall();
    SmallTokens((e: Entry) => false, [Task("task")]);
    RunFirst(cfg, id);
    var e1 := [Begin, WriteMeta] + CallEvents(id) + [Return(true, "", false, None, false)];
    RunMore(cfg, e1, FinishTool);
    RunMore(cfg, e1 + [FinishTool], Crash);
  }

  function TwoActions(): seq<Entry> {
    [Task("task"), UseTool(1, "t", ""), FirstResult(ReadCall()), UseTool(1, "t", "")]
  }

  lemma RunReuse(cfg: Config)
    requires cfg == Sample((e: Entry) => false)
    ensures var s := Run(cfg, SecondCall());
      && s.log == FirstLog(ReadCall()) + [Finished(1, "t"), Resumed(0)] + [Item(UseTool(1, "t", ""))] + [Started(1, "t")]
      && s.calls == [Call(1, ReadCall(), 4), Call(1, ReadCall(), 9)]
      && s.mem.Some? && s.mem.value.phase == Invoked(ReadCall()) && s.mem.value.turn == 1
      && s.mem.value.transcript == TwoActions()
  {
    hide Run, Gate, Reconstruct, LastAction, Replay, MetaTask, CommittedEffects, AddResults, Tokens;
    var id, e3 := ReadCall(), BeforeReuse();
    var log, e4 := FirstLog(id) + [Finished(1, "t")], e3 + [Resume(0)];
    RunBeforeReuse(cfg);
    FirstLogFacts(id);
    LastActionAppend(FirstLog(id), Finished(1, "t"));
    RestoredAppend(FirstLog(id), Finished(1, "t"));
    RunResume(cfg, e3, 0);
    SmallTokens((e: Entry) => false, Restored(log));
    RunCall(cfg, e4, id);
    assert log + [Resumed(0)] == FirstLog(id) + [Finished(1, "t"), Resumed(0)];
  }

  lemma {:induction false} NothingRecorded(c: Caller, log: seq<Line>)
    requires forall i :: 0 <= i < |log| ==> !log[i].TurnRecord?
    ensures Counter(c, log) == 0
  {
    if log != [] {
      NothingRecorded(c, log[..|log| - 1]);
    }
  }

  lemma ReuseIsDriven(c: Caller, cfg: Config, last: Event)
    requires cfg == Sample((e: Entry) => false) && !last.Resume?
    ensures Driven(c, cfg, SecondCall() + [last])
  {
    hide Run, Driven, Counter;
    RunBeforeReuse(cfg);
    DrivenNothing(c, cfg);
    DrivenFurther(c, cfg, [], BeforeReuse());
    assert [] + BeforeReuse() == BeforeReuse();
    NothingRecorded(c, Run(cfg, BeforeReuse()).log);
    DrivenResume(c, cfg, BeforeReuse());
    var rest := CallEvents(ReadCall()) + [last];
    DrivenFurther(c, cfg, BeforeReuse() + [Resume(0)], rest);
    assert BeforeReuse() + [Resume(0)] + rest == SecondCall() + [last];
  }

  lemma DrivenNothing(c: Caller, cfg: Config)
    ensures Driven(c, cfg, [])
  {
  }

  /** The report is wrong in the dangerous direction: it says the tool did not start although it was called, in a
      run that either caller makes with its own counter. */
  lemma ReusedNumberMisleads()
    ensures var cfg := Sample((e: Entry) => false);
      var s := Run(cfg, ReusedNumber());
      && Driven(HighestRecord, cfg, ReusedNumber()) && Driven(RecordCount, cfg, ReusedNumber())
      && Reconstruct(s.log).open == Some(OpenTurn(1, "t", ToolNotStarted))
      && |s.calls| == 2 && s.calls[1].turn == 1 && LastAction(s.log).Some? && LastAction(s.log).value.at < s.calls[1].at
  {
    hide Run, Driven, Reconstruct, LastAction;
    var cfg := Sample((e: Entry) => false);
    ReuseIsDriven(HighestRecord, cfg, Crash);
    ReuseIsDriven(RecordCount, cfg, Crash);
    RunReuse(cfg);
    RunMore(cfg, SecondCall(), Crash);
    var older, use := FirstLog(ReadCall()) + [Finished(1, "t"), Resumed(0)], Item(UseTool(1, "t", ""));
    assert older[5] == Finished(1, "t");
    NewActionReport(older, 1, "t", "");
    LastActionAppend(older, use);
    LastActionAppend(older + [use], Started(1, "t"));
  }

  // ----- an old result that is kept -----

  function SecondReturn(): seq<Event> { SecondCall() + [Return(true, "", false, None, false)] }

  /** The second call of that run returns: two results now carry the same number, and microcompaction, set to keep one
      payload, leaves the older one as it is. */
  lemma ReusedNumberKeepsOld()
    ensures var cfg := Sample((e: Entry) => false);
      var s := Run(cfg, SecondReturn());
      && Driven(HighestRecord, cfg, SecondReturn()) && Driven(RecordCount, cfg, SecondReturn())
      && s.mem.Some? && s.mem.value.transcript == TwoActions() + [FirstResult(ReadCall())]
      && var tr := s.mem.value.transcript;
         && !tr[2].truncated && |Results(tr[3..])| >= cfg.keepLast
         && Micro(cfg, tr)[2] == tr[2] && !InOrder(cfg, tr, 2)
  {
    hide Run, Driven, Gate, Reconstruct;
    var cfg := Sample((e: Entry) => false);
    var ret := Return(true, "", false, None, false);
    ReuseIsDriven(HighestRecord, cfg, ret);
    ReuseIsDriven(RecordCount, cfg, ret);
    RunReuse(cfg);
    RunMore(cfg, SecondCall(), ret);
    TwoResults(cfg);
  }

  lemma TwoResults(cfg: Config)
    requires cfg.keepLast == 1
    ensures var tr := TwoActions() + [FirstResult(ReadCall())];
      |Results(tr[3..])| == 1 && Micro(cfg, tr)[2] == tr[2] && !InOrder(cfg, tr, 2)
  {
    hide Results;
    var e, use := FirstResult(ReadCall()), UseTool(1, "t", "");
    var tr := TwoActions() + [e];
    assert tr[3..] == [use, e] && tr == [Task("task"), use, e] + [use, e];
    ResultsOfPair(use, e);
    ResultsOfPair(Task("task"), use);
    ResultsOfOne(e);
    ResultsConcat([Task("task"), use], [e]);
    assert [Task("task"), use] + [e] == [Task("task"), use, e];
    ResultsConcat([Task("task"), use, e], [use, e]);
  }

  lemma ResultsOfOne(e: Entry)
    ensures Results([e]) == if e.ToolResult? then [e] else []
  {
    assert [e][..0] == [];
  }

  lemma ResultsOfPair(a: Entry, b: Entry)
    requires !a.ToolResult?
    ensures Results([a, b]) == if b.ToolResult? then [b] else []
  {
    ResultsOfOne(a);
    assert [a, b][..1] == [a];
  }

  // ----- a gate that drops the last entry -----

  lemma OneBig(big: Entry -> bool, front: seq<Entry>, last: Entry)
    requires (forall i :: 0 <= i < |front| ==> !big(front[i])) && big(last)
    ensures Tokens(Sample(big), front) == |front| && Tokens(Sample(big), front + [last]) == |front| + 10
  {
    assert (front + [last])[..|front|] == front;
    SmallTokens(big, front);
  }

  lemma SampleFull(big: Entry -> bool, front: seq<Entry>, last: Entry)
    requires !big(Task("task")) && !big(Handoff("h")) && big(last)
    ensures FullTranscript(Sample(big), front + [last], "h") == [Task("task"), Handoff("h")]
  {
    hide Tokens;
    var cfg, short := Sample(big), [Task("task"), Handoff("h")];
    OneBig(big, short, last);
    var base := short + [last];
    assert LastEntries(front + [last], 1) == [last] && HandoffBase(cfg, front + [last], "h") == base;
    assert base[..2] + base[3..] == short;
    assert DropOldest(cfg, short) == short;
  }

  /** One big entry is over the limit, so a full compaction drops it. */
  lemma SampleGate(big: Entry -> bool, front: seq<Entry>, last: Entry)
    requires !big(Task("task")) && !big(Handoff("h")) && big(last)
    requires (forall i :: 0 <= i < |front| ==> !big(front[i])) && Results(front) == []
    ensures Gate(Sample(big), front + [last], "h") == Condensed([Task("task"), Handoff("h")], "h", [], false)
  {
    hide Tokens, FullTranscript, Micro, Results, FirstHandoff, Gate;
    OneBig(big, front, last);
    OneBig(big, [Task("task"), Handoff("h")], last);
    SampleFull(big, front, last);
    SecondIsHandoff([Task("task"), Handoff("h")]);
    FewResults(Sample(big), front, last);
    assert [Task("task"), Handoff("h")][2..] == [];
    GateWhenFull(Sample(big), front + [last], "h");
  }

  lemma GateWhenFull(cfg: Config, tr: seq<Entry>, summary: string)
    requires cfg.keepLast >= 1 && Micro(cfg, tr) == tr && Tokens(cfg, tr) > cfg.soft && Tokens(cfg, tr) > cfg.hard
    requires var full := FullTranscript(cfg, tr, summary); |full| >= 2 && FirstHandoff(full).Some?
    ensures var full := FullTranscript(cfg, tr, summary);
      Gate(cfg, tr, summary) == Condensed(full, FirstHandoff(full).value, full[2..], Tokens(cfg, full) > cfg.hard)
  {
    hide Micro, Tokens, FullTranscript, FirstHandoff;
  }

  lemma FewResults(cfg: Config, front: seq<Entry>, last: Entry)
    requires cfg.keepLast >= 1 && Results(front) == []
    ensures Micro(cfg, front + [last]) == front + [last]
  {
    assert (front + [last])[..|front|] == front;
  }

  // ----- an effect that runs twice -----

  predicate BigResults(e: Entry) { e.ToolResult? }

  function EffectCall(): ActionId { ActionId("t", "builtin", None, Execute, "") }

  /** The effect succeeds and its result is logged, the process dies before the ledger line, and the next
      session compacts the result away and dies in turn. */
  function BeforeRepeat(): seq<Event> {
    [Begin, WriteMeta] + CallEvents(EffectCall()) + [Return(true, "", false, None, false)] + [Crash]
    + [Resume(1)] + [NextTurn] + [RunGate("h")] + [Crash]
  }

  function RepeatLog(): seq<Line> { FirstLog(EffectCall()) + [Resumed(1)] + [Compacted("h", [])] }

  lemma RunBeforeRepeat(cfg: Config)
    requires cfg == Sample(BigResults)
    ensures var s := Run(cfg, BeforeRepeat());
      s.log == RepeatLog() && s.mem.None? && s.calls == [Call(1, EffectCall(), 4)]
  {
    hide Run, Gate, Reconstruct, LastAction, Replay, MetaTask, CommittedEffects, AddResults, Tokens;
    var id := EffectCall();
    SmallTokens(BigResults, [Task("task")]);
    RunFirst(cfg, id);
    var e1 := [Begin, WriteMeta] + CallEvents(id) + [Return(true, "", false, None, false)];
    var e2 := e1 + [Crash];
    var e3 := e2 + [Resume(1)];
    var e4 := e3 + [NextTurn];
    RunMore(cfg, e1, Crash);
    FirstLogFacts(id);
    RunResume(cfg, e2, 1);
    RunMore(cfg, e3, NextTurn);
    var front := [Task("task"), UseTool(1, id.tool, id.args)];
    assert Results(front) == [] by { assert front[..1] == [Task("task")] && [Task("task")][..0] == []; }
    assert front + [FirstResult(id)] == [Task("task"), UseTool(1, id.tool, id.args), FirstResult(id)];
    SampleGate(BigResults, front, FirstResult(id));
    RunMore(cfg, e4, RunGate("h"));
    RunMore(cfg, e4 + [RunGate("h")], Crash);
  }

  lemma RepeatFacts()
    ensures LastAction(RepeatLog()) == Some(Action(1, "t", 2, true, true, false, true))
    ensures Restored(RepeatLog()) == [Task("task"), Handoff("h")]
    ensures EffectCall() !in AddResults(CommittedEffects(RepeatLog()), Restored(RepeatLog()))
  {
    hide LastAction, Replay, AddResults, Ledger;
    var id, log := EffectCall(), FirstLog(EffectCall());
    FirstLogFacts(id);
    LastActionAppend(log, Resumed(1));
    LastActionAppend(log + [Resumed(1)], Compacted("h", []));
    RestoredAppend(log, Resumed(1));
    RestoredAppend(log + [Resumed(1)], Compacted("h", []));
    MetaTaskAppend(log, Resumed(1));
    assert MetaTask(log) == "task" by { assert log[1..][0] == Meta("task"); }
    SurvivesCompaction(log + [Resumed(1)], "h", [], id);
    ResultsExactly(CommittedEffects(RepeatLog()), Restored(RepeatLog()), id);
  }

  /** The window before the ledger line: an effect whose success is in the log is called a second time. */
  lemma EffectRunsTwice()
    ensures var cfg, evs := Sample(BigResults), BeforeRepeat() + [Resume(2)] + CallEvents(EffectCall());
      var s := Run(cfg, evs);
      && |s.log| > 4 && s.log[4] == Item(FirstResult(EffectCall())) && FirstResult(EffectCall()).ok && Effectful(EffectCall())
      && s.calls == [Call(1, EffectCall(), 4), Call(3, EffectCall(), |s.log|)]
  {
    hide Run, LastAction, Replay, MetaTask, CommittedEffects, AddResults, Tokens;
    var cfg := Sample(BigResults);
    RunBeforeRepeat(cfg);
    RepeatFacts();
    RunResume(cfg, BeforeRepeat(), 2);
    SmallTokens(BigResults, [Task("task"), Handoff("h")]);
    RunCall(cfg, BeforeRepeat() + [Resume(2)], EffectCall());
  }

  // ----- an effect in the ledger that runs again -----

  /** After any run that is over, a fresh start on its log can call any action in its first turn, committed or not. */
  lemma FreshStartCallsAnything(cfg: Config, evs: seq<Event>, id: ActionId)
    requires Run(cfg, evs).mem.None? && cfg.keepLast >= 1 && Tokens(cfg, [Task(cfg.task)]) <= cfg.soft
    ensures var s, s' := Run(cfg, evs), Run(cfg, evs + [Begin, WriteMeta] + CallEvents(id));
      s'.calls == s.calls + [Call(1, id, |s'.log|)] && s.log <= s'.log && KnownFrom(s'.log) == |s.log|
  {
    hide Run, Tokens;
    RunBegin(cfg, evs);
    RunCall(cfg, evs + [Begin, WriteMeta], id);
    KnownFromFresh(Run(cfg, evs).log, Item(Task(cfg.task)), Meta(cfg.task), Item(UseTool(1, id.tool, id.args)), Started(1, id.tool));
  }

  lemma KnownFromFresh(log: seq<Line>, begin: Line, a: Line, b: Line, c: Line)
    requires Begins(begin) && !Starts(a) && !Starts(b) && !Starts(c)
    ensures KnownFrom(log + [begin, a] + [b, c]) == |log|
  {
    hide KnownFrom;
    KnownFromAppend(log, begin);
    KnownFromAppend(log + [begin], a);
    KnownFromAppend(log + [begin] + [a], b);
    KnownFromAppend(log + [begin] + [a] + [b], c);
    assert log + [begin] + [a] + [b] + [c] == log + [begin, a] + [b, c];
  }

  /** The effect succeeds, its ledger line is written, and the session ends. */
  function CommittedRun(): seq<Event> {
    [Begin, WriteMeta] + CallEvents(EffectCall()) + [Return(true, "", false, None, false)] + [Commit] + [End]
  }

  function CommittedLog(): seq<Line> { FirstLog(EffectCall()) + [EffectCommitted(FirstResult(EffectCall()))] + [SessionEnd] }

  lemma RunCommitted(cfg: Config)
    requires cfg == Sample(BigResults)
    ensures var s := Run(cfg, CommittedRun());
      s.log == CommittedLog() && s.mem.None? && s.calls == [Call(1, EffectCall(), 4)]
  {
    hide Run, Gate, Reconstruct, Tokens;
    SmallTokens(BigResults, [Task("task")]);
    RunFirst(cfg, EffectCall());
    var e1 := [Begin, WriteMeta] + CallEvents(EffectCall()) + [Return(true, "", false, None, false)];
    RunMore(cfg, e1, Commit);
    RunMore(cfg, e1 + [Commit], End);
  }

  /** A fresh start on that log, which calls the effect in its first turn. */
  function FreshRun(): seq<Event> { CommittedRun() + [Begin, WriteMeta] + CallEvents(EffectCall()) }

  function FreshLog(): seq<Line> {
    CommittedLog() + [Item(Task("task"))] + [Meta("task")] + [Item(UseTool(1, "t", ""))] + [Started(1, "t")]
  }

  lemma RunAfresh(cfg: Config)
    requires cfg == Sample(BigResults)
    ensures var s := Run(cfg, FreshRun());
      s.log == FreshLog() && s.mem.Some? && s.calls == [Call(1, EffectCall(), 4), Call(1, EffectCall(), |FreshLog()|)]
  {
    hide Run, Tokens, Reconstruct, Gate;
    RunCommitted(cfg);
    RunBegin(cfg, CommittedRun());
    SmallTokens(BigResults, [Task("task")]);
    RunCall(cfg, CommittedRun() + [Begin, WriteMeta], EffectCall());
    var ended, begun := CommittedLog(), [Item(Task("task")), Meta("task")];
    assert ended + begun + [Item(UseTool(1, "t", "")), Started(1, "t")] == FreshLog();
  }

  lemma FreshMarks()
    ensures StartedOver(FreshLog()) && !CompactedSinceStart(FreshLog())
  {
    hide StartedOver, CompactedSinceStart;
    var log1 := CommittedLog() + [Item(Task("task"))];
    var log2 := log1 + [Meta("task")];
    MarksAppend(CommittedLog(), Item(Task("task")));
    MarksAppend(log1, Meta("task"));
    MarksAppend(log2, Item(UseTool(1, "t", "")));
    MarksAppend(log2 + [Item(UseTool(1, "t", ""))], Started(1, "t"));
  }

  lemma FreshLines()
    ensures |FreshLog()| > 6 && FreshLog()[5] == EffectCommitted(FirstResult(EffectCall())) && FreshLog()[6] == SessionEnd
  {
  }

  /** A log whose session has ended is not resumed; a session that begins afresh on it knows nothing of its ledger and
      calls the committed effect again, and the transcript that log rebuilds is not its own. */
  lemma FreshStartRepeats()
    ensures var s := Run(Sample(BigResults), FreshRun());
      && |s.log| > 6 && s.log[5] == EffectCommitted(FirstResult(EffectCall())) && s.log[6] == SessionEnd
      && s.calls == [Call(1, EffectCall(), 4), Call(1, EffectCall(), |s.log|)] && Effectful(EffectCall())
      && s.mem.Some? && !SameUpToMicro(Reconstruct(s.log).transcript, s.mem.value.transcript)
  {
    hide Run, Reconstruct, SameUpToMicro, CompactedSinceStart, StartedOver, FreshLog, FreshRun, MetaTask, HasMeta;
    RunAfresh(Sample(BigResults));
    FreshMarks();
    FreshLines();
    RecoveryFidelity(Sample(BigResults), FreshRun());
  }

  // ----- a task that is lost -----

  predicate BigContext(e: Entry) { e.Context? }

  /** The process dies before the meta line, and the resumed session compacts. */
  function LostTaskRun(): seq<Event> {
    [Begin] + [AddContext("c", "d")] + [Crash] + [Resume(0)] + [NextTurn] + [RunGate("h")]
  }

  lemma RunBeforeLoss(cfg: Config)
    requires cfg == Sample(BigContext)
    ensures var s := Run(cfg, [Begin] + [AddContext("c", "d")] + [Crash] + [Resume(0)]);
      && s.log == [Item(Task("task")), Item(Context("c", "d")), Resumed(0)]
      && s.mem.Some? && s.mem.value.transcript == [Task("task"), Context("c", "d")] && s.mem.value.phase.Between?
  {
    hide Run, Gate, LastAction, Replay, MetaTask, CommittedEffects, AddResults;
    var e2, log := [Begin] + [AddContext("c", "d")], [Item(Task("task")), Item(Context("c", "d"))];
    RunMore(cfg, [], Begin);
    EmptyRun(cfg);
    assert [] + [Begin] == [Begin];
    RunMore(cfg, [Begin], AddContext("c", "d"));
    RunMore(cfg, e2, Crash);
    assert log == [] + [log[0]] + [log[1]];
    LastActionAppend([], log[0]);
    LastActionAppend([] + [log[0]], log[1]);
    RestoredAppend([], log[0]);
    RestoredAppend([] + [log[0]], log[1]);
    NothingYet();
    RunResume(cfg, e2 + [Crash], 0);
  }

  lemma NothingYet()
    ensures LastAction([]) == None && Restored([]) == []
  {
  }

  /** Memory and log are out of step: memory holds the task, the log rebuilds an empty one. */
  lemma TaskIsLost()
    ensures var s := Run(Sample(BigContext), LostTaskRun());
      s.mem.Some? && !SameUpToMicro(Reconstruct(s.log).transcript, s.mem.value.transcript)
  {
    hide Run, Reconstruct, Gate, Tokens;
    var cfg := Sample(BigContext);
    var e4 := [Begin] + [AddContext("c", "d")] + [Crash] + [Resume(0)];
    RunBeforeLoss(cfg);
    RunMore(cfg, e4, NextTurn);
    assert [Task("task")] + [Context("c", "d")] == [Task("task"), Context("c", "d")];
    SampleGate(BigContext, [Task("task")], Context("c", "d"));
    RunMore(cfg, e4 + [NextTurn], RunGate("h"));
    var s := Run(cfg, LostTaskRun());
    RecoveryFidelity(cfg, LostTaskRun());
    assert !HasMeta(s.log) && s.log[|s.log| - 1].Compacted?;
  }

  // ----- what goes on to the model call -----

  /** Before the model call the transcript is within one of the limits; a compaction has noted whether it is not. */
  predicate GateKept(cfg: Config, s: Session) {
    s.mem.Some? ==>
      var tokens := Tokens(cfg, s.mem.value.transcript);
      match s.mem.value.phase
      case Gated => tokens <= cfg.hard || tokens <= cfg.soft
      case CompactRecord(overflow) => overflow <==> tokens > cfg.hard
      case _ => true
  }

  lemma GateStepKept(cfg: Config, s: Session, summary: string)
    requires Enabled(cfg, s, RunGate(summary))
    ensures GateKept(cfg, Step(cfg, s, RunGate(summary)))
  {
    hide Tokens, Gate;
    GateBound(cfg, s.mem.value.transcript, summary);
    if Gate(cfg, s.mem.value.transcript, summary).Condensed? {
      CondensedExactly(cfg, s.mem.value.transcript, summary);
    }
  }

  lemma StepGateKept(cfg: Config, s: Session, ev: Event)
    requires GateKept(cfg, s) && Enabled(cfg, s, ev)
    ensures GateKept(cfg, Step(cfg, s, ev))
  {
    hide Tokens, Gate, Reconstruct, AddResults;
    if ev.RunGate? {
      GateStepKept(cfg, s, ev.summary);
    }
  }

  lemma {:induction false} RunKeepsGate(cfg: Config, evs: seq<Event>)
    ensures GateKept(cfg, Run(cfg, evs))
  {
    if evs != [] {
      hide Enabled, Step, GateKept;
      var init, ev := evs[..|evs| - 1], evs[|evs| - 1];
      RunKeepsGate(cfg, init);
      if Enabled(cfg, Run(cfg, init), ev) {
        StepGateKept(cfg, Run(cfg, init), ev);
      }
    } else {
      EmptyGate(cfg);
    }
  }

  lemma EmptyGate(cfg: Config)
    ensures GateKept(cfg, EMPTY)
  {
  }

  /** In every run: a session at the model call has a transcript within the hard limit, or within a soft limit set above it;
      and one that comes from a full compaction goes on to the model call exactly when its transcript is within the hard
      limit, and to its end otherwise. */
  lemma ModelCallFits(cfg: Config, evs: seq<Event>)
    requires Run(cfg, evs).mem.Some?
    ensures var s := Run(cfg, evs);
      var tokens := Tokens(cfg, s.mem.value.transcript);
      && (s.mem.value.phase.Gated? ==> tokens <= cfg.hard || tokens <= cfg.soft)
      && (s.mem.value.phase.CompactRecord? ==>
            Step(cfg, s, WriteRecord).mem.value.phase == if tokens <= cfg.hard then Gated else Doomed)
  {
    RunKeepsGate(cfg, evs);
    hide Run, Tokens, Gate, Reconstruct;
  }

  // ----- a gate that lets too much through -----

  /** With a soft limit above the hard one, a turn goes on to the model call with a transcript over the hard limit. */
  lemma GateLetsThrough()
    ensures var cfg := Config("task", 1, 2, 1, (e: Entry) => 2, (e: Entry) => "");
      var s := Run(cfg, [Begin, WriteMeta] + [NextTurn] + [RunGate("h")]);
      s.mem.Some? && s.mem.value.phase.Gated? && Tokens(cfg, s.mem.value.transcript) > cfg.hard
  {
    hide Run, Reconstruct;
    var cfg := Config("task", 1, 2, 1, (e: Entry) => 2, (e: Entry) => "");
    var tr := [Task("task")];
    assert tr[..0] == [] && Tokens(cfg, tr) == 2;
    RunStart(cfg);
    RunMore(cfg, [Begin, WriteMeta], NextTurn);
    RunMore(cfg, [Begin, WriteMeta] + [NextTurn], RunGate("h"));
  }
}
