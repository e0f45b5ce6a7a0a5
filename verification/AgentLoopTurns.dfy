/** Interrupted turns: what the rebuilt session says about the last tool action, for every crash point of
    every run.  What happened since that action was logged is known whatever turn counters the resumes
    were given; what the log says about it is right exactly when no older marker has its turn number. */
module AgentLoopTurns {
  import opened Common
  import opened Compaction
  import opened Rollout
  import opened AgentLoop
  import opened AgentLoopRecovery

  // ----- the last tool action of a log -----

  predicate IsUse(line: Line) { line.Item? && line.entry.UseTool? }

  predicate IsResult(line: Line, turn: nat) { line.Item? && line.entry.ToolResult? && line.entry.turn == turn }

  /** A use-tool action at position `at`, and what was logged after it: its start marker, a result of its
      turn, its finish marker; it is current until a session begins afresh. */
  datatype Action = Action(turn: nat, tool: string, at: nat, marked: bool, answered: bool, finished: bool, current: bool)

  function Advance(act: Option<Action>, line: Line, at: nat): Option<Action> {
    if IsUse(line) then Some(Action(line.entry.turn, line.entry.tool, at, false, false, false, true))
    else if act.None? then None
    else
      var a := act.value;
      Some(a.(marked := a.marked || line == Started(a.turn, a.tool),
              answered := a.answered || IsResult(line, a.turn),
              finished := a.finished || line == Finished(a.turn, a.tool),
              current := a.current && !Begins(line)))
  }

  function LastAction(log: seq<Line>): Option<Action> {
    if log == [] then None else Advance(LastAction(log[..|log| - 1]), log[|log| - 1], |log| - 1)
  }

  lemma LastActionAppend(log: seq<Line>, line: Line)
    ensures LastAction(log + [line]) == Advance(LastAction(log), line, |log|)
  {
    assert (log + [line])[..|log|] == log;
  }

  /** The fields say what they are meant to say. */
  lemma {:induction false} LastActionMeaning(log: seq<Line>)
    ensures LastAction(log).None? ==> forall i :: 0 <= i < |log| ==> !IsUse(log[i])
    ensures LastAction(log).Some? ==>
      var a := LastAction(log).value;
      && a.at < |log| && IsUse(log[a.at]) && log[a.at].entry.turn == a.turn && log[a.at].entry.tool == a.tool
      && (forall i :: a.at < i < |log| ==> !IsUse(log[i]))
      && (a.marked <==> Started(a.turn, a.tool) in log[a.at..])
      && (a.finished <==> Finished(a.turn, a.tool) in log[a.at..])
      && (a.answered <==> exists i :: a.at < i < |log| && IsResult(log[i], a.turn))
      && (a.current <==> forall i :: a.at < i < |log| ==> !Begins(log[i]))
  {
    if log != [] {
      var init, line := log[..|log| - 1], log[|log| - 1];
      LastActionMeaning(init);
      assert forall i :: 0 <= i < |init| ==> init[i] == log[i];
      if IsUse(line) {
        assert log[|log| - 1..] == [line];
      } else if LastAction(init).Some? {
        var a := LastAction(init).value;
        assert log[a.at..] == init[a.at..] + [line];
      }
    }
  }

  // ----- the rebuilt transcript shows the same -----

  /** The rebuilt transcript but for the task texts that compactions put back. */
  function Skeleton(log: seq<Line>): seq<Entry> { Replay(log, "") }

  /** It still shows a tool action. */
  predicate ShowsUse(log: seq<Line>) { AfterLastUse(Skeleton(log)) > 0 }

  lemma {:induction false} ReplaysAlike(log: seq<Line>, t: string, t': string)
    ensures Alike(Replay(log, t), Replay(log, t'))
  {
    if log != [] {
      ReplaysAlike(log[..|log| - 1], t, t');
    }
  }

  /** If the transcript still has a tool action, its last one is the log's last one, and it is followed by
      a result exactly when the log has one. */
  predicate Mirrors(act: Option<Action>, tr: seq<Entry>) {
    var k := AfterLastUse(tr);
    k > 0 ==>
      && act.Some? && tr[k - 1].turn == act.value.turn && tr[k - 1].tool == act.value.tool
      && (ResultFor(tr, k, act.value.turn) <==> act.value.answered)
  }

  lemma ResultForPush(tr: seq<Entry>, k: nat, e: Entry, turn: nat)
    requires k <= |tr|
    ensures ResultFor(tr + [e], k, turn) <==> ResultFor(tr, k, turn) || (e.ToolResult? && e.turn == turn)
  {
    var tr' := tr + [e];
    assert tr'[|tr|] == e && forall j :: k <= j < |tr| ==> tr'[j] == tr[j];
  }

  lemma LastUsePush(tr: seq<Entry>, e: Entry)
    ensures AfterLastUse(tr + [e]) == if e.UseTool? then |tr| + 1 else AfterLastUse(tr)
  {
  }

  lemma MirrorsPush(act: Option<Action>, tr: seq<Entry>, e: Entry, at: nat)
    requires Mirrors(act, tr)
    ensures Mirrors(Advance(act, Item(e), at), tr + [e])
    ensures AfterLastUse(tr + [e]) == if e.UseTool? then |tr| + 1 else AfterLastUse(tr)
  {
    hide ResultFor, AfterLastUse;
    LastUsePush(tr, e);
    if e.UseTool? {
      NoResultAfterEnd(tr + [e], e.turn);
    } else if AfterLastUse(tr) > 0 {
      ResultForPush(tr, AfterLastUse(tr), e, act.value.turn);
    }
  }

  lemma NoResultAfterEnd(tr: seq<Entry>, turn: nat)
    ensures !ResultFor(tr, |tr|, turn)
  {
  }

  predicate KeepsSuffix(kept: seq<Entry>, tr: seq<Entry>) {
    |kept| <= |tr| && Alike(tr[|tr| - |kept|..], kept)
  }

  lemma {:induction false} LastUseConcat(a: seq<Entry>, b: seq<Entry>)
    ensures AfterLastUse(a + b) == if AfterLastUse(b) > 0 then |a| + AfterLastUse(b) else AfterLastUse(a)
  {
    if b == [] {
      assert a + b == a;
    } else {
      var n := |b| - 1;
      assert a + b == (a + b[..n]) + [b[n]] && b == b[..n] + [b[n]];
      LastUseConcat(a, b[..n]);
      LastUsePush(a + b[..n], b[n]);
      LastUsePush(b[..n], b[n]);
    }
  }

  lemma ResultForConcat(a: seq<Entry>, b: seq<Entry>, k: nat, turn: nat)
    requires k <= |b|
    ensures ResultFor(a + b, |a| + k, turn) <==> ResultFor(b, k, turn)
  {
    var c := a + b;
    assert forall j :: 0 <= j < |b| ==> c[|a| + j] == b[j];
    if ResultFor(c, |a| + k, turn) {
      var j :| |a| + k <= j < |c| && c[j].ToolResult? && c[j].turn == turn;
      assert b[j - |a|] == c[j];
    }
  }

  /** Summarised payloads and task texts hide neither an action nor a result. */
  lemma {:induction false} AlikeLastUse(a: seq<Entry>, b: seq<Entry>)
    requires Alike(a, b)
    ensures AfterLastUse(a) == AfterLastUse(b)
  {
    if a != [] {
      AlikeLastUse(a[..|a| - 1], b[..|b| - 1]);
    }
  }

  lemma AlikeResults(a: seq<Entry>, b: seq<Entry>, k: nat, turn: nat)
    requires Alike(a, b)
    ensures ResultFor(a, k, turn) <==> ResultFor(b, k, turn)
  {
  }

  /** Compaction keeps a suffix, so a kept action keeps its result. */
  lemma MirrorsBaseline(act: Option<Action>, tr: seq<Entry>, task: string, summary: string, kept: seq<Entry>)
    requires Mirrors(act, tr) && KeepsSuffix(kept, tr)
    ensures Mirrors(act, Baseline(task, summary, kept))
  {
    hide Mirrors;
    var off := |tr| - |kept|;
    var opening := [Task(task)] + if summary == "" then [] else [Handoff(summary)];
    assert tr == tr[..off] + tr[off..] && Baseline(task, summary, kept) == opening + kept;
    assert AfterLastUse(opening) == 0;
    MirrorsSuffix(act, tr[..off], tr[off..], opening, kept);
  }

  lemma MirrorsSuffix(act: Option<Action>, before: seq<Entry>, after: seq<Entry>, opening: seq<Entry>, kept: seq<Entry>)
    requires Mirrors(act, before + after) && Alike(after, kept) && AfterLastUse(opening) == 0
    ensures Mirrors(act, opening + kept)
  {
    hide AfterLastUse, ResultFor, Alike;
    LastUseConcat(before, after);
    LastUseConcat(opening, kept);
    AlikeLastUse(after, kept);
    var k := AfterLastUse(kept);
    if k > 0 {
      var turn := act.value.turn;
      ResultForConcat(before, after, k, turn);
      ResultForConcat(opening, kept, k, turn);
      AlikeResults(after, kept, k, turn);
      AlikeAction(after, kept, k - 1);
      assert (before + after)[|before| + k - 1] == after[k - 1] && (opening + kept)[|opening| + k - 1] == kept[k - 1];
    }
  }

  lemma AlikeAction(a: seq<Entry>, b: seq<Entry>, i: nat)
    requires Alike(a, b) && i < |b| && b[i].UseTool?
    ensures i < |a| && a[i] == b[i]
  {
  }

  // ----- what every reachable session keeps -----

  /** The session stands at an unanswered tool action that the transcript shows. */
  predicate AtUse(act: Option<Action>, shown: bool, turn: nat, tool: string) {
    act.Some? && act.value.turn == turn && act.value.tool == tool && !act.value.answered && shown
  }

  predicate PhaseSound(act: Option<Action>, shown: bool, turn: nat, phase: Phase) {
    match phase
    case Chosen(tool) => AtUse(act, shown, turn, tool) && act.value.current
    case Running(id) => AtUse(act, shown, turn, id.tool) && act.value.current && act.value.marked
    case Invoked(id) => AtUse(act, shown, turn, id.tool) && act.value.current && act.value.marked
    case CommitDue(_, _) => act.Some? && act.value.turn == turn && act.value.answered
    case Closing(_) => act.Some? && act.value.turn == turn && act.value.answered
    case Repair(open) => AtUse(act, shown, open.turn, open.tool)
    case _ => true
  }

  /** A finished action has its result; a started one without a result is being run, or being repaired, or
      its session is gone, unless a session has begun afresh since. */
  predicate Accounted(act: Option<Action>, shown: bool, mem: Option<Memory>) {
    act.Some? ==>
      && (act.value.finished ==> act.value.answered)
      && (act.value.current && act.value.marked && !act.value.answered ==>
            && shown
            && (mem.Some? ==> mem.value.phase.Running? || mem.value.phase.Invoked? || mem.value.phase.Repair?))
  }

  /** A result of the call's turn was logged after the call. */
  predicate Answered(log: seq<Line>, c: Call) { exists j :: c.at <= j < |log| && IsResult(log[j], c.turn) }

  /** A session has begun afresh since the call. */
  predicate Abandoned(log: seq<Line>, c: Call) { exists j :: c.at <= j < |log| && Begins(log[j]) }

  /** The call was made for the last action, so it was marked; every other call has its result or was abandoned. */
  predicate CallSound(log: seq<Line>, act: Option<Action>, c: Call) {
    && c.at <= |log|
    && Started(c.turn, c.id.tool) in log[..c.at]
    && (act.Some? && c.at > act.value.at ==>
          && c.turn == act.value.turn && c.id.tool == act.value.tool && act.value.marked
          && (act.value.current || Abandoned(log, c)))
    && (Answered(log, c) || Abandoned(log, c) || (act.Some? && c.at > act.value.at && !act.value.answered))
  }

  predicate CallsSound(log: seq<Line>, act: Option<Action>, calls: seq<Call>) {
    forall i :: 0 <= i < |calls| ==> CallSound(log, act, calls[i])
  }

  predicate TurnsSound(s: Session) {
    var act, shown := LastAction(s.log), ShowsUse(s.log);
    && Mirrors(act, Skeleton(s.log)) && Accounted(act, shown, s.mem) && CallsSound(s.log, act, s.calls)
    && (s.mem.Some? ==> PhaseSound(act, shown, s.mem.value.turn, s.mem.value.phase))
  }

  lemma AnsweredAppend(log: seq<Line>, line: Line, c: Call)
    requires c.at <= |log|
    ensures Answered(log + [line], c) <==> Answered(log, c) || IsResult(line, c.turn)
    ensures Abandoned(log + [line], c) <==> Abandoned(log, c) || Begins(line)
  {
    var log' := log + [line];
    assert log'[|log|] == line && forall i :: 0 <= i < |log| ==> log'[i] == log[i];
  }

  /** No call for the last action is still without a result. */
  predicate Settled(act: Option<Action>) {
    act.Some? && act.value.current && act.value.marked ==> act.value.answered
  }

  /** Calls stay sound under every line; an action may be written only when no call is unanswered. */
  lemma CallsAppend(log: seq<Line>, act: Option<Action>, calls: seq<Call>, line: Line)
    requires CallsSound(log, act, calls) && (IsUse(line) ==> Settled(act))
    ensures CallsSound(log + [line], Advance(act, line, |log|), calls)
  {
    hide Answered, Abandoned;
    forall i | 0 <= i < |calls|
      ensures CallSound(log + [line], Advance(act, line, |log|), calls[i])
    {
      var c := calls[i];
      assert CallSound(log, act, c);
      AnsweredAppend(log, line, c);
      assert (log + [line])[..c.at] == log[..c.at];
    }
  }

  /** What the log and the calls keep when a line is written. */
  lemma LineStep(log: seq<Line>, calls: seq<Call>, line: Line)
    requires Mirrors(LastAction(log), Skeleton(log)) && CallsSound(log, LastAction(log), calls)
    requires line.Compacted? ==> KeepsSuffix(line.kept, Skeleton(log))
    requires IsUse(line) ==> Settled(LastAction(log))
    ensures var log' := log + [line];
      && LastAction(log') == Advance(LastAction(log), line, |log|)
      && Mirrors(LastAction(log'), Skeleton(log')) && CallsSound(log', LastAction(log'), calls)
      && (!line.Compacted? ==> ShowsUse(log') == (IsUse(line) || ShowsUse(log)))
  {
    hide LastAction, Replay, CallsSound, KeepsSuffix, AfterLastUse;
    LastActionAppend(log, line);
    ReplayAppend(log, line, "");
    CallsAppend(log, LastAction(log), calls, line);
    if line.Item? {
      MirrorsPush(LastAction(log), Skeleton(log), line.entry, |log|);
    } else if line.Compacted? {
      MirrorsBaseline(LastAction(log), Skeleton(log), "", line.summary, line.kept);
    }
  }

  /** A step that writes one line is sound when memory fits the last action as the line leaves it. */
  lemma LineSound(s: Session, s': Session, line: Line)
    requires TurnsSound(s) && s'.log == s.log + [line] && s'.calls == s.calls && !line.Compacted?
    requires IsUse(line) ==> Settled(LastAction(s.log))
    requires
      var act := Advance(LastAction(s.log), line, |s.log|);
      var shown := IsUse(line) || ShowsUse(s.log);
      Accounted(act, shown, s'.mem) && (s'.mem.Some? ==> PhaseSound(act, shown, s'.mem.value.turn, s'.mem.value.phase))
    ensures TurnsSound(s')
  {
    hide LastAction, Skeleton, ShowsUse, Mirrors, CallsSound, Accounted, PhaseSound;
    LineStep(s.log, s.calls, line);
  }

  /** Events that write one line and leave the transcript to it. */
  predicate Writes(ev: Event) {
    !ev.Begin? && !ev.Resume? && !ev.RunGate? && !ev.Invoke? && !ev.Crash? && !ev.NextTurn? && !ev.End?
  }

  /** Results: of a call, a refusal, a repair or a replay. */
  predicate WritesResult(ev: Event) { ev.Refuse? || ev.Deduplicate? || ev.Hang? || ev.Return? || ev.WriteRepair? }

  /** Lines of the last action. */
  predicate WritesAction(ev: Event) { ev.ChooseTool? || ev.StartTool? || ev.Commit? || ev.FinishTool? }

  lemma ResultSound(cfg: Config, s: Session, ev: Event)
    requires TurnsSound(s) && Enabled(cfg, s, ev) && WritesResult(ev)
    ensures TurnsSound(Step(cfg, s, ev))
  {
    hide LastAction, Skeleton, ShowsUse, Mirrors, CallsSound, Gate, Reconstruct;
    var s' := Step(cfg, s, ev);
    LineSound(s, s', s'.log[|s.log|]);
  }

  lemma ActionSound(cfg: Config, s: Session, ev: Event)
    requires TurnsSound(s) && Enabled(cfg, s, ev) && WritesAction(ev)
    ensures TurnsSound(Step(cfg, s, ev))
  {
    hide LastAction, Skeleton, ShowsUse, Mirrors, CallsSound, Gate, Reconstruct;
    var s' := Step(cfg, s, ev);
    LineSound(s, s', s'.log[|s.log|]);
  }

  lemma OtherSound(cfg: Config, s: Session, ev: Event)
    requires TurnsSound(s) && Enabled(cfg, s, ev) && Writes(ev) && !WritesResult(ev) && !WritesAction(ev)
    ensures TurnsSound(Step(cfg, s, ev))
  {
    hide LastAction, Skeleton, ShowsUse, Mirrors, CallsSound, Gate, Reconstruct;
    var s' := Step(cfg, s, ev);
    LineSound(s, s', s'.log[|s.log|]);
  }

  /** What a compaction keeps is the end of the rebuilt transcript, summarised. */
  lemma GateKeepsSuffix(cfg: Config, s: Session, summary: string)
    requires Faithful(cfg, s) && Enabled(cfg, s, RunGate(summary))
    requires Gate(cfg, s.mem.value.transcript, summary).Condensed?
    ensures KeepsSuffix(Gate(cfg, s.mem.value.transcript, summary).kept, Skeleton(s.log))
  {
    hide Gate, Replay, Micro, MetaSound, EntrySame, SameUpToMicro, MetaTask, Alike;
    var m, g := s.mem.value.transcript, Gate(cfg, s.mem.value.transcript, summary);
    CondensedParts(cfg, m, summary);
    MemoryEnds(cfg, s);
    MicroAlike(cfg, m);
    ReplaysAlike(s.log, "", MetaTask(s.log));
    SuffixAlike(Skeleton(s.log), Restored(s.log), m, Micro(cfg, m), g.kept);
  }

  lemma MicroAlike(cfg: Config, tr: seq<Entry>)
    requires cfg.keepLast >= 1
    ensures Alike(tr, Micro(cfg, tr))
  {
  }

  lemma AlikeTransitive(a: seq<Entry>, b: seq<Entry>, c: seq<Entry>)
    requires Alike(a, b) && Alike(b, c)
    ensures Alike(a, c)
  {
  }

  lemma AlikeEnds(a: seq<Entry>, b: seq<Entry>, from: nat)
    requires Alike(a, b) && from <= |a|
    ensures Alike(a[from..], b[from..])
  {
  }

  lemma SuffixAlike(a: seq<Entry>, b: seq<Entry>, m: seq<Entry>, micro: seq<Entry>, kept: seq<Entry>)
    requires Alike(a, b) && |m| <= |b| && Alike(b[|b| - |m|..], m) && Alike(m, micro) && IsSuffix(kept, micro)
    ensures KeepsSuffix(kept, a)
  {
    hide EntrySame;
    var off := |b| - |m|;
    AlikeEnds(a, b, off);
    AlikeTransitive(a[off..], b[off..], m);
    AlikeTransitive(a[off..], m, micro);
    AlikeEnds(a[off..], micro, |m| - |kept|);
    assert a[off..][|m| - |kept|..] == a[|a| - |kept|..];
  }

  lemma GateSound(cfg: Config, s: Session, summary: string)
    requires Faithful(cfg, s) && TurnsSound(s) && Enabled(cfg, s, RunGate(summary))
    ensures TurnsSound(Step(cfg, s, RunGate(summary)))
  {
    hide LastAction, Skeleton, ShowsUse, Mirrors, CallsSound, Faithful, Gate, KeepsSuffix;
    var g := Gate(cfg, s.mem.value.transcript, summary);
    if g.Condensed? {
      GateKeepsSuffix(cfg, s, summary);
      LineStep(s.log, s.calls, Compacted(g.summary, g.kept));
    }
  }

  /** The open turn of the rebuilt session is the log's last action. */
  lemma OpenIsAction(log: seq<Line>)
    requires Mirrors(LastAction(log), Skeleton(log))
    ensures var open, act := FindOpen(log, Restored(log)), LastAction(log);
      && (open.Some? <==> act.Some? && !act.value.answered && ShowsUse(log))
      && (open.Some? ==> AtUse(act, ShowsUse(log), open.value.turn, open.value.tool))
  {
    hide LastAction, Replay, MetaTask, ResultFor, Alike, AfterLastUse;
    var tr, r := Skeleton(log), Restored(log);
    ReplaysAlike(log, "", MetaTask(log));
    AlikeLastUse(tr, r);
    var k := AfterLastUse(r);
    if k > 0 {
      AlikeAction(tr, r, k - 1);
      AlikeResults(tr, r, k, r[k - 1].turn);
    }
  }

  lemma ResumeSound(cfg: Config, s: Session, prior: nat)
    requires TurnsSound(s) && Enabled(cfg, s, Resume(prior))
    ensures TurnsSound(Step(cfg, s, Resume(prior)))
  {
    hide LastAction, Replay, MetaTask, Mirrors, CallsSound, ShowsUse, FindOpen, CommittedEffects, AddResults;
    LineStep(s.log, s.calls, Resumed(prior));
    OpenIsAction(s.log);
  }

  lemma BeginSound(cfg: Config, s: Session)
    requires TurnsSound(s) && Enabled(cfg, s, Begin)
    ensures TurnsSound(Step(cfg, s, Begin))
  {
    hide Skeleton, ShowsUse, Mirrors, CallsSound, LastAction;
    LineStep(s.log, s.calls, Item(Task(cfg.task)));
  }

  lemma InvokeSound(cfg: Config, s: Session)
    requires TurnsSound(s) && Enabled(cfg, s, Invoke)
    ensures TurnsSound(Step(cfg, s, Invoke))
  {
    hide Skeleton, ShowsUse, Mirrors, Answered, Abandoned, LastAction;
    var s' := Step(cfg, s, Invoke);
    assert s.log[..|s.log|] == s.log;
    LastActionMeaning(s.log);
    forall i | 0 <= i < |s'.calls|
      ensures CallSound(s.log, LastAction(s.log), s'.calls[i])
    {
      assert i < |s.calls| ==> s'.calls[i] == s.calls[i];
    }
  }

  lemma SilentSound(cfg: Config, s: Session, ev: Event)
    requires TurnsSound(s) && Enabled(cfg, s, ev) && (ev.Crash? || ev.NextTurn? || ev.End?)
    ensures TurnsSound(Step(cfg, s, ev))
  {
    hide LastAction, Skeleton, ShowsUse, Mirrors, CallsSound;
    if ev.End? {
      LineStep(s.log, s.calls, SessionEnd);
    }
  }

  lemma StepTurnsSound(cfg: Config, s: Session, ev: Event)
    requires Faithful(cfg, s) && TurnsSound(s) && Enabled(cfg, s, ev)
    ensures TurnsSound(Step(cfg, s, ev))
  {
    hide TurnsSound, Faithful, Enabled, Step;
    if ev.Begin? { BeginSound(cfg, s); }
    else if ev.Resume? { ResumeSound(cfg, s, ev.priorTurns); }
    else if ev.RunGate? { GateSound(cfg, s, ev.summary); }
    else if ev.Invoke? { InvokeSound(cfg, s); }
    else if ev.Crash? || ev.NextTurn? || ev.End? { SilentSound(cfg, s, ev); }
    else if WritesResult(ev) { ResultSound(cfg, s, ev); }
    else if WritesAction(ev) { ActionSound(cfg, s, ev); }
    else { OtherSound(cfg, s, ev); }
  }

  lemma EmptyTurnsSound()
    ensures TurnsSound(EMPTY)
  {
  }

  lemma {:induction false} RunTurnsSound(cfg: Config, evs: seq<Event>)
    ensures TurnsSound(Run(cfg, evs))
  {
    if evs != [] {
      hide Enabled, Step, TurnsSound, Faithful;
      var init, ev := evs[..|evs| - 1], evs[|evs| - 1];
      RunTurnsSound(cfg, init);
      RunFaithful(cfg, init);
      if Enabled(cfg, Run(cfg, init), ev) {
        StepTurnsSound(cfg, Run(cfg, init), ev);
      }
    } else {
      EmptyTurnsSound();
    }
  }
}
