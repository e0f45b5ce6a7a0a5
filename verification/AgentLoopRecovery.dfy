/** What the log can be trusted for, at every moment of every run and whatever turn counter a resume
    is given: the transcript rebuilt from it is the one in memory, and exactly when it is not. */
module AgentLoopRecovery {
  import opened Common
  import opened Compaction
  import opened Rollout
  import opened AgentLoop

  // ----- logs growing by one line -----

  lemma ReplayAppend(log: seq<Line>, line: Line, task: string)
    ensures Replay(log + [line], task) == ReplayLine(Replay(log, task), line, task)
  {
  }

  lemma LedgerAppend(log: seq<Line>, line: Line)
    ensures Ledger(log + [line]) == if line.EffectCommitted? then AddResult(Ledger(log), line.entry) else Ledger(log)
  {
    assert (log + [line])[..|log|] == log;
  }

  lemma {:induction false} MetaTaskAppend(log: seq<Line>, line: Line)
    requires !line.Meta?
    ensures MetaTask(log + [line]) == MetaTask(log)
  {
    if log != [] {
      MetaTaskAppend(log[1..], line);
      assert (log + [line])[1..] == log[1..] + [line];
    } else {
      assert log + [line] == [line] && [line][1..] == [];
    }
  }

  /** The line with which a session begins afresh; nothing else logs a task. */
  predicate Begins(line: Line) { line.Item? && line.entry.Task? }

  /** The running session has begun afresh and logged only transcript items since. */
  predicate Booting(log: seq<Line>) {
    log != [] && log[|log| - 1].Item? && (Begins(log[|log| - 1]) || Booting(log[..|log| - 1]))
  }

  /** Meta lines carry the session's task and end a boot; the first line begins a session. */
  predicate MetaSound(task: string, log: seq<Line>) {
    && (forall i :: 0 <= i < |log| && log[i].Meta? ==> log[i].task == task && Booting(log[..i]))
    && (log != [] ==> Begins(log[0]))
  }

  lemma MetaSoundAppend(task: string, log: seq<Line>, line: Line)
    requires MetaSound(task, log) && (log == [] ==> Begins(line)) && (line.Meta? ==> line.task == task && Booting(log))
    ensures MetaSound(task, log + [line])
  {
    hide Booting;
    var log' := log + [line];
    forall i | 0 <= i < |log'| && log'[i].Meta?
      ensures log'[i].task == task && Booting(log'[..i])
    {
      assert i <= |log| && log'[..i] == log[..i];
      assert log[..|log|] == log;
    }
  }

  lemma {:induction false} MetaTaskKnown(task: string, log: seq<Line>)
    requires forall i :: 0 <= i < |log| && log[i].Meta? ==> log[i].task == task
    ensures MetaTask(log) == if HasMeta(log) then task else ""
  {
    if log != [] {
      assert forall i :: 0 <= i < |log| - 1 ==> log[1..][i] == log[i + 1];
      MetaTaskKnown(task, log[1..]);
      if HasMeta(log) && !log[0].Meta? {
        var i :| 0 <= i < |log| && log[i].Meta?;
        assert log[1..][i - 1].Meta?;
      }
    }
  }

  // ----- the transcript a session works with -----

  function Restored(log: seq<Line>): seq<Entry> { Replay(log, MetaTask(log)) }

  /** Memory's transcript, said in log lines: a fresh start has the task alone, a resume takes over the rebuilt
      transcript, everything else extends or replaces it under the session's own task. */
  function Live(task: string, log: seq<Line>): seq<Entry> {
    if log == [] then []
    else
      var init, line := log[..|log| - 1], log[|log| - 1];
      if line.Resumed? then Restored(init)
      else if Begins(line) then [line.entry]
      else ReplayLine(Live(task, init), line, task)
  }

  lemma LiveAppend(task: string, log: seq<Line>, line: Line)
    ensures Live(task, log + [line]) ==
      if line.Resumed? then Restored(log) else if Begins(line) then [line.entry] else ReplayLine(Live(task, log), line, task)
  {
    assert (log + [line])[..|log|] == log;
  }

  predicate Starts(line: Line) { line.Resumed? || Begins(line) }

  /** The running session was resumed. */
  predicate ByResume(log: seq<Line>) {
    log != [] && (log[|log| - 1].Resumed? || (!Begins(log[|log| - 1]) && ByResume(log[..|log| - 1])))
  }

  /** The running session began afresh on a log that had lines. */
  predicate StartedOver(log: seq<Line>) {
    log != [] &&
    if Begins(log[|log| - 1]) then |log| > 1 else !log[|log| - 1].Resumed? && StartedOver(log[..|log| - 1])
  }

  /** The running session has logged a full compaction. */
  predicate CompactedSinceStart(log: seq<Line>) {
    log != [] && (log[|log| - 1].Compacted? || (!Starts(log[|log| - 1]) && CompactedSinceStart(log[..|log| - 1])))
  }

  /** The log rebuilds what the running session holds: after a full compaction if the log carries its task, and
      before one if it did not begin afresh on an older log. */
  predicate InStep(task: string, log: seq<Line>) {
    if CompactedSinceStart(log) then MetaTask(log) == task else !StartedOver(log)
  }

  /** The rebuilt transcript after one more line, while the log has only transcript items. */
  lemma RestoredAppend(log: seq<Line>, line: Line)
    requires line.Meta? ==> forall j :: 0 <= j < |log| ==> log[j].Item?
    ensures Restored(log + [line]) == ReplayLine(Restored(log), line, MetaTask(log))
  {
    hide Replay;
    ReplayAppend(log, line, MetaTask(log + [line]));
    if line.Meta? {
      ReplayWithoutCompaction(log, MetaTask(log + [line]), MetaTask(log));
    } else {
      MetaTaskAppend(log, line);
    }
  }

  lemma {:induction false} ReplayNonEmpty(log: seq<Line>, task: string)
    requires log != [] && log[0].Item?
    ensures Replay(log, task) != []
  {
    if |log| > 1 {
      ReplayNonEmpty(log[..|log| - 1], task);
    }
  }

  lemma {:induction false} BootingIsFresh(log: seq<Line>)
    requires Booting(log)
    ensures !ByResume(log)
  {
    if !Begins(log[|log| - 1]) {
      BootingIsFresh(log[..|log| - 1]);
    }
  }

  predicate Ends(part: seq<Entry>, whole: seq<Entry>) { |part| <= |whole| && part == whole[|whole| - |part|..] }

  lemma EndsPush(part: seq<Entry>, whole: seq<Entry>, e: Entry)
    requires Ends(part, whole)
    ensures Ends(part + [e], whole + [e])
  {
  }

  /** How a replay and the running session's transcript differ: after a full compaction in the task text of the first
      entry; before one, if the session started over, by the older entries in front; otherwise not at all. */
  predicate Related(task: string, log: seq<Line>, t: string) {
    var r, v := Replay(log, t), Live(task, log);
    if CompactedSinceStart(log) then r != [] && r[0] == Task(t) && v == r[0 := Task(task)]
    else if StartedOver(log) then Ends(v, r) && |v| < |r|
    else v == r
  }

  /** How the three marks move with one more line. */
  lemma MarksAppend(log: seq<Line>, line: Line)
    ensures CompactedSinceStart(log + [line]) == (line.Compacted? || (!Starts(line) && CompactedSinceStart(log)))
    ensures StartedOver(log + [line]) == if Begins(line) then log != [] else !line.Resumed? && StartedOver(log)
    ensures ByResume(log + [line]) == (line.Resumed? || (!Begins(line) && ByResume(log)))
  {
    assert (log + [line])[..|log|] == log;
  }

  lemma RelatedStep(task: string, log: seq<Line>, line: Line, t: string)
    requires Related(task, log, t) && !Starts(line)
    ensures Related(task, log + [line], t)
  {
    hide Replay, Live, CompactedSinceStart, StartedOver;
    MarksAppend(log, line);
    LiveAppend(task, log, line);
    ReplayAppend(log, line, t);
    if line.Item? && StartedOver(log) && !CompactedSinceStart(log) {
      EndsPush(Live(task, log), Replay(log, t), line.entry);
    }
  }

  lemma RelatedStart(task: string, log: seq<Line>, line: Line, t: string)
    requires Starts(line) && (log != [] ==> log[0].Item?) && (line.Resumed? ==> t == MetaTask(log))
    ensures Related(task, log + [line], t)
  {
    hide Replay, Live, CompactedSinceStart, StartedOver, MetaTask;
    MarksAppend(log, line);
    LiveAppend(task, log, line);
    ReplayAppend(log, line, t);
    if log != [] { ReplayNonEmpty(log, t); } else { ReplayNothing(t); }
  }

  lemma {:induction false} LiveIsReplay(task: string, log: seq<Line>, t: string)
    requires MetaSound(task, log) && (ByResume(log) ==> t == MetaTask(log))
    ensures Related(task, log, t)
  {
    hide Related, MetaTask, Booting, ByResume;
    if log != [] {
      var init, line := log[..|log| - 1], log[|log| - 1];
      assert log == init + [line] && (init != [] ==> init[0] == log[0]);
      PrefixSound(task, log);
      MarksAppend(init, line);
      if line.Meta? { BootingIsFresh(init); } else { MetaTaskAppend(init, line); }
      if Starts(line) {
        RelatedStart(task, init, line, t);
      } else {
        LiveIsReplay(task, init, t);
        RelatedStep(task, init, line, t);
      }
    } else {
      LiveOfNothing(task, t);
    }
  }

  lemma ReplayNothing(t: string)
    ensures Replay([], t) == []
  {
  }

  lemma LiveOfNothing(task: string, t: string)
    ensures Related(task, [], t)
  {
  }

  lemma PrefixSound(task: string, log: seq<Line>)
    requires MetaSound(task, log) && log != []
    ensures MetaSound(task, log[..|log| - 1]) && (log[|log| - 1].Meta? ==> Booting(log[..|log| - 1]))
  {
    hide Booting;
    var init := log[..|log| - 1];
    forall i | 0 <= i < |init| && init[i].Meta?
      ensures init[i].task == task && Booting(init[..i])
    {
      assert init[..i] == log[..i] && init[i] == log[i];
    }
  }

  // ----- every step keeps it -----

  predicate Faithful(cfg: Config, s: Session) {
    && MetaSound(cfg.task, s.log)
    && (s.mem.Some? ==>
          && SameUpToMicro(Live(cfg.task, s.log), s.mem.value.transcript)
          && s.log != [] && (s.mem.value.phase.Boot? ==> Booting(s.log)))
  }

  lemma SameReflexive(a: seq<Entry>)
    ensures SameUpToMicro(a, a)
  {
  }

  lemma SamePush(a: seq<Entry>, b: seq<Entry>, e: Entry)
    requires SameUpToMicro(a, b)
    ensures SameUpToMicro(a + [e], b + [e])
  {
  }

  lemma PushFaithful(cfg: Config, s: Session, m: Memory, e: Entry, phase: Phase)
    requires Faithful(cfg, s) && s.mem == Some(m) && (phase.Boot? ==> m.phase.Boot?) && !e.Task?
    ensures Faithful(cfg, Push(s, m, e, phase))
  {
    hide MetaSound, SameUpToMicro, Live;
    assert (s.log + [Item(e)])[..|s.log|] == s.log;
    LiveAppend(cfg.task, s.log, Item(e));
    SamePush(Live(cfg.task, s.log), m.transcript, e);
    MetaSoundAppend(cfg.task, s.log, Item(e));
  }

  lemma NoteFaithful(cfg: Config, s: Session, m: Memory, line: Line, phase: Phase)
    requires Faithful(cfg, s) && s.mem.Some? && s.mem.value.transcript == m.transcript && s.mem.value.phase == m.phase
    requires !line.Item? && !line.Compacted? && !line.Resumed? && (line.Meta? ==> line.task == cfg.task && m.phase.Boot?)
    requires !phase.Boot?
    ensures Faithful(cfg, Note(s, m, line, phase))
  {
    hide MetaSound, SameUpToMicro, Live;
    LiveAppend(cfg.task, s.log, line);
    MetaSoundAppend(cfg.task, s.log, line);
  }

  lemma GateFaithful(cfg: Config, s: Session, summary: string)
    requires Faithful(cfg, s) && Enabled(cfg, s, RunGate(summary))
    ensures Faithful(cfg, Step(cfg, s, RunGate(summary)))
  {
    hide MetaSound, SameUpToMicro, Live, Gate, Micro;
    var m := s.mem.value;
    var g := Gate(cfg, m.transcript, summary);
    if g.Summarised? {
      GateSummarised(cfg, m.transcript, summary);
      MicroKeeps(cfg, Live(cfg.task, s.log), m.transcript);
    } else if g.Condensed? {
      CondensedParts(cfg, m.transcript, summary);
      var line := Compacted(g.summary, g.kept);
      LiveAppend(cfg.task, s.log, line);
      MetaSoundAppend(cfg.task, s.log, line);
      SameReflexive(g.transcript);
    }
  }

  lemma GateSummarised(cfg: Config, tr: seq<Entry>, summary: string)
    requires cfg.keepLast >= 1 && Gate(cfg, tr, summary).Summarised?
    ensures Gate(cfg, tr, summary).transcript == Micro(cfg, tr)
  {
    hide Micro, Tokens, FullTranscript;
  }

  lemma ResumeFaithful(cfg: Config, s: Session, prior: nat)
    requires Faithful(cfg, s) && Enabled(cfg, s, Resume(prior))
    ensures Faithful(cfg, Step(cfg, s, Resume(prior)))
  {
    hide MetaSound, SameUpToMicro, Live, Replay, MetaTask;
    LiveAppend(cfg.task, s.log, Resumed(prior));
    MetaSoundAppend(cfg.task, s.log, Resumed(prior));
    SameReflexive(Restored(s.log));
  }

  lemma BeginFaithful(cfg: Config, s: Session)
    requires Faithful(cfg, s) && Enabled(cfg, s, Begin)
    ensures Faithful(cfg, Step(cfg, s, Begin))
  {
    hide MetaSound, Live;
    LiveAppend(cfg.task, s.log, Item(Task(cfg.task)));
    MetaSoundAppend(cfg.task, s.log, Item(Task(cfg.task)));
  }

  lemma StepFaithful(cfg: Config, s: Session, ev: Event)
    requires Faithful(cfg, s) && Enabled(cfg, s, ev)
    ensures Faithful(cfg, Step(cfg, s, ev))
  {
    hide MetaSound, SameUpToMicro, Live, Gate, Reconstruct;
    if ev.Begin? { BeginFaithful(cfg, s); }
    else if ev.Resume? { ResumeFaithful(cfg, s, ev.priorTurns); }
    else if ev.RunGate? { GateFaithful(cfg, s, ev.summary); }
    else if ev.End? { MetaSoundAppend(cfg.task, s.log, SessionEnd); }
    else if !ev.Crash? && !ev.NextTurn? && !ev.Invoke? {
      var m, s' := s.mem.value, Step(cfg, s, ev);
      var line, phase := s'.log[|s.log|], s'.mem.value.phase;
      if line.Item? {
        PushFaithful(cfg, s, m, line.entry, phase);
      } else {
        NoteFaithful(cfg, s, m.(effects := s'.mem.value.effects), line, phase);
      }
    }
  }

  lemma {:induction false} RunFaithful(cfg: Config, evs: seq<Event>)
    ensures Faithful(cfg, Run(cfg, evs))
  {
    if evs != [] {
      hide Enabled, Step, Faithful;
      var init, ev := evs[..|evs| - 1], evs[|evs| - 1];
      RunFaithful(cfg, init);
      if Enabled(cfg, Run(cfg, init), ev) {
        StepFaithful(cfg, Run(cfg, init), ev);
      }
    } else {
      EmptyFaithful(cfg);
    }
  }

  lemma EmptyFaithful(cfg: Config)
    ensures Faithful(cfg, EMPTY)
  {
  }

  /** Memory is the end of the rebuilt transcript, but for summarised payloads and a task text. */
  lemma MemoryEnds(cfg: Config, s: Session)
    requires Faithful(cfg, s) && s.mem.Some?
    ensures var r, m := Restored(s.log), s.mem.value.transcript; |m| <= |r| && Alike(r[|r| - |m|..], m)
  {
    hide MetaSound, Live, Replay, MetaTask, CompactedSinceStart, StartedOver;
    LiveIsReplay(cfg.task, s.log, MetaTask(s.log));
    var r, m, v := Restored(s.log), s.mem.value.transcript, Live(cfg.task, s.log);
    assert forall i :: 0 <= i < |m| ==> EntrySame(v[i], m[i]);
  }

  /** Memory is the end of the rebuilt transcript, and all of it exactly when log and memory are in step. */
  lemma FaithfulMeaning(cfg: Config, s: Session)
    requires Faithful(cfg, s) && s.mem.Some?
    ensures var r, m := Restored(s.log), s.mem.value.transcript;
      && |m| <= |r|
      && (forall i :: 0 <= i < |m| && |r| - |m| + i > 0 ==> EntrySame(r[|r| - |m| + i], m[i]))
      && (SameUpToMicro(r, m) <==> InStep(cfg.task, s.log))
  {
    hide MetaSound, Live, Replay, MetaTask, CompactedSinceStart, StartedOver;
    LiveIsReplay(cfg.task, s.log, MetaTask(s.log));
    var r, m, v := Restored(s.log), s.mem.value.transcript, Live(cfg.task, s.log);
    var off := |r| - |v|;
    if !CompactedSinceStart(s.log) && StartedOver(s.log) {
      assert forall i :: 0 <= i < |v| ==> v[i] == r[off..][i] == r[off + i];
    }
    assert forall i :: 0 <= i < |m| ==> EntrySame(v[i], m[i]);
  }

  /** At every moment of every chain of runs, crashes, resumes and fresh starts, memory is the end of the transcript
      that the log rebuilds, except that memory may hold summarised payloads and the task text of the rebuilt
      first entry may be lost.  The two are the same exactly when they are in step. */
  lemma RecoveryFidelity(cfg: Config, evs: seq<Event>)
    ensures var s := Run(cfg, evs);
      s.mem.Some? ==>
        var r, m := Reconstruct(s.log).transcript, s.mem.value.transcript;
        && |m| <= |r|
        && (forall i :: 0 <= i < |m| && |r| - |m| + i > 0 ==> EntrySame(r[|r| - |m| + i], m[i]))
        && (SameUpToMicro(r, m) <==> InStep(cfg.task, s.log))
    ensures var log := Run(cfg, evs).log; MetaTask(log) == if HasMeta(log) then cfg.task else ""
  {
    RunFaithful(cfg, evs);
    hide Run, SameUpToMicro, EntrySame, Replay, InStep, Booting;
    var s := Run(cfg, evs);
    MetaTaskKnown(cfg.task, s.log);
    if s.mem.Some? {
      FaithfulMeaning(cfg, s);
    }
  }

  lemma StepWritesOneLine(cfg: Config, s: Session, ev: Event)
    requires Enabled(cfg, s, ev)
    ensures var s' := Step(cfg, s, ev);
      && s.log <= s'.log && |s'.log| <= |s.log| + 1
      && (|s'.log| > |s.log| ==> (s'.mem.None? <==> s'.log[|s.log|].SessionEnd?))
  {
    hide Gate, Reconstruct, AddResults;
  }

  /** The same for every prefix of the log, that is for every crash point: just after the prefix's last
      line was written, memory held the transcript that the prefix rebuilds.  (A session's end
      leaves no memory.) */
  lemma {:induction false} PrefixFidelity(cfg: Config, evs: seq<Event>, k: nat) returns (moment: nat)
    requires var log := Run(cfg, evs).log; 0 < k <= |log| && !log[k - 1].SessionEnd?
    ensures 0 < moment <= |evs|
    ensures var prefix := Run(cfg, evs).log[..k];
      var before, s := Run(cfg, evs[..moment - 1]), Run(cfg, evs[..moment]);
      && before.log == prefix[..k - 1] && s.log == prefix && s.mem.Some?
      && (SameUpToMicro(Reconstruct(prefix).transcript, s.mem.value.transcript) <==> InStep(cfg.task, prefix))
  {
    hide Enabled, Step, Reconstruct, SameUpToMicro, InStep;
    var init, ev := evs[..|evs| - 1], evs[|evs| - 1];
    var before, s := Run(cfg, init), Run(cfg, evs);
    if Enabled(cfg, before, ev) {
      StepWritesOneLine(cfg, before, ev);
    }
    if k <= |before.log| {
      moment := PrefixFidelity(cfg, init, k);
      assert init[..moment] == evs[..moment] && init[..moment - 1] == evs[..moment - 1];
      assert s.log[..k] == before.log[..k];
    } else {
      moment := |evs|;
      assert evs[..moment] == evs && s.log[..k] == s.log && s.log[..k][..k - 1] == before.log;
      RecoveryFidelity(cfg, evs);
    }
  }

  /** Exactly when a full compaction keeps the log and memory in step: when the log's meta line
      carries the task (a log without a meta line counts as the empty task). */
  lemma CompactionFidelity(cfg: Config, s: Session, summary: string)
    requires Enabled(cfg, s, RunGate(summary)) && Gate(cfg, s.mem.value.transcript, summary).Condensed?
    ensures var s' := Step(cfg, s, RunGate(summary));
      SameUpToMicro(Reconstruct(s'.log).transcript, s'.mem.value.transcript) <==> MetaTask(s.log) == cfg.task
  {
    hide Gate, Replay, HasMeta, MetaTask;
    var m := s.mem.value;
    var g := Gate(cfg, m.transcript, summary);
    var line := Compacted(g.summary, g.kept);
    CondensedParts(cfg, m.transcript, summary);
    MetaTaskAppend(s.log, line);
    ReplayAppend(s.log, line, MetaTask(s.log));
    var rebuilt := Replay(s.log + [line], MetaTask(s.log));
    assert rebuilt[0] == Task(MetaTask(s.log)) && g.transcript[0] == Task(cfg.task);
  }
}
