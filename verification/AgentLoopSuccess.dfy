/** Only a success suppresses a repeat: whatever a session takes for done, in memory or rebuilt from a log, is a
    successful result that was logged under that action, so an action that only ever failed stays retryable. */
module AgentLoopSuccess {
  import opened Common
  import opened Compaction
  import opened Rollout
  import opened AgentLoop
  import opened AgentLoopRecovery
  import opened AgentLoopTurns

  // ----- on any log -----

  predicate HasSuccess(tr: seq<Entry>, id: ActionId) { exists i :: 0 <= i < |tr| && IsSuccess(tr[i], id) }

  /** A ledger line for a success of the action. */
  predicate HasLedgerLine(log: seq<Line>, id: ActionId) {
    exists k :: 0 <= k < |log| && log[k].EffectCommitted? && IsSuccess(log[k].entry, id)
  }

  lemma {:induction false} LedgerExactly(log: seq<Line>, id: ActionId)
    ensures id in Ledger(log) <==> HasLedgerLine(log, id)
    ensures id in Ledger(log) ==> EffectCommitted(Ledger(log)[id]) in log && IsSuccess(Ledger(log)[id], id)
  {
    if log != [] {
      var init, last := log[..|log| - 1], log[|log| - 1];
      LedgerExactly(init, id);
      assert log == init + [last];
      assert forall k :: 0 <= k < |init| ==> log[k] == init[k];
    }
  }

  lemma {:induction false} ResultsExactly(effects: map<ActionId, Entry>, tr: seq<Entry>, id: ActionId)
    ensures id in AddResults(effects, tr) <==> id in effects || HasSuccess(tr, id)
    ensures id in effects ==> AddResults(effects, tr)[id] == effects[id]
    ensures id !in effects && id in AddResults(effects, tr) ==>
      exists i :: 0 <= i < |tr| && tr[i] == AddResults(effects, tr)[id] && IsSuccess(tr[i], id) && !HasSuccess(tr[..i], id)
  {
    if tr != [] {
      var init, last := tr[..|tr| - 1], tr[|tr| - 1];
      ResultsExactly(effects, init, id);
      assert forall i :: 0 <= i < |init| ==> init[i] == tr[i] && tr[..i] == init[..i];
      assert tr[|init|] == last && tr[..|init|] == init;
    }
  }

  /** Rebuilt from any log whatever: an action counts as done exactly when the log has a ledger line with a success of
      it or the rebuilt transcript has a success of it, and what is remembered is the success of a ledger
      line if there is one, and else the first in the transcript. */
  lemma RebuiltAreSuccesses(log: seq<Line>, id: ActionId)
    ensures var r := Reconstruct(log);
      && (id in r.effects <==> HasLedgerLine(log, id) || HasSuccess(r.transcript, id))
      && (HasLedgerLine(log, id) ==> EffectCommitted(r.effects[id]) in log && IsSuccess(r.effects[id], id))
      && (id in r.effects && !HasLedgerLine(log, id) ==>
            exists i :: 0 <= i < |r.transcript| && r.transcript[i] == r.effects[id] && IsSuccess(r.transcript[i], id)
                        && !HasSuccess(r.transcript[..i], id))
  {
    hide Ledger, Replay, MetaTask, AddResults, IsSuccess, HasSuccess, HasLedgerLine;
    LedgerExactly(log, id);
    ResultsExactly(Ledger(log), Restored(log), id);
  }

  // ----- in every run -----

  /** The entry is a success of the action that was logged as a result, up to a summarised payload. */
  predicate Earned(log: seq<Line>, id: ActionId, e: Entry) {
    IsSuccess(e, id) && exists k :: 0 <= k < |log| && log[k].Item? && IsSuccess(log[k].entry, id) && EntrySame(log[k].entry, e)
  }

  ghost predicate AllEarned(log: seq<Line>, tr: seq<Entry>) {
    forall i, id :: 0 <= i < |tr| && IsSuccess(tr[i], id) ==> Earned(log, id, tr[i])
  }

  ghost predicate LedgerEarned(log: seq<Line>) {
    forall k :: 0 <= k < |log| && log[k].EffectCommitted? ==>
      exists id :: IsSuccess(log[k].entry, id) && Item(log[k].entry) in log
  }

  ghost predicate EffectsEarned(log: seq<Line>, effects: map<ActionId, Entry>) {
    forall id :: id in effects ==> Earned(log, id, effects[id])
  }

  predicate CommitEarned(log: seq<Line>, phase: Phase) {
    phase.CommitDue? ==> IsSuccess(phase.result, phase.id) && Item(phase.result) in log
  }

  ghost predicate Rightful(s: Session) {
    && AllEarned(s.log, Skeleton(s.log)) && LedgerEarned(s.log)
    && (s.mem.Some? ==> EffectsEarned(s.log, s.mem.value.effects) && CommitEarned(s.log, s.mem.value.phase))
  }

  lemma EarnedAppend(log: seq<Line>, line: Line, id: ActionId, e: Entry)
    requires Earned(log, id, e)
    ensures Earned(log + [line], id, e)
  {
    var k :| 0 <= k < |log| && log[k].Item? && IsSuccess(log[k].entry, id) && EntrySame(log[k].entry, e);
    assert (log + [line])[k] == log[k];
  }

  lemma EarnedBySame(log: seq<Line>, id: ActionId, a: Entry, b: Entry)
    requires Earned(log, id, a) && EntrySame(a, b)
    ensures Earned(log, id, b)
  {
  }

  lemma EarnedItem(log: seq<Line>, id: ActionId, e: Entry)
    requires IsSuccess(e, id) && Item(e) in log
    ensures Earned(log, id, e)
  {
    var k :| 0 <= k < |log| && log[k] == Item(e);
  }

  lemma EffectsAppend(log: seq<Line>, line: Line, effects: map<ActionId, Entry>)
    requires EffectsEarned(log, effects)
    ensures EffectsEarned(log + [line], effects)
  {
    hide Earned;
    forall id | id in effects
      ensures Earned(log + [line], id, effects[id])
    {
      EarnedAppend(log, line, id, effects[id]);
    }
  }

  lemma TranscriptAppend(log: seq<Line>, line: Line, tr: seq<Entry>)
    requires AllEarned(log, tr)
    ensures AllEarned(log + [line], tr)
    ensures line.Item? ==> AllEarned(log + [line], tr + [line.entry])
  {
    hide Earned, IsSuccess;
    forall i, id | 0 <= i < |tr| && IsSuccess(tr[i], id)
      ensures Earned(log + [line], id, tr[i])
    {
      EarnedAppend(log, line, id, tr[i]);
    }
    if line.Item? {
      var tr' := tr + [line.entry];
      forall i, id | 0 <= i < |tr'| && IsSuccess(tr'[i], id)
        ensures Earned(log + [line], id, tr'[i])
      {
        if i == |tr| {
          EarnedItem(log + [line], id, line.entry);
        } else {
          assert tr'[i] == tr[i];
        }
      }
    }
  }

  /** Compaction keeps the end of the transcript, so what it keeps was earned. */
  lemma BaselineEarned(log: seq<Line>, tr: seq<Entry>, task: string, summary: string, kept: seq<Entry>)
    requires AllEarned(log, tr) && KeepsSuffix(kept, tr)
    ensures AllEarned(log, Baseline(task, summary, kept))
  {
    hide Earned;
    var base, off := Baseline(task, summary, kept), |tr| - |kept|;
    var shift := |base| - |kept|;
    assert base[shift..] == kept;
    forall i, id | 0 <= i < |base| && IsSuccess(base[i], id)
      ensures Earned(log, id, base[i])
    {
      assert shift <= i && base[i] == kept[i - shift] && tr[off..][i - shift] == tr[i - shift + off];
      EarnedBySame(log, id, tr[i - shift + off], base[i]);
    }
  }

  /** An entry that is like one of an earned transcript is earned. */
  lemma AlikeEarned(log: seq<Line>, a: seq<Entry>, b: seq<Entry>)
    requires AllEarned(log, a) && Alike(a, b)
    ensures AllEarned(log, b)
  {
    hide Earned;
    forall i, id | 0 <= i < |b| && IsSuccess(b[i], id)
      ensures Earned(log, id, b[i])
    {
      assert EntrySame(a[i], b[i]);
      EarnedBySame(log, id, a[i], b[i]);
    }
  }

  lemma LedgerAppendEarned(log: seq<Line>, line: Line)
    requires LedgerEarned(log)
    requires line.EffectCommitted? ==> exists id :: IsSuccess(line.entry, id) && Item(line.entry) in log
    ensures LedgerEarned(log + [line])
  {
    hide IsSuccess;
    var log' := log + [line];
    forall k | 0 <= k < |log'| && log'[k].EffectCommitted?
      ensures exists id :: IsSuccess(log'[k].entry, id) && Item(log'[k].entry) in log'
    {
      assert k < |log| ==> log'[k] == log[k];
      assert k == |log| ==> log'[k] == line;
      var id :| IsSuccess(log'[k].entry, id) && Item(log'[k].entry) in log;
      assert Item(log'[k].entry) in log';
    }
  }

  /** What the log keeps when a line is written. */
  lemma LogRightful(log: seq<Line>, line: Line)
    requires AllEarned(log, Skeleton(log)) && LedgerEarned(log)
    requires line.EffectCommitted? ==> exists id :: IsSuccess(line.entry, id) && Item(line.entry) in log
    requires line.Compacted? ==> KeepsSuffix(line.kept, Skeleton(log))
    ensures AllEarned(log + [line], Skeleton(log + [line])) && LedgerEarned(log + [line])
  {
    hide Replay, AllEarned, LedgerEarned, KeepsSuffix;
    ReplayAppend(log, line, "");
    LedgerAppendEarned(log, line);
    if line.Compacted? {
      BaselineEarned(log, Skeleton(log), "", line.summary, line.kept);
      TranscriptAppend(log, line, Baseline("", line.summary, line.kept));
    } else {
      TranscriptAppend(log, line, Skeleton(log));
    }
  }

  /** A step that appends one line which is no ledger line, and leaves the effects alone. */
  lemma LineRightful(s: Session, s': Session, line: Line)
    requires Rightful(s) && s'.log == s.log + [line] && !line.EffectCommitted?
    requires line.Compacted? ==> KeepsSuffix(line.kept, Skeleton(s.log))
    requires s'.mem.Some? ==>
      (s'.mem.value.effects == map[] || (s.mem.Some? && s'.mem.value.effects == s.mem.value.effects)) && CommitEarned(s'.log, s'.mem.value.phase)
    ensures Rightful(s')
  {
    hide Skeleton, AllEarned, LedgerEarned, EffectsEarned, CommitEarned, KeepsSuffix;
    LogRightful(s.log, line);
    NothingEarned(s'.log);
    if s.mem.Some? { EffectsAppend(s.log, line, s.mem.value.effects); }
  }

  lemma NothingEarned(log: seq<Line>)
    ensures EffectsEarned(log, map[])
  {
  }

  lemma ResultRightful(cfg: Config, s: Session, ev: Event)
    requires Rightful(s) && Enabled(cfg, s, ev) && WritesResult(ev)
    ensures Rightful(Step(cfg, s, ev))
  {
    hide Skeleton, AllEarned, LedgerEarned, EffectsEarned;
    var s' := Step(cfg, s, ev);
    assert s'.log[|s.log|] in s'.log;
    LineRightful(s, s', s'.log[|s.log|]);
  }

  lemma CommitRightful(cfg: Config, s: Session)
    requires Rightful(s) && Enabled(cfg, s, Commit)
    ensures Rightful(Step(cfg, s, Commit))
  {
    hide Skeleton, AllEarned, LedgerEarned, EffectsEarned, Earned, IsSuccess;
    var m := s.mem.value;
    var line := EffectCommitted(m.phase.result);
    LogRightful(s.log, line);
    EffectsAppend(s.log, line, m.effects);
    EarnedItem(s.log + [line], m.phase.id, m.phase.result);
    OneMore(s.log + [line], m.effects, m.phase.id, m.phase.result);
  }

  lemma OneMore(log: seq<Line>, effects: map<ActionId, Entry>, id: ActionId, e: Entry)
    requires EffectsEarned(log, effects) && Earned(log, id, e)
    ensures EffectsEarned(log, effects[id := e])
  {
    hide Earned;
  }

  /** Context, records, steering, replies, markers and fresh starts. */
  lemma OtherRightful(cfg: Config, s: Session, ev: Event)
    requires Rightful(s) && Enabled(cfg, s, ev) && !ev.Commit? && !WritesResult(ev)
    requires ev.Begin? || ev.End? || Writes(ev)
    ensures Rightful(Step(cfg, s, ev))
  {
    hide Skeleton, AllEarned, LedgerEarned, EffectsEarned, Gate, Reconstruct;
    var s' := Step(cfg, s, ev);
    LineRightful(s, s', s'.log[|s.log|]);
  }

  lemma GateRightful(cfg: Config, s: Session, summary: string)
    requires Faithful(cfg, s) && Rightful(s) && Enabled(cfg, s, RunGate(summary))
    ensures Rightful(Step(cfg, s, RunGate(summary)))
  {
    hide Faithful, Skeleton, AllEarned, LedgerEarned, EffectsEarned, Gate, KeepsSuffix;
    var g := Gate(cfg, s.mem.value.transcript, summary);
    if g.Condensed? {
      GateKeepsSuffix(cfg, s, summary);
      LineRightful(s, Step(cfg, s, RunGate(summary)), Compacted(g.summary, g.kept));
    }
  }

  /** What a resume takes for done was earned: a ledger line repeats a logged success, and the transcript holds
      logged ones. */
  lemma KnowledgeEarned(log: seq<Line>)
    requires AllEarned(log, Skeleton(log)) && LedgerEarned(log)
    ensures EffectsEarned(log, AddResults(CommittedEffects(log), Restored(log)))
  {
    hide Ledger, Replay, MetaTask, AddResults, Earned, AllEarned;
    var tr := Restored(log);
    ReplaysAlike(log, "", MetaTask(log));
    AlikeEarned(log, Skeleton(log), tr);
    var known := AddResults(CommittedEffects(log), tr);
    forall id | id in known
      ensures Earned(log, id, known[id])
    {
      LedgerExactly(log, id);
      ResultsExactly(Ledger(log), tr, id);
      ResultsExactly(CommittedEffects(log), tr, id);
      if id in Ledger(log) {
        LedgerEntryEarned(log, id, Ledger(log)[id]);
      } else {
        TranscriptEarned(log, tr, id, known[id]);
      }
    }
  }

  lemma LedgerEntryEarned(log: seq<Line>, id: ActionId, e: Entry)
    requires LedgerEarned(log) && EffectCommitted(e) in log && IsSuccess(e, id)
    ensures Earned(log, id, e)
  {
    hide Earned;
    var k :| 0 <= k < |log| && log[k] == EffectCommitted(e);
    EarnedItem(log, id, e);
  }

  lemma TranscriptEarned(log: seq<Line>, tr: seq<Entry>, id: ActionId, e: Entry)
    requires AllEarned(log, tr) && IsSuccess(e, id) && e in tr
    ensures Earned(log, id, e)
  {
  }

  lemma ResumeRightful(cfg: Config, s: Session, prior: nat)
    requires Rightful(s) && Enabled(cfg, s, Resume(prior))
    ensures Rightful(Step(cfg, s, Resume(prior)))
  {
    hide Replay, MetaTask, AllEarned, LedgerEarned, EffectsEarned, AddResults, CommittedEffects, FindOpen;
    LogRightful(s.log, Resumed(prior));
    KnowledgeEarned(s.log);
    EffectsAppend(s.log, Resumed(prior), AddResults(CommittedEffects(s.log), Restored(s.log)));
  }

  lemma StepRightful(cfg: Config, s: Session, ev: Event)
    requires Faithful(cfg, s) && Rightful(s) && Enabled(cfg, s, ev)
    ensures Rightful(Step(cfg, s, ev))
  {
    hide Faithful, Skeleton, AllEarned, LedgerEarned, EffectsEarned, Gate, Reconstruct;
    if ev.Resume? { ResumeRightful(cfg, s, ev.priorTurns); }
    else if ev.RunGate? { GateRightful(cfg, s, ev.summary); }
    else if ev.Commit? { CommitRightful(cfg, s); }
    else if WritesResult(ev) { ResultRightful(cfg, s, ev); }
    else if !ev.Crash? && !ev.NextTurn? && !ev.Invoke? { OtherRightful(cfg, s, ev); }
  }

  lemma {:induction false} RunRightful(cfg: Config, evs: seq<Event>)
    ensures Rightful(Run(cfg, evs))
  {
    if evs != [] {
      hide Enabled, Step, Rightful, Faithful;
      var init, ev := evs[..|evs| - 1], evs[|evs| - 1];
      RunRightful(cfg, init);
      RunFaithful(cfg, init);
      if Enabled(cfg, Run(cfg, init), ev) {
        StepRightful(cfg, Run(cfg, init), ev);
      }
    } else {
      EmptyRightful();
    }
  }

  lemma EmptyRightful()
    ensures Rightful(EMPTY)
  {
  }

  /** In every run, every effect that memory holds for done is a success of that action, and the log has it as a result;
      so is every effect rebuilt from the log. */
  lemma KnownAreSuccesses(cfg: Config, evs: seq<Event>, id: ActionId)
    ensures var s := Run(cfg, evs);
      && (s.mem.Some? && id in s.mem.value.effects ==> Earned(s.log, id, s.mem.value.effects[id]))
      && (id in Reconstruct(s.log).effects ==> Earned(s.log, id, Reconstruct(s.log).effects[id]))
  {
    RunRightful(cfg, evs);
    hide Run, Replay, MetaTask, AddResults, Ledger, Earned, AllEarned, FindOpen, IsSuccess;
    var log := Run(cfg, evs).log;
    KnowledgeEarned(log);
    ResultsExactly(CommittedEffects(log), Restored(log), id);
  }

  // ----- answers from memory -----

  /** A success and an answer from memory that repeats it: the same action, the success's turn named, everything else
      alike up to a summarised payload. */
  predicate Repeats(first: Entry, e: Entry)
    requires e.ToolResult? && e.hash.Some? && e.replayOf.Some?
  {
    && IsSuccess(first, e.hash.value) && first.turn == e.replayOf.value
    && first.spilledTo == e.spilledTo && first.untrusted == e.untrusted
    && ((first.payload == e.payload && first.truncated == e.truncated) || e.truncated)
  }

  /** If the entry answers for an action from memory, it is an effectful action of its tool with a success in the log. */
  predicate Justified(log: seq<Line>, e: Entry) {
    e.ToolResult? && e.replayOf.Some? ==>
      && e.ok && e.hash.Some? && e.hash.value.risk != Read && e.hash.value.tool == e.tool
      && exists k :: 0 <= k < |log| && log[k].Item? && Repeats(log[k].entry, e)
  }

  predicate AllJustified(log: seq<Line>) {
    forall j :: 0 <= j < |log| && log[j].Item? ==> Justified(log[..j], log[j].entry)
  }

  lemma JustifiedAppend(log: seq<Line>, line: Line)
    requires AllJustified(log) && (line.Item? ==> Justified(log, line.entry))
    ensures AllJustified(log + [line])
  {
    hide Justified;
    var log' := log + [line];
    assert log[..|log|] == log;
    forall j | 0 <= j < |log'| && log'[j].Item?
      ensures Justified(log'[..j], log'[j].entry)
    {
      assert log'[..j] == log[..j] && (j < |log| ==> log'[j] == log[j]);
    }
  }

  lemma EarnedJustifies(log: seq<Line>, id: ActionId, prior: Entry, turn: nat)
    requires Earned(log, id, prior) && id.risk != Read
    ensures Justified(log, ReplayEntry(turn, id.tool, id, prior))
  {
    var k :| 0 <= k < |log| && log[k].Item? && IsSuccess(log[k].entry, id) && EntrySame(log[k].entry, prior);
    assert Repeats(log[k].entry, ReplayEntry(turn, id.tool, id, prior));
  }

  lemma StepJustified(cfg: Config, s: Session, ev: Event)
    requires Rightful(s) && AllJustified(s.log) && Enabled(cfg, s, ev)
    ensures AllJustified(Step(cfg, s, ev).log)
  {
    hide Skeleton, AllEarned, LedgerEarned, Earned, AllJustified, Repeats, Gate, Reconstruct, AddResults, ReplayEntry;
    var s' := Step(cfg, s, ev);
    if ev.Deduplicate? {
      EarnedJustifies(s.log, ev.id, s.mem.value.effects[ev.id], s.mem.value.turn);
      JustifiedAppend(s.log, s'.log[|s.log|]);
    } else if s'.log != s.log {
      StepWritesOneLine(cfg, s, ev);
      NoAnswer(cfg, s, ev);
      assert s'.log == s.log + [s'.log[|s.log|]];
      JustifiedAppend(s.log, s'.log[|s.log|]);
    }
  }

  /** Nothing but an answer from memory names an earlier turn. */
  lemma NoAnswer(cfg: Config, s: Session, ev: Event)
    requires Enabled(cfg, s, ev) && !ev.Deduplicate? && Step(cfg, s, ev).log != s.log
    ensures var log := Step(cfg, s, ev).log;
      |log| == |s.log| + 1 && s.log <= log && (log[|s.log|].Item? && log[|s.log|].entry.ToolResult? ==> log[|s.log|].entry.replayOf.None?)
  {
    hide Gate, Reconstruct, AddResults;
  }

  lemma {:induction false} RunJustified(cfg: Config, evs: seq<Event>)
    ensures AllJustified(Run(cfg, evs).log)
  {
    if evs != [] {
      hide Enabled, Step, Rightful, AllJustified;
      var init, ev := evs[..|evs| - 1], evs[|evs| - 1];
      RunJustified(cfg, init);
      RunRightful(cfg, init);
      if Enabled(cfg, Run(cfg, init), ev) {
        StepJustified(cfg, Run(cfg, init), ev);
      }
    }
  }

  /** In every run, an answer from memory is given only for an effectful action that succeeded before: it repeats an
      earlier successful result of the same action and names its turn. */
  lemma AnswersRepeatSuccesses(cfg: Config, evs: seq<Event>, j: nat)
    requires var log := Run(cfg, evs).log;
      j < |log| && log[j].Item? && log[j].entry.ToolResult? && log[j].entry.replayOf.Some?
    ensures var log := Run(cfg, evs).log;
      && log[j].entry.ok && log[j].entry.hash.Some?
      && log[j].entry.hash.value.risk != Read && log[j].entry.hash.value.tool == log[j].entry.tool
      && exists k :: 0 <= k < j && log[k].Item? && Repeats(log[k].entry, log[j].entry)
  {
    RunJustified(cfg, evs);
    hide Run, Repeats;
    var log := Run(cfg, evs).log;
    assert Justified(log[..j], log[j].entry);
    var k :| 0 <= k < |log[..j]| && log[..j][k].Item? && Repeats(log[..j][k].entry, log[j].entry);
    assert log[k] == log[..j][k];
  }

  // ----- what is retried and what is answered -----

  /** An action whose logged results are all failures, or that has none, is retryable: chosen again by any session, fresh or
      resumed, it can be started and is not answered from memory. */
  lemma FailureIsRetryable(cfg: Config, evs: seq<Event>, id: ActionId)
    requires var s := Run(cfg, evs);
      && s.mem.Some? && s.mem.value.phase == Chosen(id.tool)
      && forall k :: 0 <= k < |s.log| && s.log[k].Item? && s.log[k].entry.ToolResult? && s.log[k].entry.hash == Some(id) ==>
           !s.log[k].entry.ok
    ensures var s := Run(cfg, evs);
      Enabled(cfg, s, StartTool(id)) && !Enabled(cfg, s, Deduplicate(id))
  {
    KnownAreSuccesses(cfg, evs, id);
    hide Run, Reconstruct;
  }

  /** Only an effectful action that the session knows a success of is answered from memory; reading is always
      repeated. */
  lemma SuccessIsAnswered(cfg: Config, evs: seq<Event>, id: ActionId)
    requires var s := Run(cfg, evs); s.mem.Some? && s.mem.value.phase == Chosen(id.tool)
    ensures var s := Run(cfg, evs);
      && (Enabled(cfg, s, StartTool(id)) <==> id.risk == Read || id !in s.mem.value.effects)
      && (Enabled(cfg, s, Deduplicate(id)) <==> id.risk != Read && id in s.mem.value.effects)
  {
    KnownAreSuccesses(cfg, evs, id);
    hide Run, Reconstruct;
  }

  /** A resume knows exactly the actions with a success in the ledger or in the rebuilt transcript. */
  lemma ResumeKnowsExactly(cfg: Config, s: Session, prior: nat, id: ActionId)
    requires Enabled(cfg, s, Resume(prior))
    ensures id in Step(cfg, s, Resume(prior)).mem.value.effects <==> HasLedgerLine(s.log, id) || HasSuccess(Restored(s.log), id)
  {
    hide Replay, MetaTask, AddResults, Ledger, HasLedgerLine, HasSuccess, FindOpen, IsSuccess;
    LedgerExactly(s.log, id);
    ResultsExactly(Ledger(s.log), Restored(s.log), id);
    ResultsExactly(CommittedEffects(s.log), Restored(s.log), id);
  }
}
