/** Vocabulary of the orchestrator's stage walk, and counting over its audit log. */
module StageWalk {
  import opened Common

  datatype Stage =
    | Scope | Retrieve | VerifySources | BuildEvidence | GenerateHypotheses | CritiqueFalsify
    | RankHypotheses | PlanExperiment | ExecuteExperiment | Feedback | Revise | Export

  datatype StageState = Pending | Running | Done | Failed | Skipped

  /** What a record's error text starts with: resume reopens skips by these markers. */
  datatype Marker = NoError | BudgetExhausted | TemplateRefused | OtherError

  datatype Record = Record(state: StageState, attempt: nat, started: bool, error: Marker)

  datatype Status = Created | Queued | InProgress | Paused | Partial | Completed | Broken | Cancelled

  datatype Step = StageStep(stage: Stage) | AgentStep(id: nat, attemptCap: nat)

  datatype Plan = Plan(byDefault: bool, version: nat, steps: seq<Step>)

  /** The audit events this model keeps. */
  datatype Event = StageStarted(stage: Stage, attempt: nat) | Regenerated(round: nat) | RoundStarted(round: nat)

  type Records = m: map<Stage, Record> | forall s: Stage :: s in m
    witness map s: Stage | s in AllStages() :: FreshRecord()

  function FreshRecord(): Record { Record(Pending, 1, false, NoError) }

  function AllStages(): (r: set<Stage>)
    ensures forall s: Stage :: s in r
    ensures |r| == STAGE_COUNT
  {
    var r := {Scope, Retrieve, VerifySources, BuildEvidence, GenerateHypotheses, CritiqueFalsify,
              RankHypotheses, PlanExperiment, ExecuteExperiment, Feedback, Revise, Export};
    assert |r| == 12;
    assert forall s: Stage :: s in r by {
      forall s: Stage ensures s in r {
        assert s.Scope? || s.Retrieve? || s.VerifySources? || s.BuildEvidence? || s.GenerateHypotheses?
            || s.CritiqueFalsify? || s.RankHypotheses? || s.PlanExperiment? || s.ExecuteExperiment? || s.Feedback?
            || s.Revise? || s.Export?;
      }
    }
    r
  }

  const STAGE_COUNT := 12
  const MAX_QUALITY_ROUNDS := 2

  function DefaultPlan(): Plan {
    Plan(true, 1, [StageStep(Scope), StageStep(Retrieve), StageStep(VerifySources), StageStep(BuildEvidence),
                   StageStep(GenerateHypotheses), StageStep(CritiqueFalsify), StageStep(RankHypotheses),
                   StageStep(PlanExperiment), StageStep(ExecuteExperiment), StageStep(Feedback), StageStep(Revise),
                   StageStep(Export)])
  }

  predicate Terminal(r: Record) { r.state == Done || r.state == Skipped }

  predicate AllTerminal(m: Records) { forall s: Stage | s in AllStages() :: Terminal(m[s]) }

  /** The stages a walk may still start. */
  function Open(m: Records): (r: set<Stage>)
    ensures |r| <= STAGE_COUNT
  {
    var r := set s: Stage | s in AllStages() && !Terminal(m[s]);
    assert r <= AllStages();
    SubsetSize(r, AllStages());
    r
  }

  lemma InOpen(m: Records, s: Stage)
    ensures s in Open(m) <==> !Terminal(m[s])
  {
  }

  /** Closing one open stage removes exactly it. */
  lemma CloseOne(m: Records, s: Stage, r: Record)
    requires !Terminal(m[s]) && Terminal(r)
    ensures |Open(m[s := r])| == |Open(m)| - 1
  {
    hide *;
    var n: Records := m[s := r];
    forall t: Stage ensures t in Open(n) <==> t in Open(m) - {s} {
      InOpen(m, t);
      InOpen(n, t);
    }
    InOpen(m, s);
    SameMembers(Open(n), Open(m) - {s});
  }

  lemma SameMembers(a: set<Stage>, b: set<Stage>)
    requires forall s: Stage :: s in a <==> s in b
    ensures a == b
  {
  }

  /** Touching a stage that stays open changes nothing. */
  lemma SameOpen(m: Records, n: Records)
    requires forall t: Stage :: Terminal(m[t]) <==> Terminal(n[t])
    ensures Open(n) == Open(m)
  {
  }

  const REGENERATION_LEG: set<Stage> := {GenerateHypotheses, CritiqueFalsify, RankHypotheses}

  function Reopened(m: Records, leg: set<Stage>): Records {
    map s: Stage | s in AllStages() :: if s in leg then m[s].(state := Pending, error := NoError) else m[s]
  }

  lemma ReopenAtMost(m: Records, leg: set<Stage>)
    ensures |Open(Reopened(m, leg))| <= |Open(m)| + |leg|
  {
    assert Open(Reopened(m, leg)) <= Open(m) + leg;
    SubsetSize(Open(Reopened(m, leg)), Open(m) + leg);
  }

  /** The finished stages of a leg. */
  function ClosedOf(m: Records, leg: set<Stage>): set<Stage> { set s | s in leg && Terminal(m[s]) }

  /** The finished or failed stages of a leg. */
  function SettledOf(m: Records, leg: set<Stage>): set<Stage> {
    set s | s in leg && (Terminal(m[s]) || m[s].state == Failed)
  }

  /** The stages skipped with a marker. */
  function MarkedOf(m: Records, marker: Marker): set<Stage> {
    set s: Stage | s in AllStages() && m[s].state == Skipped && m[s].error == marker
  }

  /** Reopening in two steps is reopening once, whichever stages the second step finds finished. */
  lemma ReopenClosedNext(m: Records, a: set<Stage>, leg: set<Stage>)
    ensures Reopened(Reopened(m, a), ClosedOf(Reopened(m, a), leg)) == Reopened(m, a + ClosedOf(m, leg))
  {
    hide AllStages;
  }

  lemma ReopenMarkedNext(m: Records, a: set<Stage>, marker: Marker)
    ensures Reopened(Reopened(m, a), MarkedOf(Reopened(m, a), marker)) == Reopened(m, a + MarkedOf(m, marker))
  {
    hide AllStages;
  }

  lemma ReopenNothing(m: Records)
    ensures Reopened(m, {}) == m
  {
    hide AllStages;
  }

  function AgentIds(steps: seq<Step>): set<nat> {
    set i | 0 <= i < |steps| && steps[i].AgentStep? :: steps[i].id
  }

  function PendingAgents(steps: seq<Step>, done: set<nat>): nat { |AgentIds(steps) - done| }

  lemma DoneAgentShrinks(steps: seq<Step>, done: set<nat>, id: nat)
    requires id in AgentIds(steps) && id !in done
    ensures PendingAgents(steps, done + {id}) < PendingAgents(steps, done)
  {
    assert AgentIds(steps) - (done + {id}) == AgentIds(steps) - done - {id};
  }

  /** The kernel planner inserts one debate step behind rank, and only into an untouched default plan. */
  function PlanRevision(p: Plan, contested: bool): Option<Plan> {
    if !p.byDefault || (exists i :: 0 <= i < |p.steps| && p.steps[i].AgentStep?) || !contested then None
    else
      var i := IndexOfStage(p.steps, RankHypotheses);
      if i < 0 || i == |p.steps| - 1 then None
      else Some(Plan(false, p.version + 1, p.steps[..i + 1] + [AgentStep(p.version + 1, 1)] + p.steps[i + 1..]))
  }

  /** Taking the step at `k` out gives the old plan back: it is the debate, and stands right behind a rank stage. */
  predicate InsertsDebate(p: Plan, q: Plan, k: nat) {
    && 0 < k < |q.steps| - 1 && q.steps[..k] + q.steps[k + 1..] == p.steps
    && q.steps[k - 1] == StageStep(RankHypotheses) && (forall i :: 0 <= i < k - 1 ==> q.steps[i] != StageStep(RankHypotheses))
    && q.steps[k] == AgentStep(p.version + 1, 1)
  }

  /** A revision happens exactly to a contested default plan without agent steps in which the first rank stage is not the
      last step; the revised plan is no default any more, so it happens once. */
  lemma RevisionExactly(p: Plan, contested: bool)
    ensures var q := PlanRevision(p, contested);
      && (q.Some? <==>
            && p.byDefault && contested && (forall i :: 0 <= i < |p.steps| ==> p.steps[i].StageStep?)
            && 0 <= IndexOfStage(p.steps, RankHypotheses) < |p.steps| - 1)
      && (q.Some? ==>
            && InsertsDebate(p, q.value, IndexOfStage(p.steps, RankHypotheses) + 1)
            && !q.value.byDefault && q.value.version == p.version + 1
            && PlanRevision(q.value, contested) == None)
  {
    var i := IndexOfStage(p.steps, RankHypotheses);
    FirstRank(p.steps, RankHypotheses);
    if PlanRevision(p, contested).Some? {
      var q := PlanRevision(p, contested).value;
      assert q.steps[..i + 1] == p.steps[..i + 1] && q.steps[i + 2..] == p.steps[i + 1..];
      assert p.steps == p.steps[..i + 1] + p.steps[i + 1..];
    }
  }

  lemma {:induction false} FirstRank(steps: seq<Step>, s: Stage)
    ensures var r := IndexOfStage(steps, s);
      if r < 0 then StageStep(s) !in steps else forall j :: 0 <= j < r ==> steps[j] != StageStep(s)
  {
    if steps != [] && steps[0] != StageStep(s) {
      FirstRank(steps[1..], s);
      assert steps == [steps[0]] + steps[1..];
    }
  }

  /** A stage's place in the declared order. */
  function Place(s: Stage): nat {
    match s
    case Scope => 0
    case Retrieve => 1
    case VerifySources => 2
    case BuildEvidence => 3
    case GenerateHypotheses => 4
    case CritiqueFalsify => 5
    case RankHypotheses => 6
    case PlanExperiment => 7
    case ExecuteExperiment => 8
    case Feedback => 9
    case Revise => 10
    case Export => 11
  }

  /** The default plan has one step for every stage, in the declared order. */
  lemma DefaultPlanIsComplete(s: Stage)
    ensures |DefaultPlan().steps| == STAGE_COUNT && Place(s) < STAGE_COUNT && DefaultPlan().steps[Place(s)] == StageStep(s)
  {
  }

  /** Position of the first step for a stage, or -1. */
  function IndexOfStage(steps: seq<Step>, s: Stage): (r: int)
    ensures -1 <= r < |steps|
    ensures r >= 0 ==> steps[r] == StageStep(s)
  {
    if steps == [] then -1
    else if steps[0] == StageStep(s) then 0
    else
      var r := IndexOfStage(steps[1..], s);
      if r < 0 then -1 else r + 1
  }

  // ----- counting over the log -----

  function Starts(log: seq<Event>): nat {
    if log == [] then 0 else Starts(log[..|log| - 1]) + (if log[|log| - 1].StageStarted? then 1 else 0)
  }

  function StartsOf(log: seq<Event>, s: Stage): nat {
    if log == [] then 0
    else
      var e := log[|log| - 1];
      StartsOf(log[..|log| - 1], s) + (if e.StageStarted? && e.stage == s then 1 else 0)
  }

  function Regenerations(log: seq<Event>): nat {
    if log == [] then 0 else Regenerations(log[..|log| - 1]) + (if log[|log| - 1].Regenerated? then 1 else 0)
  }

  function Rounds(log: seq<Event>): nat {
    if log == [] then 0 else Rounds(log[..|log| - 1]) + (if log[|log| - 1].RoundStarted? then 1 else 0)
  }

  /** The k-th start of a stage carries attempt number k. */
  ghost predicate Numbered(log: seq<Event>) {
    forall i :: 0 <= i < |log| && log[i].StageStarted? ==> log[i].attempt == StartsOf(log[..i], log[i].stage) + 1
  }

  lemma Appended(log: seq<Event>, e: Event)
    ensures var m := log + [e];
      && Starts(m) == Starts(log) + (if e.StageStarted? then 1 else 0)
      && Regenerations(m) == Regenerations(log) + (if e.Regenerated? then 1 else 0)
      && Rounds(m) == Rounds(log) + (if e.RoundStarted? then 1 else 0)
  {
    assert (log + [e])[..|log|] == log;
  }

  lemma StartsOfAppended(log: seq<Event>, e: Event, s: Stage)
    ensures StartsOf(log + [e], s) == StartsOf(log, s) + (if e.StageStarted? && e.stage == s then 1 else 0)
  {
    assert (log + [e])[..|log|] == log;
  }

  lemma {:induction false} StartsOfGrows(log: seq<Event>, k: nat, s: Stage)
    requires k <= |log|
    ensures StartsOf(log[..k], s) <= StartsOf(log, s)
  {
    if k < |log| {
      var n := |log| - 1;
      StartsOfGrows(log[..n], k, s);
      assert log[..n][..k] == log[..k];
    } else {
      assert log[..k] == log;
    }
  }

  /** Later starts of a stage carry strictly larger attempt numbers. */
  lemma AttemptsIncrease(log: seq<Event>, i: nat, j: nat)
    requires Numbered(log) && i < j < |log|
    requires log[i].StageStarted? && log[j].StageStarted? && log[i].stage == log[j].stage
    ensures log[i].attempt < log[j].attempt
  {
    var s := log[i].stage;
    StartsOfAppended(log[..i], log[i], s);
    assert log[..i] + [log[i]] == log[..i + 1];
    StartsOfGrows(log[..j], i + 1, s);
    assert log[..j][..i + 1] == log[..i + 1];
  }

  lemma AppendedNumbered(log: seq<Event>, e: Event)
    requires Numbered(log) && (e.StageStarted? ==> e.attempt == StartsOf(log, e.stage) + 1)
    ensures Numbered(log + [e])
  {
    var m := log + [e];
    forall i | 0 <= i < |m| && m[i].StageStarted?
      ensures m[i].attempt == StartsOf(m[..i], m[i].stage) + 1
    {
      assert m[..i] == log[..i];
    }
  }

  /** A record agrees with the log: a started stage's attempt is its number of starts. */
  predicate Agrees(r: Record, starts: nat) {
    if r.started then r.attempt == starts && starts >= 1 else r.attempt == 1 && starts == 0
  }

  ghost predicate History(m: Records, log: seq<Event>) {
    Numbered(log) && forall s: Stage :: Agrees(m[s], StartsOf(log, s))
  }

  /** Attempts and start marks survive: nothing that happened is taken back. */
  ghost predicate Grew(m: Records, log: seq<Event>, m': Records, log': seq<Event>) {
    log <= log' && forall s: Stage :: m[s].attempt <= m'[s].attempt && (m[s].started ==> m'[s].started)
  }

  lemma GrewStays(m: Records, log: seq<Event>)
    ensures Grew(m, log, m, log)
  {
  }

  lemma GrewFurther(m: Records, log: seq<Event>, m': Records, log': seq<Event>, m'': Records, log'': seq<Event>)
    requires Grew(m, log, m', log') && Grew(m', log', m'', log'')
    ensures Grew(m, log, m'', log'')
  {
    assert log'' == log' + log''[|log'|..];
  }

  function Patched(m: Records, s: Stage, state: StageState, error: Marker): Records {
    m[s := m[s].(state := state, error := error)]
  }

  lemma PatchKeeps(m: Records, log: seq<Event>, s: Stage, state: StageState, error: Marker)
    requires History(m, log)
    ensures History(Patched(m, s, state, error), log) && Grew(m, log, Patched(m, s, state, error), log)
  {
    hide Numbered, StartsOf;
  }

  lemma ReopenKeeps(m: Records, log: seq<Event>, leg: set<Stage>)
    requires History(m, log)
    ensures History(Reopened(m, leg), log) && Grew(m, log, Reopened(m, leg), log)
  {
    hide Numbered, StartsOf;
  }

  /** A never-started stage counts from zero; a restarted one from its persisted attempt. */
  function NextAttempt(r: Record): nat { (if r.started then r.attempt else 0) + 1 }

  function Started(m: Records, s: Stage): Records {
    m[s := Record(Running, NextAttempt(m[s]), true, NoError)]
  }

  lemma StartKeeps(m: Records, log: seq<Event>, s: Stage)
    requires History(m, log)
    ensures var e := StageStarted(s, NextAttempt(m[s]));
      History(Started(m, s), log + [e]) && Grew(m, log, Started(m, s), log + [e])
  {
    hide Numbered, StartsOf, Started, Agrees, NextAttempt;
    var e := StageStarted(s, NextAttempt(m[s]));
    StartAgrees(m, log, s, s);
    AppendedNumbered(log, e);
    forall t: Stage
      ensures Agrees(Started(m, s)[t], StartsOf(log + [e], t))
      ensures m[t].attempt <= Started(m, s)[t].attempt && (m[t].started ==> Started(m, s)[t].started)
    {
      StartAgrees(m, log, s, t);
    }
  }

  lemma StartAgrees(m: Records, log: seq<Event>, s: Stage, t: Stage)
    requires Agrees(m[s], StartsOf(log, s)) && Agrees(m[t], StartsOf(log, t))
    ensures var e := StageStarted(s, NextAttempt(m[s]));
      && Agrees(Started(m, s)[t], StartsOf(log + [e], t))
      && e.attempt == StartsOf(log, s) + 1
      && m[t].attempt <= Started(m, s)[t].attempt && (m[t].started ==> Started(m, s)[t].started)
  {
    hide StartsOf;
    StartsOfAppended(log, StageStarted(s, NextAttempt(m[s])), t);
  }

  lemma NoteKeeps(m: Records, log: seq<Event>, e: Event)
    requires History(m, log) && !e.StageStarted?
    ensures History(m, log + [e]) && Grew(m, log, m, log + [e])
  {
    hide Numbered, StartsOf;
    AppendedNumbered(log, e);
    forall t: Stage ensures Agrees(m[t], StartsOf(log + [e], t)) {
      StartsOfAppended(log, e, t);
    }
  }

  lemma StartStaysOpen(m: Records, s: Stage)
    requires !Terminal(m[s])
    ensures Open(Started(m, s)) == Open(m)
  {
    SameOpen(m, Started(m, s));
  }

  lemma OpenIsPositive(m: Records, s: Stage)
    requires !Terminal(m[s])
    ensures |Open(m)| >= 1
  {
    InOpen(m, s);
  }
}
