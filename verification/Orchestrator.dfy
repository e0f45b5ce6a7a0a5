/** The orchestrator's reopening stage walk: one `Execute` walks the plan, may reopen a leg for one
    regeneration of hypotheses, and recurses for further bounded iteration rounds. */
module Orchestrator {
  import opened Common
  import opened StageWalk

  /** How a stage handler ends. Vanishes: the lease was lost or the worker died; nothing is written. */
  datatype HandlerOutcome =
    | NotApplicable(why: Marker) | SkippedBy(why: Marker) | Finished | OutOfBudget | Vanishes | Fails(cancelled: bool)

  datatype AgentOutcome = AgentRan | AgentAborted | AgentThrew | AgentVanishes

  /** Everything outside the machine's control during one turn of the walk. */
  datatype Reply = Reply(
    pick: Option<nat>, budgetLeft: bool, hasPlane: bool, agent: AgentOutcome,
    hasHandler: bool, handler: HandlerOutcome, weak: bool, budgetAfter: bool, contested: bool)

  /** The same at the entry of a pass and at its end. */
  datatype Entry = Entry(hasFeedback: bool, unverified: bool, tainted: bool)

  datatype Boundary = Boundary(budgetLeft: bool, sameFingerprint: bool, unconsumed: bool, experimentOpen: bool)

  /** An arbitrary outside world: pass number and turn number to behaviour. */
  datatype World = World(entry: nat -> Entry, turn: (nat, nat) -> Reply, boundary: nat -> Boundary)

  /** A turn advanced the walk, found no step to take, or ended the execution. */
  datatype Next = Advanced | NoStep | Ended

  const FEEDBACK_LEG: set<Stage> := {Feedback, Revise, Export}
  const EXPERIMENT_LEG: set<Stage> := {ExecuteExperiment, Feedback, Revise, Export}
  const EVIDENCE_LEG: set<Stage> := {VerifySources, BuildEvidence, Export}

  /** The configured number of rounds, clamped; zero and unset fall back to three. */
  function MaxRounds(configured: Option<real>): (r: real)
    ensures 1.0 <= r <= 10.0
    ensures configured.None? || configured.value == 0.0 ==> r == 3.0
    ensures configured.Some? && 1.0 <= configured.value <= 10.0 ==> r == configured.value
    ensures configured.Some? && configured.value > 10.0 ==> r == 10.0
    ensures configured.Some? && configured.value < 1.0 && configured.value != 0.0 ==> r == 1.0
  {
    var n := if configured.None? || configured.value == 0.0 then 3.0 else configured.value;
    if n < 1.0 then 1.0 else if n > 10.0 then 10.0 else n
  }

  /** Stop rules first, then the continue triggers in priority order. */
  function EvaluateIteration(round: nat, maxRounds: real, b: Boundary): (leg: Option<set<Stage>>)
    ensures leg == Some({Feedback, Revise, Export}) <==>
      round as real < maxRounds && b.budgetLeft && !(round > 1 && b.sameFingerprint) && b.unconsumed
    ensures leg == Some({ExecuteExperiment, Feedback, Revise, Export}) <==>
      round as real < maxRounds && b.budgetLeft && !(round > 1 && b.sameFingerprint) && !b.unconsumed && b.experimentOpen
    ensures leg.Some? ==> round as real < maxRounds && b.budgetLeft && !(round > 1 && b.sameFingerprint)
    ensures leg.Some? ==> b.unconsumed || b.experimentOpen
  {
    if round as real >= maxRounds then None
    else if !b.budgetLeft then None
    else if round > 1 && b.sameFingerprint then None
    else if b.unconsumed then Some(FEEDBACK_LEG)
    else if b.experimentOpen then Some(EXPERIMENT_LEG)
    else None
  }

  /** What a running stage's record becomes. */
  function Handled(m: Records, s: Stage, h: HandlerOutcome): Records {
    match h
    case NotApplicable(why) => Patched(m, s, Skipped, why)
    case SkippedBy(why) => Patched(m, s, Skipped, why)
    case OutOfBudget => Patched(m, s, Skipped, BudgetExhausted)
    case Vanishes => m
    case Fails(_) => Patched(m, s, Failed, OtherError)
    case Finished => Patched(m, s, Done, NoError)
  }

  /** A finished rank stage sends the run back for its one regeneration. */
  predicate Regenerates(s: Stage, qgRound: nat, r: Reply) {
    s == RankHypotheses && r.handler.Finished? && r.weak && qgRound < MAX_QUALITY_ROUNDS && r.budgetAfter
  }

  /** What a completed run reopens: the finished stages of the leg that new feedback, unprocessed
      evidence, or else a tainted bundle calls for. */
  function CompletedSet(m: Records, e: Entry): set<Stage> {
    if e.hasFeedback && e.unverified then ClosedOf(m, FEEDBACK_LEG) + ClosedOf(m, EVIDENCE_LEG)
    else if e.hasFeedback then ClosedOf(m, FEEDBACK_LEG)
    else if e.unverified then ClosedOf(m, EVIDENCE_LEG)
    else if e.tainted then ClosedOf(m, {Export})
    else {}
  }

  /** Everything an entry reopens; operational skips always. */
  function EntrySet(m: Records, completed: bool, e: Entry): set<Stage> {
    (if completed then CompletedSet(m, e) else {}) + MarkedOf(m, BudgetExhausted) + MarkedOf(m, TemplateRefused)
  }

  /** A stage that is over without ever having been started was skipped for lack of budget. */
  ghost predicate ClosedRightly(m: Records) {
    forall s: Stage :: Terminal(m[s]) && !m[s].started ==> m[s].state == Skipped && m[s].error == BudgetExhausted
  }

  /** Every stage that is over has been started. */
  ghost predicate AllStarted(m: Records) { forall s: Stage :: Terminal(m[s]) ==> m[s].started }

  // ----- what one offered stage step does, record by record -----

  /** How a started stage's record stands after its handler: state and marker. */
  function Ending(h: HandlerOutcome): (StageState, Marker) {
    match h
    case NotApplicable(why) => (Skipped, why)
    case SkippedBy(why) => (Skipped, why)
    case OutOfBudget => (Skipped, BudgetExhausted)
    case Vanishes => (Running, NoError)
    case Fails(_) => (Failed, OtherError)
    case Finished => (Done, NoError)
  }

  /** Except for `s`, and the leg when the run goes back for its regeneration, every record stays. */
  ghost predicate OthersStay(m: Records, s: Stage, again: bool, m': Records) {
    forall t: Stage :: t != s ==>
      m'[t] == if again && (t == GenerateHypotheses || t == CritiqueFalsify) then Record(Pending, m[t].attempt, m[t].started, NoError) else m[t]
  }

  /** Out of budget every stage but export is skipped unstarted with the marker that reopens it; without a handler it
      fails; otherwise it is started, the log says so with one more than its earlier starts, and its record is what the
      handler's outcome calls for. */
  ghost predicate StageTaken(m: Records, log: seq<Event>, qgRound: nat, s: Stage, r: Reply, m': Records, log': seq<Event>) {
    var again := Regenerates(s, qgRound, r);
    if s != Export && !r.budgetLeft then
      log' == log && OthersStay(m, s, false, m') && m'[s] == Record(Skipped, m[s].attempt, m[s].started, BudgetExhausted)
    else if !r.hasHandler then
      log' == log && OthersStay(m, s, false, m') && m'[s] == Record(Failed, m[s].attempt, m[s].started, OtherError)
    else
      && log' == log + [StageStarted(s, StartsOf(log, s) + 1)] + (if again then [Regenerated(qgRound + 1)] else [])
      && OthersStay(m, s, again, m')
      && var (state, error) := if again then (Pending, NoError) else Ending(r.handler);
         m'[s] == Record(state, StartsOf(log, s) + 1, true, error)
  }

  lemma StageTakenPatched(m: Records, log: seq<Event>, qgRound: nat, s: Stage, r: Reply, m': Records)
    requires if s != Export && !r.budgetLeft then m' == Patched(m, s, Skipped, BudgetExhausted)
      else !r.hasHandler && m' == Patched(m, s, Failed, OtherError)
    ensures StageTaken(m, log, qgRound, s, r, m', log)
  {
  }

  lemma StageTakenRun(m: Records, log: seq<Event>, qgRound: nat, s: Stage, r: Reply, m': Records, log': seq<Event>)
    requires History(m, log) && (s == Export || r.budgetLeft) && r.hasHandler
    requires var handled, again := Handled(Started(m, s), s, r.handler), Regenerates(s, qgRound, r);
      && m' == (if again then Reopened(handled, REGENERATION_LEG) else handled)
      && log' == log + [StageStarted(s, NextAttempt(m[s]))] + if again then [Regenerated(qgRound + 1)] else []
    ensures StageTaken(m, log, qgRound, s, r, m', log')
  {
    hide *;
    StartNumber(m, log, s);
    var handled, again := Handled(Started(m, s), s, r.handler), Regenerates(s, qgRound, r);
    HandledAt(m, s, r.handler);
    if again {
      OnlyRankRegenerates(s, qgRound, r);
      ReopenedRank(m, handled, s);
    } else {
      HandledOthers(m, s, handled);
    }
    TakenIfRun(m, log, qgRound, s, r, m', log');
  }

  lemma TakenIfRun(m: Records, log: seq<Event>, qgRound: nat, s: Stage, r: Reply, m': Records, log': seq<Event>)
    requires (s == Export || r.budgetLeft) && r.hasHandler && OthersStay(m, s, Regenerates(s, qgRound, r), m')
    requires log' == log + [StageStarted(s, StartsOf(log, s) + 1)] + if Regenerates(s, qgRound, r) then [Regenerated(qgRound + 1)] else []
    requires m'[s] == if Regenerates(s, qgRound, r) then Record(Pending, StartsOf(log, s) + 1, true, NoError)
      else Record(Ending(r.handler).0, StartsOf(log, s) + 1, true, Ending(r.handler).1)
    ensures StageTaken(m, log, qgRound, s, r, m', log')
  {
    hide Regenerates, OthersStay, StartsOf, Ending;
  }

  lemma StartNumber(m: Records, log: seq<Event>, s: Stage)
    requires History(m, log)
    ensures NextAttempt(m[s]) == StartsOf(log, s) + 1
  {
    hide Numbered, StartsOf;
    assert Agrees(m[s], StartsOf(log, s));
  }

  lemma OnlyRankRegenerates(s: Stage, qgRound: nat, r: Reply)
    ensures Regenerates(s, qgRound, r) ==> r.handler.Finished? && s == RankHypotheses
  {
  }

  lemma HandledOthers(m: Records, s: Stage, handled: Records)
    requires forall t: Stage :: t != s ==> handled[t] == m[t]
    ensures OthersStay(m, s, false, handled)
  {
  }

  lemma ReopenedRank(m: Records, handled: Records, s: Stage)
    requires s == RankHypotheses && forall t: Stage :: t != s ==> handled[t] == m[t]
    ensures OthersStay(m, s, true, Reopened(handled, REGENERATION_LEG))
    ensures Reopened(handled, REGENERATION_LEG)[s] == Record(Pending, handled[s].attempt, handled[s].started, NoError)
  {
    hide *;
    var n := Reopened(handled, REGENERATION_LEG);
    forall t: Stage
      ensures n[t] == AfterRegeneration(handled, t)
    {
      RegeneratedAt(handled, t);
    }
    RankStays(m, handled, n);
  }

  /** A record after the run went back for its regeneration. */
  function AfterRegeneration(m: Records, t: Stage): Record {
    if t == GenerateHypotheses || t == CritiqueFalsify || t == RankHypotheses
    then Record(Pending, m[t].attempt, m[t].started, NoError) else m[t]
  }

  lemma RankStays(m: Records, handled: Records, n: Records)
    requires forall t: Stage :: t != RankHypotheses ==> handled[t] == m[t]
    requires forall t: Stage :: n[t] == AfterRegeneration(handled, t)
    ensures OthersStay(m, RankHypotheses, true, n)
    ensures n[RankHypotheses] == Record(Pending, handled[RankHypotheses].attempt, handled[RankHypotheses].started, NoError)
  {
  }

  lemma RegeneratedAt(m: Records, t: Stage)
    ensures Reopened(m, REGENERATION_LEG)[t] == AfterRegeneration(m, t)
  {
    hide Reopened;
    ReopenedAt(m, REGENERATION_LEG, t);
  }

  /** A started stage's record after its handler. */
  lemma HandledAt(m: Records, s: Stage, h: HandlerOutcome)
    ensures var handled := Handled(Started(m, s), s, h);
      && handled[s] == Record(Ending(h).0, NextAttempt(m[s]), true, Ending(h).1)
      && forall t: Stage :: t != s ==> handled[t] == m[t]
  {
    hide Patched, NextAttempt, Handled, Ending, Started;
    var n := Started(m, s);
    StartedAt(m, s);
    HandledIsPatched(n, s, h);
    PatchedAt(n, s, Ending(h).0, Ending(h).1);
  }

  lemma StartedAt(m: Records, s: Stage)
    ensures var n := Started(m, s);
      n[s] == Record(Running, NextAttempt(m[s]), true, NoError) && forall t: Stage :: t != s ==> n[t] == m[t]
  {
    hide NextAttempt;
  }

  lemma HandledIsPatched(n: Records, s: Stage, h: HandlerOutcome)
    ensures Handled(n, s, h) == if h.Vanishes? then n else Patched(n, s, Ending(h).0, Ending(h).1)
    ensures h.Vanishes? ==> Ending(h) == (Running, NoError)
  {
    hide Patched;
  }

  lemma PatchedAt(m: Records, s: Stage, state: StageState, error: Marker)
    ensures var n := Patched(m, s, state, error);
      n[s] == Record(state, m[s].attempt, m[s].started, error) && forall t: Stage :: t != s ==> n[t] == m[t]
  {
  }

  lemma ReopenedAt(m: Records, leg: set<Stage>, t: Stage)
    ensures Reopened(m, leg)[t] == if t in leg then Record(Pending, m[t].attempt, m[t].started, NoError) else m[t]
  {
  }

  /** How the walk goes on after a stage step: it ends exactly on a missing handler, a failure or a lost worker. */
  predicate StageEnds(s: Stage, r: Reply, next: Next, status: Status) {
    if s != Export && !r.budgetLeft then next == Advanced && status == InProgress
    else if !r.hasHandler then next == Ended && status == Broken
    else if r.handler.Vanishes? then next == Ended && status == InProgress
    else if r.handler.Fails? then next == Ended && status == if r.handler.cancelled then Cancelled else Partial
    else next == Advanced && status == InProgress
  }

  /** With budget at hand nothing is closed unstarted. */
  lemma TakenKeepsStarted(m: Records, log: seq<Event>, qgRound: nat, s: Stage, r: Reply, m': Records, log': seq<Event>)
    requires StageTaken(m, log, qgRound, s, r, m', log') && AllStarted(m) && r.budgetLeft
    ensures AllStarted(m')
  {
    hide StartsOf;
  }

  /** The chooser named this stage step, it is not over, and it lies before the parking position. */
  predicate OffersStage(steps: seq<Step>, m: Records, r: Reply, stopIndex: Option<int>) {
    r.pick.Some? && r.pick.value < |steps| && steps[r.pick.value].StageStep?
    && m[steps[r.pick.value].stage].state != Done && m[steps[r.pick.value].stage].state != Skipped
    && (stopIndex.Some? ==> r.pick.value < stopIndex.value)
  }

  /** What one turn does to the stages: an offered stage is taken, and a turn that offers none leaves all records. */
  ghost predicate TurnTakes(steps: seq<Step>, m: Records, log: seq<Event>, qgRound: nat, r: Reply, stopIndex: Option<int>,
                            m': Records, log': seq<Event>) {
    if OffersStage(steps, m, r, stopIndex) then StageTaken(m, log, qgRound, steps[r.pick.value].stage, r, m', log')
    else m' == m && log' == log
  }

  lemma TurnKeepsStarted(steps: seq<Step>, m: Records, log: seq<Event>, qgRound: nat, r: Reply, stopIndex: Option<int>,
                         m': Records, log': seq<Event>)
    requires TurnTakes(steps, m, log, qgRound, r, stopIndex, m', log') && AllStarted(m) && r.budgetLeft
    ensures AllStarted(m')
  {
    hide StageTaken, AllStarted;
    if OffersStage(steps, m, r, stopIndex) {
      TakenKeepsStarted(m, log, qgRound, steps[r.pick.value].stage, r, m', log');
    }
  }

  // ----- parking -----

  /** The plan stays, or gets its one revision. */
  predicate PlanKept(p: Option<Plan>, q: Option<Plan>) { q == p || (p.Some? && q.Some? && q == PlanRevision(p.value, true)) }

  /** Every stage step stands in `steps`, no later than in `steps'`. */
  ghost predicate Earlier(steps: seq<Step>, steps': seq<Step>) {
    forall i :: 0 <= i < |steps'| && steps'[i].StageStep? ==> exists k :: 0 <= k <= i && k < |steps| && steps[k] == steps'[i]
  }

  /** A run without a plan gets the default one. */
  function PlanSteps(p: Option<Plan>): seq<Step> { if p.Some? then p.value.steps else DefaultPlan().steps }

  lemma PlanStays(p: Option<Plan>)
    ensures PlanKept(p, p)
  {
  }

  lemma UncontestedStays(p: Plan)
    ensures PlanRevision(p, false) == None
  {
  }

  lemma EarlierSelf(steps: seq<Step>)
    ensures Earlier(steps, steps)
  {
  }

  lemma EarlierFurther(a: seq<Step>, b: seq<Step>, c: seq<Step>)
    requires Earlier(a, b) && Earlier(b, c)
    ensures Earlier(a, c)
  {
    forall i | 0 <= i < |c| && c[i].StageStep?
      ensures exists k :: 0 <= k <= i && k < |a| && a[k] == c[i]
    {
      var m :| 0 <= m <= i && m < |b| && b[m] == c[i];
      var k :| 0 <= k <= m && k < |a| && a[k] == b[m];
    }
  }

  lemma RevisionKeepsEarlier(p: Plan, q: Option<Plan>)
    requires PlanKept(Some(p), q)
    ensures Earlier(p.steps, q.value.steps)
  {
    hide PlanRevision;
    RevisionExactly(p, true);
    if q != Some(p) {
      var k := IndexOfStage(p.steps, RankHypotheses) + 1;
      var steps := q.value.steps;
      assert steps[..k] + steps[k + 1..] == p.steps;
      forall i | 0 <= i < |steps| && steps[i].StageStep?
        ensures exists j :: 0 <= j <= i && j < |p.steps| && p.steps[j] == steps[i]
      {
        if i < k { assert p.steps[i] == steps[i]; } else { assert p.steps[i - 1] == steps[i]; }
      }
    } else {
      EarlierSelf(p.steps);
    }
  }

  /** Whatever was started since is a stage of the plan, before the parking position. */
  ghost predicate StartsBefore(steps: seq<Step>, stopIndex: Option<int>, log: seq<Event>, log': seq<Event>) {
    forall j :: |log| <= j < |log'| && log'[j].StageStarted? ==>
      exists i :: 0 <= i < |steps| && steps[i] == StageStep(log'[j].stage) && (stopIndex.Some? ==> i < stopIndex.value)
  }

  lemma LogGrew(m: Records, log: seq<Event>, m': Records, log': seq<Event>)
    requires Grew(m, log, m', log')
    ensures log <= log'
  {
  }

  lemma NothingStarted(steps: seq<Step>, stopIndex: Option<int>, log: seq<Event>)
    ensures StartsBefore(steps, stopIndex, log, log)
  {
  }

  /** One turn more starts at most the stage it was offered. */
  lemma TurnStartsBefore(first: seq<Step>, steps: seq<Step>, m: Records, log0: seq<Event>, log: seq<Event>, qgRound: nat, r: Reply,
                         stopIndex: Option<int>, m': Records, log': seq<Event>)
    requires TurnTakes(steps, m, log, qgRound, r, stopIndex, m', log') && Earlier(first, steps) && log0 <= log
    requires StartsBefore(first, stopIndex, log0, log)
    ensures StartsBefore(first, stopIndex, log0, log')
  {
    hide OthersStay, Ending, Regenerates, StartsOf;
    forall j | |log0| <= j < |log'| && log'[j].StageStarted?
      ensures exists i :: 0 <= i < |first| && first[i] == StageStep(log'[j].stage) && (stopIndex.Some? ==> i < stopIndex.value)
    {
      if j < |log| {
        assert log'[j] == log[j];
      } else {
        var i := r.pick.value;
        assert steps[i] == StageStep(log'[j].stage);
        var k :| 0 <= k <= i && k < |first| && first[k] == steps[i];
      }
    }
  }

  /** The world never runs out of budget. */
  ghost predicate Funded(w: World) { forall pass: nat, tick: nat :: w.turn(pass, tick).budgetLeft }

  /** The stages an entry reopens: of a completed run the finished ones that new feedback calls for, those that unprocessed
      evidence calls for, or else the export of a tainted bundle; and always the skips a resume can make good. */
  predicate EntryReopens(r: Record, s: Stage, completed: bool, e: Entry) {
    || ((r.state == Done || r.state == Skipped) && completed && (
          || (e.hasFeedback && (s == Feedback || s == Revise || s == Export))
          || (e.unverified && (s == VerifySources || s == BuildEvidence || s == Export))
          || (e.tainted && !e.hasFeedback && !e.unverified && s == Export)))
    || (r.state == Skipped && (r.error == BudgetExhausted || r.error == TemplateRefused))
  }

  ghost predicate EntryTaken(m: Records, completed: bool, e: Entry, m': Records) {
    forall s: Stage :: m'[s] ==
      (if EntryReopens(m[s], s, completed, e) then Record(Pending, m[s].attempt, m[s].started, NoError) else m[s])
  }

  lemma EntrySetMeaning(m: Records, completed: bool, e: Entry)
    ensures EntryTaken(m, completed, e, Reopened(m, EntrySet(m, completed, e)))
  {
    hide Reopened, EntrySet, EntryReopens;
    forall s: Stage
      ensures Reopened(m, EntrySet(m, completed, e))[s] ==
        if EntryReopens(m[s], s, completed, e) then Record(Pending, m[s].attempt, m[s].started, NoError) else m[s]
    {
      ReopenedAt(m, EntrySet(m, completed, e), s);
      EntrySetAt(m, completed, e, s);
    }
  }

  lemma EntrySetAt(m: Records, completed: bool, e: Entry, s: Stage)
    ensures s in EntrySet(m, completed, e) <==> EntryReopens(m[s], s, completed, e)
  {
    hide CompletedSet, MarkedOf, Terminal;
    CompletedAt(m, e, s);
    MarkedAt(m, BudgetExhausted, s);
    MarkedAt(m, TemplateRefused, s);
  }

  lemma CompletedAt(m: Records, e: Entry, s: Stage)
    ensures s in CompletedSet(m, e) <==>
      (m[s].state == Done || m[s].state == Skipped) && (
        || (e.hasFeedback && (s == Feedback || s == Revise || s == Export))
        || (e.unverified && (s == VerifySources || s == BuildEvidence || s == Export))
        || (e.tainted && !e.hasFeedback && !e.unverified && s == Export))
  {
  }

  lemma MarkedAt(m: Records, marker: Marker, s: Stage)
    ensures s in MarkedOf(m, marker) <==> m[s].state == Skipped && m[s].error == marker
  {
  }

  /** The named stages that are over or failed are pending again; all others stay. */
  ghost predicate SettledTaken(m: Records, leg: set<Stage>, m': Records) {
    forall s: Stage :: m'[s] == (
      if s in leg && (m[s].state == Done || m[s].state == Skipped || m[s].state == Failed)
      then Record(Pending, m[s].attempt, m[s].started, NoError) else m[s])
  }

  lemma SettledMeaning(m: Records, leg: set<Stage>)
    ensures SettledTaken(m, leg, Reopened(m, SettledOf(m, leg)))
  {
    hide Reopened;
    forall s: Stage
      ensures Reopened(m, SettledOf(m, leg))[s] == (
        if s in leg && (m[s].state == Done || m[s].state == Skipped || m[s].state == Failed)
        then Record(Pending, m[s].attempt, m[s].started, NoError) else m[s])
    {
      ReopenedAt(m, SettledOf(m, leg), s);
    }
  }

  /** When a run that is entered again looks at its records, the stages skipped for lack of budget are open again. */
  lemma EntryReopensUnstarted(m: Records, leg: set<Stage>)
    requires ClosedRightly(m) && MarkedOf(m, BudgetExhausted) <= leg
    ensures AllStarted(Reopened(m, leg))
  {
    forall s: Stage | Terminal(Reopened(m, leg)[s])
      ensures Reopened(m, leg)[s].started
    {
      ReopenedAt(m, leg, s);
    }
  }

  function Tries(attempts: map<nat, nat>, id: nat): nat { if id in attempts then attempts[id] else 0 }

  /** Done marks of agent steps stay, and a step with a done mark is not tried again. */
  ghost predicate AgentsKept(done: set<nat>, tries: map<nat, nat>, done': set<nat>, tries': map<nat, nat>) {
    done <= done' && forall id :: id in done ==> Tries(tries', id) == Tries(tries, id)
  }

  /** The chooser named this agent step, and it lies before the parking position. */
  predicate Names(steps: seq<Step>, r: Reply, stopIndex: Option<int>, id: nat) {
    r.pick.Some? && r.pick.value < |steps| && steps[r.pick.value].AgentStep? && steps[r.pick.value].id == id
    && (stopIndex.Some? ==> r.pick.value < stopIndex.value)
  }

  /** The step is offered with budget, a plane and attempts left. */
  predicate Startable(steps: seq<Step>, done: set<nat>, tries: map<nat, nat>, r: Reply, stopIndex: Option<int>, id: nat) {
    id !in done && Names(steps, r, stopIndex, id) && r.budgetLeft && r.hasPlane && Tries(tries, id) < steps[r.pick.value].attemptCap
  }

  /** The step is offered when the budget is spent. */
  predicate Starves(steps: seq<Step>, done: set<nat>, r: Reply, stopIndex: Option<int>, id: nat) {
    id !in done && Names(steps, r, stopIndex, id) && !r.budgetLeft
  }

  /** A turn tries an agent step exactly when it can be started. */
  ghost predicate TriesExactly(steps: seq<Step>, done: set<nat>, tries: map<nat, nat>, r: Reply, stopIndex: Option<int>, tries': map<nat, nat>) {
    forall id ::
      if Startable(steps, done, tries, r, stopIndex, id) then Tries(tries', id) == Tries(tries, id) + 1
      else Tries(tries', id) == Tries(tries, id)
  }

  /** Steps offered when the budget is spent get their done mark. */
  ghost predicate MarksStarved(steps: seq<Step>, done: set<nat>, r: Reply, stopIndex: Option<int>, done': set<nat>) {
    forall id :: Starves(steps, done, r, stopIndex, id) ==> id in done'
  }

  lemma NamesOne(steps: seq<Step>, done: set<nat>, r: Reply, stopIndex: Option<int>)
    ensures NoAgent(steps, done, r, stopIndex) <==>
      r.pick.None? || r.pick.value >= |steps| || (stopIndex.Some? && r.pick.value >= stopIndex.value)
      || steps[r.pick.value].StageStep? || steps[r.pick.value].id in done
    ensures !NoAgent(steps, done, r, stopIndex) ==> Names(steps, r, stopIndex, steps[r.pick.value].id)
  {
    if r.pick.Some? && r.pick.value < |steps| && steps[r.pick.value].AgentStep? {
      var id := steps[r.pick.value].id;
      assert Names(steps, r, stopIndex, id) <==> (stopIndex.Some? ==> r.pick.value < stopIndex.value);
    }
  }

  ghost predicate NoAgent(steps: seq<Step>, done: set<nat>, r: Reply, stopIndex: Option<int>) {
    forall id :: id !in done ==> !Names(steps, r, stopIndex, id)
  }

  /** A turn that offers no agent step leaves marks and attempts alone. */
  lemma NoAgentTurn(steps: seq<Step>, done: set<nat>, tries: map<nat, nat>, r: Reply, stopIndex: Option<int>)
    ensures AgentsKept(done, tries, done, tries)
    ensures NoAgent(steps, done, r, stopIndex) ==>
      TriesExactly(steps, done, tries, r, stopIndex, tries) && MarksStarved(steps, done, r, stopIndex, done)
  {
  }

  /** What one agent step does to the marks and the attempts. */
  predicate AgentTried(attemptCap: nat, done: set<nat>, tries: map<nat, nat>, r: Reply, id: nat, done': set<nat>, tries': map<nat, nat>) {
    var runs := r.budgetLeft && r.hasPlane && Tries(tries, id) < attemptCap;
    && tries' == (if runs then tries[id := Tries(tries, id) + 1] else tries)
    && done' == (if (r.budgetLeft && !r.hasPlane) || (runs && r.agent == AgentVanishes) then done else done + {id})
  }

  /** A turn that offers one changes at most its mark and its attempts. */
  lemma AgentTurn(steps: seq<Step>, done: set<nat>, tries: map<nat, nat>, r: Reply, stopIndex: Option<int>, id: nat,
                  done': set<nat>, tries': map<nat, nat>)
    requires id !in done && Names(steps, r, stopIndex, id) && AgentTried(steps[r.pick.value].attemptCap, done, tries, r, id, done', tries')
    ensures AgentsKept(done, tries, done', tries') && TriesExactly(steps, done, tries, r, stopIndex, tries')
    ensures MarksStarved(steps, done, r, stopIndex, done')
  {
  }

  /** Agent steps that a turn offers when the budget is spent have their done mark, and no further attempt. */
  ghost predicate StarvedStay(steps: seq<Step>, done: set<nat>, tries: map<nat, nat>, r: Reply, stopIndex: Option<int>,
                              done': set<nat>, tries': map<nat, nat>) {
    forall id :: Starves(steps, done, r, stopIndex, id) ==> id in done' && Tries(tries', id) == Tries(tries, id)
  }

  lemma StarvedFirst(steps: seq<Step>, done: set<nat>, tries: map<nat, nat>, r: Reply, stopIndex: Option<int>,
                     done': set<nat>, tries': map<nat, nat>)
    requires TriesExactly(steps, done, tries, r, stopIndex, tries') && MarksStarved(steps, done, r, stopIndex, done')
    ensures StarvedStay(steps, done, tries, r, stopIndex, done', tries')
  {
    hide Names, Tries;
  }

  lemma AgentsFurther(steps: seq<Step>, done: set<nat>, tries: map<nat, nat>, r: Reply, stopIndex: Option<int>,
                      d1: set<nat>, t1: map<nat, nat>, d2: set<nat>, t2: map<nat, nat>)
    requires AgentsKept(done, tries, d1, t1) && AgentsKept(d1, t1, d2, t2)
    ensures AgentsKept(done, tries, d2, t2)
    ensures StarvedStay(steps, done, tries, r, stopIndex, d1, t1) ==> StarvedStay(steps, done, tries, r, stopIndex, d2, t2)
  {
  }

  function StopIndex(steps: seq<Step>, stopAfter: Option<Stage>): Option<int> {
    if stopAfter.None? then None else Some(IndexOfStage(steps, stopAfter.value))
  }

  class Run {
    const maxRounds: real
    var status: Status
    var stages: Records
    var plan: Option<Plan>
    var qgRound: nat
    var iterRound: nat
    var doneAgents: set<nat>
    var agentAttempts: map<nat, nat>
    var log: seq<Event>

    /** The log numbers every start, the records agree with it, and regenerations are counted by the persisted
        quality round. */
    ghost predicate Counted()
      reads this
    {
      && 1.0 <= maxRounds <= 10.0 && iterRound >= 1
      && 1 <= qgRound <= MAX_QUALITY_ROUNDS && Regenerations(log) == qgRound - 1
      && History(stages, log)
    }

    /** The whole-life invariant. */
    ghost predicate Valid()
      reads this
    {
      Counted() && ClosedRightly(stages)
    }

    /** Stage starts still to come in this walk, at most. */
    ghost function Fuel(): int
      reads this
    {
      |Open(stages)| + 3 * (MAX_QUALITY_ROUNDS - qgRound)
    }

    constructor (configured: Option<real>)
      ensures Valid() && log == [] && status == Created && maxRounds == MaxRounds(configured)
      ensures qgRound == 1 && iterRound == 1 && plan == None && doneAgents == {} && agentAttempts == map[] && forall s: Stage :: stages[s] == FreshRecord()
    {
      maxRounds := MaxRounds(configured);
      status := Created;
      stages := map s: Stage | s in AllStages() :: FreshRecord();
      plan := None;
      qgRound := 1;
      iterRound := 1;
      doneAgents := {};
      agentAttempts := map[];
      log := [];
    }

    /** Patch a stage record; the attempt number survives. */
    method SetStage(s: Stage, state: StageState, error: Marker)
      requires Counted()
      modifies this`stages
      ensures Counted() && stages == Patched(old(stages), s, state, error)
      ensures Grew(old(stages), old(log), stages, log)
    {
      hide ClosedRightly, History, Grew, Open, Starts, Rounds, Regenerations, Patched, Reopened, Started;
      PatchKeeps(stages, log, s, state, error);
      stages := Patched(stages, s, state, error);
    }

    method StartStage(s: Stage)
      requires Valid() && !Terminal(stages[s])
      modifies this`stages, this`log
      ensures Valid() && Grew(old(stages), old(log), stages, log) && Open(stages) == old(Open(stages))
      ensures stages == Started(old(stages), s) && log == old(log) + [StageStarted(s, NextAttempt(old(stages)[s]))]
      ensures Starts(log) == old(Starts(log)) + 1 && Rounds(log) == old(Rounds(log))
    {
      hide ClosedRightly, History, Grew, Open, Starts, Rounds, Regenerations, Patched, Reopened, Started;
      var e := StageStarted(s, NextAttempt(stages[s]));
      Appended(log, e);
      StartKeeps(stages, log, s);
      StartStaysOpen(stages, s);
      StartedRightly(stages, s);
      stages := Started(stages, s);
      log := log + [e];
    }

    /** Put a leg back to pending: attempts and start marks stay. */
    method Reopen(leg: set<Stage>)
      requires Valid()
      modifies this`stages
      ensures Valid() && Grew(old(stages), old(log), stages, log) && stages == Reopened(old(stages), leg)
    {
      hide ClosedRightly, History, Grew, Open, Starts, Rounds, Regenerations, Patched, Reopened, Started;
      ReopenKeeps(stages, log, leg);
      ReopenedRightly(stages, leg);
      stages := Reopened(stages, leg);
    }

    /** Close an open stage with a terminal state. */
    method Close(s: Stage, state: StageState, error: Marker)
      requires Counted() && !Terminal(stages[s]) && (state == Done || state == Skipped)
      modifies this`stages
      ensures Counted() && Grew(old(stages), old(log), stages, log)
      ensures |Open(stages)| == |old(Open(stages))| - 1
      ensures stages == Patched(old(stages), s, state, error)
    {
      ClosingPatch(stages, s, state, error);
      SetStage(s, state, error);
    }

    /** Skip a stage that has been started, or for lack of budget. */
    method Skip(s: Stage, why: Marker)
      requires Valid() && !Terminal(stages[s]) && (stages[s].started || why == BudgetExhausted)
      modifies this`stages
      ensures Valid() && Grew(old(stages), old(log), stages, log)
      ensures |Open(stages)| == |old(Open(stages))| - 1
      ensures stages == Patched(old(stages), s, Skipped, why)
    {
      hide ClosedRightly, History, Grew, Open, Starts, Rounds, Regenerations, Patched, Reopened, Started;
      PatchedRightly(stages, s, Skipped, why);
      Close(s, Skipped, why);
    }

    /** The quality gate after rank: one regeneration while rounds and budget remain, and otherwise
        possibly one plan revision. */
    method SettleRank(r: Reply)
      requires Valid() && plan.Some?
      modifies this`stages, this`log, this`qgRound, this`plan
      ensures Valid() && plan.Some? && Grew(old(stages), old(log), stages, log)
      ensures Starts(log) == old(Starts(log)) && Rounds(log) == old(Rounds(log))
      ensures Fuel() <= old(Fuel())
      ensures qgRound > old(qgRound) <==> r.weak && old(qgRound) < MAX_QUALITY_ROUNDS && r.budgetAfter
      ensures qgRound > old(qgRound) ==>
        qgRound == old(qgRound) + 1
        && stages == Reopened(old(stages), REGENERATION_LEG) && log == old(log) + [Regenerated(qgRound)]
      ensures qgRound == old(qgRound) ==> stages == old(stages) && log == old(log)
      ensures var revised := PlanRevision(old(plan.value), r.contested);
        plan == if qgRound == old(qgRound) && revised.Some? then revised else old(plan)
      ensures PlanKept(old(plan), plan)
      ensures qgRound > old(qgRound)
        || (qgRound == old(qgRound) && stages == old(stages) && plan == old(plan))
        || (qgRound == old(qgRound) && stages == old(stages) && old(plan.value.byDefault) && !plan.value.byDefault)
    {
      hide ClosedRightly, History, Grew, Open, Starts, Rounds, Regenerations, Patched, Reopened, Started;
      GrewStays(stages, log);
      if r.weak && qgRound < MAX_QUALITY_ROUNDS && r.budgetAfter {
        var e := Regenerated(qgRound + 1);
        Appended(log, e);
        NoteKeeps(stages, log, e);
        ReopenAtMost(stages, REGENERATION_LEG);
        assert |REGENERATION_LEG| == 3;
        qgRound := qgRound + 1;
        log := log + [e];
        Reopen(REGENERATION_LEG);
        GrewFurther(old(stages), old(log), old(stages), log, stages, log);
        return;
      }
      var revised := PlanRevision(plan.value, r.contested);
      UncontestedStays(plan.value);
      if revised.Some? {
        plan := revised;
      }
    }

    /** How much of the walk is left once neither regeneration nor plan revision can happen. */
    ghost function Left(): nat
      reads this
      requires plan.Some?
    {
      |Open(stages)| + PendingAgents(plan.value.steps, doneAgents)
    }

    ghost function Revisable(): nat
      reads this
    {
      if plan.Some? && plan.value.byDefault then 1 else 0
    }

    /** One started stage, from its start to its record. */
    method RunStage(s: Stage, r: Reply) returns (next: Next)
      requires Valid() && plan.Some? && status == InProgress && !Terminal(stages[s])
      modifies this`stages, this`log, this`qgRound, this`plan, this`status
      ensures Valid() && plan.Some? && Grew(old(stages), old(log), stages, log) && next != NoStep
      ensures Rounds(log) == old(Rounds(log)) && qgRound >= old(qgRound)
      ensures Starts(log) == old(Starts(log)) + 1
      ensures next == Advanced ==> status == InProgress && Fuel() < old(Fuel())
      ensures next == Ended ==> qgRound == old(qgRound) && status != Completed
      ensures next == Ended <==> r.handler.Vanishes? || r.handler.Fails?
      ensures qgRound == old(qgRound) + if Regenerates(s, old(qgRound), r) then 1 else 0
      ensures stages == if Regenerates(s, old(qgRound), r)
        then Reopened(Handled(Started(old(stages), s), s, r.handler), REGENERATION_LEG)
        else Handled(Started(old(stages), s), s, r.handler)
      ensures log == old(log) + [StageStarted(s, NextAttempt(old(stages)[s]))]
        + if Regenerates(s, old(qgRound), r) then [Regenerated(qgRound)] else []
      ensures status == if !r.handler.Fails? then old(status) else if r.handler.cancelled then Cancelled else Partial
      ensures next == Advanced ==> (
        || qgRound > old(qgRound)
        || (qgRound == old(qgRound) && Revisable() < old(Revisable()))
        || (qgRound == old(qgRound) && plan == old(plan) && |Open(stages)| < old(|Open(stages)|)))
      ensures PlanKept(old(plan), plan)
    {
      hide PlanKept, ClosedRightly, History, Grew, Open, Starts, Rounds, Regenerations, Patched, Reopened, Started, Handled, Terminal;
      StartStage(s);
      StartedIsOpen(old(stages), s);
      ghost var m, l := stages, log;
      next := Resolve(s, r);
      GrewFurther(old(stages), old(log), m, l, stages, log);
    }

    /** The running stage's handler ends. */
    method Resolve(s: Stage, r: Reply) returns (next: Next)
      requires Valid() && plan.Some? && status == InProgress && !Terminal(stages[s]) && stages[s].started
      modifies this`stages, this`log, this`qgRound, this`plan, this`status
      ensures Valid() && plan.Some? && Grew(old(stages), old(log), stages, log) && next != NoStep
      ensures Rounds(log) == old(Rounds(log)) && Starts(log) == old(Starts(log))
      ensures next == Advanced ==> Fuel() < old(Fuel())
      ensures next == Ended <==> r.handler.Vanishes? || r.handler.Fails?
      ensures qgRound == old(qgRound) + if Regenerates(s, old(qgRound), r) then 1 else 0
      ensures stages == if Regenerates(s, old(qgRound), r)
        then Reopened(Handled(old(stages), s, r.handler), REGENERATION_LEG) else Handled(old(stages), s, r.handler)
      ensures log == old(log) + if Regenerates(s, old(qgRound), r) then [Regenerated(qgRound)] else []
      ensures status == if !r.handler.Fails? then old(status) else if r.handler.cancelled then Cancelled else Partial
      ensures next == Advanced ==> (
        || qgRound > old(qgRound)
        || (qgRound == old(qgRound) && Revisable() < old(Revisable()))
        || (qgRound == old(qgRound) && plan == old(plan) && |Open(stages)| < old(|Open(stages)|)))
      ensures PlanKept(old(plan), plan)
    {
      hide PlanKept, ClosedRightly, History, Grew, Open, Starts, Rounds, Regenerations, Patched, Reopened, Started, Terminal, Regenerates;
      PlanStays(plan);
      OnlyRankRegenerates(s, qgRound, r);
      if r.handler.Vanishes? {
        GrewStays(stages, log);
        return Ended;
      }
      if r.handler.Fails? {
        PatchedRightly(stages, s, Failed, OtherError);
        SetStage(s, Failed, OtherError);
        status := if r.handler.cancelled then Cancelled else Partial;
        return Ended;
      }
      if r.handler.Finished? {
        FinishStage(s, r);
      } else {
        Skip(s, if r.handler.OutOfBudget? then BudgetExhausted else r.handler.why);
      }
      return Advanced;
    }

    /** A stage done; after rank the quality gate decides. */
    method FinishStage(s: Stage, r: Reply)
      requires Valid() && plan.Some? && !Terminal(stages[s]) && stages[s].started && r.handler.Finished?
      modifies this`stages, this`log, this`qgRound, this`plan
      ensures Valid() && plan.Some? && Grew(old(stages), old(log), stages, log)
      ensures Starts(log) == old(Starts(log)) && Rounds(log) == old(Rounds(log)) && qgRound >= old(qgRound)
      ensures Fuel() < old(Fuel())
      ensures var again := Regenerates(s, old(qgRound), r);
        && qgRound == old(qgRound) + (if again then 1 else 0)
        && stages == (if again then Reopened(Patched(old(stages), s, Done, NoError), REGENERATION_LEG)
                      else Patched(old(stages), s, Done, NoError))
        && log == old(log) + if again then [Regenerated(qgRound)] else []
      ensures (
        || qgRound > old(qgRound)
        || (qgRound == old(qgRound) && Revisable() < old(Revisable()))
        || (qgRound == old(qgRound) && plan == old(plan) && |Open(stages)| < old(|Open(stages)|)))
      ensures PlanKept(old(plan), plan)
    {
      hide PlanKept, ClosedRightly, History, Grew, Open, Starts, Rounds, Regenerations, Patched, Reopened, Started;
      PlanStays(plan);
      PatchedRightly(stages, s, Done, NoError);
      Close(s, Done, NoError);
      if s == RankHypotheses {
        ghost var m, l := stages, log;
        SettleRank(r);
        GrewFurther(old(stages), old(log), m, l, stages, log);
      }
    }

    /** One agent step: it has no stage record, only a persisted done mark and attempt counter. */
    method RunAgent(id: nat, attemptCap: nat, r: Reply) returns (next: Next)
      requires Valid() && plan.Some? && status == InProgress && id in AgentIds(plan.value.steps) && id !in doneAgents
      modifies this`doneAgents, this`agentAttempts, this`status
      ensures Valid() && next != NoStep && (next == Advanced ==> status == InProgress) && (next == Ended ==> status != Completed)
      ensures next == Advanced ==> Left() < old(Left())
      ensures AgentTried(attemptCap, old(doneAgents), old(agentAttempts), r, id, doneAgents, agentAttempts)
      ensures status == if r.budgetLeft && !r.hasPlane then Broken
        else if r.budgetLeft && Tries(old(agentAttempts), id) < attemptCap && r.agent == AgentAborted then Cancelled else InProgress
    {
      hide ClosedRightly, History, Grew, Open, Starts, Rounds, Regenerations, Patched, Reopened, Started, AgentIds, PendingAgents;
      var attempts := Tries(agentAttempts, id);
      DoneAgentShrinks(plan.value.steps, doneAgents, id);
      if r.budgetLeft && !r.hasPlane {
        status := Broken;
        return Ended;
      }
      if r.budgetLeft && attempts < attemptCap {
        agentAttempts := agentAttempts[id := attempts + 1];
        if r.agent == AgentVanishes {
          return Ended;
        }
        if r.agent == AgentAborted {
          doneAgents := doneAgents + {id};
          status := Cancelled;
          return Ended;
        }
      }
      doneAgents := doneAgents + {id};
      return Advanced;
    }

    predicate StepDone(step: Step)
      reads this
    {
      match step
      case StageStep(s) => Terminal(stages[s])
      case AgentStep(id, _) => id in doneAgents
    }

    /** The chooser named a plan step that is not terminal and lies before the parking position. */
    predicate Offered(r: Reply, stopIndex: Option<int>)
      reads this
      requires plan.Some?
    {
      var steps := plan.value.steps;
      r.pick.Some? && r.pick.value < |steps| && !StepDone(steps[r.pick.value])
      && (stopIndex.Some? ==> r.pick.value < stopIndex.value)
    }

    /** One turn of the walk. The chooser offers a plan step that is not terminal, or nothing. */
    method Turn(r: Reply, stopIndex: Option<int>) returns (next: Next)
      requires Valid() && plan.Some? && status == InProgress
      modifies this
      ensures Valid() && plan.Some? && Grew(old(stages), old(log), stages, log)
      ensures iterRound == old(iterRound) && Rounds(log) == old(Rounds(log)) && qgRound >= old(qgRound)
      ensures next == NoStep ==> stages == old(stages) && log == old(log) && qgRound == old(qgRound)
      ensures next == NoStep <==> !old(Offered(r, stopIndex))
      ensures next == Ended ==> qgRound == old(qgRound) && status != Completed
      ensures next != Ended ==> status == InProgress
      ensures next == Ended ==> Starts(log) <= old(Starts(log)) + old(|Open(stages)|)
      ensures next == Advanced ==> Starts(log) + Fuel() <= old(Starts(log)) + old(Fuel())
      ensures next == Advanced ==> (
        || qgRound > old(qgRound)
        || (qgRound == old(qgRound) && Revisable() < old(Revisable()))
        || (qgRound == old(qgRound) && Revisable() == old(Revisable()) && Left() < old(Left())))
      ensures AgentsKept(old(doneAgents), old(agentAttempts), doneAgents, agentAttempts)
      ensures TriesExactly(old(plan.value.steps), old(doneAgents), old(agentAttempts), r, stopIndex, agentAttempts)
      ensures MarksStarved(old(plan.value.steps), old(doneAgents), r, stopIndex, doneAgents)
      ensures TurnTakes(old(plan.value.steps), old(stages), old(log), old(qgRound), r, stopIndex, stages, log)
      ensures old(OffersStage(plan.value.steps, stages, r, stopIndex)) ==>
        StageEnds(old(plan.value.steps)[r.pick.value].stage, r, next, status)
      ensures PlanKept(old(plan), plan)
      ensures next == NoStep ==> plan == old(plan) && doneAgents == old(doneAgents)
    {
      hide PlanKept, StageTaken, StageEnds, AgentsKept, TriesExactly, MarksStarved, ClosedRightly, History, Grew, Open, Starts, Rounds, Regenerations, Patched, Reopened, Started, AgentIds, PendingAgents,
        Handled, Regenerates, Tries, AgentTried, Names, NoAgent;
      PlanStays(plan);
      var steps := plan.value.steps;
      GrewStays(stages, log);
      NamesOne(steps, doneAgents, r, stopIndex);
      NoAgentTurn(steps, doneAgents, agentAttempts, r, stopIndex);
      if r.pick.None? || r.pick.value >= |steps| || StepDone(steps[r.pick.value]) {
        return NoStep;
      }
      var i := r.pick.value;
      if stopIndex.Some? && i >= stopIndex.value {
        return NoStep;
      }
      match steps[i] {
        case AgentStep(id, attemptCap) =>
          ListedAgent(steps, i);
          next := RunAgent(id, attemptCap, r);
          AgentTurn(steps, old(doneAgents), old(agentAttempts), r, stopIndex, id, doneAgents, agentAttempts);
        case StageStep(s) =>
          next := StageTurn(s, r);
      }
    }

    /** One stage step: skipped at the budget boundary (export never is), failed without a handler,
        else run. */
    method StageTurn(s: Stage, r: Reply) returns (next: Next)
      requires Valid() && plan.Some? && status == InProgress && !Terminal(stages[s])
      modifies this`stages, this`log, this`qgRound, this`plan, this`status
      ensures Valid() && plan.Some? && Grew(old(stages), old(log), stages, log) && next != NoStep
      ensures Rounds(log) == old(Rounds(log)) && qgRound >= old(qgRound)
      ensures next == Ended ==> qgRound == old(qgRound) && status != Completed
      ensures next == Ended ==> Starts(log) <= old(Starts(log)) + old(|Open(stages)|)
      ensures next == Advanced ==> status == InProgress && Starts(log) + Fuel() <= old(Starts(log)) + old(Fuel())
      ensures next == Advanced ==> (
        || qgRound > old(qgRound)
        || (qgRound == old(qgRound) && Revisable() < old(Revisable()))
        || (qgRound == old(qgRound) && plan == old(plan) && |Open(stages)| < old(|Open(stages)|)))
      ensures StageTaken(old(stages), old(log), old(qgRound), s, r, stages, log)
      ensures StageEnds(s, r, next, status)
      ensures PlanKept(old(plan), plan)
    {
      hide PlanKept, StageTaken, ClosedRightly, History, Terminal, Grew, Open, Starts, Rounds, Regenerations, Patched, Reopened, Started, Handled, Regenerates;
      PlanStays(plan);
      OpenIsPositive(stages, s);
      if s != Export && !r.budgetLeft {
        Skip(s, BudgetExhausted);
        StageTakenPatched(old(stages), old(log), old(qgRound), s, r, stages);
        return Advanced;
      }
      if !r.hasHandler {
        PatchedRightly(stages, s, Failed, OtherError);
        SetStage(s, Failed, OtherError);
        status := Broken;
        StageTakenPatched(old(stages), old(log), old(qgRound), s, r, stages);
        return Ended;
      }
      next := RunStage(s, r);
      StageTakenRun(old(stages), old(log), old(qgRound), s, r, stages, log);
    }

    /** The unbounded loop over plan steps: it ends, and starts at most one stage per open record
        plus three per regeneration. */
    method Walk(w: World, pass: nat, stopIndex: Option<int>) returns (ended: bool)
      requires Valid() && plan.Some? && status == InProgress
      modifies this
      ensures Valid() && plan.Some? && Grew(old(stages), old(log), stages, log)
      ensures iterRound == old(iterRound) && Rounds(log) == old(Rounds(log)) && qgRound >= old(qgRound)
      ensures if ended then status != Completed else status == InProgress
      ensures Starts(log) <= old(Starts(log)) + old(|Open(stages)|) + 3 * (qgRound - old(qgRound))
      ensures AgentsKept(old(doneAgents), old(agentAttempts), doneAgents, agentAttempts)
      ensures StarvedStay(old(plan.value.steps), old(doneAgents), old(agentAttempts), w.turn(pass, 0), stopIndex, doneAgents, agentAttempts)
      ensures Funded(w) && old(AllStarted(stages)) ==> AllStarted(stages)
      ensures StartsBefore(old(plan.value.steps), stopIndex, old(log), log)
      ensures !ended ==> exists tick: nat :: !Offered(w.turn(pass, tick), stopIndex)
    {
      hide PlanKept, Earlier, StartsBefore, TurnTakes, AllStarted, StageEnds, OffersStage, AgentsKept, StarvedStay, TriesExactly, MarksStarved, ClosedRightly, History, Grew, Open, Starts, Rounds, Regenerations, Patched, Reopened, Started, AgentIds, PendingAgents;
      var tick: nat := 0;
      GrewStays(stages, log);
      NoAgentTurn([], doneAgents, agentAttempts, w.turn(pass, 0), stopIndex);
      EarlierSelf(plan.value.steps);
      NothingStarted(plan.value.steps, stopIndex, log);
      while true
        invariant Valid() && plan.Some? && status == InProgress && Grew(old(stages), old(log), stages, log)
        invariant iterRound == old(iterRound) && Rounds(log) == old(Rounds(log)) && qgRound >= old(qgRound)
        invariant Starts(log) + Fuel() <= old(Starts(log)) + old(Fuel())
        invariant AgentsKept(old(doneAgents), old(agentAttempts), doneAgents, agentAttempts)
        invariant tick == 0 ==> plan == old(plan) && doneAgents == old(doneAgents) && agentAttempts == old(agentAttempts)
        invariant tick > 0 ==> StarvedStay(old(plan.value.steps), old(doneAgents), old(agentAttempts), w.turn(pass, 0), stopIndex, doneAgents, agentAttempts)
        invariant Funded(w) && old(AllStarted(stages)) ==> AllStarted(stages)
        invariant Earlier(old(plan.value.steps), plan.value.steps) && StartsBefore(old(plan.value.steps), stopIndex, old(log), log)
        decreases MAX_QUALITY_ROUNDS - qgRound, Revisable(), Left()
      {
        ghost var m, l := stages, log;
        ghost var done, tries := doneAgents, agentAttempts;
        ghost var p, steps, round := plan, plan.value.steps, qgRound;
        var next := Turn(w.turn(pass, tick), stopIndex);
        RevisionKeepsEarlier(p.value, plan);
        EarlierFurther(old(plan.value.steps), steps, plan.value.steps);
        LogGrew(old(stages), old(log), m, l);
        TurnStartsBefore(old(plan.value.steps), steps, m, old(log), l, round, w.turn(pass, tick), stopIndex, stages, log);
        if Funded(w) && AllStarted(m) {
          TurnKeepsStarted(steps, m, l, round, w.turn(pass, tick), stopIndex, stages, log);
        }
        GrewFurther(old(stages), old(log), m, l, stages, log);
        AgentsFurther(old(plan.value.steps), old(doneAgents), old(agentAttempts), w.turn(pass, 0), stopIndex, done, tries,
                      doneAgents, agentAttempts);
        if tick == 0 {
          StarvedFirst(old(plan.value.steps), old(doneAgents), old(agentAttempts), w.turn(pass, 0), stopIndex, doneAgents, agentAttempts);
        }
        if next != Advanced {
          return next == Ended;
        }
        tick := tick + 1;
      }
    }

    /** Reopen the finished stages of a leg and resume. */
    method ReopenClosed(leg: set<Stage>)
      requires Valid()
      modifies this`stages, this`status
      ensures Valid() && Grew(old(stages), old(log), stages, log) && status == InProgress
      ensures stages == Reopened(old(stages), ClosedOf(old(stages), leg))
    {
      hide ClosedRightly, History, Grew, Open, Starts, Rounds, Regenerations, Patched, Reopened, Started;
      Reopen(ClosedOf(stages, leg));
      status := InProgress;
    }

    /** A completed run reopens for new feedback, for new evidence, or else for a tainted bundle. Only
        new feedback grants fresh rounds. */
    method ReopenCompleted(e: Entry)
      requires Valid() && status == Completed
      modifies this`stages, this`status, this`iterRound
      ensures Valid() && iterRound == if e.hasFeedback then 1 else old(iterRound)
      ensures stages == Reopened(old(stages), CompletedSet(old(stages), e))
    {
      hide ClosedRightly, History, Grew, Open, Starts, Rounds, Regenerations, Patched, Reopened, Started, ClosedOf;
      ReopenNothing(stages);
      if e.hasFeedback {
        ReopenClosed(FEEDBACK_LEG);
        iterRound := 1;
      }
      if e.unverified {
        ReopenClosedNext(old(stages), ClosedOf(old(stages), FEEDBACK_LEG), EVIDENCE_LEG);
        ReopenClosed(EVIDENCE_LEG);
      }
      if status == Completed && e.tainted {
        ReopenClosed({Export});
      }
    }

    /** What an execution does before it walks. */
    method Enter(e: Entry)
      requires Valid()
      modifies this`stages, this`status, this`iterRound, this`plan
      ensures Valid() && plan.Some? && status == InProgress && Grew(old(stages), old(log), stages, log)
      ensures iterRound == if old(status) == Completed && e.hasFeedback then 1 else old(iterRound)
      ensures stages == Reopened(old(stages), EntrySet(old(stages), old(status) == Completed, e))
      ensures EntryTaken(old(stages), old(status) == Completed, e, stages)
      ensures plan == if old(plan).None? then Some(DefaultPlan()) else old(plan)
      ensures AllStarted(stages)
    {
      hide EntryTaken, AllStarted, ClosedRightly, History, Grew, Open, Starts, Rounds, Regenerations, Patched, Reopened, Started, AllStages, DefaultPlan, CompletedSet, MarkedOf;
      ReopenNothing(stages);
      ghost var m, completed := stages, status == Completed;
      ghost var reopened: set<Stage> := if completed then CompletedSet(m, e) else {};
      if status == Completed {
        ReopenCompleted(e);
      }
      ReopenMarkedNext(m, reopened, BudgetExhausted);
      Reopen(MarkedOf(stages, BudgetExhausted));
      ReopenMarkedNext(m, reopened + MarkedOf(m, BudgetExhausted), TemplateRefused);
      Reopen(MarkedOf(stages, TemplateRefused));
      ReopenKeeps(m, log, EntrySet(m, completed, e));
      EntryReopensUnstarted(m, EntrySet(m, completed, e));
      EntrySetMeaning(m, completed, e);
      status := InProgress;
      if plan.None? {
        plan := Some(DefaultPlan());
      }
    }

    /** The pass boundary: another round, or the final status. */
    method Settle(b: Boundary, stopAfter: bool) returns (again: bool)
      requires Valid() && plan.Some? && status == InProgress
      modifies this`stages, this`status, this`iterRound, this`log
      ensures Valid() && Grew(old(stages), old(log), stages, log) && Starts(log) == old(Starts(log))
      ensures again ==> status == InProgress && old(iterRound) as real < maxRounds && iterRound == old(iterRound) + 1
      ensures Rounds(log) == old(Rounds(log)) + if again then 1 else 0
      ensures var leg := EvaluateIteration(old(iterRound), maxRounds, b);
        && (again <==> !stopAfter && AllTerminal(old(stages)) && leg.Some?)
        && (again ==> stages == Reopened(old(stages), leg.value) && log == old(log) + [RoundStarted(old(iterRound) + 1)])
        && (!again ==> stages == old(stages) && log == old(log))
      ensures status == if stopAfter then Paused else if AllTerminal(old(stages)) && !again then Completed else InProgress
      ensures status == Completed ==> Open(stages) == {}
      ensures old(AllStarted(stages)) ==> AllStarted(stages)
    {
      hide AllStarted, ClosedRightly, History, Grew, Open, Starts, Rounds, Regenerations, Patched, Reopened, Started, AllTerminal, EvaluateIteration;
      GrewStays(stages, log);
      again := false;
      if stopAfter {
        status := Paused;
        return;
      }
      if AllTerminal(stages) {
        var leg := EvaluateIteration(iterRound, maxRounds, b);
        if leg.Some? {
          var e := RoundStarted(iterRound + 1);
          Appended(log, e);
          NoteKeeps(stages, log, e);
          iterRound := iterRound + 1;
          log := log + [e];
          ReopenedRightly(stages, leg.value);
          Reopen(leg.value);
          GrewFurther(old(stages), old(log), old(stages), log, stages, log);
          return true;
        }
        NoneOpen(stages);
        status := Completed;
      }
    }

    /** One owned execution, pass after pass. It ends; every further pass was allowed by the round
        cap; and the starts of all passes together stay within twelve each and three for the one
        regeneration a run may have in its life. */
    method ExecuteOwned(w: World, pass: nat, stopAfter: Option<Stage>)
      requires Valid()
      modifies this
      ensures Valid() && Grew(old(stages), old(log), stages, log) && qgRound >= old(qgRound)
      ensures Rounds(log) >= old(Rounds(log))
      ensures var more := Rounds(log) - old(Rounds(log));
        && Starts(log) - old(Starts(log)) <= STAGE_COUNT * (more + 1) + 3 * (qgRound - old(qgRound))
        && (more > 0 ==> more as real < maxRounds)
        && (more > 0 && old(status) != Completed ==> (old(iterRound) + more - 1) as real < maxRounds)
      ensures status == Completed ==> Open(stages) == {}
      ensures AgentsKept(old(doneAgents), old(agentAttempts), doneAgents, agentAttempts)
      ensures old(plan).Some? ==>
        StarvedStay(old(plan.value.steps), old(doneAgents), old(agentAttempts), w.turn(pass, 0), StopIndex(old(plan.value.steps), stopAfter), doneAgents, agentAttempts)
      ensures Funded(w) ==> AllStarted(stages)
      ensures stopAfter.Some? ==>
        var steps := PlanSteps(old(plan)); StartsBefore(steps, StopIndex(steps, stopAfter), old(log), log)
      decreases if status == Completed then 1 else 0, if iterRound < 10 then 10 - iterRound else 0
    {
      hide EntryTaken, Offered, Terminal, StartsBefore, Funded, AllStarted, AgentsKept, StarvedStay, StopIndex, ClosedRightly, History, Grew, Open, Starts, Rounds, Regenerations, Patched, Reopened, Started, EntrySet, DefaultPlan, AllTerminal, EvaluateIteration;
      Enter(w.entry(pass));
      ghost var m, l := stages, log;
      ghost var steps := plan.value.steps;
      var stopIndex := StopIndex(plan.value.steps, stopAfter);
      var ended := Walk(w, pass, stopIndex);
      GrewFurther(old(stages), old(log), m, l, stages, log);
      if ended {
        return;
      }
      m, l := stages, log;
      var again := Settle(w.boundary(pass), stopAfter.Some?);
      GrewFurther(old(stages), old(log), m, l, stages, log);
      if again {
        m, l := stages, log;
        ghost var done, tries := doneAgents, agentAttempts;
        ExecuteOwned(w, pass + 1, stopAfter);
        AgentsFurther(steps, old(doneAgents), old(agentAttempts), w.turn(pass, 0), stopIndex, done, tries, doneAgents, agentAttempts);
        GrewFurther(old(stages), old(log), m, l, stages, log);
      }
    }

    /** One execution of a run, for every behaviour of the world. */
    method Execute(w: World, stopAfter: Option<Stage>)
      requires Valid()
      modifies this
      ensures Valid() && Grew(old(stages), old(log), stages, log)
      ensures Rounds(log) >= old(Rounds(log))
      ensures var passes := 1 + Rounds(log) - old(Rounds(log));
        && 1 <= passes <= 10 && (passes - 1) as real < maxRounds
        && Starts(log) - old(Starts(log)) <= STAGE_COUNT * passes + 3 * (Regenerations(log) - old(Regenerations(log)))
      ensures Regenerations(log) <= 1
      ensures status == Completed ==> forall s: Stage :: stages[s].state == Done || stages[s].state == Skipped
      ensures forall s: Stage :: stages[s].state == Done ==> stages[s].started
      ensures forall s: Stage :: stages[s].state == Skipped && !stages[s].started ==> stages[s].error == BudgetExhausted
      ensures Funded(w) ==> forall s: Stage :: stages[s].state == Done || stages[s].state == Skipped ==> stages[s].started
      ensures stopAfter.Some? ==>
        var steps := PlanSteps(old(plan)); StartsBefore(steps, StopIndex(steps, stopAfter), old(log), log)
      ensures AgentsKept(old(doneAgents), old(agentAttempts), doneAgents, agentAttempts)
      ensures old(plan).Some? ==>
        StarvedStay(old(plan.value.steps), old(doneAgents), old(agentAttempts), w.turn(0, 0), StopIndex(old(plan.value.steps), stopAfter), doneAgents, agentAttempts)
    {
      hide AllStarted, ClosedRightly, AllTerminal, History, Grew, Open, Starts, Rounds, Regenerations, Patched, Reopened, Started;
      ExecuteOwned(w, 0, stopAfter);
      WhatIsOver(stages);
    }

    /** A researcher-directed reopen of a settled run: the named stages that finished or failed. */
    method ReopenStages(leg: set<Stage>) returns (ok: bool)
      requires Valid()
      modifies this`stages, this`status
      ensures Valid() && Grew(old(stages), old(log), stages, log)
      ensures ok <==> old(status) != InProgress
      ensures if ok then SettledTaken(old(stages), leg, stages) && status == InProgress
              else stages == old(stages) && status == old(status)
    {
      hide SettledTaken, ClosedRightly, History, Grew, Open, Starts, Rounds, Regenerations, Patched, Reopened, Started;
      GrewStays(stages, log);
      if status == InProgress {
        return false;
      }
      SettledMeaning(stages, leg);
      Reopen(SettledOf(stages, leg));
      status := InProgress;
      return true;
    }
  }

  // ----- an agent step that is skipped for good -----

  function UpToRank(): (stages: seq<Stage>)
    ensures forall i, j :: 0 <= i < j < |stages| ==> stages[i] != stages[j]
  {
    [Scope, Retrieve, VerifySources, BuildEvidence, GenerateHypotheses, CritiqueFalsify, RankHypotheses]
  }

  /** A run whose rank stage is done and whose default plan got the debate step behind it. */
  method RankedRun() returns (run: Run)
    ensures fresh(run) && run.Valid() && run.plan == PlanRevision(DefaultPlan(), true)
    ensures run.doneAgents == {} && run.agentAttempts == map[]
    ensures forall i :: 0 <= i < |UpToRank()| ==> Terminal(run.stages[UpToRank()[i]])
  {
    hide ClosedRightly, History, Grew, Open, Starts, Rounds, Regenerations, UpToRank, PlanRevision, DefaultPlan;
    run := new Run(None);
    var stages := UpToRank();
    var i := 0;
    while i < |stages|
      invariant 0 <= i <= |stages| && fresh(run) && run.Valid() && run.doneAgents == {} && run.agentAttempts == map[]
      invariant forall j :: 0 <= j < i ==> Terminal(run.stages[stages[j]])
      invariant forall j :: i <= j < |stages| ==> run.stages[stages[j]] == FreshRecord()
    {
      run.StartStage(stages[i]);
      PatchedRightly(run.stages, stages[i], Done, NoError);
      run.SetStage(stages[i], Done, NoError);
      i := i + 1;
    }
    run.plan := PlanRevision(DefaultPlan(), true);
  }

  lemma {:induction false} FirstOf(steps: seq<Step>, s: Stage, i: nat)
    requires i < |steps| && steps[i] == StageStep(s) && forall j :: 0 <= j < i ==> steps[j] != StageStep(s)
    ensures IndexOfStage(steps, s) == i
  {
    if i > 0 {
      FirstOf(steps[1..], s, i - 1);
    }
  }

  /** In the revised default plan the debate step comes right behind the stages up to rank. */
  lemma RevisedDefault()
    ensures var p := PlanRevision(DefaultPlan(), true);
      && p.Some? && |p.value.steps| == 13 && p.value.steps[7] == AgentStep(2, 1)
      && forall i :: 0 <= i < 7 ==> p.value.steps[i] == StageStep(UpToRank()[i])
  {
    hide IndexOfStage;
    FirstOf(DefaultPlan().steps, RankHypotheses, 6);
  }

  /** Out of budget when the debate step is due, and then executed again in any world, with budget or without: the
      step is never started. */
  method DebateSkippedForGood(later: World) returns (tries: nat, done: bool)
    ensures tries == 0 && done
  {
    hide PlanRevision, DefaultPlan, UpToRank, Open, Grew, Starts, Rounds, Regenerations, History;
    var run := RankedRun();
    RevisedDefault();
    var idle := Reply(None, false, true, AgentRan, true, Finished, false, false, false);
    var spent := World(_ => Entry(false, false, false), (pass, tick) => if tick == 0 then idle.(pick := Some(7)) else idle,
                       _ => Boundary(false, false, false, false));
    assert Starves(run.plan.value.steps, {}, spent.turn(0, 0), None, 2);
    run.Execute(spent, None);
    run.Execute(later, None);
    tries, done := Tries(run.agentAttempts, 2), 2 in run.doneAgents;
  }

  lemma ListedAgent(steps: seq<Step>, i: nat)
    requires i < |steps| && steps[i].AgentStep?
    ensures steps[i].id in AgentIds(steps)
  {
  }

  lemma WhatIsOver(m: Records)
    ensures Open(m) == {} ==> forall s: Stage :: m[s].state == Done || m[s].state == Skipped
    ensures ClosedRightly(m) ==> forall s: Stage ::
      (m[s].state == Done ==> m[s].started) && (m[s].state == Skipped && !m[s].started ==> m[s].error == BudgetExhausted)
    ensures AllStarted(m) ==> forall s: Stage :: m[s].state == Done || m[s].state == Skipped ==> m[s].started
  {
    hide Open;
    forall s: Stage
      ensures s in Open(m) <==> !Terminal(m[s])
    {
      InOpen(m, s);
    }
  }

  lemma NoneOpen(m: Records)
    requires AllTerminal(m)
    ensures Open(m) == {}
  {
  }

  lemma ClosingPatch(m: Records, s: Stage, state: StageState, error: Marker)
    requires !Terminal(m[s]) && (state == Done || state == Skipped)
    ensures |Open(Patched(m, s, state, error))| == |Open(m)| - 1
  {
    hide Open;
    CloseOne(m, s, m[s].(state := state, error := error));
  }

  lemma StartedIsOpen(m: Records, s: Stage)
    ensures !Terminal(Started(m, s)[s]) && Started(m, s)[s].started
  {
  }

  lemma PatchedRightly(m: Records, s: Stage, state: StageState, error: Marker)
    requires ClosedRightly(m) && (m[s].started || state == Failed || (state == Skipped && error == BudgetExhausted))
    ensures ClosedRightly(Patched(m, s, state, error))
  {
  }

  lemma StartedRightly(m: Records, s: Stage)
    requires ClosedRightly(m)
    ensures ClosedRightly(Started(m, s))
  {
  }

  lemma ReopenedRightly(m: Records, leg: set<Stage>)
    requires ClosedRightly(m)
    ensures ClosedRightly(Reopened(m, leg)) && (AllStarted(m) ==> AllStarted(Reopened(m, leg)))
  {
  }
}
