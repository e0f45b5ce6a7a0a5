/** The campaign runtime: the pure decision core (ready units, stop rules, alpha ledger) and the
    driver loop that executes units until a stop rule fires or nothing is left to run. */
module CampaignDriver {
  import opened Common
  import opened CampaignGraph

  datatype State = Pending | Running | Completed | Failed | Canceled

  datatype UnitState = UnitState(name: Label, state: State, alphaSpent: Option<real>, eValue: Option<real>)

  datatype Policy =
    | SinglePrimary(primary: Label)
    | AlphaSpending(shares: map<Label, real>, family: real)
    | EValueAccumulation(threshold: real)

  datatype StopRule = AllUnitsTerminal | PrimaryFalsified | BudgetExhausted | UnitsExhausted | EValueThreshold

  datatype Spec = Spec(units: seq<Unit>, policy: Policy, priorAlpha: real, stopRules: seq<StopRule>)

  const TOLERANCE := 0.000000001

  function Share(p: Policy, name: Label): real {
    if p.AlphaSpending? && name in p.shares then p.shares[name] else 0.0
  }

  function SumShares(p: Policy, units: seq<Unit>): real {
    if units == [] then 0.0 else SumShares(p, units[..|units| - 1]) + Share(p, units[|units| - 1].name)
  }

  /** The schema: units as checked above, and a policy that fits them. */
  ghost predicate ValidSpec(spec: Spec) {
    && ValidUnits(spec.units)
    && match spec.policy
       case SinglePrimary(primary) => primary in Labels(spec.units)
       case AlphaSpending(shares, family) =>
         && (forall u :: u in shares <==> u in Labels(spec.units))
         && (forall u :: u in shares ==> 0.0 < shares[u] <= 0.5)
         && SumShares(spec.policy, spec.units) + spec.priorAlpha <= family + TOLERANCE
       case EValueAccumulation(threshold) => threshold >= 1.0
  }

  // ----- the decision core -----

  /** `states.find(...)`: the first entry. */
  function First(states: seq<UnitState>, name: Label): Option<UnitState> {
    if states == [] then None
    else if states[0].name == name then Some(states[0])
    else First(states[1..], name)
  }

  /** A `Map` built from the list: the last entry. */
  function Latest(states: seq<UnitState>, name: Label): Option<UnitState> {
    if states == [] then None
    else if states[|states| - 1].name == name then Some(states[|states| - 1])
    else Latest(states[..|states| - 1], name)
  }

  predicate IsCompleted(states: seq<UnitState>, name: Label) {
    Latest(states, name).Some? && Latest(states, name).value.state == Completed
  }

  predicate Ready(states: seq<UnitState>, u: Unit) {
    && (First(states, u.name).Some? ==> First(states, u.name).value.state == Pending)
    && forall i :: 0 <= i < |u.dependsOn| ==> IsCompleted(states, u.dependsOn[i])
  }

  function RunnableUnits(units: seq<Unit>, states: seq<UnitState>): seq<Label> {
    if units == [] then []
    else
      var rest := RunnableUnits(units[..|units| - 1], states);
      var u := units[|units| - 1];
      if Ready(states, u) then rest + [u.name] else rest
  }

  function EProduct(states: seq<UnitState>, completedOnly: bool): real {
    if states == [] then 1.0
    else
      var s := states[|states| - 1];
      var rest := EProduct(states[..|states| - 1], completedOnly);
      if s.eValue.Some? && (!completedOnly || s.state == Completed) then rest * s.eValue.value else rest
  }

  predicate Terminal(s: State) { s == Completed || s == Failed || s == Canceled }

  predicate AllTerminal(units: seq<Unit>, states: seq<UnitState>) {
    forall i :: 0 <= i < |units| ==>
      Latest(states, units[i].name).Some? && Terminal(Latest(states, units[i].name).value.state)
  }

  predicate RuleFires(spec: Spec, states: seq<UnitState>, rule: StopRule, eValueReached: bool) {
    match rule
    case AllUnitsTerminal => AllTerminal(spec.units, states)
    case PrimaryFalsified =>
      spec.policy.SinglePrimary? && Latest(states, spec.policy.primary).Some?
      && Latest(states, spec.policy.primary).value.state == Failed
    case BudgetExhausted => false
    case UnitsExhausted => false
    case EValueThreshold => eValueReached
  }

  /** Whether a stop holds.  The driver supplies only the e-value signal. */
  predicate Stops(spec: Spec, states: seq<UnitState>) {
    || (spec.policy.EValueAccumulation? && EProduct(states, true) >= spec.policy.threshold)
    || exists i :: 0 <= i < |spec.stopRules| && RuleFires(spec, states, spec.stopRules[i], EValueReached(spec, states))
  }

  predicate EValueReached(spec: Spec, states: seq<UnitState>) {
    spec.policy.EValueAccumulation? && EProduct(states, false) >= spec.policy.threshold
  }

  /** Remaining alpha; `None` when the policy keeps no ledger. */
  function AlphaBudget(p: Policy, states: seq<UnitState>, name: Label): Option<real> {
    if !p.AlphaSpending? then None
    else
      var latest := Latest(states, name);
      var spent := if latest.Some? && latest.value.alphaSpent.Some? then latest.value.alphaSpent.value else 0.0;
      var left := Share(p, name) - spent;
      Some(if left > 0.0 then left else 0.0)
  }

  function Affordable(p: Policy, states: seq<UnitState>, names: seq<Label>): seq<Label> {
    if names == [] then []
    else
      var rest := Affordable(p, states, names[..|names| - 1]);
      var name := names[|names| - 1];
      if AlphaBudget(p, states, name).None? || AlphaBudget(p, states, name).value > 0.0 then rest + [name] else rest
  }

  function Decide(spec: Spec, states: seq<UnitState>): seq<Label> {
    if Stops(spec, states) then [] else Affordable(spec.policy, states, RunnableUnits(spec.units, states))
  }

  // ----- facts about the core -----

  predicate Fresh(states: seq<UnitState>, name: Label) { forall i :: 0 <= i < |states| ==> states[i].name != name }

  lemma LookupsAgree(states: seq<UnitState>, name: Label)
    ensures Fresh(states, name) <==> First(states, name).None?
    ensures Fresh(states, name) <==> Latest(states, name).None?
    ensures First(states, name).Some? ==> exists i :: 0 <= i < |states| && states[i] == First(states, name).value && states[i].name == name
    ensures Latest(states, name).Some? ==> exists i :: 0 <= i < |states| && states[i] == Latest(states, name).value && states[i].name == name
  {
    FirstFacts(states, name);
    LatestFacts(states, name);
  }

  lemma {:induction false} FirstFacts(states: seq<UnitState>, name: Label)
    ensures Fresh(states, name) <==> First(states, name).None?
    ensures First(states, name).Some? ==> exists i :: 0 <= i < |states| && states[i] == First(states, name).value && states[i].name == name
  {
    if states != [] && states[0].name != name {
      FirstFacts(states[1..], name);
      assert forall i :: 1 <= i < |states| ==> states[i] == states[1..][i - 1];
    }
  }

  lemma {:induction false} LatestFacts(states: seq<UnitState>, name: Label)
    ensures Fresh(states, name) <==> Latest(states, name).None?
    ensures Latest(states, name).Some? ==> exists i :: 0 <= i < |states| && states[i] == Latest(states, name).value && states[i].name == name
  {
    if states != [] && states[|states| - 1].name != name {
      LatestFacts(states[..|states| - 1], name);
      assert forall i :: 0 <= i < |states| - 1 ==> states[i] == states[..|states| - 1][i];
    }
  }

  predicate ReadyUnit(units: seq<Unit>, states: seq<UnitState>, name: Label) {
    exists i :: 0 <= i < |units| && units[i].name == name && Ready(states, units[i])
  }

  lemma {:induction false} RunnableAreReady(units: seq<Unit>, states: seq<UnitState>)
    ensures forall k :: 0 <= k < |RunnableUnits(units, states)| ==> ReadyUnit(units, states, RunnableUnits(units, states)[k])
    ensures Distinct(Labels(units)) ==> Distinct(RunnableUnits(units, states))
  {
    hide Ready;
    if units != [] {
      var init, u := units[..|units| - 1], units[|units| - 1];
      var rest := RunnableUnits(init, states);
      RunnableAreReady(init, states);
      forall k | 0 <= k < |rest|
        ensures ReadyUnit(units, states, rest[k])
        ensures Distinct(Labels(units)) ==> rest[k] != u.name
      {
        var i :| 0 <= i < |init| && init[i].name == rest[k] && Ready(states, init[i]);
        assert units[i] == init[i] && Labels(units)[i] == init[i].name && Labels(units)[|init|] == u.name;
      }
      assert forall i :: 0 <= i < |init| ==> Labels(init)[i] == Labels(units)[i];
    }
  }

  lemma {:induction false} AffordableAmong(p: Policy, states: seq<UnitState>, names: seq<Label>)
    ensures forall k :: 0 <= k < |Affordable(p, states, names)| ==> Affordable(p, states, names)[k] in names
    ensures Distinct(names) ==> Distinct(Affordable(p, states, names))
  {
    if names != [] {
      var init := names[..|names| - 1];
      AffordableAmong(p, states, init);
      assert forall i :: 0 <= i < |init| ==> init[i] == names[i];
    }
  }

  lemma {:induction false} NoneRunnable(units: seq<Unit>, states: seq<UnitState>)
    requires forall i :: 0 <= i < |units| ==> First(states, units[i].name).Some? && First(states, units[i].name).value.state != Pending
    ensures RunnableUnits(units, states) == []
  {
    if units != [] {
      var init := units[..|units| - 1];
      assert forall i :: 0 <= i < |init| ==> init[i] == units[i];
      NoneRunnable(init, states);
    }
  }

  // ----- the driver -----

  datatype Finish = Done | Broke | Stopped

  /** What executing a unit may return. */
  datatype UnitResult = UnitResult(finish: Finish, alphaSpent: Option<real>, eValue: Option<real>)

  function StateOf(f: Finish): State {
    match f
    case Done => Completed
    case Broke => Failed
    case Stopped => Canceled
  }

  /** The world outside: frozen specs (their alpha), unit execution, and the cancel flag, each
      free to answer differently every time it is asked. */
  datatype World = World(resolve: (Label, nat) -> Option<real>, execute: (Label, nat) -> UnitResult, cancel: nat -> bool)

  /** A unit handed to the executor, with the states it was started in. */
  datatype Start = Start(name: Label, alpha: real, before: seq<UnitState>)

  /** How a campaign ended, and how often it asked whether it was cancelled. */
  datatype Outcome = Outcome(stopped: bool, states: seq<UnitState>, starts: seq<Start>, cancelled: bool, polls: nat)

  /** One of the first polls was answered with a cancellation. */
  predicate Cancelled(world: World, polls: nat) { exists p :: 1 <= p <= polls && world.cancel(p) }

  /** How many of them were not. */
  function QuietPolls(world: World, polls: nat): nat {
    if polls == 0 then 0 else QuietPolls(world, polls - 1) + (if world.cancel(polls) then 0 else 1)
  }

  /** Every entry is the terminal record of a different declared unit. */
  predicate Recorded(spec: Spec, states: seq<UnitState>) {
    && (forall i :: 0 <= i < |states| ==> states[i].name in Labels(spec.units) && Terminal(states[i].state))
    && forall i, j :: 0 <= i < j < |states| ==> states[i].name != states[j].name
  }

  /** The records hold this unit in this state. */
  predicate RecordedAs(states: seq<UnitState>, name: Label, state: State) {
    exists k :: 0 <= k < |states| && states[k].name == name && states[k].state == state
  }

  /** A start is lawful: the unit had no record, all its dependencies were recorded as completed, no stop
      held, and under alpha spending its spec stays within the share declared for it. */
  predicate Lawful(spec: Spec, s: Start) {
    && Fresh(s.before, s.name) && !StopHolds(spec, s.before)
    && (exists i :: 0 <= i < |spec.units| && spec.units[i].name == s.name
          && forall j :: 0 <= j < |spec.units[i].dependsOn| ==> RecordedAs(s.before, spec.units[i].dependsOn[j], Completed))
    && (spec.policy.AlphaSpending? && s.name in spec.policy.shares ==> s.alpha <= spec.policy.shares[s.name] + TOLERANCE)
  }

  predicate LawfulStarts(spec: Spec, states: seq<UnitState>, starts: seq<Start>) {
    && (forall i :: 0 <= i < |starts| ==> Lawful(spec, starts[i]) && !Fresh(states, starts[i].name) && starts[i].before <= states)
    && forall i, j :: 0 <= i < j < |starts| ==> starts[i].name != starts[j].name
  }

  // ----- the stops, over the records -----

  /** The product of the e-values, of completed units or of all. */
  function Evidence(states: seq<UnitState>, completedOnly: bool): real {
    if states == [] then 1.0
    else
      var counts := states[0].eValue.Some? && !(completedOnly && states[0].state != Completed);
      (if counts then states[0].eValue.value else 1.0) * Evidence(states[1..], completedOnly)
  }

  lemma {:induction false} EvidenceAppend(states: seq<UnitState>, s: UnitState, completedOnly: bool)
    ensures Evidence(states + [s], completedOnly) == Evidence(states, completedOnly) * Evidence([s], completedOnly)
  {
    if states == [] {
      assert states + [s] == [s];
    } else {
      assert (states + [s])[1..] == states[1..] + [s];
      EvidenceAppend(states[1..], s, completedOnly);
      var counts := states[0].eValue.Some? && !(completedOnly && states[0].state != Completed);
      var x := if counts then states[0].eValue.value else 1.0;
      Associate(x, Evidence(states[1..], completedOnly), Evidence([s], completedOnly));
    }
  }

  lemma Associate(x: real, y: real, z: real)
    ensures x * (y * z) == x * y * z
  {
  }

  lemma {:induction false} EvidenceIsProduct(states: seq<UnitState>, completedOnly: bool)
    ensures EProduct(states, completedOnly) == Evidence(states, completedOnly)
  {
    if states != [] {
      var init, s := states[..|states| - 1], states[|states| - 1];
      EvidenceIsProduct(init, completedOnly);
      EvidenceAppend(init, s, completedOnly);
      assert init + [s] == states;
      assert Evidence([s], completedOnly) == if s.eValue.Some? && !(completedOnly && s.state != Completed) then s.eValue.value else 1.0;
    }
  }

  /** A stop, rule by rule: enough evidence from the completed units; every unit recorded as over; the primary recorded
      as failed; enough evidence from all records.  The driver has no budget or unit-count signal. */
  predicate StopHolds(spec: Spec, states: seq<UnitState>) {
    || (spec.policy.EValueAccumulation? && Evidence(states, true) >= spec.policy.threshold)
    || (AllUnitsTerminal in spec.stopRules && forall i :: 0 <= i < |spec.units| ==> RecordedOver(states, spec.units[i].name))
    || (PrimaryFalsified in spec.stopRules && spec.policy.SinglePrimary? && RecordedAs(states, spec.policy.primary, Failed))
    || (EValueThreshold in spec.stopRules && spec.policy.EValueAccumulation? && Evidence(states, false) >= spec.policy.threshold)
  }

  predicate RecordedOver(states: seq<UnitState>, name: Label) {
    RecordedAs(states, name, Completed) || RecordedAs(states, name, Failed) || RecordedAs(states, name, Canceled)
  }

  /** With one record per unit, the looked-up record is the one there is. */
  lemma LatestIsRecord(spec: Spec, states: seq<UnitState>, name: Label, state: State)
    requires Recorded(spec, states)
    ensures RecordedAs(states, name, state) <==> Latest(states, name).Some? && Latest(states, name).value.state == state
  {
    hide Latest;
    LatestFacts(states, name);
    if RecordedAs(states, name, state) {
      var k :| 0 <= k < |states| && states[k].name == name && states[k].state == state;
      var i :| 0 <= i < |states| && states[i] == Latest(states, name).value && states[i].name == name;
      assert i == k;
    }
  }

  lemma RuleByRule(spec: Spec, states: seq<UnitState>, rule: StopRule)
    requires Recorded(spec, states)
    ensures RuleFires(spec, states, rule, EValueReached(spec, states)) <==>
      match rule
      case AllUnitsTerminal => forall i :: 0 <= i < |spec.units| ==> RecordedOver(states, spec.units[i].name)
      case PrimaryFalsified => spec.policy.SinglePrimary? && RecordedAs(states, spec.policy.primary, Failed)
      case EValueThreshold => spec.policy.EValueAccumulation? && Evidence(states, false) >= spec.policy.threshold
      case _ => false
  {
    hide Latest, EProduct, Evidence, RecordedAs, Recorded;
    EvidenceIsProduct(states, false);
    if spec.policy.SinglePrimary? { LatestIsRecord(spec, states, spec.policy.primary, Failed); }
    forall i | 0 <= i < |spec.units|
      ensures RecordedOver(states, spec.units[i].name) <==>
        Latest(states, spec.units[i].name).Some? && Terminal(Latest(states, spec.units[i].name).value.state)
    {
      LatestIsRecord(spec, states, spec.units[i].name, Completed);
      LatestIsRecord(spec, states, spec.units[i].name, Failed);
      LatestIsRecord(spec, states, spec.units[i].name, Canceled);
    }
  }

  lemma FiringHolds(spec: Spec, states: seq<UnitState>, i: nat)
    requires Recorded(spec, states) && i < |spec.stopRules| && RuleFires(spec, states, spec.stopRules[i], EValueReached(spec, states))
    ensures StopHolds(spec, states)
  {
    hide RuleFires, EValueReached, EProduct, Evidence, Recorded, RecordedAs, RecordedOver;
    RuleByRule(spec, states, spec.stopRules[i]);
    assert spec.stopRules[i] in spec.stopRules;
  }

  /** The loop over the rules stops exactly when one of them holds. */
  lemma StopsExactly(spec: Spec, states: seq<UnitState>)
    requires Recorded(spec, states)
    ensures Stops(spec, states) <==> StopHolds(spec, states)
  {
    hide RuleFires, EValueReached, EProduct, Evidence, Recorded, RecordedAs, RecordedOver;
    EvidenceIsProduct(states, true);
    RuleByRule(spec, states, AllUnitsTerminal);
    RuleByRule(spec, states, PrimaryFalsified);
    RuleByRule(spec, states, EValueThreshold);
    RuleByRule(spec, states, BudgetExhausted);
    RuleByRule(spec, states, UnitsExhausted);
    if StopHolds(spec, states) && !(spec.policy.EValueAccumulation? && Evidence(states, true) >= spec.policy.threshold) {
      var rule :| rule in spec.stopRules && RuleFires(spec, states, rule, EValueReached(spec, states));
      var i :| 0 <= i < |spec.stopRules| && spec.stopRules[i] == rule;
    } else if Stops(spec, states) && !(spec.policy.EValueAccumulation? && Evidence(states, true) >= spec.policy.threshold) {
      var i :| 0 <= i < |spec.stopRules| && RuleFires(spec, states, spec.stopRules[i], EValueReached(spec, states));
      FiringHolds(spec, states, i);
    }
  }

  predicate StillReady(spec: Spec, states: seq<UnitState>, name: Label) {
    Fresh(states, name) && ReadyUnit(spec.units, states, name)
  }

  lemma LatestAppend(states: seq<UnitState>, s: UnitState, name: Label)
    ensures Latest(states + [s], name) == if s.name == name then Some(s) else Latest(states, name)
  {
    assert (states + [s])[..|states|] == states;
  }

  lemma FreshAppend(states: seq<UnitState>, s: UnitState, name: Label)
    ensures Fresh(states + [s], name) <==> Fresh(states, name) && s.name != name
  {
    var all := states + [s];
    assert all[|states|] == s && forall i :: 0 <= i < |states| ==> all[i] == states[i];
  }

  /** Recording another unit never unreadies one that is waiting. */
  lemma ReadyPersists(spec: Spec, states: seq<UnitState>, s: UnitState, name: Label)
    requires StillReady(spec, states, name) && Fresh(states, s.name) && s.name != name
    ensures StillReady(spec, states + [s], name)
  {
    hide First, Latest, Fresh;
    FreshAppend(states, s, name);
    var i :| 0 <= i < |spec.units| && spec.units[i].name == name && Ready(states, spec.units[i]);
    LookupsAgree(states + [s], name);
    forall j | 0 <= j < |spec.units[i].dependsOn|
      ensures IsCompleted(states + [s], spec.units[i].dependsOn[j])
    {
      var d := spec.units[i].dependsOn[j];
      assert IsCompleted(states, d);
      LookupsAgree(states, d);
      LatestAppend(states, s, d);
    }
    assert Ready(states + [s], spec.units[i]);
  }

  lemma RecordedAppend(spec: Spec, states: seq<UnitState>, s: UnitState)
    requires Recorded(spec, states) && Fresh(states, s.name) && s.name in Labels(spec.units) && Terminal(s.state)
    ensures Recorded(spec, states + [s])
  {
  }

  lemma StartsAppend(spec: Spec, states: seq<UnitState>, starts: seq<Start>, s: UnitState)
    requires LawfulStarts(spec, states, starts)
    ensures LawfulStarts(spec, states + [s], starts)
  {
    hide Lawful, Fresh;
    forall i | 0 <= i < |starts|
      ensures !Fresh(states + [s], starts[i].name)
    {
      FreshAppend(states, s, starts[i].name);
    }
  }

  lemma StartsAdd(spec: Spec, states: seq<UnitState>, starts: seq<Start>, start: Start, s: UnitState)
    requires LawfulStarts(spec, states, starts) && Lawful(spec, start) && start.before == states && s.name == start.name
    ensures LawfulStarts(spec, states + [s], starts + [start])
  {
    hide Lawful, Fresh;
    LawfulIsFresh(spec, start);
    forall i | 0 <= i <= |starts|
      ensures !Fresh(states + [s], (starts + [start])[i].name)
    {
      FreshAppend(states, s, (starts + [start])[i].name);
    }
  }

  lemma LawfulIsFresh(spec: Spec, s: Start)
    requires Lawful(spec, s)
    ensures Fresh(s.before, s.name)
  {
  }

  /** Replace the first entry with this name, as `find` followed by assignment does. */
  function SetFirst(states: seq<UnitState>, s: UnitState): seq<UnitState> {
    if states == [] then []
    else if states[0].name == s.name then [s] + states[1..]
    else [states[0]] + SetFirst(states[1..], s)
  }

  lemma {:induction false} SetFirstAtEnd(states: seq<UnitState>, earlier: UnitState, s: UnitState)
    requires Fresh(states, s.name) && earlier.name == s.name
    ensures SetFirst(states + [earlier], s) == states + [s]
  {
    if states == [] {
      assert [earlier][1..] == [];
    } else {
      assert (states + [earlier])[1..] == states[1..] + [earlier];
      SetFirstAtEnd(states[1..], earlier, s);
    }
  }

  lemma ReadyIsLawful(spec: Spec, states: seq<UnitState>, name: Label, alpha: real)
    requires Recorded(spec, states) && StillReady(spec, states, name) && !Stops(spec, states)
    requires spec.policy.AlphaSpending? ==> alpha <= Share(spec.policy, name) + TOLERANCE
    ensures Lawful(spec, Start(name, alpha, states))
  {
    hide Stops, StopHolds, First, Latest, RecordedAs, Recorded, Fresh;
    StopsExactly(spec, states);
    var i :| 0 <= i < |spec.units| && spec.units[i].name == name && Ready(states, spec.units[i]);
    forall j | 0 <= j < |spec.units[i].dependsOn|
      ensures RecordedAs(states, spec.units[i].dependsOn[j], Completed)
    {
      assert IsCompleted(states, spec.units[i].dependsOn[j]);
      LatestIsRecord(spec, states, spec.units[i].dependsOn[j], Completed);
    }
  }

  lemma ReadyIsDeclared(spec: Spec, states: seq<UnitState>, name: Label)
    requires StillReady(spec, states, name)
    ensures name in Labels(spec.units)
  {
    hide Ready, Fresh;
    var i :| 0 <= i < |spec.units| && spec.units[i].name == name && Ready(states, spec.units[i]);
    assert Labels(spec.units)[i] == name;
  }

  /** The frozen spec was found and, under alpha spending, stays within the share declared for the unit. */
  predicate Executes(spec: Spec, world: World, name: Label, at: nat) {
    var frozen := world.resolve(name, at);
    frozen.Some? && (spec.policy.AlphaSpending? ==> frozen.value <= Declared(spec.policy, name) + TOLERANCE)
  }

  /** The share of a unit; a unit without one has none to spend. */
  function Declared(p: Policy, name: Label): real
    requires p.AlphaSpending?
  {
    if name !in p.shares then 0.0 else p.shares[name]
  }

  /** The record a unit deserves: a refusal is a failure; an execution is recorded as it ended, and
      books its share when it reports no spend of its own. */
  function RecordOf(spec: Spec, world: World, name: Label, at: nat): UnitState {
    var result := world.execute(name, at);
    if !Executes(spec, world, name, at) then UnitState(name, Failed, None, None)
    else UnitState(name, if result.finish == Done then Completed else if result.finish == Broke then Failed else Canceled,
                   if result.alphaSpent.None? && spec.policy.AlphaSpending? then Some(Declared(spec.policy, name)) else result.alphaSpent,
                   result.eValue)
  }

  predicate HasStart(starts: seq<Start>, name: Label) { exists j :: 0 <= j < |starts| && starts[j].name == name }

  /** Every record is what the world answered, and exactly the executed units have a start. */
  predicate Truthful(spec: Spec, world: World, states: seq<UnitState>, starts: seq<Start>) {
    forall i :: 0 <= i < |states| ==>
      && states[i] == RecordOf(spec, world, states[i].name, i)
      && (HasStart(starts, states[i].name) <==> Executes(spec, world, states[i].name, i))
  }

  lemma TruthfulAppend(spec: Spec, world: World, states: seq<UnitState>, starts: seq<Start>, name: Label, starts': seq<Start>)
    requires Truthful(spec, world, states, starts) && Fresh(states, name) && LawfulStarts(spec, states, starts)
    requires if Executes(spec, world, name, |states|) then |starts'| == |starts| + 1 && starts' == starts + [starts'[|starts|]] && starts'[|starts|].name == name
             else starts' == starts
    ensures Truthful(spec, world, states + [RecordOf(spec, world, name, |states|)], starts')
  {
    hide Executes, Lawful;
    var more := states + [RecordOf(spec, world, name, |states|)];
    RecordName(spec, world, name, |states|);
    forall i | 0 <= i < |more|
      ensures more[i] == RecordOf(spec, world, more[i].name, i)
      ensures HasStart(starts', more[i].name) <==> Executes(spec, world, more[i].name, i)
    {
      if i < |states| {
        assert more[i] == states[i] && states[i].name != name;
        StartsElsewhere(starts, starts', name, states[i].name);
      } else {
        assert !HasStart(starts, name);
        if Executes(spec, world, name, |states|) {
          assert starts'[|starts|].name == name;
        }
      }
    }
  }

  lemma RecordName(spec: Spec, world: World, name: Label, at: nat)
    ensures RecordOf(spec, world, name, at).name == name
  {
  }

  lemma StartsElsewhere(starts: seq<Start>, starts': seq<Start>, name: Label, other: Label)
    requires other != name
    requires starts' == starts || (|starts'| == |starts| + 1 && starts <= starts' && starts'[|starts|].name == name)
    ensures HasStart(starts', other) <==> HasStart(starts, other)
  {
    if HasStart(starts, other) {
      var j :| 0 <= j < |starts| && starts[j].name == other;
      assert starts'[j].name == other;
    }
  }

  /** One ready unit: refuse it if its frozen spec is missing or over its share, else run it. */
  method RunUnit(spec: Spec, world: World, name: Label, states: seq<UnitState>, starts: seq<Start>)
    returns (states': seq<UnitState>, starts': seq<Start>)
    requires Recorded(spec, states) && LawfulStarts(spec, states, starts)
    requires StillReady(spec, states, name) && !Stops(spec, states)
    requires Truthful(spec, world, states, starts)
    ensures Recorded(spec, states') && LawfulStarts(spec, states', starts') && Truthful(spec, world, states', starts')
    ensures states' == states + [RecordOf(spec, world, name, |states|)]
    ensures if Executes(spec, world, name, |states|)
      then starts' == starts + [Start(name, world.resolve(name, |states|).value, states)] else starts' == starts
  {
    hide Stops, Latest, First, Ready, Truthful, Recorded, LawfulStarts, Lawful;
    ReadyIsDeclared(spec, states, name);
    var frozen := world.resolve(name, |states|);
    if frozen.None? || (spec.policy.AlphaSpending? && frozen.value > Share(spec.policy, name) + TOLERANCE) {
      var refused := UnitState(name, Failed, None, None);
      RecordedAppend(spec, states, refused);
      StartsAppend(spec, states, starts, refused);
      TruthfulAppend(spec, world, states, starts, name, starts);
      return states + [refused], starts;
    }
    var running := UnitState(name, Running, None, None);
    states' := states + [running];
    var start := Start(name, frozen.value, states);
    ReadyIsLawful(spec, states, name, frozen.value);
    var result := world.execute(name, |states|);
    var spent := if result.alphaSpent.Some? then result.alphaSpent
                 else if spec.policy.AlphaSpending? then Some(Share(spec.policy, name)) else None;
    var record := UnitState(name, StateOf(result.finish), spent, result.eValue);
    SetFirstAtEnd(states, running, record);
    states' := SetFirst(states', record);
    RecordedAppend(spec, states, record);
    StartsAdd(spec, states, starts, start, record);
    starts' := starts + [start];
    TruthfulAppend(spec, world, states, starts, name, starts');
  }

  lemma RoundIsReady(spec: Spec, states: seq<UnitState>)
    requires Recorded(spec, states) && Distinct(Labels(spec.units))
    ensures Distinct(Decide(spec, states))
    ensures forall k :: 0 <= k < |Decide(spec, states)| ==> StillReady(spec, states, Decide(spec, states)[k])
  {
    hide Stops;
    var ready := RunnableUnits(spec.units, states);
    RunnableAreReady(spec.units, states);
    AffordableAmong(spec.policy, states, ready);
    forall k | 0 <= k < |Decide(spec, states)|
      ensures StillReady(spec, states, Decide(spec, states)[k])
    {
      var name := Decide(spec, states)[k];
      var i :| 0 <= i < |ready| && ready[i] == name;
      assert ReadyUnit(spec.units, states, name);
      var u :| 0 <= u < |spec.units| && spec.units[u].name == name && Ready(states, spec.units[u]);
      LookupsAgree(states, name);
    }
  }

  /** The alpha ledger: what the declared share leaves after the recorded spend, and none below zero; affordable are exactly
      the units that have some left, in the same order. */
  lemma LedgerExactly(spec: Spec, states: seq<UnitState>, k: nat)
    requires spec.policy.AlphaSpending? && Recorded(spec, states) && k < |states| && states[k].name in spec.policy.shares
    ensures var spent := if states[k].alphaSpent.Some? then states[k].alphaSpent.value else 0.0;
      var left := spec.policy.shares[states[k].name] - spent;
      && AlphaBudget(spec.policy, states, states[k].name) == Some(if left < 0.0 then 0.0 else left)
      && (Affordable(spec.policy, states, [states[k].name]) == [states[k].name] <==> left > 0.0)
  {
    hide Latest, AlphaBudget;
    BudgetOfRecord(spec, states, k);
    AffordableOne(spec.policy, states, states[k].name);
  }

  lemma BudgetOfRecord(spec: Spec, states: seq<UnitState>, k: nat)
    requires spec.policy.AlphaSpending? && Recorded(spec, states) && k < |states| && states[k].name in spec.policy.shares
    ensures var spent := if states[k].alphaSpent.Some? then states[k].alphaSpent.value else 0.0;
      var left := spec.policy.shares[states[k].name] - spent;
      AlphaBudget(spec.policy, states, states[k].name) == Some(if left < 0.0 then 0.0 else left)
  {
    hide Latest;
    LatestFacts(states, states[k].name);
  }

  lemma AffordableOne(p: Policy, states: seq<UnitState>, name: Label)
    ensures Affordable(p, states, [name]) == [name] <==>
      AlphaBudget(p, states, name).None? || AlphaBudget(p, states, name).value > 0.0
  {
    hide AlphaBudget;
    assert [name][..0] == [];
  }

  lemma {:induction false} AffordAll(p: Policy, states: seq<UnitState>, names: seq<Label>)
    requires forall i :: 0 <= i < |names| ==> Fresh(states, names[i]) && (p.AlphaSpending? ==> Share(p, names[i]) > 0.0)
    ensures Affordable(p, states, names) == names
  {
    if names != [] {
      var init, last := names[..|names| - 1], names[|names| - 1];
      assert forall i :: 0 <= i < |init| ==> init[i] == names[i];
      AffordAll(p, states, init);
      LookupsAgree(states, last);
      assert init + [last] == names;
    }
  }

  /** A valid spec's alpha ledger never holds back a unit that has not run. */
  lemma NothingUnaffordable(spec: Spec, states: seq<UnitState>)
    requires ValidSpec(spec) && Recorded(spec, states) && !Stops(spec, states)
    ensures Decide(spec, states) == RunnableUnits(spec.units, states)
  {
    hide Stops;
    var names := RunnableUnits(spec.units, states);
    RunnableAreReady(spec.units, states);
    forall k | 0 <= k < |names|
      ensures Fresh(states, names[k]) && (spec.policy.AlphaSpending? ==> Share(spec.policy, names[k]) > 0.0)
    {
      assert ReadyUnit(spec.units, states, names[k]);
      var u :| 0 <= u < |spec.units| && spec.units[u].name == names[k] && Ready(states, spec.units[u]);
      LookupsAgree(states, names[k]);
      assert Labels(spec.units)[u] == names[k];
    }
    AffordAll(spec.policy, states, names);
  }

  /** With as many records as units, nothing is left to run. */
  lemma AllRecorded(spec: Spec, states: seq<UnitState>)
    requires Recorded(spec, states) && Distinct(Labels(spec.units)) && |states| >= |spec.units|
    ensures RunnableUnits(spec.units, states) == [] && Decide(spec, states) == []
  {
    var names := seq(|states|, i requires 0 <= i < |states| => states[i].name);
    Pigeonhole(names, Labels(spec.units));
    forall i | 0 <= i < |spec.units|
      ensures First(states, spec.units[i].name).Some? && First(states, spec.units[i].name).value.state != Pending
    {
      assert Labels(spec.units)[i] in names;
      var k :| 0 <= k < |names| && names[k] == spec.units[i].name;
      assert states[k].name == spec.units[i].name;
      FirstFacts(states, spec.units[i].name);
    }
    NoneRunnable(spec.units, states);
  }

  lemma Pigeonhole(names: seq<Label>, labels: seq<Label>)
    requires Distinct(names) && Distinct(labels) && |names| >= |labels|
    requires forall i :: 0 <= i < |names| ==> names[i] in labels
    ensures forall i :: 0 <= i < |labels| ==> labels[i] in names
  {
    var a, b := set i | 0 <= i < |names| :: names[i], set i | 0 <= i < |labels| :: labels[i];
    DistinctSize(names);
    DistinctSize(labels);
    SubsetSize(a, b);
    assert forall i :: 0 <= i < |labels| ==> labels[i] in b;
  }

  lemma {:induction false} DistinctSize(s: seq<Label>)
    requires Distinct(s)
    ensures |set i | 0 <= i < |s| :: s[i]| == |s|
  {
    if s != [] {
      var init := s[..|s| - 1];
      DistinctSize(init);
      var a, b := set i | 0 <= i < |init| :: init[i], set i | 0 <= i < |s| :: s[i];
      assert b == a + {s[|s| - 1]} by {
        assert forall i :: 0 <= i < |init| ==> init[i] == s[i];
        assert forall x :: x in a ==> x in b;
      }
    }
  }

  /** The unit has its record, or a dependency that is not recorded as completed. */
  predicate NotWaiting(states: seq<UnitState>, u: Unit) {
    !Fresh(states, u.name) || exists j :: 0 <= j < |u.dependsOn| && !RecordedAs(states, u.dependsOn[j], Completed)
  }

  /** A dependency is recorded as failed or cancelled. */
  predicate DependencyLost(states: seq<UnitState>, u: Unit) {
    exists j :: 0 <= j < |u.dependsOn| && (RecordedAs(states, u.dependsOn[j], Failed) || RecordedAs(states, u.dependsOn[j], Canceled))
  }

  /** Runnable are exactly the units without a record whose dependencies are all recorded as completed. */
  lemma RunnableExactly(spec: Spec, states: seq<UnitState>)
    requires Recorded(spec, states)
    ensures forall i :: 0 <= i < |spec.units| && !NotWaiting(states, spec.units[i]) ==>
      spec.units[i].name in RunnableUnits(spec.units, states)
    ensures forall name :: name in RunnableUnits(spec.units, states) ==>
      exists i :: 0 <= i < |spec.units| && spec.units[i].name == name && !NotWaiting(states, spec.units[i])
  {
    hide Recorded, Ready, NotWaiting;
    RunnableAreReady(spec.units, states);
    forall i | 0 <= i < |spec.units|
      ensures Ready(states, spec.units[i]) <==> !NotWaiting(states, spec.units[i])
    {
      ReadyExactly(spec, states, spec.units[i]);
    }
    ReadyAreRunnable(spec.units, states);
    forall name | name in RunnableUnits(spec.units, states)
      ensures exists i :: 0 <= i < |spec.units| && spec.units[i].name == name && !NotWaiting(states, spec.units[i])
    {
      var k :| 0 <= k < |RunnableUnits(spec.units, states)| && RunnableUnits(spec.units, states)[k] == name;
      assert ReadyUnit(spec.units, states, name);
    }
  }

  lemma ReadyExactly(spec: Spec, states: seq<UnitState>, u: Unit)
    requires Recorded(spec, states)
    ensures Ready(states, u) <==> !NotWaiting(states, u)
  {
    hide First, Latest, Fresh, RecordedAs;
    LookupsAgree(states, u.name);
    forall j | 0 <= j < |u.dependsOn|
      ensures IsCompleted(states, u.dependsOn[j]) <==> RecordedAs(states, u.dependsOn[j], Completed)
    {
      LatestIsRecord(spec, states, u.dependsOn[j], Completed);
    }
  }

  /** Runnable units come in declared order. */
  lemma {:induction false} RunnableInOrder(units: seq<Unit>, states: seq<UnitState>, a: nat, b: nat)
    requires a < b < |RunnableUnits(units, states)|
    ensures var names := RunnableUnits(units, states);
      exists i, j :: 0 <= i < j < |units| && units[i].name == names[a] && units[j].name == names[b]
  {
    hide Ready;
    var n := |units| - 1;
    var init := units[..n];
    if b < |RunnableUnits(init, states)| {
      RunnableInOrder(init, states, a, b);
      var i, j :| 0 <= i < j < |init| && init[i].name == RunnableUnits(init, states)[a] && init[j].name == RunnableUnits(init, states)[b];
      assert units[i] == init[i] && units[j] == init[j];
    } else {
      RunnableAreReady(init, states);
      assert ReadyUnit(init, states, RunnableUnits(init, states)[a]);
      var i :| 0 <= i < |init| && init[i].name == RunnableUnits(init, states)[a] && Ready(states, init[i]);
      assert units[i] == init[i];
    }
  }

  lemma {:induction false} ReadyAreRunnable(units: seq<Unit>, states: seq<UnitState>)
    ensures forall i :: 0 <= i < |units| && Ready(states, units[i]) ==> units[i].name in RunnableUnits(units, states)
  {
    hide Ready;
    if units != [] {
      ReadyAreRunnable(units[..|units| - 1], states);
    }
  }

  /** Recording goes on after a start, but a completed dependency stays completed: no started unit ever has a lost
      dependency. */
  lemma StartedKeepsDependencies(spec: Spec, states: seq<UnitState>, starts: seq<Start>, i: nat)
    requires Distinct(Labels(spec.units)) && Recorded(spec, states) && LawfulStarts(spec, states, starts)
    requires i < |spec.units| && DependencyLost(states, spec.units[i])
    ensures !HasStart(starts, spec.units[i].name)
  {
    hide StopHolds, Fresh, RecordedAs, Recorded;
    var u := spec.units[i];
    if HasStart(starts, u.name) {
      var s :| 0 <= s < |starts| && starts[s].name == u.name;
      var start := starts[s];
      assert Lawful(spec, start);
      var k :| 0 <= k < |spec.units| && spec.units[k].name == start.name
        && forall j :: 0 <= j < |spec.units[k].dependsOn| ==> RecordedAs(start.before, spec.units[k].dependsOn[j], Completed);
      assert Labels(spec.units)[k] == Labels(spec.units)[i];
      var j :| 0 <= j < |u.dependsOn| && (RecordedAs(states, u.dependsOn[j], Failed) || RecordedAs(states, u.dependsOn[j], Canceled));
      CompletedStays(spec, start.before, states, u.dependsOn[j]);
    }
  }

  lemma CompletedStays(spec: Spec, before: seq<UnitState>, states: seq<UnitState>, name: Label)
    requires Recorded(spec, states) && before <= states && RecordedAs(before, name, Completed)
    ensures !RecordedAs(states, name, Failed) && !RecordedAs(states, name, Canceled)
  {
    var k :| 0 <= k < |before| && before[k].name == name && before[k].state == Completed;
    assert states[k] == before[k];
  }

  lemma NothingRecorded(spec: Spec, world: World)
    ensures Recorded(spec, []) && LawfulStarts(spec, [], []) && Truthful(spec, world, [], [])
  {
  }

  lemma Settled(spec: Spec, states: seq<UnitState>, starts: seq<Start>)
    requires Distinct(Labels(spec.units)) && Recorded(spec, states) && LawfulStarts(spec, states, starts)
    ensures Stops(spec, states) <==> StopHolds(spec, states)
    ensures RunnableUnits(spec.units, states) == [] ==> forall i :: 0 <= i < |spec.units| ==> NotWaiting(states, spec.units[i])
    ensures forall i :: 0 <= i < |spec.units| && DependencyLost(states, spec.units[i]) ==> !HasStart(starts, spec.units[i].name)
  {
    hide Stops, StopHolds, Recorded, LawfulStarts, NotWaiting, DependencyLost, HasStart, RunnableUnits;
    StopsExactly(spec, states);
    RunnableExactly(spec, states);
    forall i | 0 <= i < |spec.units| && DependencyLost(states, spec.units[i])
      ensures !HasStart(starts, spec.units[i].name)
    {
      StartedKeepsDependencies(spec, states, starts, i);
    }
  }

  /** The driver loop.  Every start is lawful and happens once per unit; a stop is reported exactly when one holds; when
      none fired and no cancellation was seen, the rounds sufficed: no unit is left waiting; no unit with a failed
      or cancelled dependency was started; and a unit is only taken up after asking about cancellation, with no
      cancellation in the answer. */
  method DriveCampaign(spec: Spec, world: World) returns (o: Outcome)
    requires ValidSpec(spec)
    ensures Recorded(spec, o.states) && LawfulStarts(spec, o.states, o.starts)
    ensures Truthful(spec, world, o.states, o.starts)
    ensures o.stopped <==> StopHolds(spec, o.states)
    ensures (o.cancelled <==> Cancelled(world, o.polls)) && |o.states| <= QuietPolls(world, o.polls)
    ensures !o.stopped && !o.cancelled ==> forall i :: 0 <= i < |spec.units| ==> NotWaiting(o.states, spec.units[i])
    ensures forall i :: 0 <= i < |spec.units| && DependencyLost(o.states, spec.units[i]) ==> !HasStart(o.starts, spec.units[i].name)
  {
    hide Stops, StopHolds, RunnableUnits, Affordable, First, Latest, Lawful, RecordOf, Executes, NotWaiting, DependencyLost,
      HasStart, Truthful, LawfulStarts, Recorded;
    var states: seq<UnitState>, starts: seq<Start>, cancelled := [], [], false;
    var polls: nat := 0;
    NothingRecorded(spec, world);
    var round := 0;
    var idle := false;
    while round < |spec.units| && !idle
      invariant round <= |spec.units| && Recorded(spec, states) && LawfulStarts(spec, states, starts)
      invariant Truthful(spec, world, states, starts) && (cancelled <==> Cancelled(world, polls))
      invariant |states| <= QuietPolls(world, polls)
      invariant cancelled || idle || round <= |states|
      invariant idle && !cancelled ==> Decide(spec, states) == [] && !Stops(spec, states)
    {
      polls := polls + 1;
      if world.cancel(polls) { cancelled := true; break; }
      if Stops(spec, states) {
        Settled(spec, states, starts);
        return Outcome(true, states, starts, cancelled, polls);
      }
      var runnable := Decide(spec, states);
      if |runnable| == 0 { idle := true; break; }
      RoundIsReady(spec, states);
      ghost var before := |states|;
      var k := 0;
      while k < |runnable|
        invariant k <= |runnable| && Recorded(spec, states) && LawfulStarts(spec, states, starts)
        invariant Truthful(spec, world, states, starts) && (cancelled <==> Cancelled(world, polls))
        invariant |states| <= QuietPolls(world, polls)
        invariant |states| == before + k
        invariant forall l :: k <= l < |runnable| ==> StillReady(spec, states, runnable[l])
      {
        polls := polls + 1;
        if world.cancel(polls) { cancelled := true; break; }
        if Stops(spec, states) {
        Settled(spec, states, starts);
        return Outcome(true, states, starts, cancelled, polls);
      }
        ghost var was := states;
        var states', starts' := RunUnit(spec, world, runnable[k], states, starts);
        ghost var s := RecordOf(spec, world, runnable[k], |was|);
        RecordName(spec, world, runnable[k], |was|);
        forall l | k + 1 <= l < |runnable|
          ensures StillReady(spec, states', runnable[l])
        {
          ReadyPersists(spec, was, s, runnable[l]);
        }
        states, starts := states', starts';
        k := k + 1;
      }
      round := round + 1;
    }
    if !cancelled && !idle { AllRecorded(spec, states); }
    if !cancelled && idle { NothingUnaffordable(spec, states); }
    Settled(spec, states, starts);
    o := Outcome(Stops(spec, states), states, starts, cancelled, polls);
  }

  // ----- the family-wise alpha budget -----

  /** The alpha at which the started units among the first `k` were run. */
  function AlphaRun(units: seq<Unit>, starts: seq<Start>): real {
    if units == [] then 0.0
    else AlphaRun(units[..|units| - 1], starts) + AlphaOf(starts, units[|units| - 1].name)
  }

  function AlphaOf(starts: seq<Start>, name: Label): real {
    if starts == [] then 0.0
    else if starts[|starts| - 1].name == name then starts[|starts| - 1].alpha
    else AlphaOf(starts[..|starts| - 1], name)
  }

  lemma {:induction false} AlphaOfBound(spec: Spec, starts: seq<Start>, name: Label)
    requires spec.policy.AlphaSpending? && name in spec.policy.shares && spec.policy.shares[name] >= 0.0
    requires forall i :: 0 <= i < |starts| ==> Lawful(spec, starts[i])
    ensures AlphaOf(starts, name) <= spec.policy.shares[name] + TOLERANCE
  {
    if starts != [] && starts[|starts| - 1].name != name {
      AlphaOfBound(spec, starts[..|starts| - 1], name);
    }
  }

  lemma {:induction false} AlphaRunBound(spec: Spec, units: seq<Unit>, starts: seq<Start>)
    requires spec.policy.AlphaSpending?
    requires forall i :: 0 <= i < |units| ==> units[i].name in spec.policy.shares && spec.policy.shares[units[i].name] >= 0.0
    requires forall i :: 0 <= i < |starts| ==> Lawful(spec, starts[i])
    ensures AlphaRun(units, starts) <= SumShares(spec.policy, units) + |units| as real * TOLERANCE
  {
    if units != [] {
      var init := units[..|units| - 1];
      assert forall i :: 0 <= i < |init| ==> init[i] == units[i];
      AlphaRunBound(spec, init, starts);
      AlphaOfBound(spec, starts, units[|units| - 1].name);
      assert |units| as real == |init| as real + 1.0;
    }
  }

  /** Under alpha spending, all started units together run within the family alpha left after
      earlier campaigns, up to one rounding tolerance per unit and one for the schema. */
  lemma FamilyAlphaKept(spec: Spec, states: seq<UnitState>, starts: seq<Start>)
    requires ValidSpec(spec) && spec.policy.AlphaSpending? && LawfulStarts(spec, states, starts)
    ensures AlphaRun(spec.units, starts) + spec.priorAlpha <= spec.policy.family + (|spec.units| + 1) as real * 0.000000001
  {
    hide ValidUnits, Lawful;
    forall i | 0 <= i < |spec.units|
      ensures spec.units[i].name in spec.policy.shares && spec.policy.shares[spec.units[i].name] >= 0.0
    {
      assert Labels(spec.units)[i] == spec.units[i].name;
    }
    AlphaRunBound(spec, spec.units, starts);
  }
}
