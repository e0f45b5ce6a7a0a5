/** The engine's mutable state, and every history of calls, answers, clears and mode switches. */
module PermissionEngine {
  import opened Common
  import opened CanonicalJson
  import opened Permissions

  /** The approval identity; the digest of the serialised pair is taken to be injective. */
  datatype Key = Key(tool: string, args: Json)

  datatype Call = Call(tool: string, args: Json, risk: Option<Risk>, now: int)

  /** A call either is decided at once or waits for its ask handler. */
  datatype Outcome = Decided(decision: Decision) | Pending(key: Key, now: int)

  datatype Session = Session(mode: Mode, grants: map<Key, int>)

  function GrantKey(tool: string, args: Json): Key { Key(tool, SortKeysDeep(args)) }

  function CallKey(c: Call): Key { GrantKey(c.tool, c.args) }

  predicate LiveGrant(grants: map<Key, int>, key: Key, now: int) { key in grants && grants[key] > now }

  /** What a call does before any handler answers. */
  function Begin(o: Options, s: Session, c: Call): (Session, Outcome) {
    var (effect, via) := Ruling(o, s.mode, c.tool, c.args, c.risk);
    var key := CallKey(c);
    if effect != Ask then (s, Decided(Decision(effect, via, false, false)))
    else if LiveGrant(s.grants, key, c.now) then
      (s, Decided(Decision(Allow, Some(if via.Some? then via.value else CachedGrant), true, false)))
    else
      var dropped := s.(grants := s.grants - {key});
      if !o.hasAsk then (dropped, Decided(Decision(Deny, Some(AskWithoutHandler), false, false)))
      else (dropped, Pending(key, c.now))
  }

  function Seconds(ms: int): int { ms / 1000 }

  /** What the handler's answer does; the expiry counts from when the ask began. */
  function Finish(o: Options, s: Session, key: Key, askedAt: int, granted: bool): (Session, Decision) {
    if !granted then (s, Decision(Deny, Some(AskDenied), false, true))
    else (s.(grants := s.grants[key := askedAt + Ttl(o)]), Decision(Allow, Some(AskGranted(Seconds(Ttl(o)))), false, true))
  }

  class Engine {
    const opts: Options
    var grants: map<Key, int>
    var mode: Mode

    ghost function State(): Session
      reads this
    {
      Session(mode, grants)
    }

    constructor (opts: Options, mode: Mode)
      ensures this.opts == opts && State() == Session(mode, map[])
    {
      this.opts := opts;
      this.mode := mode;
      grants := map[];
    }

    method SetMode(mode: Mode)
      modifies this
      ensures State() == old(State()).(mode := mode)
    {
      this.mode := mode;
    }

    method ClearGrants()
      modifies this
      ensures State() == old(State()).(grants := map[])
    {
      grants := map[];
    }

    /** The rule loop and the mode's implicit rule. */
    method Rule(tool: string, args: Json, riskClass: Option<Risk>) returns (effect: Effect, via: Option<Reason>)
      ensures (effect, via) == Ruling(opts, mode, tool, args, riskClass)
    {
      hide Applies;
      var effectiveRisk := EffectiveRisk(riskClass);
      var strictest: Option<Verdict> := None;
      var i := 0;
      while i < |opts.rules|
        invariant 0 <= i <= |opts.rules| && strictest == Strictest(opts.rules[..i], mode, tool, args)
      {
        var rule := opts.rules[i];
        assert opts.rules[..i + 1][..i] == opts.rules[..i];
        if Applies(rule, mode, tool, args) {
          strictest := Consider(strictest, rule.effect, RuleReason(rule));
        }
        i := i + 1;
      }
      assert opts.rules[..i] == opts.rules;
      var modeAllow := false;
      if mode == Explore && effectiveRisk != Read {
        strictest := Consider(strictest, Deny, ModeExplore);
      }
      if mode == AcceptEdits && effectiveRisk == Edit {
        modeAllow := true;
        strictest := Consider(strictest, Allow, ModeAcceptEdits);
      }
      if mode == Bypass {
        strictest := Consider(strictest, Allow, ModeBypass);
      }
      if modeAllow && strictest.value.effect == Ask {
        strictest := Some(Verdict(Allow, ModeAcceptsAsk));
      }
      if strictest.None? {
        return Fallback(opts), None;
      }
      return strictest.value.effect, Some(strictest.value.via);
    }

    method Decide(c: Call) returns (outcome: Outcome)
      modifies this
      ensures (State(), outcome) == Begin(opts, old(State()), c)
    {
      hide Ruling;
      var effect, via := Rule(c.tool, c.args, c.risk);
      if effect != Ask {
        return Decided(Decision(effect, via, false, false));
      }
      var key := GrantKey(c.tool, c.args);
      if key in grants && grants[key] > c.now {
        return Decided(Decision(Allow, Some(if via.Some? then via.value else CachedGrant), true, false));
      }
      grants := grants - {key};
      if !opts.hasAsk {
        return Decided(Decision(Deny, Some(AskWithoutHandler), false, false));
      }
      return Pending(key, c.now);
    }

    method Answer(key: Key, askedAt: int, granted: bool) returns (d: Decision)
      modifies this
      ensures (State(), d) == Finish(opts, old(State()), key, askedAt, granted)
    {
      if !granted {
        return Decision(Deny, Some(AskDenied), false, true);
      }
      grants := grants[key := askedAt + Ttl(opts)];
      return Decision(Allow, Some(AskGranted(Seconds(Ttl(opts)))), false, true);
    }
  }

  // ----- every history -----

  /** Calls may overlap: an ask stays pending until its answer, and anything may happen meanwhile. */
  datatype Event = Called(call: Call) | Answered(ask: nat, granted: bool) | Cleared | Switched(mode: Mode)

  datatype World = World(session: Session, pending: map<nat, Outcome>)

  function Step(o: Options, w: World, e: Event, k: nat): World {
    match e
    case Called(c) =>
      var (s, outcome) := Begin(o, w.session, c);
      World(s, if outcome.Pending? then w.pending[k := outcome] else w.pending)
    case Answered(p, granted) =>
      if p in w.pending && w.pending[p].Pending? then
        World(Finish(o, w.session, w.pending[p].key, w.pending[p].now, granted).0, w.pending - {p})
      else w
    case Cleared => w.(session := w.session.(grants := map[]))
    case Switched(m) => w.(session := w.session.(mode := m))
  }

  function Run(o: Options, mode: Mode, events: seq<Event>): World {
    if events == [] then World(Session(mode, map[]), map[])
    else
      var k := |events| - 1;
      Step(o, Run(o, mode, events[..k]), events[k], k)
  }

  /** What the call at position `k` of the history got. */
  function OutcomeAt(o: Options, mode: Mode, events: seq<Event>, k: nat): Outcome
    requires k < |events| && events[k].Called?
  {
    Begin(o, Run(o, mode, events[..k]).session, events[k].call).1
  }

  /** The call at `p` really went to the handler. */
  predicate AskedAt(o: Options, mode: Mode, events: seq<Event>, p: nat, key: Key, now: int) {
    && p < |events| && events[p].Called? && OutcomeAt(o, mode, events, p) == Pending(key, now)
  }

  /** The ask at `p` was answered yes at `j`, and nothing was cleared since. */
  predicate GrantedAt(o: Options, mode: Mode, events: seq<Event>, p: nat, j: nat, key: Key, expiry: int) {
    && p < j < |events| && events[j] == Answered(p, true)
    && AskedAt(o, mode, events, p, key, expiry - Ttl(o))
    && forall m :: j < m < |events| ==> !events[m].Cleared?
  }

  ghost predicate Granted(o: Options, mode: Mode, events: seq<Event>, key: Key, expiry: int) {
    exists p, j :: GrantedAt(o, mode, events, p, j, key, expiry)
  }

  ghost predicate Justified(o: Options, mode: Mode, events: seq<Event>, w: World) {
    && (forall key :: key in w.session.grants ==> Granted(o, mode, events, key, w.session.grants[key]))
    && (forall p :: p in w.pending ==> w.pending[p].Pending? && AskedAt(o, mode, events, p, w.pending[p].key, w.pending[p].now))
  }

  lemma AskedStays(o: Options, mode: Mode, events: seq<Event>, e: Event, p: nat, key: Key, now: int)
    requires AskedAt(o, mode, events, p, key, now)
    ensures AskedAt(o, mode, events + [e], p, key, now)
  {
    hide Begin;
    assert (events + [e])[..p] == events[..p];
  }

  lemma GrantStays(o: Options, mode: Mode, events: seq<Event>, e: Event, key: Key, expiry: int)
    requires Granted(o, mode, events, key, expiry) && !e.Cleared?
    ensures Granted(o, mode, events + [e], key, expiry)
  {
    hide AskedAt;
    var p: nat, j: nat :| GrantedAt(o, mode, events, p, j, key, expiry);
    AskedStays(o, mode, events, e, p, key, expiry - Ttl(o));
    assert GrantedAt(o, mode, events + [e], p, j, key, expiry);
  }

  /** Asking and deciding only ever removes grants. */
  lemma BeginKeeps(o: Options, s: Session, c: Call)
    ensures var (t, outcome) := Begin(o, s, c);
      && t.mode == s.mode
      && (forall key :: key in t.grants ==> key in s.grants && t.grants[key] == s.grants[key])
      && (outcome.Pending? ==> outcome == Pending(CallKey(c), c.now))
  {
    hide Ruling, SortKeysDeep;
  }

  lemma AskIsRecorded(o: Options, mode: Mode, events: seq<Event>, c: Call)
    ensures var outcome := Begin(o, Run(o, mode, events).session, c).1;
      outcome.Pending? ==> AskedAt(o, mode, events + [Called(c)], |events|, outcome.key, outcome.now)
  {
  }

  lemma StepJustified(o: Options, mode: Mode, events: seq<Event>, e: Event)
    requires Justified(o, mode, events, Run(o, mode, events))
    ensures Justified(o, mode, events + [e], Step(o, Run(o, mode, events), e, |events|))
  {
    hide Begin, Run, AskedAt, Granted;
    var w, more := Run(o, mode, events), events + [e];
    var v := Step(o, w, e, |events|);
    forall p | p in w.pending ensures AskedAt(o, mode, more, p, w.pending[p].key, w.pending[p].now) {
      AskedStays(o, mode, events, e, p, w.pending[p].key, w.pending[p].now);
    }
    if !e.Cleared? {
      forall key | key in w.session.grants ensures Granted(o, mode, more, key, w.session.grants[key]) {
        GrantStays(o, mode, events, e, key, w.session.grants[key]);
      }
    }
    match e
    case Called(c) =>
      BeginKeeps(o, w.session, c);
      AskIsRecorded(o, mode, events, c);
    case Answered(p, granted) =>
      if p in w.pending && granted {
        AnswerGrants(o, mode, events, p, w.pending[p].key, w.pending[p].now);
      }
    case Cleared =>
    case Switched(_) =>
  }

  lemma AnswerGrants(o: Options, mode: Mode, events: seq<Event>, p: nat, key: Key, now: int)
    requires AskedAt(o, mode, events, p, key, now)
    ensures Granted(o, mode, events + [Answered(p, true)], key, now + Ttl(o))
  {
    hide OutcomeAt;
    AskedStays(o, mode, events, Answered(p, true), p, key, now);
    assert GrantedAt(o, mode, events + [Answered(p, true)], p, |events|, key, now + Ttl(o));
  }

  lemma {:induction false} RunJustified(o: Options, mode: Mode, events: seq<Event>)
    ensures Justified(o, mode, events, Run(o, mode, events))
  {
    hide Step, Granted, AskedAt;
    if events != [] {
      var k := |events| - 1;
      RunJustified(o, mode, events[..k]);
      StepJustified(o, mode, events[..k], events[k]);
      assert events[..k] + [events[k]] == events;
    }
  }

  /** The call at `p` went to the handler, which said yes at `j`; the approval covers the call at `k`. */
  predicate Authorises(o: Options, mode: Mode, events: seq<Event>, p: nat, j: nat, k: nat) {
    && p < j < k < |events| && events[p].Called? && events[k].Called? && events[j] == Answered(p, true)
    && OutcomeAt(o, mode, events, p).Pending?
    && events[p].call.tool == events[k].call.tool
    && SameUpToKeyOrder(events[p].call.args, events[k].call.args)
    && events[k].call.now < events[p].call.now + (if o.approvalTtlMs.Some? then o.approvalTtlMs.value else 300_000)
    && forall m :: j < m < k ==> !events[m].Cleared?
  }

  /** Over every history: an allow from a cached grant goes back to an earlier call of the same tool,
      with arguments equal up to key order, that the handler was asked about and answered yes; that
      approval has not expired and was not cleared since. */
  lemma CachedGrantIsEarned(o: Options, mode: Mode, events: seq<Event>, k: nat)
    requires k < |events| && events[k].Called? && OutcomeAt(o, mode, events, k).Decided?
    requires OutcomeAt(o, mode, events, k).decision.cachedGrant
    requires forall i :: 0 <= i < |events| && events[i].Called? ==> WellFormed(events[i].call.args)
    ensures OutcomeAt(o, mode, events, k).decision.effect == Allow
    ensures exists p, j :: Authorises(o, mode, events, p, j, k)
  {
    hide Ruling, SortKeysDeep, Run, SameUpToKeyOrder, WellFormed;
    var before, c := events[..k], events[k].call;
    RunJustified(o, mode, before);
    var key := CallKey(c);
    var expiry := Run(o, mode, before).session.grants[key];
    assert Granted(o, mode, before, key, expiry);
    var p: nat, j: nat :| GrantedAt(o, mode, before, p, j, key, expiry);
    assert before[..p] == events[..p] && before[p] == events[p];
    BeginKeeps(o, Run(o, mode, events[..p]).session, events[p].call);
    assert CallKey(events[p].call) == key && events[p].call.now == expiry - Ttl(o);
    CanonicalExactly(events[p].call.args, c.args);
    assert forall m :: j < m < k ==> events[m] == before[m];
    assert Authorises(o, mode, events, p, j, k);
  }

  /** An event that leaves a live approval in place. */
  predicate Spares(events: seq<Event>, k: nat, key: Key, expiry: int)
    requires k < |events|
  {
    match events[k]
    case Called(c) => CallKey(c) == key ==> c.now < expiry
    case Answered(p, granted) => p < k && events[p].Called? && CallKey(events[p].call) != key
    case Cleared => false
    case Switched(_) => true
  }

  /** One sparing event leaves the grant as it is. */
  lemma SpareStep(o: Options, mode: Mode, events: seq<Event>, k: nat, key: Key, expiry: int)
    requires k < |events| && Spares(events, k, key, expiry)
    requires var g := Run(o, mode, events[..k]).session.grants; key in g && g[key] == expiry
    ensures var g := Step(o, Run(o, mode, events[..k]), events[k], k).session.grants; key in g && g[key] == expiry
  {
    hide Ruling, SortKeysDeep, Run, AskedAt, Granted;
    RunJustified(o, mode, events[..k]);
    if events[k].Answered? {
      PendingKey(o, mode, events, k, events[k].ask);
    }
  }

  lemma {:induction false} GrantLives(o: Options, mode: Mode, events: seq<Event>, from: nat, key: Key, expiry: int)
    requires from <= |events|
    requires var g := Run(o, mode, events[..from]).session.grants; key in g && g[key] == expiry
    requires forall k :: from <= k < |events| ==> Spares(events, k, key, expiry)
    ensures var g := Run(o, mode, events).session.grants; key in g && g[key] == expiry
  {
    hide Step, Spares;
    if from == |events| {
      assert events[..from] == events;
    } else {
      var k := |events| - 1;
      assert events[..k][..from] == events[..from];
      forall m | from <= m < k ensures Spares(events[..k], m, key, expiry) {
        SparesPrefix(events, k, m, key, expiry);
      }
      GrantLives(o, mode, events[..k], from, key, expiry);
      SpareStep(o, mode, events, k, key, expiry);
    }
  }

  lemma PendingKey(o: Options, mode: Mode, events: seq<Event>, k: nat, p: nat)
    requires p < k < |events| && events[p].Called? && Justified(o, mode, events[..k], Run(o, mode, events[..k]))
    ensures var w := Run(o, mode, events[..k]);
      p in w.pending ==> w.pending[p].key == CallKey(events[p].call)
  {
  }

  /** The other direction: a yes keeps authorising the same tool and arguments, without asking again,
      until it expires, is cleared, or the same arguments are asked about again. */
  lemma ApprovalSticks(o: Options, mode: Mode, events: seq<Event>, p: nat, j: nat, k: nat, key: Key, expiry: int)
    requires p < j < k < |events| && events[j] == Answered(p, true) && events[k].Called? && events[p].Called?
    requires p in Run(o, mode, events[..j]).pending
    requires events[k].call.tool == events[p].call.tool
    requires WellFormed(events[p].call.args) && WellFormed(events[k].call.args)
    requires SameUpToKeyOrder(events[p].call.args, events[k].call.args)
    requires key == CallKey(events[p].call) && expiry == events[p].call.now + Ttl(o) && events[k].call.now < expiry
    requires forall m :: j < m < k ==> Spares(events, m, key, expiry)
    requires var c := events[k].call;
      Ruling(o, Run(o, mode, events[..k]).session.mode, c.tool, c.args, c.risk).0 == Ask
    ensures OutcomeAt(o, mode, events, k).Decided?
    ensures OutcomeAt(o, mode, events, k).decision.cachedGrant && OutcomeAt(o, mode, events, k).decision.effect == Allow
  {
    hide Ruling, SortKeysDeep, SameUpToKeyOrder, WellFormed, Run, Spares;
    CanonicalExactly(events[p].call.args, events[k].call.args);
    AnswerStores(o, mode, events, p, j);
    var before := events[..k];
    assert before[..j + 1] == events[..j + 1];
    forall m | j + 1 <= m < k ensures Spares(before, m, key, expiry) {
      SparesPrefix(events, k, m, key, expiry);
    }
    GrantLives(o, mode, before, j + 1, key, expiry);
  }

  lemma SparesPrefix(events: seq<Event>, k: nat, m: nat, key: Key, expiry: int)
    requires m < k < |events| && Spares(events, m, key, expiry)
    ensures Spares(events[..k], m, key, expiry)
  {
    hide SortKeysDeep;
  }

  lemma AnswerStores(o: Options, mode: Mode, events: seq<Event>, p: nat, j: nat)
    requires p < j < |events| && events[j] == Answered(p, true) && events[p].Called?
    requires p in Run(o, mode, events[..j]).pending
    ensures var g := Run(o, mode, events[..j + 1]).session.grants;
      CallKey(events[p].call) in g && g[CallKey(events[p].call)] == events[p].call.now + Ttl(o)
  {
    hide Ruling, SortKeysDeep, Begin;
    var before := events[..j];
    RunJustified(o, mode, before);
    assert before[..p] == events[..p] && before[p] == events[p];
    BeginKeeps(o, Run(o, mode, events[..p]).session, events[p].call);
    assert events[..j + 1][..j] == before;
  }

  lemma {:induction false} NobodyAsked(o: Options, mode: Mode, events: seq<Event>)
    requires !o.hasAsk
    ensures Run(o, mode, events).session.grants == map[] && Run(o, mode, events).pending == map[]
  {
    hide Ruling, SortKeysDeep;
    if events != [] {
      NobodyAsked(o, mode, events[..|events| - 1]);
    }
  }

  /** Without a handler every ask is a denial, over every history. */
  lemma HeadlessFailsClosed(o: Options, mode: Mode, events: seq<Event>, k: nat)
    requires !o.hasAsk && k < |events| && events[k].Called?
    ensures var c := events[k].call;
      var ruling := Ruling(o, Run(o, mode, events[..k]).session.mode, c.tool, c.args, c.risk).0;
      var outcome := OutcomeAt(o, mode, events, k);
      outcome.Decided? && outcome.decision.effect == if ruling == Ask then Deny else ruling
  {
    hide Ruling, SortKeysDeep, Run;
    NobodyAsked(o, mode, events[..k]);
  }
}
