/** The permission engine: strictest-wins rules, session modes and cached ask-grants. */
module Permissions {
  import opened Common
  import opened CanonicalJson

  datatype Effect = Allow | Ask | Deny

  datatype Mode = Default | Explore | AcceptEdits | Bypass

  datatype Rule = Rule(
    tool: Option<string>, argsMatch: Option<Json -> bool>, effect: Effect, note: Option<string>, bypassImmune: bool)

  /** What a decision cites as its reason. */
  datatype Reason =
    | ByRule(text: string)
    | ModeExplore | ModeAcceptEdits | ModeAcceptsAsk | ModeBypass
    | CachedGrant | AskWithoutHandler | AskDenied | AskGranted(seconds: int)

  datatype Decision = Decision(effect: Effect, rule: Option<Reason>, cachedGrant: bool, asked: bool)

  /** The engine's construction options. */
  datatype Options = Options(rules: seq<Rule>, defaultEffect: Option<Effect>, hasAsk: bool, approvalTtlMs: Option<int>)

  /** Unmatched tools fall here: closed unless configured otherwise. */
  function Fallback(o: Options): Effect { if o.defaultEffect.Some? then o.defaultEffect.value else Deny }

  const DEFAULT_APPROVAL_TTL_MS: int := 5 * 60_000

  function Ttl(o: Options): int {
    if o.approvalTtlMs.Some? then o.approvalTtlMs.value else DEFAULT_APPROVAL_TTL_MS
  }

  function Rank(e: Effect): int {
    match e
    case Deny => 3
    case Ask => 2
    case Allow => 1
  }

  predicate Applies(rule: Rule, mode: Mode, tool: string, args: Json) {
    && (mode == Bypass ==> rule.bypassImmune)
    && (rule.tool.Some? ==> rule.tool.value == tool)
    && (rule.argsMatch.Some? ==> rule.argsMatch.value(args))
  }

  function RuleReason(rule: Rule): Reason {
    ByRule(if rule.note.Some? then rule.note.value else if rule.tool.Some? then rule.tool.value else "rule")
  }

  /** The strictest effect so far and the first rule that contributed it. */
  datatype Verdict = Verdict(effect: Effect, via: Reason)

  function Consider(v: Option<Verdict>, effect: Effect, via: Reason): Option<Verdict> {
    if v.None? || Rank(effect) > Rank(v.value.effect) then Some(Verdict(effect, via)) else v
  }

  function Strictest(rules: seq<Rule>, mode: Mode, tool: string, args: Json): Option<Verdict> {
    if rules == [] then None
    else
      var before := Strictest(rules[..|rules| - 1], mode, tool, args);
      var rule := rules[|rules| - 1];
      if Applies(rule, mode, tool, args) then Consider(before, rule.effect, RuleReason(rule)) else before
  }

  /** The mode's implicit rule, composed after the explicit ones. */
  function WithMode(v: Option<Verdict>, mode: Mode, risk: Risk): Option<Verdict> {
    match mode
    case Default => v
    case Explore => if risk != Read then Consider(v, Deny, ModeExplore) else v
    case AcceptEdits =>
      if risk != Edit then v
      else
        var w := Consider(v, Allow, ModeAcceptEdits);
        if w.value.effect == Ask then Some(Verdict(Allow, ModeAcceptsAsk)) else w
    case Bypass => Consider(v, Allow, ModeBypass)
  }

  function EffectiveRisk(risk: Option<Risk>): Risk { if risk.Some? then risk.value else Execute }

  /** The effect and reason before any ask is resolved. */
  function Ruling(o: Options, mode: Mode, tool: string, args: Json, risk: Option<Risk>): (Effect, Option<Reason>) {
    var v := WithMode(Strictest(o.rules, mode, tool, args), mode, EffectiveRisk(risk));
    if v.None? then (Fallback(o), None) else (v.value.effect, Some(v.value.via))
  }

  // ----- what the ruling means -----

  /** The calls a rule speaks of: any tool or its tool, any arguments or those it matches; in bypass mode only an immune
      rule speaks at all. */
  predicate Covers(r: Rule, mode: Mode, tool: string, args: Json) {
    && (r.tool == None || r.tool == Some(tool))
    && (r.argsMatch.None? || r.argsMatch.value(args))
    && (r.bypassImmune || mode != Bypass)
  }

  lemma AppliesIsCovers(r: Rule, mode: Mode, tool: string, args: Json)
    ensures Applies(r, mode, tool, args) <==> Covers(r, mode, tool, args)
  {
  }

  ghost predicate SomeRule(rules: seq<Rule>, mode: Mode, tool: string, args: Json, effect: Effect) {
    exists r :: r in rules && Covers(r, mode, tool, args) && r.effect == effect
  }

  /** The strictest verdict is the strictest effect any applicable rule has. */
  lemma {:induction false} StrictestMeaning(rules: seq<Rule>, mode: Mode, tool: string, args: Json)
    ensures var v := Strictest(rules, mode, tool, args);
      && (v == None <==> forall r :: r in rules ==> !Covers(r, mode, tool, args))
      && (v.Some? ==> SomeRule(rules, mode, tool, args, v.value.effect))
      && (v.Some? ==> forall r :: r in rules && Covers(r, mode, tool, args) ==> Rank(r.effect) <= Rank(v.value.effect))
  {
    hide Applies, Covers;
    if rules != [] {
      var before, rule := rules[..|rules| - 1], rules[|rules| - 1];
      AppliesIsCovers(rule, mode, tool, args);
      StrictestMeaning(before, mode, tool, args);
      assert rules == before + [rule];
      assert rule in rules;
    }
  }

  /** The rule at `i` is the first applicable one with the strictest effect, and is the one cited. */
  predicate Cites(rules: seq<Rule>, mode: Mode, tool: string, args: Json, v: Verdict, i: nat) {
    && i < |rules| && Covers(rules[i], mode, tool, args) && rules[i].effect == v.effect
    && v.via == ByRule(match (rules[i].note, rules[i].tool)
                       case (Some(note), _) => note
                       case (None, Some(name)) => name
                       case (None, None) => "rule")
    && forall j :: 0 <= j < i && Covers(rules[j], mode, tool, args) ==> Rank(rules[j].effect) < Rank(v.effect)
  }

  lemma CitesNew(rules: seq<Rule>, mode: Mode, tool: string, args: Json)
    requires rules != [] && Covers(rules[|rules| - 1], mode, tool, args)
    requires var before, last := Strictest(rules[..|rules| - 1], mode, tool, args), rules[|rules| - 1];
      before.None? || Rank(last.effect) > Rank(before.value.effect)
    ensures var last := rules[|rules| - 1];
      Cites(rules, mode, tool, args, Verdict(last.effect, RuleReason(last)), |rules| - 1)
  {
    hide Covers, Strictest;
    var n := |rules| - 1;
    var init := rules[..n];
    StrictestMeaning(init, mode, tool, args);
    forall j | 0 <= j < n && Covers(rules[j], mode, tool, args)
      ensures Rank(rules[j].effect) < Rank(rules[n].effect)
    {
      assert init[j] in init;
    }
  }

  lemma {:induction false} ReasonIsFirstStrictest(rules: seq<Rule>, mode: Mode, tool: string, args: Json) returns (i: nat)
    ensures var v := Strictest(rules, mode, tool, args);
      v.Some? ==> Cites(rules, mode, tool, args, v.value, i)
  {
    hide Applies, Covers, RuleReason, Rank, Cites;
    i := 0;
    if rules != [] {
      var n := |rules| - 1;
      AppliesIsCovers(rules[n], mode, tool, args);
      i := ReasonIsFirstStrictest(rules[..n], mode, tool, args);
      var before := Strictest(rules[..n], mode, tool, args);
      if Applies(rules[n], mode, tool, args) && (before.None? || Rank(rules[n].effect) > Rank(before.value.effect)) {
        i := n;
        CitesNew(rules, mode, tool, args);
      } else if before.Some? {
        CitesStays(rules, mode, tool, args, before.value, i);
      }
    }
  }

  lemma CitesStays(rules: seq<Rule>, mode: Mode, tool: string, args: Json, v: Verdict, i: nat)
    requires rules != [] && Cites(rules[..|rules| - 1], mode, tool, args, v, i)
    ensures Cites(rules, mode, tool, args, v, i)
  {
    hide Covers, Rank;
    var init := rules[..|rules| - 1];
    assert init[i] == rules[i] && forall j :: 0 <= j < i ==> init[j] == rules[j];
  }

  /** The ruling, said without any order among the rules. */
  ghost function RulingByPresence(o: Options, mode: Mode, tool: string, args: Json, risk: Risk): Effect {
    if SomeRule(o.rules, mode, tool, args, Deny) || (mode == Explore && risk != Read) then Deny
    else if SomeRule(o.rules, mode, tool, args, Ask) && !(mode == AcceptEdits && risk == Edit) then Ask
    else if SomeRule(o.rules, mode, tool, args, Allow) || mode == Bypass || (mode == AcceptEdits && risk == Edit) then Allow
    else if o.defaultEffect.Some? then o.defaultEffect.value else Deny
  }

  lemma RulingMeaning(o: Options, mode: Mode, tool: string, args: Json, risk: Option<Risk>)
    ensures Ruling(o, mode, tool, args, risk).0 == RulingByPresence(o, mode, tool, args, EffectiveRisk(risk))
  {
    hide Applies, Covers, Strictest;
    StrictestMeaning(o.rules, mode, tool, args);
    var v := Strictest(o.rules, mode, tool, args);
    if v.Some? {
      forall e: Effect | SomeRule(o.rules, mode, tool, args, e) ensures Rank(e) <= Rank(v.value.effect) {
        var r :| r in o.rules && Covers(r, mode, tool, args) && r.effect == e;
      }
    }
  }

  /** The effect depends on which rules there are, not on their order or repetition. */
  lemma OrderDoesNotMatter(o: Options, rules: seq<Rule>, mode: Mode, tool: string, args: Json, risk: Option<Risk>)
    requires multiset(rules) == multiset(o.rules) || (forall r :: r in rules <==> r in o.rules)
    ensures Ruling(o.(rules := rules), mode, tool, args, risk).0 == Ruling(o, mode, tool, args, risk).0
  {
    hide Applies, Covers, Ruling;
    RulingMeaning(o, mode, tool, args, risk);
    RulingMeaning(o.(rules := rules), mode, tool, args, risk);
    forall r ensures r in rules <==> r in o.rules {
      assert r in rules <==> multiset(rules)[r] > 0;
      assert r in o.rules <==> multiset(o.rules)[r] > 0;
    }
  }
}
