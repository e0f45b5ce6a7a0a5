/** Hook rules compiled into permission rules over the session's known tools. */
module HookRules {
  import opened Common
  import opened CanonicalJson
  import opened Permissions
  import opened PermissionEngine

  datatype HookEvent = BeforeTool | AfterTool | TurnEnd

  datatype HookAction = Log | Block(reason: string) | RequireApproval(note: Option<string>)

  datatype Hook = Hook(
    name: string, enabled: bool, event: HookEvent, toolPattern: Option<string>, riskClass: Option<Risk>, action: HookAction)

  datatype KnownTool = KnownTool(name: string, riskClass: Option<Risk>)

  /** Exact name, or a prefix when the pattern ends in a star. */
  predicate MatchesToolPattern(pattern: string, tool: string) {
    if pattern != "" && pattern[|pattern| - 1] == '*' then pattern[..|pattern| - 1] <= tool
    else tool == pattern
  }

  predicate RuleMatchesTool(hook: Hook, tool: KnownTool) {
    && (hook.toolPattern.Some? ==> MatchesToolPattern(hook.toolPattern.value, tool.name))
    && (hook.riskClass.Some? ==> EffectiveRisk(tool.riskClass) == hook.riskClass.value)
  }

  predicate Compiles(hook: Hook) { hook.enabled && hook.event == BeforeTool && !hook.action.Log? }

  function Compiled(hook: Hook, tool: KnownTool): Rule
    requires !hook.action.Log?
  {
    match hook.action
    case Block(reason) =>
      Rule(Some(tool.name), None, Deny, Some("hook:" + hook.name + ": " + reason), true)
    case RequireApproval(note) =>
      Rule(Some(tool.name), None, Ask, Some("hook:" + hook.name + (if note.Some? then ": " + note.value else "")), false)
  }

  /** The pattern is the tool's name, or a beginning of it and a star. */
  ghost predicate Names(pattern: string, tool: string) {
    pattern == tool || exists prefix :: pattern == prefix + "*" && prefix <= tool
  }

  /** The tools a hook speaks of; a tool without a risk class counts as one that executes. */
  ghost predicate Matches(h: Hook, t: KnownTool) {
    && (h.toolPattern.None? || Names(h.toolPattern.value, t.name))
    && (h.riskClass.None? || h.riskClass == (if t.riskClass.None? then Some(Execute) else t.riskClass))
  }

  lemma PatternExactly(pattern: string, tool: string)
    ensures MatchesToolPattern(pattern, tool) <==> Names(pattern, tool)
  {
    if pattern != "" && pattern[|pattern| - 1] == '*' {
      assert pattern == pattern[..|pattern| - 1] + "*";
    }
    forall prefix: string
      ensures pattern == prefix + "*" ==>
        pattern != "" && pattern[|pattern| - 1] == '*' && prefix == pattern[..|pattern| - 1]
    {
    }
  }

  lemma MatchesExactly(h: Hook, t: KnownTool)
    ensures RuleMatchesTool(h, t) <==> Matches(h, t)
  {
    hide MatchesToolPattern, Names;
    if h.toolPattern.Some? { PatternExactly(h.toolPattern.value, t.name); }
  }

  /** What a hook says about a tool: a block denies it whatever the mode, an approval asks; both for any arguments. */
  predicate Says(h: Hook, t: KnownTool, r: Rule) {
    && r.tool == Some(t.name) && r.argsMatch == None
    && match h.action
       case Log => false
       case Block(reason) => r.effect == Deny && r.bypassImmune && r.note == Some("hook:" + h.name + ": " + reason)
       case RequireApproval(None) => r.effect == Ask && !r.bypassImmune && r.note == Some("hook:" + h.name)
       case RequireApproval(Some(note)) => r.effect == Ask && !r.bypassImmune && r.note == Some("hook:" + h.name + ": " + note)
  }

  lemma SaysExactly(h: Hook, t: KnownTool, r: Rule)
    requires !h.action.Log?
    ensures Says(h, t, r) <==> r == Compiled(h, t)
  {
    if h.action.RequireApproval? && h.action.note.None? {
      assert "hook:" + h.name + "" == "hook:" + h.name;
    } else if h.action.RequireApproval? {
      assert "hook:" + h.name + (": " + h.action.note.value) == "hook:" + h.name + ": " + h.action.note.value;
    }
  }

  /** The rule is what some enabled block or approval hook for calls says about some known tool it matches. */
  ghost predicate ComesFrom(r: Rule, hooks: seq<Hook>, tools: seq<KnownTool>) {
    exists h, t :: h in hooks && t in tools && h.enabled && h.event == BeforeTool && Matches(h, t) && Says(h, t, r)
  }

  method ExpandHookRulesToPermissions(hooks: seq<Hook>, tools: seq<KnownTool>) returns (out: seq<Rule>)
    ensures forall r :: r in out <==> ComesFrom(r, hooks, tools)
  {
    hide RuleMatchesTool, Compiled, Matches, Says;
    out := [];
    var i := 0;
    while i < |hooks|
      invariant 0 <= i <= |hooks|
      invariant forall r :: r in out <==> ComesFrom(r, hooks[..i], tools)
    {
      var rule := hooks[i];
      ghost var base := out;
      if Compiles(rule) {
        var j := 0;
        while j < |tools|
          invariant 0 <= j <= |tools|
          invariant forall r :: r in out <==> r in base || FromHook(r, rule, tools[..j])
        {
          ghost var earlier := out;
          if RuleMatchesTool(rule, tools[j]) {
            out := out + [Compiled(rule, tools[j])];
          }
          FromHookNext(rule, tools, j);
          j := j + 1;
        }
        assert tools[..j] == tools;
      }
      ComesFromNext(hooks, tools, i);
      i := i + 1;
    }
    assert hooks[..i] == hooks;
  }

  ghost predicate FromHook(r: Rule, h: Hook, tools: seq<KnownTool>)
    requires !h.action.Log?
  {
    exists t :: t in tools && Matches(h, t) && Says(h, t, r)
  }

  lemma FromHookNext(h: Hook, tools: seq<KnownTool>, j: nat)
    requires j < |tools| && !h.action.Log?
    ensures forall r :: FromHook(r, h, tools[..j + 1]) <==>
      FromHook(r, h, tools[..j]) || (RuleMatchesTool(h, tools[j]) && r == Compiled(h, tools[j]))
  {
    hide RuleMatchesTool, Compiled, Matches, Says;
    var next := tools[..j + 1];
    assert next == tools[..j] + [tools[j]];
    MatchesExactly(h, tools[j]);
    forall r ensures FromHook(r, h, next) <==>
      FromHook(r, h, tools[..j]) || (RuleMatchesTool(h, tools[j]) && r == Compiled(h, tools[j]))
    {
      SaysExactly(h, tools[j], r);
      assert forall t :: t in next <==> t in tools[..j] || t == tools[j];
    }
  }

  lemma ComesFromNext(hooks: seq<Hook>, tools: seq<KnownTool>, i: nat)
    requires i < |hooks|
    ensures forall r :: ComesFrom(r, hooks[..i + 1], tools) <==>
      ComesFrom(r, hooks[..i], tools) || (Compiles(hooks[i]) && FromHook(r, hooks[i], tools))
  {
    hide Matches, Says;
    var next := hooks[..i + 1];
    assert next == hooks[..i] + [hooks[i]];
    forall r ensures ComesFrom(r, next, tools) <==>
      ComesFrom(r, hooks[..i], tools) || (Compiles(hooks[i]) && FromHook(r, hooks[i], tools))
    {
      assert forall h :: h in next <==> h in hooks[..i] || h == hooks[i];
      NothingSaid(hooks[i]);
    }
  }

  lemma NothingSaid(h: Hook)
    ensures h.action.Log? ==> forall t, r :: !Says(h, t, r)
  {
  }

  /** An enabled block hook that matches a known tool denies it at once in every session state and mode,
      whatever grants are cached and whatever the other rules, the arguments and the risk class say. */
  lemma BlockHookAlwaysDenies(o: Options, hooks: seq<Hook>, tools: seq<KnownTool>, h: Hook, t: KnownTool,
                              s: Session, args: Json, risk: Option<Risk>, now: int)
    requires forall r :: ComesFrom(r, hooks, tools) ==> r in o.rules
    requires h in hooks && t in tools && h.enabled && h.event == BeforeTool && h.action.Block? && Matches(h, t)
    ensures var (after, outcome) := Begin(o, s, Call(t.name, args, risk, now));
      after == s && outcome.Decided? && outcome.decision.effect == Deny && !outcome.decision.asked
  {
    hide Ruling, Matches;
    var r := Compiled(h, t);
    SaysExactly(h, t, r);
    assert ComesFrom(r, hooks, tools);
    assert Covers(r, s.mode, t.name, args) && r.effect == Deny;
    assert SomeRule(o.rules, s.mode, t.name, args, Deny);
    RulingMeaning(o, s.mode, t.name, args, risk);
  }

  /** An approval hook is weaker: it rules out a plain allow exactly outside bypass mode and outside
      an accepted edit. In those two cases an allow remains possible, and happens unless something denies. */
  lemma ApprovalHookAsks(o: Options, hooks: seq<Hook>, tools: seq<KnownTool>, h: Hook, t: KnownTool,
                         mode: Mode, args: Json, risk: Option<Risk>)
    requires forall r :: ComesFrom(r, hooks, tools) ==> r in o.rules
    requires h in hooks && t in tools && h.enabled && h.event == BeforeTool && h.action.RequireApproval?
    requires Matches(h, t)
    ensures var effect := Ruling(o, mode, t.name, args, risk).0;
      && (mode != Bypass && !(mode == AcceptEdits && EffectiveRisk(risk) == Edit) ==> effect != Allow)
      && (mode == AcceptEdits && EffectiveRisk(risk) == Edit ==>
            (effect == Allow <==> !SomeRule(o.rules, mode, t.name, args, Deny)))
      && (mode == Bypass ==>
            (effect == Allow <==> !SomeRule(o.rules, mode, t.name, args, Deny) && !SomeRule(o.rules, mode, t.name, args, Ask)))
  {
    hide Ruling, Matches;
    var r := Compiled(h, t);
    SaysExactly(h, t, r);
    assert ComesFrom(r, hooks, tools) && r.effect == Ask;
    if mode != Bypass {
      assert Covers(r, mode, t.name, args);
      assert SomeRule(o.rules, mode, t.name, args, Ask);
    }
    RulingMeaning(o, mode, t.name, args, risk);
  }
}
