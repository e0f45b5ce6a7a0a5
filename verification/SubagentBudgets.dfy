/** Token budgets of a sub-agent fan-out: the split of the parent's remaining budget into
    reservations, and every interleaving of the children's model calls. */
module SubagentBudgets {
  import opened Common

  /** A token cap; a view without a cap is unlimited. */
  datatype Cap = Unlimited | Tokens(n: int)

  function Max(a: int, b: int): int { if a < b then b else a }

  function Min(a: int, b: int): int { if a < b then a else b }

  /** Usage counts only when present and positive. */
  function Charge(usage: Option<int>): nat {
    if usage.Some? && usage.value > 0 then usage.value else 0
  }

  function Remaining(cap: Cap, spent: int): Cap {
    if cap.Unlimited? then Unlimited else Tokens(Max(0, cap.n - spent))
  }

  predicate HasRemaining(cap: Cap, spent: int) { cap.Unlimited? || spent < cap.n }

  // ----- the split -----

  function EqualShare(total: nat, n: nat, i: nat): nat
    requires n > 0
  {
    total / n + (if i < total % n then 1 else 0)
  }

  function Ceiling(requested: real): nat { Max(0, requested.Floor) }

  /** The cap of child `i`, from the parent's remaining budget and the declared ceilings. */
  function ChildCap(remaining: Cap, ceilings: seq<Option<real>>, i: nat): Cap
    requires i < |ceilings|
  {
    var own := ceilings[i];
    if remaining.Unlimited? then
      if own.None? then Unlimited else Tokens(Ceiling(own.value))
    else
      var share := EqualShare(Max(0, remaining.n), |ceilings|, i);
      Tokens(Min(share, if own.None? then share else Ceiling(own.value)))
  }

  function SplitCaps(remaining: Cap, ceilings: seq<Option<real>>): (caps: seq<Cap>)
    ensures |caps| == |ceilings|
  {
    seq(|ceilings|, i requires 0 <= i < |ceilings| => ChildCap(remaining, ceilings, i))
  }

  function CapTokens(c: Cap): int { if c.Unlimited? then 0 else c.n }

  function CapSum(caps: seq<Cap>): int {
    if caps == [] then 0 else CapSum(caps[..|caps| - 1]) + CapTokens(caps[|caps| - 1])
  }

  function ShareSum(total: nat, n: nat, k: nat): nat
    requires n > 0
  {
    if k == 0 then 0 else ShareSum(total, n, k - 1) + EqualShare(total, n, k - 1)
  }

  lemma {:induction false} ShareSumClosed(total: nat, n: nat, k: nat)
    requires n > 0
    ensures ShareSum(total, n, k) == k * (total / n) + Min(k, total % n)
  {
    if k > 0 {
      ShareSumClosed(total, n, k - 1);
      assert k * (total / n) == (k - 1) * (total / n) + total / n;
    }
  }

  /** The equal shares add up to the whole. */
  lemma SharesAreExact(total: nat, n: nat)
    requires n > 0
    ensures ShareSum(total, n, n) == total
  {
    ShareSumClosed(total, n, n);
    assert total == n * (total / n) + total % n;
  }

  lemma {:induction false} PrefixCapSum(remaining: Cap, ceilings: seq<Option<real>>, k: nat)
    requires remaining.Tokens? && k <= |ceilings| && |ceilings| > 0
    ensures var whole := ShareSum(Max(0, remaining.n), |ceilings|, k);
      && CapSum(SplitCaps(remaining, ceilings)[..k]) <= whole
      && ((forall i :: 0 <= i < |ceilings| ==> ceilings[i].None?) ==> CapSum(SplitCaps(remaining, ceilings)[..k]) == whole)
  {
    hide EqualShare, Ceiling;
    if k > 0 {
      PrefixCapSum(remaining, ceilings, k - 1);
      var caps := SplitCaps(remaining, ceilings);
      assert caps[..k][..k - 1] == caps[..k - 1];
      assert caps[k - 1] == ChildCap(remaining, ceilings, k - 1);
    }
  }

  predicate NoCeilings(ceilings: seq<Option<real>>) {
    forall i :: 0 <= i < |ceilings| ==> ceilings[i].None?
  }

  /** No child declares a ceiling. */
  function Undeclared(n: nat): (none: seq<Option<real>>)
    ensures |none| == n && NoCeilings(none)
  {
    seq(n, _ => None)
  }

  /** A declared ceiling lowers its own child's share and nobody else's: the cap is the lesser of the ceiling and
      what the child gets when nobody declares one. */
  lemma CeilingsOnlyLower(remaining: Cap, ceilings: seq<Option<real>>, i: nat, c: int)
    requires i < |ceilings|
    requires ceilings[i].Some? ==> c == if ceilings[i].value < 0.0 then 0 else ceilings[i].value.Floor
    ensures var cap, share := SplitCaps(remaining, ceilings)[i], SplitCaps(remaining, Undeclared(|ceilings|))[i];
      && (ceilings[i].None? ==> cap == share)
      && (share.Unlimited? <==> remaining.Unlimited?)
      && (ceilings[i].Some? && share.Unlimited? ==> cap == Tokens(c))
      && (ceilings[i].Some? && share.Tokens? && c <= share.n ==> cap == Tokens(c))
      && (ceilings[i].Some? && share.Tokens? && share.n <= c ==> cap == share)
  {
  }

  /** The reservations never exceed what the parent has left; without declared ceilings they use it
      up exactly, differ by at most one, and the larger ones come first; a declared ceiling lowers its own
      child's share to the ceiling, if that is less, and changes no other. */
  lemma SplitSums(remaining: Cap, ceilings: seq<Option<real>>)
    requires remaining.Tokens? && |ceilings| > 0
    ensures var caps, shares := SplitCaps(remaining, ceilings), SplitCaps(remaining, Undeclared(|ceilings|));
      && CapSum(caps) <= Max(0, remaining.n)
      && (forall i :: 0 <= i < |caps| ==> caps[i].Tokens? && caps[i].n >= 0)
      && (forall i :: 0 <= i < |caps| && ceilings[i].None? ==> caps[i] == shares[i])
      && (forall i :: 0 <= i < |caps| && ceilings[i].Some? && ceilings[i].value >= 0.0 ==>
            shares[i].Tokens? && caps[i].n == Min(ceilings[i].value.Floor, shares[i].n))
      && (forall i :: 0 <= i < |caps| && ceilings[i].Some? && ceilings[i].value < 0.0 ==> caps[i].n == 0)
    ensures NoCeilings(ceilings) ==>
      var caps := SplitCaps(remaining, ceilings);
      && CapSum(caps) == Max(0, remaining.n)
      && (forall i, j :: 0 <= i < j < |caps| ==> caps[j].n <= caps[i].n <= caps[j].n + 1)
  {
    var caps := SplitCaps(remaining, ceilings);
    PrefixCapSum(remaining, ceilings, |ceilings|);
    SharesAreExact(Max(0, remaining.n), |ceilings|);
    assert caps[..|ceilings|] == caps;
  }

  // ----- every interleaving -----

  /** One child: its cap, what it has spent, and whether one of its model calls is in flight. */
  datatype Child = Child(cap: Cap, spent: nat, calling: bool)

  datatype Fleet = Fleet(cap: Cap, spent: int, children: seq<Child>)

  /** Gate: a child asks before a new turn. Settle: its model call returns with some usage.
      Handoff: a compaction call, charged without having been gated. */
  datatype Event = Gate(child: nat) | Settle(child: nat, usage: Option<int>) | Handoff(child: nat, usage: Option<int>)

  predicate ChildHasRemaining(f: Fleet, i: nat)
    requires i < |f.children|
  {
    HasRemaining(f.children[i].cap, f.children[i].spent) && HasRemaining(f.cap, f.spent)
  }

  function ChildRemaining(f: Fleet, i: nat): Cap
    requires i < |f.children|
  {
    var local, parent := Remaining(f.children[i].cap, f.children[i].spent), Remaining(f.cap, f.spent);
    if local.Unlimited? then parent
    else if parent.Unlimited? then local
    else Tokens(Min(local.n, parent.n))
  }

  function Spend(f: Fleet, i: nat, amount: nat): Fleet
    requires i < |f.children|
  {
    var c := f.children[i];
    f.(spent := f.spent + amount, children := f.children[i := c.(spent := c.spent + amount)])
  }

  function Step(f: Fleet, e: Event): Fleet {
    if e.child >= |f.children| then f
    else
      var c := f.children[e.child];
      match e
      case Gate(i) =>
        if !c.calling && ChildHasRemaining(f, i) then f.(children := f.children[i := c.(calling := true)]) else f
      case Settle(i, usage) =>
        if c.calling then
          Spend(f.(children := f.children[i := c.(calling := false)]), i, Charge(usage))
        else f
      case Handoff(i, usage) =>
        if !c.calling then Spend(f, i, Charge(usage)) else f
  }

  function Run(f: Fleet, events: seq<Event>): Fleet {
    if events == [] then f else Step(Run(f, events[..|events| - 1]), events[|events| - 1])
  }

  /** The fan-out as it starts. */
  function Launch(cap: Cap, spent: int, ceilings: seq<Option<real>>): (f: Fleet)
    ensures |f.children| == |ceilings|
  {
    var caps := SplitCaps(Remaining(cap, spent), ceilings);
    Fleet(cap, spent, seq(|caps|, i requires 0 <= i < |caps| => Child(caps[i], 0, false)))
  }

  function SpentSum(children: seq<Child>): nat {
    if children == [] then 0 else SpentSum(children[..|children| - 1]) + children[|children| - 1].spent
  }

  function Caps(children: seq<Child>): (caps: seq<Cap>)
    ensures |caps| == |children|
  {
    seq(|children|, i requires 0 <= i < |children| => children[i].cap)
  }

  lemma {:induction false} SpentSumUpdate(children: seq<Child>, i: nat, c: Child)
    requires i < |children|
    ensures SpentSum(children[i := c]) == SpentSum(children) - children[i].spent + c.spent
  {
    var n := |children|;
    if i == n - 1 {
      assert children[i := c][..n - 1] == children[..n - 1];
    } else {
      SpentSumUpdate(children[..n - 1], i, c);
      assert children[i := c][..n - 1] == children[..n - 1][i := c];
    }
  }

  /** What every step keeps: the caps, and the parent's account as the sum of its children's. */
  predicate Accounts(start: Fleet, f: Fleet) {
    && f.cap == start.cap && Caps(f.children) == Caps(start.children)
    && f.spent - start.spent == SpentSum(f.children) - SpentSum(start.children)
  }

  lemma StepAccounts(start: Fleet, f: Fleet, e: Event)
    requires Accounts(start, f)
    ensures Accounts(start, Step(f, e))
  {
    hide ChildHasRemaining, Charge, SpentSum;
    if e.child < |f.children| {
      var g := Step(f, e);
      if g != f {
        assert g.children == f.children[e.child := g.children[e.child]];
        SpentSumUpdate(f.children, e.child, g.children[e.child]);
        forall j | 0 <= j < |f.children| ensures g.children[j].cap == f.children[j].cap {}
        assert Caps(g.children) == Caps(f.children);
      }
    }
  }

  lemma {:induction false} RunAccounts(start: Fleet, events: seq<Event>)
    ensures Accounts(start, Run(start, events))
  {
    hide Accounts, Step;
    if events == [] {
      SelfAccounts(start);
    } else {
      RunAccounts(start, events[..|events| - 1]);
      StepAccounts(start, Run(start, events[..|events| - 1]), events[|events| - 1]);
    }
  }

  lemma SelfAccounts(start: Fleet)
    ensures Accounts(start, start)
  {
  }

  lemma {:induction false} NothingSpentYet(children: seq<Child>)
    requires forall i :: 0 <= i < |children| ==> children[i].spent == 0
    ensures SpentSum(children) == 0
  {
    if children != [] {
      NothingSpentYet(children[..|children| - 1]);
    }
  }

  /** The parent's spend grows by exactly what the children spend. */
  lemma Conservation(cap: Cap, spent: int, ceilings: seq<Option<real>>, events: seq<Event>)
    ensures var f := Run(Launch(cap, spent, ceilings), events);
      f.spent == spent + SpentSum(f.children)
  {
    RunAccounts(Launch(cap, spent, ceilings), events);
    NothingSpentYet(Launch(cap, spent, ceilings).children);
  }

  predicate NoneExceeds(children: seq<Child>) {
    forall i :: 0 <= i < |children| && children[i].cap.Tokens? ==> children[i].spent <= children[i].cap.n
  }

  lemma {:induction false} SpentWithinCaps(children: seq<Child>)
    requires NoneExceeds(children) && forall i :: 0 <= i < |children| ==> children[i].cap.Tokens?
    ensures SpentSum(children) <= CapSum(Caps(children))
  {
    if children != [] {
      var n := |children|;
      SpentWithinCaps(children[..n - 1]);
      assert Caps(children)[..n - 1] == Caps(children[..n - 1]);
    }
  }

  /** Every unused token of one child is unused in the total. */
  lemma {:induction false} SlackOfOne(children: seq<Child>, i: nat)
    requires i < |children| && NoneExceeds(children) && forall j :: 0 <= j < |children| ==> children[j].cap.Tokens?
    ensures SpentSum(children) + (children[i].cap.n - children[i].spent) <= CapSum(Caps(children))
  {
    var n := |children|;
    assert Caps(children)[..n - 1] == Caps(children[..n - 1]);
    if i == n - 1 {
      SpentWithinCaps(children[..n - 1]);
    } else {
      SlackOfOne(children[..n - 1], i);
    }
  }

  lemma LaunchCaps(cap: Cap, spent: int, ceilings: seq<Option<real>>)
    ensures Caps(Launch(cap, spent, ceilings).children) == SplitCaps(Remaining(cap, spent), ceilings)
  {
  }

  /** While no child has spent more than its reservation, what a child has left is exactly its own
      reservation less its own spend: no sibling's call, however interleaved, is charged to it, and
      it is refused exactly when it has used its own reservation up. */
  lemma ReservationHolds(cap: Cap, spent: int, ceilings: seq<Option<real>>, events: seq<Event>, i: nat)
    requires i < |ceilings|
    ensures var f := Run(Launch(cap, spent, ceilings), events);
      && |f.children| == |ceilings|
      && f.children[i].cap == ChildCap(Remaining(cap, spent), ceilings, i)
      && (NoneExceeds(f.children) ==>
        && ChildRemaining(f, i) == Remaining(f.children[i].cap, f.children[i].spent)
        && (ChildHasRemaining(f, i) <==> HasRemaining(f.children[i].cap, f.children[i].spent)))
  {
    hide ChildCap, CapSum, SpentSum, Run, NoneExceeds;
    var start := Launch(cap, spent, ceilings);
    var f := Run(start, events);
    RunAccounts(start, events);
    Conservation(cap, spent, ceilings, events);
    LaunchCaps(cap, spent, ceilings);
    CapAt(f.children, i);
    if NoneExceeds(f.children) && cap.Tokens? {
      SplitSums(Remaining(cap, spent), ceilings);
      assert forall j :: 0 <= j < |f.children| ==> Caps(f.children)[j].Tokens?;
      forall j | 0 <= j < |f.children| ensures f.children[j].cap.Tokens? {
        CapAt(f.children, j);
      }
      SlackOfOne(f.children, i);
      WithinOwn(f.children, i);
    }
  }

  lemma CapAt(children: seq<Child>, i: nat)
    requires i < |children|
    ensures Caps(children)[i] == children[i].cap
  {
  }

  lemma WithinOwn(children: seq<Child>, i: nat)
    requires i < |children| && NoneExceeds(children) && children[i].cap.Tokens?
    ensures children[i].spent <= children[i].cap.n
  {
  }

  // ----- how far a gated fan-out can overshoot -----

  predicate GatedAndBounded(e: Event, most: nat) {
    !e.Handoff? && (e.Settle? ==> Charge(e.usage) <= most)
  }

  /** A gate is passed strictly below the cap, so one call is all a child can add beyond it. */
  predicate Bounded(f: Fleet, most: nat) {
    forall i :: 0 <= i < |f.children| && f.children[i].cap.Tokens? ==>
      var c := f.children[i];
      if c.calling then c.spent < c.cap.n else c.spent <= Max(c.cap.n, 0) + (if most == 0 then 0 else most - 1)
  }

  lemma StepBounded(f: Fleet, e: Event, most: nat)
    requires Bounded(f, most) && GatedAndBounded(e, most)
    ensures Bounded(Step(f, e), most)
  {
  }

  lemma {:induction false} RunBounded(f: Fleet, events: seq<Event>, most: nat)
    requires Bounded(f, most) && forall k :: 0 <= k < |events| ==> GatedAndBounded(events[k], most)
    ensures Bounded(Run(f, events), most)
  {
    hide Bounded, Step, GatedAndBounded;
    if events != [] {
      RunBounded(f, events[..|events| - 1], most);
      StepBounded(Run(f, events[..|events| - 1]), events[|events| - 1], most);
    }
  }

  lemma {:induction false} BoundedSum(children: seq<Child>, extra: nat)
    requires forall i :: 0 <= i < |children| ==> children[i].cap.Tokens? && children[i].spent <= children[i].cap.n + extra
    ensures SpentSum(children) <= CapSum(Caps(children)) + |children| * extra
  {
    if children != [] {
      var n := |children|;
      BoundedSum(children[..n - 1], extra);
      assert Caps(children)[..n - 1] == Caps(children[..n - 1]);
      assert n * extra == (n - 1) * extra + extra;
    }
  }

  /** With every call gated and costing at most `most`, the fan-out ends at most `most - 1` tokens
      per child past the parent's cap, however the calls interleave. */
  lemma OvershootBound(cap: Cap, spent: int, ceilings: seq<Option<real>>, events: seq<Event>, most: nat)
    requires cap.Tokens? && most > 0 && |ceilings| > 0
    requires forall k :: 0 <= k < |events| ==> GatedAndBounded(events[k], most)
    ensures Run(Launch(cap, spent, ceilings), events).spent <= Max(cap.n, spent) + |ceilings| * (most - 1)
  {
    hide ChildCap, CapSum, SpentSum, Run, GatedAndBounded, Step;
    var start := Launch(cap, spent, ceilings);
    var f := Run(start, events);
    RunAccounts(start, events);
    Conservation(cap, spent, ceilings, events);
    LaunchCaps(cap, spent, ceilings);
    SplitSums(Remaining(cap, spent), ceilings);
    RunBounded(start, events, most);
    forall i | 0 <= i < |f.children|
      ensures f.children[i].cap.Tokens? && f.children[i].spent <= f.children[i].cap.n + (most - 1)
    {
      CapAt(f.children, i);
    }
    BoundedSum(f.children, most - 1);
  }
}
