/** The mutable budget views behind a fan-out, each proved against the fleet model. */
module SubagentViews {
  import opened Common
  import opened SubagentBudgets

  function Reported(usage: Option<int>): int { if usage.Some? then usage.value else 0 }

  function ReceiptTotal(receipts: seq<Option<int>>): int {
    if receipts == [] then 0
    else ReceiptTotal(receipts[..|receipts| - 1]) + Reported(receipts[|receipts| - 1])
  }

  /** The run-level view: spend is re-derived from the persisted receipts. */
  class RunBudget {
    const cap: Cap
    var spent: int

    constructor (cap: Cap, receipts: seq<Option<int>>)
      ensures this.cap == cap && spent == ReceiptTotal(receipts)
    {
      this.cap := cap;
      var sum := 0;
      var i := 0;
      while i < |receipts|
        invariant 0 <= i <= |receipts| && sum == ReceiptTotal(receipts[..i])
      {
        assert receipts[..i + 1][..i] == receipts[..i];
        sum := sum + (if receipts[i].Some? then receipts[i].value else 0);
        i := i + 1;
      }
      assert receipts[..i] == receipts;
      spent := sum;
    }

    method SpendTokens(usage: Option<int>)
      modifies this
      ensures spent == old(spent) + Charge(usage)
    {
      if usage.Some? && usage.value > 0 {
        spent := spent + usage.value;
      }
    }
  }

  /** A child-local reservation layered over the parent, which stays the only spend authority. */
  class ReservedBudget {
    const parent: RunBudget
    const cap: int
    var spent: nat

    constructor (parent: RunBudget, cap: int)
      ensures this.parent == parent && this.cap == cap && spent == 0
    {
      this.parent := parent;
      this.cap := cap;
      spent := 0;
    }

    method SpendTokens(usage: Option<int>)
      modifies this, parent
      ensures spent == old(spent) + Charge(usage) && parent.spent == old(parent.spent) + Charge(usage)
    {
      if usage.None? || usage.value <= 0 {
        return;
      }
      spent := spent + usage.value;
      parent.SpendTokens(usage);
    }
  }

  /** A child either shares the parent's view or owns a reservation. */
  datatype View = Shared | Own(budget: ReservedBudget)

  function CapOf(v: View): Cap { if v.Shared? then Unlimited else Tokens(v.budget.cap) }

  ghost function ChildrenOf(views: seq<View>, used: seq<nat>, calling: seq<bool>): (c: seq<Child>)
    requires |views| == |used| == |calling|
    ensures |c| == |views|
  {
    seq(|views|, i requires 0 <= i < |views| => Child(CapOf(views[i]), used[i], calling[i]))
  }

  /** Distinct reservations over one parent; sharing happens only under an unlimited parent. */
  ghost predicate Layered(parent: RunBudget, views: seq<View>) {
    && (forall i :: 0 <= i < |views| && views[i].Own? ==> views[i].budget.parent == parent)
    && (forall i, j :: 0 <= i < j < |views| && views[i].Own? && views[j].Own? ==> views[i].budget != views[j].budget)
    && (parent.cap.Tokens? ==> forall i :: 0 <= i < |views| ==> views[i].Own?)
  }

  /** The split of the parent's currently remaining budget, in declared order. */
  method SplitSubagentBudgets(parent: RunBudget, ceilings: seq<Option<real>>) returns (views: seq<View>)
    ensures |views| == |ceilings| && Layered(parent, views)
    ensures forall i :: 0 <= i < |views| && views[i].Own? ==> fresh(views[i].budget) && views[i].budget.spent == 0
    ensures forall i :: 0 <= i < |views| ==>
      CapOf(views[i]) == SplitCaps(Remaining(parent.cap, parent.spent), ceilings)[i]
  {
    hide ChildCap;
    var remaining := Remaining(parent.cap, parent.spent);
    views := [];
    var i := 0;
    while i < |ceilings|
      invariant 0 <= i <= |ceilings| && |views| == i && Layered(parent, views)
      invariant forall k :: 0 <= k < i && views[k].Own? ==> fresh(views[k].budget) && views[k].budget.spent == 0
      invariant forall k :: 0 <= k < i ==> CapOf(views[k]) == ChildCap(remaining, ceilings, k)
    {
      FiniteParentReserves(remaining, ceilings, i);
      var cap := ChildCap(remaining, ceilings, i);
      if cap.Unlimited? {
        views := views + [Shared];
      } else {
        var b := new ReservedBudget(parent, cap.n);
        views := views + [Own(b)];
      }
      i := i + 1;
    }
  }

  lemma FiniteParentReserves(remaining: Cap, ceilings: seq<Option<real>>, i: nat)
    requires i < |ceilings|
    ensures ChildCap(remaining, ceilings, i).Unlimited? <==> remaining.Unlimited? && ceilings[i].None?
  {
  }

  /** The concurrent fan-out: the parent's view, one view per child, and the calls in flight. */
  class Fanout {
    const parent: RunBudget
    const views: seq<View>
    var calling: seq<bool>
    ghost var used: seq<nat>

    ghost predicate Valid()
      reads this, parent, set i | 0 <= i < |views| && views[i].Own? :: views[i].budget
    {
      && |calling| == |used| == |views|
      && Layered(parent, views)
      && (forall i :: 0 <= i < |views| && views[i].Own? ==> views[i].budget.spent == used[i])
    }

    ghost function Abstract(): Fleet
      reads this, parent
      requires |calling| == |used| == |views|
    {
      Fleet(parent.cap, parent.spent, ChildrenOf(views, used, calling))
    }

    constructor (parent: RunBudget, ceilings: seq<Option<real>>)
      ensures Valid() && this.parent == parent && |views| == |ceilings|
      ensures forall i :: 0 <= i < |views| && views[i].Own? ==> fresh(views[i].budget)
      ensures Abstract() == Launch(parent.cap, parent.spent, ceilings)
    {
      hide ChildCap;
      this.parent := parent;
      var made := SplitSubagentBudgets(parent, ceilings);
      views := made;
      calling := seq(|made|, _ => false);
      used := seq(|made|, _ => 0);
    }

    predicate ViewHasRemaining(i: nat)
      requires i < |views|
      reads this, parent, if views[i].Own? then {views[i].budget} else {}
    {
      match views[i]
      case Shared => parent.cap.Unlimited? || parent.spent < parent.cap.n
      case Own(b) => b.spent < b.cap && (parent.cap.Unlimited? || parent.spent < parent.cap.n)
    }

    /** Asking the gate before a new model call. */
    method AskGate(i: nat) returns (granted: bool)
      requires Valid() && i < |views| && !calling[i]
      modifies this
      ensures Valid() && granted == ChildHasRemaining(old(Abstract()), i) && used == old(used)
      ensures Abstract() == Step(old(Abstract()), Gate(i))
    {
      ghost var before := Abstract();
      granted := ViewHasRemaining(i);
      if granted {
        calling := calling[i := true];
        assert Abstract().children == before.children[i := before.children[i].(calling := true)];
      }
    }

    /** Book usage on the child's own view, or on the shared one. */
    method Book(i: nat, usage: Option<int>)
      requires Valid() && i < |views|
      modifies this`used, parent, if views[i].Own? then {views[i].budget} else {}
      ensures Valid() && Abstract() == Spend(old(Abstract()), i, Charge(usage))
    {
      ghost var before := Abstract();
      if views[i].Shared? {
        parent.SpendTokens(usage);
      } else {
        views[i].budget.SpendTokens(usage);
      }
      used := used[i := used[i] + Charge(usage)];
      ghost var c := before.children[i];
      assert Abstract().children == before.children[i := c.(spent := c.spent + Charge(usage))];
    }

    /** The call in flight returns and its usage is charged. */
    method SettleCall(i: nat, usage: Option<int>)
      requires Valid() && i < |views| && calling[i]
      modifies this, parent, if views[i].Own? then {views[i].budget} else {}
      ensures Valid() && Abstract() == Step(old(Abstract()), Settle(i, usage))
    {
      ghost var before := Abstract();
      calling := calling[i := false];
      assert Abstract().children == before.children[i := before.children[i].(calling := false)];
      Book(i, usage);
    }

    /** A compaction call between turns: charged, never gated. */
    method ChargeHandoff(i: nat, usage: Option<int>)
      requires Valid() && i < |views| && !calling[i]
      modifies this`used, parent, if views[i].Own? then {views[i].budget} else {}
      ensures Valid() && Abstract() == Step(old(Abstract()), Handoff(i, usage))
    {
      Book(i, usage);
    }
  }
}
