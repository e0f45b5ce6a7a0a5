/** The cycle check of the campaign schema: a depth-first search with three colours over the
    units' dependencies, proved against topological orders and cycles. */
module CampaignGraph {
  import opened Common

  type Label = string

  /** Dependencies of every declared unit. */
  type Graph = map<Label, seq<Label>>

  datatype Colour = Grey | Black

  /** Every dependency is a declared unit. */
  predicate Resolved(g: Graph) {
    forall u, i :: u in g && 0 <= i < |g[u]| ==> g[u][i] in g
  }

  predicate Distinct(s: seq<Label>) { forall i, j :: 0 <= i < j < |s| ==> s[i] != s[j] }

  /** Each unit comes after everything it depends on. */
  predicate Ordered(g: Graph, order: seq<Label>) {
    && Distinct(order)
    && forall k :: 0 <= k < |order| ==>
         order[k] in g && forall i :: 0 <= i < |g[order[k]]| ==> g[order[k]][i] in order[..k]
  }

  predicate TopologicalOrder(g: Graph, order: seq<Label>) {
    Ordered(g, order) && forall u :: u in g ==> u in order
  }

  /** A dependency path: each element depends on the next. */
  predicate Path(g: Graph, p: seq<Label>) {
    forall k :: 0 <= k < |p| - 1 ==> p[k] in g && p[k + 1] in g[p[k]]
  }

  predicate Cycle(g: Graph, p: seq<Label>) { |p| >= 2 && Path(g, p) && p[0] == p[|p| - 1] }

  ghost predicate Acyclic(g: Graph) { !exists p :: Cycle(g, p) }

  // ----- a topological order excludes cycles -----

  lemma Position(order: seq<Label>, u: Label) returns (k: nat)
    requires u in order
    ensures k < |order| && order[k] == u
  {
    k :| k < |order| && order[k] == u;
  }

  lemma EdgeGoesBack(g: Graph, order: seq<Label>, j: nat, k: nat)
    requires Ordered(g, order) && j < |order| && k < |order| && order[k] in g[order[j]]
    ensures k < j
  {
  }

  lemma {:induction false} PathGoesBack(g: Graph, order: seq<Label>, p: seq<Label>, j: nat, k: nat)
    requires TopologicalOrder(g, order) && Resolved(g) && |p| >= 2 && Path(g, p)
    requires j < |order| && order[j] == p[0] && k < |order| && order[k] == p[|p| - 1]
    ensures k < j
    decreases |p|
  {
    assert p[0] in g && p[1] in g[p[0]];
    if |p| == 2 {
      EdgeGoesBack(g, order, j, k);
    } else {
      assert p[1] in g;
      var l := Position(order, p[1]);
      EdgeGoesBack(g, order, j, l);
      assert Path(g, p[1..]);
      PathGoesBack(g, order, p[1..], l, k);
    }
  }

  lemma OrderExcludesCycles(g: Graph, order: seq<Label>)
    requires TopologicalOrder(g, order) && Resolved(g)
    ensures Acyclic(g)
  {
    forall p ensures !Cycle(g, p) {
      if |p| >= 2 && Path(g, p) && p[0] == p[|p| - 1] {
        assert p[0] in g;
        var j := Position(order, p[0]);
        PathGoesBack(g, order, p, j, j);
      }
    }
  }

  // ----- the search -----

  /** Grey labels are the ones on the recursion stack, black ones are finished, and the finished
      ones in finishing order are ordered. */
  ghost predicate Searching(g: Graph, colours: map<Label, Colour>, stack: seq<Label>, done: seq<Label>) {
    && (forall u :: u in colours ==> u in g)
    && (forall u :: (u in colours && colours[u] == Grey) <==> u in stack)
    && (forall u :: (u in colours && colours[u] == Black) <==> u in done)
    && Distinct(stack) && Path(g, stack) && (forall i :: 0 <= i < |stack| ==> stack[i] in g)
    && Ordered(g, done)
  }

  function Uncoloured(g: Graph, colours: map<Label, Colour>): set<Label> { g.Keys - colours.Keys }

  lemma StackIsPath(g: Graph, stack: seq<Label>, node: Label)
    requires Path(g, stack) && (stack != [] ==> stack[|stack| - 1] in g && node in g[stack[|stack| - 1]])
    ensures Path(g, stack + [node])
  {
  }

  /** Meeting a grey node closes a cycle with the stack above it. */
  lemma GreyMeansCycle(g: Graph, stack: seq<Label>, node: Label) returns (cycle: seq<Label>)
    requires Path(g, stack) && node in stack && stack[|stack| - 1] in g && node in g[stack[|stack| - 1]]
    ensures Cycle(g, cycle)
  {
    var i := Position(stack, node);
    var p := stack + [node];
    StackIsPath(g, stack, node);
    cycle := p[i..];
    forall k | 0 <= k < |cycle| - 1
      ensures cycle[k] in g && cycle[k + 1] in g[cycle[k]]
    {
      assert cycle[k] == p[i + k] && cycle[k + 1] == p[i + k + 1];
    }
  }

  lemma Enter(g: Graph, colours: map<Label, Colour>, stack: seq<Label>, done: seq<Label>, node: Label)
    requires Searching(g, colours, stack, done) && node in g && node !in colours
    requires stack != [] ==> node in g[stack[|stack| - 1]]
    ensures Searching(g, colours[node := Grey], stack + [node], done)
  {
  }

  lemma EnterShrinks(g: Graph, colours: map<Label, Colour>, node: Label)
    requires node in g && node !in colours
    ensures |Uncoloured(g, colours[node := Grey])| < |Uncoloured(g, colours)|
  {
    assert Uncoloured(g, colours[node := Grey]) == Uncoloured(g, colours) - {node};
  }

  lemma Leave(g: Graph, colours: map<Label, Colour>, stack: seq<Label>, done: seq<Label>, node: Label)
    requires Searching(g, colours, stack + [node], done) && node in g
    requires forall i :: 0 <= i < |g[node]| ==> g[node][i] in done
    ensures Searching(g, colours[node := Black], stack, done + [node])
  {
    var inner := stack + [node];
    assert inner[|stack|] == node && forall i :: 0 <= i < |stack| ==> inner[i] == stack[i];
    assert node in inner;
    assert forall u :: u in inner <==> u in stack || u == node;
    var colours', done' := colours[node := Black], done + [node];
    assert forall u :: u in done' <==> u in done || u == node;
    assert Path(g, stack) by {
      forall k | 0 <= k < |stack| - 1
        ensures stack[k] in g && stack[k + 1] in g[stack[k]]
      {
        assert inner[k + 1] in g[inner[k]];
      }
    }
    forall k | 0 <= k < |done'|
      ensures done'[k] in g && forall i :: 0 <= i < |g[done'[k]]| ==> g[done'[k]][i] in done'[..k]
    {
      if k < |done| {
        assert done'[..k] == done[..k];
      } else {
        assert done'[..k] == done;
      }
    }
  }

  lemma FewerUncoloured(g: Graph, a: map<Label, Colour>, b: map<Label, Colour>)
    requires a.Keys <= b.Keys
    ensures |Uncoloured(g, b)| <= |Uncoloured(g, a)|
  {
    SubsetSize(Uncoloured(g, b), Uncoloured(g, a));
  }

  method Visit(g: Graph, node: Label, colours: map<Label, Colour>, ghost stack: seq<Label>, ghost done: seq<Label>)
    returns (ok: bool, colours': map<Label, Colour>, ghost done': seq<Label>, ghost cycle: seq<Label>)
    requires Resolved(g) && node in g && Searching(g, colours, stack, done)
    requires stack != [] ==> node in g[stack[|stack| - 1]]
    ensures ok ==> Searching(g, colours', stack, done') && node in done'
    ensures ok ==> colours.Keys <= colours'.Keys && done <= done'
    ensures !ok ==> Cycle(g, cycle)
    decreases |Uncoloured(g, colours)|
  {
    hide Searching, Cycle, Uncoloured;
    colours', done', cycle := colours, done, [];
    if node in colours {
      SearchFacts(g, colours, stack, done, node);
      if colours[node] == Black {
        return true, colours', done', cycle;
      }
      cycle := GreyMeansCycle(g, stack, node);
      return false, colours', done', cycle;
    }
    Enter(g, colours, stack, done, node);
    EnterShrinks(g, colours, node);
    colours' := colours[node := Grey];
    ghost var inner := stack + [node];
    var i := 0;
    while i < |g[node]|
      invariant i <= |g[node]| && Searching(g, colours', inner, done')
      invariant colours.Keys <= colours'.Keys && node in colours' && done <= done'
      invariant forall j :: 0 <= j < i ==> g[node][j] in done'
      invariant |Uncoloured(g, colours')| < |Uncoloured(g, colours)|
    {
      var found, next, nextDone, c := Visit(g, g[node][i], colours', inner, done');
      if !found {
        return false, colours', done', c;
      }
      FewerUncoloured(g, colours', next);
      colours', done' := next, nextDone;
      i := i + 1;
    }
    Leave(g, colours', stack, done', node);
    colours', done' := colours'[node := Black], done' + [node];
    return true, colours', done', cycle;
  }

  lemma SearchFacts(g: Graph, colours: map<Label, Colour>, stack: seq<Label>, done: seq<Label>, node: Label)
    requires Searching(g, colours, stack, done) && node in colours
    ensures if colours[node] == Black then node in done else node in stack
    ensures Path(g, stack) && (stack != [] ==> stack[|stack| - 1] in g)
  {
  }

  /** The outer loop over all units. */
  method FindOrder(g: Graph, labels: seq<Label>) returns (ok: bool, ghost order: seq<Label>)
    requires Resolved(g) && (forall u :: u in g <==> u in labels)
    ensures ok ==> TopologicalOrder(g, order)
    ensures ok <==> Acyclic(g)
  {
    var colours: map<Label, Colour> := map[];
    order := [];
    var i := 0;
    while i < |labels|
      invariant i <= |labels| && Searching(g, colours, [], order)
      invariant forall j :: 0 <= j < i ==> labels[j] in order
    {
      var found, next, nextOrder, cycle := Visit(g, labels[i], colours, [], order);
      if !found {
        return false, order;
      }
      colours, order := next, nextOrder;
      i := i + 1;
    }
    assert TopologicalOrder(g, order);
    OrderExcludesCycles(g, order);
    return true, order;
  }

  // ----- the schema refinement -----

  datatype Unit = Unit(name: Label, specId: string, dependsOn: seq<Label>)

  function Labels(units: seq<Unit>): seq<Label> {
    seq(|units|, i requires 0 <= i < |units| => units[i].name)
  }

  /** The node table; with unique labels it lists each unit's own dependencies. */
  function GraphOf(units: seq<Unit>): Graph {
    if units == [] then map[]
    else GraphOf(units[..|units| - 1])[units[|units| - 1].name := units[|units| - 1].dependsOn]
  }

  lemma {:induction false} GraphOfUnits(units: seq<Unit>)
    ensures forall u :: u in GraphOf(units) <==> u in Labels(units)
    ensures Distinct(Labels(units)) ==> forall i :: 0 <= i < |units| ==>
              units[i].name in GraphOf(units) && GraphOf(units)[units[i].name] == units[i].dependsOn
  {
    if units != [] {
      var init, last := units[..|units| - 1], units[|units| - 1];
      GraphOfUnits(init);
      assert Labels(units) == Labels(init) + [last.name];
      if Distinct(Labels(units)) {
        assert forall i :: 0 <= i < |init| ==> Labels(init)[i] == Labels(units)[i];
        forall i | 0 <= i < |units|
          ensures units[i].name in GraphOf(units) && GraphOf(units)[units[i].name] == units[i].dependsOn
        {
          if i < |init| {
            assert Labels(units)[i] != Labels(units)[|init|];
          }
        }
      }
    }
  }

  /** What the schema accepts: unique labels, references to other declared units, no cycle. */
  ghost predicate ValidUnits(units: seq<Unit>) {
    Distinct(Labels(units)) && Resolved(GraphOf(units)) && Acyclic(GraphOf(units))
  }

  lemma SelfReferenceIsCycle(units: seq<Unit>, i: nat, j: nat)
    requires i < |units| && j < |units[i].dependsOn| && units[i].dependsOn[j] == units[i].name
    requires Distinct(Labels(units))
    ensures !Acyclic(GraphOf(units))
  {
    GraphOfUnits(units);
    var u := units[i].name;
    assert Labels(units)[i] == u;
    assert Cycle(GraphOf(units), [u, u]);
  }

  lemma UnresolvedReference(units: seq<Unit>, i: nat, j: nat)
    requires i < |units| && j < |units[i].dependsOn| && Distinct(Labels(units))
    requires units[i].dependsOn[j] !in GraphOf(units)
    ensures !Resolved(GraphOf(units))
  {
    GraphOfUnits(units);
    assert Labels(units)[i] == units[i].name;
    assert GraphOf(units)[units[i].name][j] == units[i].dependsOn[j];
  }

  method CheckUnits(units: seq<Unit>) returns (ok: bool)
    ensures ok <==> ValidUnits(units)
    ensures ok ==> exists order :: TopologicalOrder(GraphOf(units), order)
  {
    var labels := Labels(units);
    GraphOfUnits(units);
    if !Distinct(labels) {
      return false;
    }
    var g := GraphOf(units);
    var i := 0;
    while i < |units|
      invariant i <= |units|
      invariant forall k, j :: 0 <= k < i && 0 <= j < |units[k].dependsOn| ==> units[k].dependsOn[j] in g
    {
      var j := 0;
      while j < |units[i].dependsOn|
        invariant j <= |units[i].dependsOn|
        invariant forall l :: 0 <= l < j ==> units[i].dependsOn[l] in g
      {
        if units[i].dependsOn[j] == units[i].name {
          SelfReferenceIsCycle(units, i, j);
          return false;
        }
        if units[i].dependsOn[j] !in g {
          UnresolvedReference(units, i, j);
          return false;
        }
        j := j + 1;
      }
      i := i + 1;
    }
    ResolvedUnits(units);
    ghost var order;
    ok, order := FindOrder(g, labels);
  }

  lemma ResolvedUnits(units: seq<Unit>)
    requires Distinct(Labels(units))
    requires forall k, j :: 0 <= k < |units| && 0 <= j < |units[k].dependsOn| ==> units[k].dependsOn[j] in GraphOf(units)
    ensures Resolved(GraphOf(units))
  {
    GraphOfUnits(units);
    var g := GraphOf(units);
    forall u, i | u in g && 0 <= i < |g[u]|
      ensures g[u][i] in g
    {
      var k := Position(Labels(units), u);
      assert g[units[k].name] == units[k].dependsOn;
    }
  }
}
