/** Tool arguments as JSON values, and the key-sorted form an approval is bound to. */
module CanonicalJson {

  datatype Json =
    | Null
    | Bool(b: bool)
    | Number(n: real)
    | Text(s: string)
    | List(items: seq<Json>)
    | Object(fields: seq<Field>)

  /** Own properties in insertion order. */
  datatype Field = Field(key: string, value: Json)

  predicate UniqueKeys(fields: seq<Field>) {
    forall i, j :: 0 <= i < j < |fields| ==> fields[i].key != fields[j].key
  }

  /** A value that can exist: no object holds a key twice. */
  predicate WellFormed(v: Json) {
    match v
    case List(items) => forall i :: 0 <= i < |items| ==> WellFormed(items[i])
    case Object(fields) => UniqueKeys(fields) && forall i :: 0 <= i < |fields| ==> WellFormed(fields[i].value)
    case _ => true
  }

  /** Lexicographic order by code unit. */
  predicate Less(a: string, b: string) {
    b != [] && (a == [] || a[0] < b[0] || (a[0] == b[0] && Less(a[1..], b[1..])))
  }

  function InsertField(x: Field, s: seq<Field>): seq<Field> {
    if s == [] || Less(x.key, s[0].key) then [x] + s else [s[0]] + InsertField(x, s[1..])
  }

  function SortFields(s: seq<Field>): seq<Field> {
    if s == [] then [] else InsertField(s[0], SortFields(s[1..]))
  }

  /** Values are rebuilt before their entries are sorted: sorting compares keys only. */
  function SortKeysDeep(v: Json): Json {
    match v
    case List(items) => List(seq(|items|, i requires 0 <= i < |items| => SortKeysDeep(items[i])))
    case Object(fields) => Object(SortFields(RebuildFields(fields)))
    case _ => v
  }

  function RebuildFields(fields: seq<Field>): (r: seq<Field>)
    ensures |r| == |fields|
  {
    seq(|fields|, i requires 0 <= i < |fields| => Field(fields[i].key, SortKeysDeep(fields[i].value)))
  }

  /** The two values say the same thing; object entries may come in any order, at any depth. */
  predicate SameUpToKeyOrder(a: Json, b: Json)
    decreases a, 0
  {
    match a
    case List(xs) =>
      b.List? && |xs| == |b.items| && forall i :: 0 <= i < |xs| ==> SameUpToKeyOrder(xs[i], b.items[i])
    case Object(fs) =>
      && b.Object?
      && (forall i :: 0 <= i < |fs| ==> FoundIn(fs[i].key, fs[i].value, b.fields))
      && (forall j :: 0 <= j < |b.fields| ==> HoldsSame(fs, b.fields[j]))
    case _ => a == b
  }

  predicate FoundIn(key: string, value: Json, fields: seq<Field>)
    decreases value, 1
  {
    exists j :: 0 <= j < |fields| && fields[j].key == key && SameUpToKeyOrder(value, fields[j].value)
  }

  predicate HoldsSame(fields: seq<Field>, y: Field)
    decreases fields, 0
  {
    exists i :: 0 <= i < |fields| && fields[i].key == y.key && SameUpToKeyOrder(fields[i].value, y.value)
  }

  // ----- string order -----

  lemma {:induction false} LessIsTotal(a: string, b: string)
    ensures a == b || Less(a, b) || Less(b, a)
  {
    if a != [] && b != [] && a[0] == b[0] {
      LessIsTotal(a[1..], b[1..]);
      assert a == [a[0]] + a[1..] && b == [b[0]] + b[1..];
    }
  }

  lemma {:induction false} LessIsTransitive(a: string, b: string, c: string)
    requires Less(a, b) && Less(b, c)
    ensures Less(a, c)
  {
    if a != [] && a[0] == b[0] == c[0] {
      LessIsTransitive(a[1..], b[1..], c[1..]);
    }
  }

  lemma {:induction false} LessIsIrreflexive(a: string)
    ensures !Less(a, a)
  {
    if a != [] {
      LessIsIrreflexive(a[1..]);
    }
  }

  // ----- sorting -----

  predicate Sorted(s: seq<Field>) {
    forall i, j :: 0 <= i < j < |s| ==> Less(s[i].key, s[j].key)
  }

  lemma {:induction false} InsertKeepsSorted(x: Field, s: seq<Field>)
    requires Sorted(s) && forall i :: 0 <= i < |s| ==> s[i].key != x.key
    ensures Sorted(InsertField(x, s))
    ensures forall y :: y in InsertField(x, s) <==> y == x || y in s
  {
    hide Less;
    var r := InsertField(x, s);
    if s == [] {
      assert r == [x];
    } else if Less(x.key, s[0].key) {
      assert r == [x] + s;
      forall j | 0 <= j < |s| ensures Less(x.key, s[j].key) {
        if j > 0 {
          LessIsTransitive(x.key, s[0].key, s[j].key);
        }
      }
    } else {
      var rest := InsertField(x, s[1..]);
      InsertKeepsSorted(x, s[1..]);
      LessIsTotal(x.key, s[0].key);
      assert s == [s[0]] + s[1..] && r == [s[0]] + rest;
      forall y | y in rest ensures Less(s[0].key, y.key) {}
      forall j | 0 <= j < |rest| ensures Less(s[0].key, rest[j].key) { assert rest[j] in rest; }
    }
  }

  lemma {:induction false} SortIsSorted(s: seq<Field>)
    requires UniqueKeys(s)
    ensures Sorted(SortFields(s))
    ensures forall y :: y in SortFields(s) <==> y in s
  {
    hide Less, InsertField;
    if s != [] {
      var rest := SortFields(s[1..]);
      SortIsSorted(s[1..]);
      assert s == [s[0]] + s[1..];
      forall i | 0 <= i < |rest| ensures rest[i].key != s[0].key {
        assert rest[i] in s[1..];
      }
      InsertKeepsSorted(s[0], rest);
    }
  }

  /** A sorted list is determined by its members. */
  lemma {:induction false} SortedIsUnique(s: seq<Field>, t: seq<Field>)
    requires Sorted(s) && Sorted(t) && forall y :: y in s <==> y in t
    ensures s == t
  {
    hide Less;
    if t != [] {
      assert t[0] in s;
    }
    if s != [] {
      assert s[0] in t;
      HeadIsLeast(s, t[0]);
      HeadIsLeast(t, s[0]);
      LessIsIrreflexive(s[0].key);
      if Less(s[0].key, t[0].key) && Less(t[0].key, s[0].key) {
        LessIsTransitive(s[0].key, t[0].key, s[0].key);
      }
      assert s[0] == t[0];
      TailMembers(s);
      TailMembers(t);
      SortedIsUnique(s[1..], t[1..]);
      assert s == [s[0]] + s[1..] && t == [t[0]] + t[1..];
    }
  }

  lemma HeadIsLeast(s: seq<Field>, y: Field)
    requires Sorted(s) && y in s
    ensures y == s[0] || Less(s[0].key, y.key)
  {
  }

  lemma TailMembers(s: seq<Field>)
    requires Sorted(s) && s != []
    ensures forall y :: y in s[1..] <==> y in s && y != s[0]
  {
    hide Less;
    assert s == [s[0]] + s[1..];
    forall y | y in s[1..] ensures y != s[0] {
      LessIsIrreflexive(s[0].key);
    }
  }

  // ----- the canonical form decides equality up to key order -----

  predicate SameRebuilt(x: Field, y: Field) {
    x.key == y.key && SortKeysDeep(x.value) == SortKeysDeep(y.value)
  }

  predicate Included(f: seq<Field>, g: seq<Field>) {
    forall i :: 0 <= i < |f| ==> HasPartner(f[i], g)
  }

  predicate HasPartner(x: Field, g: seq<Field>) {
    exists j :: 0 <= j < |g| && SameRebuilt(x, g[j])
  }

  lemma PartnerIsMember(x: Field, g: seq<Field>)
    ensures HasPartner(x, g) <==> Field(x.key, SortKeysDeep(x.value)) in RebuildFields(g)
  {
    hide SortKeysDeep;
    var rg, y := RebuildFields(g), Field(x.key, SortKeysDeep(x.value));
    if HasPartner(x, g) {
      var j :| 0 <= j < |g| && SameRebuilt(x, g[j]);
      assert rg[j] == y;
    }
    if y in rg {
      var j :| 0 <= j < |rg| && rg[j] == y;
      assert SameRebuilt(x, g[j]);
    }
  }

  lemma RebuiltIncluded(f: seq<Field>, g: seq<Field>)
    ensures (forall y :: y in RebuildFields(f) ==> y in RebuildFields(g)) <==> Included(f, g)
  {
    hide SortKeysDeep, HasPartner;
    var rf, rg := RebuildFields(f), RebuildFields(g);
    forall i | 0 <= i < |f| ensures HasPartner(f[i], g) <==> rf[i] in rg {
      PartnerIsMember(f[i], g);
    }
    if forall y :: y in rf ==> y in rg {
      forall i | 0 <= i < |f| ensures HasPartner(f[i], g) {
        assert rf[i] in rg;
      }
      assert Included(f, g);
    }
    if Included(f, g) {
      forall y | y in rf ensures y in rg {
        var i :| 0 <= i < |rf| && rf[i] == y;
        assert HasPartner(f[i], g);
      }
    }
  }

  /** Object fields have equal canonical forms exactly when each has a partner in the other. */
  lemma FieldsAgree(f: seq<Field>, g: seq<Field>)
    requires UniqueKeys(f) && UniqueKeys(g)
    ensures SortFields(RebuildFields(f)) == SortFields(RebuildFields(g)) <==>
      forall y :: y in RebuildFields(f) <==> y in RebuildFields(g)
  {
    hide SortKeysDeep, Sorted;
    assert UniqueKeys(RebuildFields(f)) && UniqueKeys(RebuildFields(g));
    SortIsSorted(RebuildFields(f));
    SortIsSorted(RebuildFields(g));
    if forall y :: y in RebuildFields(f) <==> y in RebuildFields(g) {
      SortedIsUnique(SortFields(RebuildFields(f)), SortFields(RebuildFields(g)));
    }
  }

  /** Two argument values get the same canonical form exactly when they differ in key order at most. */
  lemma {:induction false} CanonicalExactly(a: Json, b: Json)
    requires WellFormed(a) && WellFormed(b)
    ensures SortKeysDeep(a) == SortKeysDeep(b) <==> SameUpToKeyOrder(a, b)
    decreases a, 0
  {
    match a
    case List(xs) =>
      if b.List? {
        ListsAgree(xs, b.items);
      }
    case Object(f) =>
      if b.Object? {
        ObjectsAgree(f, b.fields);
      }
    case _ =>
  }

  lemma {:induction false} ListsAgree(xs: seq<Json>, ys: seq<Json>)
    requires WellFormed(List(xs)) && WellFormed(List(ys))
    ensures SortKeysDeep(List(xs)) == SortKeysDeep(List(ys)) <==> SameUpToKeyOrder(List(xs), List(ys))
    decreases xs, 0
  {
    if |xs| == |ys| {
      forall i | 0 <= i < |xs|
        ensures SortKeysDeep(xs[i]) == SortKeysDeep(ys[i]) <==> SameUpToKeyOrder(xs[i], ys[i])
      {
        CanonicalExactly(xs[i], ys[i]);
      }
      var cx, cy := SortKeysDeep(List(xs)).items, SortKeysDeep(List(ys)).items;
      assert forall i :: 0 <= i < |xs| ==> cx[i] == SortKeysDeep(xs[i]) && cy[i] == SortKeysDeep(ys[i]);
    } else {
      assert |SortKeysDeep(List(xs)).items| == |xs| && |SortKeysDeep(List(ys)).items| == |ys|;
    }
  }

  lemma {:induction false} ObjectsAgree(f: seq<Field>, g: seq<Field>)
    requires WellFormed(Object(f)) && WellFormed(Object(g))
    ensures SortKeysDeep(Object(f)) == SortKeysDeep(Object(g)) <==> SameUpToKeyOrder(Object(f), Object(g))
    decreases f, 1
  {
    hide SortFields, RebuildFields;
    forall i | 0 <= i < |f| ensures FoundIn(f[i].key, f[i].value, g) <==> HasPartner(f[i], g) {
      FoundExactly(f[i], g);
    }
    forall j | 0 <= j < |g| ensures HoldsSame(f, g[j]) <==> HasPartner(g[j], f) {
      HoldsExactly(f, g[j]);
    }
    RebuiltIncluded(f, g);
    RebuiltIncluded(g, f);
    FieldsAgree(f, g);
  }

  lemma {:induction false} FoundExactly(x: Field, g: seq<Field>)
    requires WellFormed(x.value) && forall j :: 0 <= j < |g| ==> WellFormed(g[j].value)
    ensures FoundIn(x.key, x.value, g) <==> HasPartner(x, g)
    decreases x, 1
  {
    forall j | 0 <= j < |g|
      ensures SameRebuilt(x, g[j]) <==> x.key == g[j].key && SameUpToKeyOrder(x.value, g[j].value)
    {
      CanonicalExactly(x.value, g[j].value);
    }
  }

  lemma {:induction false} HoldsExactly(f: seq<Field>, y: Field)
    requires WellFormed(y.value) && forall i :: 0 <= i < |f| ==> WellFormed(f[i].value)
    ensures HoldsSame(f, y) <==> HasPartner(y, f)
    decreases f, 0
  {
    forall i | 0 <= i < |f|
      ensures SameRebuilt(y, f[i]) <==> f[i].key == y.key && SameUpToKeyOrder(f[i].value, y.value)
    {
      CanonicalExactly(f[i].value, y.value);
    }
  }
}
