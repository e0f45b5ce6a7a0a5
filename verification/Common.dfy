/** Shared by several components. */
module Common {

  datatype Option<+T> = None | Some(value: T)

  /** A tool's declared risk. */
  datatype Risk = Read | Edit | Execute | Destructive

  lemma {:induction false} SubsetSize<T>(a: set<T>, b: set<T>)
    requires a <= b
    ensures |a| <= |b|
    ensures |a| == |b| ==> a == b
  {
    if a != {} {
      var x :| x in a;
      SubsetSize(a - {x}, b - {x});
      assert a == (a - {x}) + {x} && b == (b - {x}) + {x};
    }
  }
}
