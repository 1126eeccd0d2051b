/** Sizes of finite sets, which the verifier does not know by itself. */
module Sets {
  lemma {:induction false} SubsetSize<T>(a: set<T>, b: set<T>)
    requires a <= b
    ensures |a| <= |b|
    decreases b
  {
    if b != {} {
      var x :| x in b;
      if x in a {
        SubsetSize(a - {x}, b - {x});
      } else {
        SubsetSize(a, b - {x});
      }
    }
  }
}
