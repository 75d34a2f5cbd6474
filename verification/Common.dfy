/** Small vocabulary shared by every module: optional values, time, and one set helper. */
module Common {

  datatype Option<+T> = None | Some(value: T)

  /** An instant in microseconds. Module Timestamps justifies comparing instants instead of strings. */
  type Time = int

  const SECOND: int := 1_000_000
  const DAY: int := 86_400 * SECOND

  /** The largest element of a finite set of naturals, 0 for the empty set. */
  ghost function Top(s: set<nat>): (t: nat)
    ensures forall x :: x in s ==> x <= t
    ensures if s == {} then t == 0 else t in s
  {
    if s == {} then 0
    else
      var x :| x in s;
      var rest := Top(s - {x});
      assert forall y :: y in s ==> y == x || y in s - {x};
      if rest < x then x else rest
  }

  /** Two sets of the same type, one inside the other, are ordered by size. */
  lemma SubsetSize<T>(a: set<T>, b: set<T>)
    requires a <= b
    ensures |a| <= |b|
    ensures |a| == |b| ==> a == b
  {
    assert b == a + (b - a);
    assert |b| == |a| + |b - a|;
  }
}
