/** Result types and a few facts about finite maps and sets used by every component. */
module Common {

  datatype Option<+T> = None | Some(value: T)

  datatype Result<+R, +E> = Ok(value: R) | Err(error: E)

  /** A set of integers drawn from a range is no larger than the range. */
  lemma {:induction false} RangeCardinality(s: set<int>, lo: int, hi: int)
    requires lo <= hi
    requires forall x :: x in s ==> lo <= x < hi
    ensures |s| <= hi - lo
    decreases hi - lo
  {
    if lo == hi {
      assert s == {};
    } else {
      RangeCardinality(s - {hi - 1}, lo, hi - 1);
      if hi - 1 in s {
        assert s == (s - {hi - 1}) + {hi - 1};
      } else {
        assert s == s - {hi - 1};
      }
    }
  }

  /** A subset is no larger than the set it is drawn from. */
  lemma {:induction false} SubsetCardinality<T>(a: set<T>, b: set<T>)
    requires a <= b
    ensures |a| <= |b|
    ensures |a| == |b| ==> a == b
  {
    assert b == a + (b - a);
    assert |b| == |a| + |b - a|;
  }
}
