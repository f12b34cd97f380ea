/** Result and option types, and the least element and size of finite sets, shared by the models. */
module Wrappers {
  datatype Option<+T> = None | Some(value: T)

  datatype Result<+R, +E> = Success(value: R) | Failure(error: E)

  /** The least element of a non-empty finite set of integers. */
  ghost function Least(s: set<int>): (m: int)
    requires s != {}
    ensures m in s && forall x :: x in s ==> m <= x
    decreases s
  {
    assert (forall y :: y !in s) ==> s == {};
    var y :| y in s;
    if s == {y} then y
    else
      var rest := s - {y};
      assert s == {y} + rest;
      var m := Least(rest);
      if y < m then y else m
  }

  /** A subset is no larger, and smaller unless it is everything. */
  lemma SubsetSize<T>(a: set<T>, b: set<T>)
    requires a <= b
    ensures |a| <= |b| && (|a| == |b| ==> a == b)
  {
    assert b == a + (b - a);
    assert |b| == |a| + |b - a|;
    assert |b - a| == 0 ==> b - a == {};
  }
}
