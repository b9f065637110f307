/** Python's `sorted(set(ids))`, the order in which wallet rows are locked. */
module Ordering {

  predicate StrictlyAscending(s: seq<int>) {
    forall i, j | 0 <= i < j < |s| :: s[i] < s[j]
  }

  function InsertOnce(x: int, s: seq<int>): (r: seq<int>)
    requires StrictlyAscending(s)
    ensures StrictlyAscending(r) && |r| <= |s| + 1
    ensures forall y :: y in r <==> y == x || y in s
  {
    if s == [] || x < s[0] then [x] + s
    else if x == s[0] then s
    else
      var t := InsertOnce(x, s[1..]);
      assert forall i | 0 <= i < |t| :: t[i] in t;
      assert forall i | 1 <= i < |s| :: s[i] in s[1..];
      [s[0]] + t
  }

  function SortedSet(ids: seq<int>): (r: seq<int>)
    ensures StrictlyAscending(r) && |r| <= |ids|
    ensures forall y :: y in r <==> y in ids
  {
    if ids == [] then []
    else
      assert forall y :: y in ids <==> y == ids[0] || y in ids[1..];
      InsertOnce(ids[0], SortedSet(ids[1..]))
  }

  /** The contract of `SortedSet` leaves no freedom: at most one sequence lists a set in ascending order. */
  lemma {:induction false} AscendingIsUnique(a: seq<int>, b: seq<int>)
    requires StrictlyAscending(a) && StrictlyAscending(b)
    requires forall y :: y in a <==> y in b
    ensures a == b
  {
    assert b != [] ==> b[0] in b;
    if a != [] {
      assert a[0] in a && a[0] in b;
      forall y ensures y in a[1..] <==> y in b[1..] {
        assert y in a[1..] <==> y in a && y != a[0];
        assert y in b[1..] <==> y in b && y != b[0];
      }
      AscendingIsUnique(a[1..], b[1..]);
      assert a == [a[0]] + a[1..] && b == [b[0]] + b[1..];
    }
  }
}
