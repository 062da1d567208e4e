/** Sorting by a caller-chosen order, and taking the best rows of a sorted table.
    The order is a total preorder ("a may come before b"): rows it cannot tell apart are ties. */
module Sorting {

  ghost predicate TotalPreorder<T(!new)>(before: (T, T) -> bool)
  {
    && (forall a, b :: before(a, b) || before(b, a))
    && (forall a, b, c :: before(a, b) && before(b, c) ==> before(a, c))
  }

  ghost predicate Sorted<T>(s: seq<T>, before: (T, T) -> bool)
  {
    forall i, j | 0 <= i < j < |s| :: before(s[i], s[j])
  }

  /** Puts `x` into the sorted sequence `s`, ahead of the first element it may precede. */
  function Insert<T>(x: T, s: seq<T>, before: (T, T) -> bool): (r: seq<T>)
    ensures |r| == |s| + 1
    ensures multiset(r) == multiset(s) + multiset{x}
    decreases |s|
  {
    if s == [] || before(x, s[0]) then
      [x] + s
    else
      assert s == [s[0]] + s[1..];
      [s[0]] + Insert(x, s[1..], before)
  }

  lemma {:induction false} InsertSorted<T(!new)>(x: T, s: seq<T>, before: (T, T) -> bool)
    requires TotalPreorder(before)
    requires Sorted(s, before)
    ensures Sorted(Insert(x, s, before), before)
    decreases |s|
  {
    if s == [] || before(x, s[0]) {
    } else {
      var rest := Insert(x, s[1..], before);
      InsertSorted(x, s[1..], before);
      assert before(s[0], x);
      forall j | 0 <= j < |rest| ensures before(s[0], rest[j]) {
        assert rest[j] in multiset(rest);
        if rest[j] != x {
          assert rest[j] in multiset(s[1..]);
          var k :| 0 <= k < |s[1..]| && s[1..][k] == rest[j];
          assert s[k + 1] == rest[j];
        }
      }
      var r := [s[0]] + rest;
      forall i, j | 0 <= i < j < |r| ensures before(r[i], r[j]) {
        if i == 0 {
          assert r[j] == rest[j - 1];
        } else {
          assert r[i] == rest[i - 1] && r[j] == rest[j - 1];
        }
      }
    }
  }

  /** Insertion sort: the result holds the same rows, in an order that `before` accepts. */
  function Sort<T(!new)>(s: seq<T>, before: (T, T) -> bool): (r: seq<T>)
    requires TotalPreorder(before)
    ensures |r| == |s|
    ensures multiset(r) == multiset(s)
    ensures Sorted(r, before)
    decreases |s|
  {
    if s == [] then []
    else
      assert s == [s[0]] + s[1..];
      var rest := Sort(s[1..], before);
      InsertSorted(s[0], rest, before);
      Insert(s[0], rest, before)
  }

  /** The first `k` rows of a sorted sequence rank at least as high as every row after them. */
  lemma {:induction false} PrefixRanksAhead<T>(o: seq<T>, before: (T, T) -> bool, k: nat)
    requires Sorted(o, before)
    requires k <= |o|
    ensures multiset(o) - multiset(o[..k]) == multiset(o[k..])
    ensures forall x, y | x in multiset(o[k..]) && y in o[..k] :: before(y, x)
  {
    assert o == o[..k] + o[k..];
    assert multiset(o) == multiset(o[..k]) + multiset(o[k..]);
    forall x, y | x in multiset(o[k..]) && y in o[..k] ensures before(y, x) {
      var j :| 0 <= j < |o[k..]| && o[k..][j] == x;
      var i :| 0 <= i < k && o[..k][i] == y;
      assert o[i] == y && o[k + j] == x;
    }
  }

  /** The `k` best rows of `s` under `before`: sort, then keep a prefix. */
  function Top<T(!new)>(s: seq<T>, before: (T, T) -> bool, k: nat): (top: seq<T>)
    requires TotalPreorder(before)
    requires k <= |s|
    ensures |top| == k
    ensures Sorted(top, before)
    ensures multiset(top) <= multiset(s)
    ensures forall x, y | x in multiset(s) - multiset(top) && y in top :: before(y, x)
  {
    var o := Sort(s, before);
    PrefixRanksAhead(o, before, k);
    assert o == o[..k] + o[k..];
    assert multiset(o) == multiset(o[..k]) + multiset(o[k..]);
    o[..k]
  }
}
