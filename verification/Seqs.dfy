// Facts about finite sequences of process numbers that the queue, forest and
// semaphore proofs share.
module Seqs {

  ghost predicate NoDup(q: seq<int>) {
    forall i, j :: 0 <= i < j < |q| ==> q[i] != q[j]
  }

  function Elems(q: seq<int>): set<int> {
    set x | x in q
  }

  /** The members of `q` outside `d`, in their original order. */
  function Without(q: seq<int>, d: set<int>): (r: seq<int>)
    ensures forall x :: x in r <==> x in q && x !in d
    ensures |r| <= |q|
  {
    if q == [] then []
    else
      var rest := Without(q[1..], d);
      assert q == [q[0]] + q[1..];
      if q[0] in d then rest else [q[0]] + rest
  }

  lemma {:induction false} WithoutNoDup(q: seq<int>, d: set<int>)
    requires NoDup(q)
    ensures NoDup(Without(q, d))
  {
    if q != [] {
      WithoutNoDup(q[1..], d);
      assert forall x :: x in q[1..] ==> x != q[0];
    }
  }

  lemma {:induction false} WithoutUnion(q: seq<int>, a: set<int>, b: set<int>)
    ensures Without(Without(q, a), b) == Without(q, a + b)
  {
    if q != [] {
      WithoutUnion(q[1..], a, b);
      if q[0] !in a {
        assert Without(q, a)[1..] == Without(q[1..], a);
      }
    }
  }

  lemma {:induction false} WithoutNone(q: seq<int>, d: set<int>)
    requires forall x :: x in q ==> x !in d
    ensures Without(q, d) == q
  {
    if q != [] {
      assert q == [q[0]] + q[1..];
      WithoutNone(q[1..], d);
      var first := q[0];
      assert first in q && first !in d;
      assert Without(q, d) == [q[0]] + q[1..];
    }
  }

  lemma {:induction false} WithoutAppend(a: seq<int>, b: seq<int>, d: set<int>)
    ensures Without(a + b, d) == Without(a, d) + Without(b, d)
  {
    if a == [] {
      assert a + b == b;
    } else {
      assert (a + b)[1..] == a[1..] + b;
      WithoutAppend(a[1..], b, d);
    }
  }

  /** Taking one member out of a duplicate-free queue is a cut at its position. */
  lemma {:induction false} WithoutOne(q: seq<int>, i: nat)
    requires NoDup(q) && i < |q|
    ensures Without(q, {q[i]}) == q[..i] + q[i + 1..]
  {
    assert q == q[..i] + ([q[i]] + q[i + 1..]);
    WithoutAppend(q[..i], [q[i]] + q[i + 1..], {q[i]});
    WithoutAppend([q[i]], q[i + 1..], {q[i]});
    WithoutNone(q[..i], {q[i]});
    WithoutNone(q[i + 1..], {q[i]});
    assert Without([q[i]], {q[i]}) == [];
  }

  /** `Without` keeps order: positions of survivors never cross and never grow. */
  lemma {:induction false} WithoutKeepsOrder(q: seq<int>, d: set<int>, i: nat, j: nat)
    requires i < j < |Without(q, d)|
    ensures exists k, l :: 0 <= k < l < |q| && q[k] == Without(q, d)[i] && q[l] == Without(q, d)[j]
  {
    var r := Without(q[1..], d);
    if q[0] in d {
      WithoutKeepsOrder(q[1..], d, i, j);
      var k, l :| 0 <= k < l < |q[1..]| && q[1..][k] == r[i] && q[1..][l] == r[j];
      assert q[k + 1] == r[i] && q[l + 1] == r[j];
    } else if i == 0 {
      assert Without(q, d)[j] == r[j - 1];
      assert r[j - 1] in q[1..];
      var l :| 0 <= l < |q[1..]| && q[1..][l] == r[j - 1];
      assert q[0] == Without(q, d)[0] && q[l + 1] == r[j - 1];
    } else {
      WithoutKeepsOrder(q[1..], d, i - 1, j - 1);
      var k, l :| 0 <= k < l < |q[1..]| && q[1..][k] == r[i - 1] && q[1..][l] == r[j - 1];
      assert q[k + 1] == r[i - 1] && q[l + 1] == r[j - 1];
    }
  }

  /** `x` occurs in `q` before an occurrence of `y`. */
  ghost predicate Precedes(q: seq<int>, x: int, y: int) {
    exists i, j :: 0 <= i < j < |q| && q[i] == x && q[j] == y
  }

  lemma PrecedesIn(a: seq<int>, b: seq<int>, x: int, y: int)
    requires Precedes(a, x, y) || Precedes(b, x, y) || (x in a && y in b)
    ensures Precedes(a + b, x, y)
  {
    var q := a + b;
    if Precedes(a, x, y) {
      var i, j :| 0 <= i < j < |a| && a[i] == x && a[j] == y;
      assert q[i] == x && q[j] == y;
    } else if Precedes(b, x, y) {
      var i, j :| 0 <= i < j < |b| && b[i] == x && b[j] == y;
      assert q[|a| + i] == x && q[|a| + j] == y;
    } else {
      var i :| 0 <= i < |a| && a[i] == x;
      var j :| 0 <= j < |b| && b[j] == y;
      assert q[i] == x && q[|a| + j] == y;
    }
  }

  lemma {:induction false} ElemsSize(q: seq<int>)
    requires NoDup(q)
    ensures |Elems(q)| == |q|
  {
    if q != [] {
      ElemsSize(q[1..]);
      assert q == [q[0]] + q[1..];
      assert Elems(q) == {q[0]} + Elems(q[1..]);
    }
  }

  /** Removing a set of members of a duplicate-free queue shortens it by their number. */
  lemma {:induction false} WithoutSize(q: seq<int>, d: set<int>)
    requires NoDup(q)
    ensures |Without(q, d)| == |q| - |Elems(q) * d|
  {
    WithoutNoDup(q, d);
    ElemsSize(q);
    ElemsSize(Without(q, d));
    assert Elems(q) == Elems(Without(q, d)) + Elems(q) * d;
  }

  /** The whole numbers below `n`. */
  function Below(n: nat): (r: set<int>)
    ensures forall x :: x in r <==> 0 <= x < n
    ensures |r| == n
  {
    if n == 0 then {} else Below(n - 1) + {n - 1}
  }

  /** 0, 1, ..., n-1 */
  function Count(n: nat): (q: seq<int>)
    ensures |q| == n && forall i :: 0 <= i < n ==> q[i] == i
  {
    seq(n, i => i)
  }

  lemma SomeMember(s: set<int>) returns (x: int)
    requires s != {}
    ensures x in s
  {
    if forall y :: y !in s {
      assert false;
    }
    x :| x in s;
  }

  lemma SubsetSize(a: set<int>, b: set<int>)
    requires a <= b
    ensures |a| <= |b|
    ensures a < b ==> |a| < |b|
  {
    assert b == a + (b - a);
    if a < b {
      assert b - a != {};
    }
  }
}
