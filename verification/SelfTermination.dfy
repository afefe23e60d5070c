// What outChild as written does to the list of children that removeChild will walk, when
// children terminate themselves one after another. A child that is removed takes the
// back link of the next one along; a child without its back link cannot be removed.
module SelfTermination {
  import Seqs
  import opened Queues
  import opened Rings
  import opened Trees

  /** A back link of child `i`. */
  predicate RightOrLost(link: int, ks: seq<int>, i: int)
    requires 0 <= i < |ks|
  {
    link == PrevSibling(ks, i) || link == NULL
  }

  /** `ks` is what a walk from `q`'s first child visits; back links are right or lost. */
  ghost predicate Walk(t: Table, q: int, ks: seq<int>) {
    && 0 <= q < |t| && InTable(t, ks) && Seqs.NoDup(ks) && q !in ks && t[q].child == Head(ks)
    && (forall i :: 0 <= i < |ks| ==> t[ks[i]].nextSib == NextSibling(ks, i) && RightOrLost(t[ks[i]].prevSib, ks, i))
  }

  /** Not the first child, and without its back link. */
  predicate Stranded(t: Table, ks: seq<int>, i: nat)
    requires i < |ks| && 0 <= ks[i] < |t|
  {
    i > 0 && t[ks[i]].prevSib == NULL
  }

  /** The list that outChild leaves: none after the first child, the others after one with a back link. */
  function Left(t: Table, ks: seq<int>, i: nat): seq<int>
    requires i < |ks| && 0 <= ks[i] < |t|
  {
    if i == 0 then [] else if Stranded(t, ks, i) then ks[..i + 1] else Cut(ks, i)
  }

  lemma LeavingAt(t: Table, q: int, ks: seq<int>, i: nat, x: int)
    requires Walk(t, q, ks) && i < |ks| && t[ks[i]].prnt == q && 0 <= x < |t|
    ensures var p := ks[i]; var u := OutChildStores(t, p); var a := t[p].prevSib; var b := NextSibling(ks, i);
            && |u| == |t|
            && u[x].nextSib == (if x == p then NULL else if x == a then b else t[x].nextSib)
            && u[x].prevSib == (if x == p then NULL else if x == b then NULL else t[x].prevSib)
            && u[x].prnt == (if x == p then NULL else t[x].prnt)
            && u[x].child == (if x == q && i == 0 then NULL else t[x].child)
  {
    var p := ks[i];
    assert p in ks && p != q;
    assert t[q].child == p <==> i == 0;
    if i > 0 {
      assert 0 <= ks[i - 1] < |t| && ks[i - 1] != p;
    }
    if i + 1 < |ks| {
      assert 0 <= ks[i + 1] < |t| && ks[i + 1] != p;
    }
    if 0 < i && i + 1 < |ks| {
      assert ks[i - 1] != ks[i + 1];
    }
    var t1 := if t[q].child == p then t[q := t[q].(child := t[p].prevSib)] else t;
    assert t1[p] == t[p] && t[p].prnt == q;
    UnlinkedChildAt(t1, p, x);
  }

  /** A parent's list after one of its children has terminated itself: still a list, but one that may list the child. */
  lemma OutChildLeaves(t: Table, q: int, ks: seq<int>, i: nat)
    requires Walk(t, q, ks) && i < |ks| && t[ks[i]].prnt == q
    ensures var u := OutChildStores(t, ks[i]);
            |u| == |t| && Walk(u, q, Left(t, ks, i)) && (ks[i] in Left(t, ks, i) <==> Stranded(t, ks, i))
  {
    var u := OutChildStores(t, ks[i]);
    var r := Left(t, ks, i);
    LeavingAt(t, q, ks, i, q);
    LeftMembers(t, ks, i);
    forall j | 0 <= j < |r|
      ensures u[r[j]].nextSib == NextSibling(r, j) && RightOrLost(u[r[j]].prevSib, r, j)
    {
      if Stranded(t, ks, i) {
        StrandedAt(t, q, ks, i, j);
      } else {
        CutAt(t, q, ks, i, j);
      }
    }
  }

  lemma LeftMembers(t: Table, ks: seq<int>, i: nat)
    requires InTable(t, ks) && Seqs.NoDup(ks) && i < |ks|
    ensures var r := Left(t, ks, i);
            && InTable(t, r) && Seqs.NoDup(r) && (forall x :: x in r ==> x in ks)
            && (ks[i] in r <==> Stranded(t, ks, i)) && (i > 0 ==> Head(r) == ks[0]) && (i == 0 ==> r == [])
  {
    var r := Left(t, ks, i);
    if Stranded(t, ks, i) {
      assert r[i] == ks[i];
    }
  }

  lemma StrandedAt(t: Table, q: int, ks: seq<int>, i: nat, j: nat)
    requires Walk(t, q, ks) && i < |ks| && t[ks[i]].prnt == q && Stranded(t, ks, i) && j <= i
    ensures var u := OutChildStores(t, ks[i]); var r := ks[..i + 1];
            |u| == |t| && u[r[j]].nextSib == NextSibling(r, j) && RightOrLost(u[r[j]].prevSib, r, j)
  {
    var x, u, r := ks[j], OutChildStores(t, ks[i]), ks[..i + 1];
    LeavingAt(t, q, ks, i, x);
    assert r[j] == x && x != NULL;
    if j == i {
      assert u[x].nextSib == NULL == NextSibling(r, j) && u[x].prevSib == NULL;
    } else {
      assert x != ks[i] && x != NextSibling(ks, i);
      assert u[x].nextSib == ks[j + 1] == NextSibling(r, j) && u[x].prevSib == t[x].prevSib;
    }
  }

  lemma CutAt(t: Table, q: int, ks: seq<int>, i: nat, j: nat)
    requires Walk(t, q, ks) && 0 < i < |ks| && t[ks[i]].prnt == q && !Stranded(t, ks, i) && j < |Cut(ks, i)|
    ensures var u := OutChildStores(t, ks[i]); var r := Cut(ks, i);
            && |u| == |t| && 0 <= r[j] < |t|
            && u[r[j]].nextSib == NextSibling(r, j) && RightOrLost(u[r[j]].prevSib, r, j)
  {
    CutSiblings(ks, i, j);
    var k := if j < i then j else j + 1;
    LeavingAt(t, q, ks, i, ks[k]);
    assert t[ks[i]].prevSib == PrevSibling(ks, i) == ks[i - 1];
    assert ks[k] == ks[i - 1] <==> k + 1 == i;
    assert ks[k] == NextSibling(ks, i) <==> k == i + 1;
  }

  // ---- What the parent's termination finds -----------------------------------------------------

  /** The processes that removeChild(q) hands out, called until there is no child, or `n` times. */
  function HandedOut(t: Table, q: int, n: nat): seq<int>
    requires 0 <= q < |t|
    decreases n
  {
    var c := t[q].child;
    if n == 0 || !(0 <= c < |t|) then []
    else
      var u := RemoveChildStores(t, q, c);
      if |u| == |t| then [c] + HandedOut(u, q, n - 1) else [c]
  }

  lemma WalkOn(t: Table, q: int, ks: seq<int>)
    requires Walk(t, q, ks) && ks != []
    ensures var u := RemoveChildStores(t, q, ks[0]); |u| == |t| && Walk(u, q, ks[1..])
  {
    var c := ks[0];
    var r := ks[1..];
    assert c in ks && c != q;
    if |ks| > 1 {
      assert ks[1] in ks && 0 <= ks[1] < |t| && ks[1] != c;
    }
    var t1 := t[q := t[q].(child := t[c].nextSib)];
    var u := RemoveChildStores(t, q, c);
    assert t1[c] == t[c] && t[c].nextSib == NextSibling(ks, 0) && t[c].prevSib == NULL;
    UnlinkedChildAt(t1, c, q);
    forall j | 0 <= j < |r|
      ensures u[r[j]].nextSib == NextSibling(r, j) && RightOrLost(u[r[j]].prevSib, r, j)
    {
      assert r[j] == ks[j + 1] && ks[j + 1] in ks;
      UnlinkedChildAt(t1, c, r[j]);
    }
  }

  lemma HandedNone(t: Table, q: int, n: nat)
    requires 0 <= q < |t| && t[q].child == NULL
    ensures HandedOut(t, q, n) == []
  {
  }

  lemma HandedFirst(t: Table, u: Table, q: int, c: int, n: nat)
    requires 0 <= q < |t| && 0 <= c < |t| && t[q].child == c
    requires u == RemoveChildStores(t, q, c) && |u| == |t|
    ensures HandedOut(t, q, n + 1) == [c] + HandedOut(u, q, n)
  {
  }

  lemma {:induction false} WalkIsHandedOut(t: Table, q: int, ks: seq<int>, n: nat)
    requires Walk(t, q, ks) && n >= |ks|
    ensures HandedOut(t, q, n) == ks
    decreases n, 1
  {
    if ks == [] {
      HandedNone(t, q, n);
    } else {
      WalkStep(t, q, ks, n);
    }
  }

  lemma {:induction false} WalkStep(t: Table, q: int, ks: seq<int>, n: nat)
    requires Walk(t, q, ks) && n >= |ks| > 0
    ensures HandedOut(t, q, n) == ks
    decreases n, 0
  {
    var c, rest := ks[0], ks[1..];
    var u := RemoveChildStores(t, q, c);
    assert 0 <= c < |t| && t[q].child == c;
    assert |u| == |t| && HandedOut(u, q, n - 1) == rest by {
      WalkOn(t, q, ks);
      WalkIsHandedOut(u, q, rest, n - 1);
    }
    HandedFirst(t, u, q, c, n - 1);
    assert [c] + rest == ks;
  }

  /**
   * A child that has terminated itself is terminated a second time with its parent if
   * and only if it was not the first child and its back link had been lost.
   */
  lemma TerminatedAgain(t: Table, q: int, ks: seq<int>, i: nat)
    requires Walk(t, q, ks) && i < |ks| && t[ks[i]].prnt == q
    ensures var u := OutChildStores(t, ks[i]);
            |u| == |t| && HandedOut(u, q, |ks|) == Left(t, ks, i)
            && (ks[i] in HandedOut(u, q, |ks|) <==> Stranded(t, ks, i))
  {
    OutChildLeaves(t, q, ks, i);
    WalkIsHandedOut(OutChildStores(t, ks[i]), q, Left(t, ks, i), |ks|);
  }

  // ---- Three siblings -----------------------------------------------------------------------------

  /** Process 0 with the children 1, 2 and 3. */
  function Siblings3(): Table {
    [Child(1, NULL, NULL, NULL), Child(NULL, 0, 2, NULL), Child(NULL, 0, 3, 1), Child(NULL, 0, NULL, 2)]
  }

  /**
   * First 2, then 3 terminates itself. When 0 terminates, removeChild hands out 1 and 3:
   * with 0 itself that makes five terminations of four processes, and processCount falls
   * below zero.
   */
  lemma SiblingTerminatedTwice()
    ensures Siblings(Siblings3(), 0, [1, 2, 3])
    ensures var u := OutChildStores(OutChildStores(Siblings3(), 2), 3);
            && |u| == 4 && u[3].prnt == NULL && HandedOut(u, 0, 4) == [1, 3]
            && |[2, 3] + HandedOut(u, 0, 4) + [0]| == |u| + 1
  {
    var t := Siblings3();
    var t1 := OutChildStores(t, 2);
    assert t1 == [Child(1, NULL, NULL, NULL), Child(NULL, 0, 3, NULL), Child(NULL, NULL, NULL, NULL), Child(NULL, 0, NULL, NULL)];
    var u := OutChildStores(t1, 3);
    assert u == [Child(1, NULL, NULL, NULL), Child(NULL, 0, 3, NULL), Child(NULL, NULL, NULL, NULL), Child(NULL, NULL, NULL, NULL)];
    assert Walk(u, 0, [1, 3]);
    WalkIsHandedOut(u, 0, [1, 3], 4);
  }
}
