// The process tree threaded through the PCB table: a parent points to its first
// child, children are linked both ways and end in NULL.
module Trees {
  import opened Seqs
  import opened ForestSpec
  import opened Queues
  import opened Rings

  function NextSibling(ks: seq<int>, i: nat): int {
    if i + 1 < |ks| then ks[i + 1] else NULL
  }

  function PrevSibling(ks: seq<int>, i: nat): int {
    if 0 < i <= |ks| then ks[i - 1] else NULL
  }

  /** `ks` are the children of `p`, in this order. */
  ghost predicate Siblings(t: Table, p: int, ks: seq<int>)
    requires 0 <= p < |t|
  {
    && InTable(t, ks)
    && t[p].child == Head(ks)
    && (forall i :: 0 <= i < |ks| ==>
          t[ks[i]].prnt == p && t[ks[i]].nextSib == NextSibling(ks, i) && t[ks[i]].prevSib == PrevSibling(ks, i))
  }

  ghost predicate AllSiblings(t: Table, f: Forest) {
    forall p :: 0 <= p < |t| ==> Siblings(t, p, Kids(f, p))
  }

  ghost predicate Orphans(t: Table, f: Forest) {
    forall p :: 0 <= p < |t| && p !in f.parent ==> t[p].prnt == NULL && t[p].nextSib == NULL && t[p].prevSib == NULL
  }

  /** The links in the table are those of the forest. */
  ghost predicate TreeIs(t: Table, f: Forest) {
    && AllSiblings(t, f) && Orphans(t, f)
    && (forall p :: p in f.parent ==> 0 <= p < |t| && 0 <= f.parent[p] < |t|)
  }

  /** `u` differs from `t` in tree links only. */
  ghost predicate TreeLinksOnly(t: Table, u: Table) {
    && |u| == |t|
    && (forall x :: 0 <= x < |t| ==>
          u[x] == t[x].(prnt := u[x].prnt, child := u[x].child, nextSib := u[x].nextSib, prevSib := u[x].prevSib))
  }

  /** Queue links, semaphores and results do not matter to the tree. */
  lemma TreeFrame(t: Table, u: Table, f: Forest)
    requires TreeIs(t, f) && |u| == |t|
    requires forall x :: 0 <= x < |t| ==>
               u[x].prnt == t[x].prnt && u[x].child == t[x].child && u[x].nextSib == t[x].nextSib && u[x].prevSib == t[x].prevSib
    ensures TreeIs(u, f)
  {
    forall p | 0 <= p < |u|
      ensures Siblings(u, p, Kids(f, p))
    {
      assert Siblings(t, p, Kids(f, p));
    }
  }

  /** Position of a process among its siblings. */
  ghost function Rank(f: Forest, p: int): (i: nat)
    requires ForestOk(f) && p in f.parent
    ensures i < |Kids(f, f.parent[p])| && Kids(f, f.parent[p])[i] == p
  {
    assert p in Kids(f, f.parent[p]);
    var i :| 0 <= i < |Kids(f, f.parent[p])| && Kids(f, f.parent[p])[i] == p;
    i
  }

  /** What the table says about a process with a parent. */
  lemma ChildLinks(t: Table, f: Forest, p: int)
    requires ForestOk(f) && TreeIs(t, f) && p in f.parent
    ensures var q := f.parent[p]; var ks := Kids(f, q); var i := Rank(f, p);
            && 0 <= p < |t| && 0 <= q < |t| && InTable(t, ks) && NoDup(ks)
            && t[p].prnt == q && t[p].nextSib == NextSibling(ks, i) && t[p].prevSib == PrevSibling(ks, i)
            && t[q].child == ks[0]
  {
    assert Siblings(t, f.parent[p], Kids(f, f.parent[p]));
  }

  // ---- insertChild ------------------------------------------------------------------

  /** `u` is `t` with `p` linked behind the last child of `q`. */
  ghost predicate Appended(t: Table, u: Table, q: int, p: int, ks: seq<int>)
    requires 0 <= q < |t| && 0 <= p < |t|
  {
    && |u| == |t|
    && (forall x :: 0 <= x < |t| ==>
          && u[x].prnt == (if x == p then q else t[x].prnt)
          && u[x].nextSib == (if x == p then NULL else if ks != [] && x == Tail(ks) then p else t[x].nextSib)
          && u[x].prevSib == (if x == p then Tail(ks) else t[x].prevSib)
          && u[x].child == (if x == q && ks == [] then p else t[x].child))
  }

  lemma AppendedTree(t: Table, u: Table, f: Forest, q: int, p: int)
    requires ForestOk(f) && TreeIs(t, f) && 0 <= q < |t| && 0 <= p < |t| && p != q && p !in f.parent
    requires Appended(t, u, q, p, Kids(f, q))
    ensures TreeIs(u, Adopt(f, q, p))
  {
    var g := Adopt(f, q, p);
    forall x | 0 <= x < |u|
      ensures Siblings(u, x, Kids(g, x))
    {
      AdoptKids(f, q, p, x);
      assert Siblings(t, x, Kids(f, x));
      if x == q {
        IsListed(f, q, p);
        AppendedSiblings(t, u, q, p, Kids(f, q));
      } else {
        OtherSiblings(t, u, f, q, p, x);
      }
    }
    AppendedOrphans(t, u, f, q, p);
  }

  lemma AppendedOrphans(t: Table, u: Table, f: Forest, q: int, p: int)
    requires ForestOk(f) && Orphans(t, f) && 0 <= q < |t| && 0 <= p < |t|
    requires Appended(t, u, q, p, Kids(f, q))
    ensures Orphans(u, Adopt(f, q, p))
  {
    if Kids(f, q) != [] {
      var last := Tail(Kids(f, q));
      assert last in Kids(f, q);
      IsListed(f, q, last);
    }
  }

  lemma AppendedSiblings(t: Table, u: Table, q: int, p: int, ks: seq<int>)
    requires 0 <= q < |t| && 0 <= p < |t| && Siblings(t, q, ks) && NoDup(ks) && p !in ks && p != q
    requires Appended(t, u, q, p, ks)
    ensures Siblings(u, q, ks + [p])
  {
    var r := ks + [p];
    forall i | 0 <= i < |r|
      ensures u[r[i]].prnt == q && u[r[i]].nextSib == NextSibling(r, i) && u[r[i]].prevSib == PrevSibling(r, i)
    {
      if i < |ks| {
        var x := ks[i];
        assert x in ks;
      }
    }
  }

  lemma OtherSiblings(t: Table, u: Table, f: Forest, q: int, p: int, x: int)
    requires ForestOk(f) && 0 <= q < |t| && 0 <= p < |t| && 0 <= x < |t| && x != q && p !in f.parent
    requires Siblings(t, x, Kids(f, x)) && Appended(t, u, q, p, Kids(f, q))
    ensures Siblings(u, x, Kids(f, x))
  {
    var ks := Kids(f, q);
    forall c | c in Kids(f, x)
      ensures c != p && (ks != [] ==> c != Tail(ks))
    {
      IsListed(f, x, c);
      if ks != [] {
        IsListed(f, q, Tail(ks));
        assert Tail(ks) in ks;
      }
    }
    SiblingsFrame(t, u, x, Kids(f, x));
  }

  /** A process is listed under its parent and nowhere else. */
  lemma IsListed(f: Forest, q: int, c: int)
    requires ForestOk(f)
    ensures c in Kids(f, q) <==> c in f.parent && f.parent[c] == q
  {
  }

  /** A list of children is untouched by stores to other slots. */
  lemma SiblingsFrame(t: Table, u: Table, x: int, ks: seq<int>)
    requires 0 <= x < |t| && |u| == |t| && Siblings(t, x, ks) && u[x].child == t[x].child
    requires forall c :: c in ks && 0 <= c < |t| ==>
               u[c].prnt == t[c].prnt && u[c].nextSib == t[c].nextSib && u[c].prevSib == t[c].prevSib
    ensures Siblings(u, x, ks)
  {
    forall j | 0 <= j < |ks|
      ensures u[ks[j]].prnt == x && u[ks[j]].nextSib == NextSibling(ks, j) && u[ks[j]].prevSib == PrevSibling(ks, j)
    {
      var c := ks[j];
      assert c in ks;
    }
  }

  // ---- Leaving a list of children -------------------------------------------------------

  /** `u` is `t` with `p`, child number `i` of `q`, properly unlinked. */
  ghost predicate Removed(t: Table, u: Table, q: int, ks: seq<int>, i: nat)
    requires i < |ks|
  {
    var p := ks[i];
    && |u| == |t|
    && (forall x :: 0 <= x < |t| ==>
          && u[x].prnt == (if x == p then NULL else t[x].prnt)
          && u[x].nextSib == (if x == p then NULL else if x == PrevSibling(ks, i) then NextSibling(ks, i) else t[x].nextSib)
          && u[x].prevSib == (if x == p then NULL else if x == NextSibling(ks, i) then PrevSibling(ks, i) else t[x].prevSib)
          && u[x].child == (if x == q && i == 0 then NextSibling(ks, 0) else t[x].child))
  }

  lemma RemovedTree(t: Table, u: Table, f: Forest, p: int)
    requires ForestOk(f) && TreeIs(t, f) && p in f.parent
    requires Removed(t, u, f.parent[p], Kids(f, f.parent[p]), Rank(f, p))
    ensures TreeIs(u, Detach(f, p))
  {
    var q := f.parent[p];
    ChildLinks(t, f, p);
    forall x | 0 <= x < |u|
      ensures Siblings(u, x, Kids(Detach(f, p), x))
    {
      DetachedKids(f, p, x);
      assert Siblings(t, x, Kids(f, x));
      if x == q {
        WithoutOne(Kids(f, q), Rank(f, p));
        RemovedSiblings(t, u, q, Kids(f, q), Rank(f, p));
      } else {
        UnrelatedSiblings(t, u, f, p, x);
      }
    }
    forall x | 0 <= x < |u| && x !in Detach(f, p).parent
      ensures u[x].prnt == NULL && u[x].nextSib == NULL && u[x].prevSib == NULL
    {
      IsListed(f, q, x);
      RemovedOrphan(t, u, q, Kids(f, q), Rank(f, p), x);
    }
  }

  /** A process without a parent keeps its empty links, and `p` gets empty ones. */
  lemma RemovedOrphan(t: Table, u: Table, q: int, ks: seq<int>, i: nat, x: int)
    requires i < |ks| && 0 <= x < |t| && Removed(t, u, q, ks, i)
    requires x == ks[i] || (x !in ks && t[x].prnt == NULL && t[x].nextSib == NULL && t[x].prevSib == NULL)
    ensures u[x].prnt == NULL && u[x].nextSib == NULL && u[x].prevSib == NULL
  {
    if i > 0 {
      assert ks[i - 1] in ks;
    }
    if i + 1 < |ks| {
      assert ks[i + 1] in ks;
    }
  }

  lemma DetachedKids(f: Forest, p: int, x: int)
    requires p in f.parent
    ensures Kids(Detach(f, p), x) == if x == f.parent[p] then Without(Kids(f, x), {p}) else Kids(f, x)
  {
  }

  /** Siblings in a list from which position `i` has been cut. */
  lemma CutSiblings(ks: seq<int>, i: nat, j: nat)
    requires i < |ks| && j < |Cut(ks, i)|
    ensures var k := if j < i then j else j + 1; var r := Cut(ks, i);
            && r[j] == ks[k]
            && NextSibling(r, j) == (if k + 1 == i then NextSibling(ks, i) else NextSibling(ks, k))
            && PrevSibling(r, j) == (if k == i + 1 then PrevSibling(ks, i) else PrevSibling(ks, k))
  {
  }

  lemma RemovedSiblings(t: Table, u: Table, q: int, ks: seq<int>, i: nat)
    requires 0 <= q < |t| && Siblings(t, q, ks) && NoDup(ks) && i < |ks| && Removed(t, u, q, ks, i)
    ensures Siblings(u, q, Cut(ks, i))
  {
    var r := Cut(ks, i);
    forall j | 0 <= j < |r|
      ensures 0 <= r[j] < |u| && u[r[j]].prnt == q && u[r[j]].nextSib == NextSibling(r, j) && u[r[j]].prevSib == PrevSibling(r, j)
    {
      CutSiblings(ks, i, j);
      RemovedAt(t, u, q, ks, i, if j < i then j else j + 1);
    }
  }

  lemma RemovedAt(t: Table, u: Table, q: int, ks: seq<int>, i: nat, k: nat)
    requires 0 <= q < |t| && Siblings(t, q, ks) && NoDup(ks) && i < |ks| && k < |ks| && k != i && Removed(t, u, q, ks, i)
    ensures 0 <= ks[k] < |u| && u[ks[k]].prnt == q
    ensures u[ks[k]].nextSib == if k + 1 == i then NextSibling(ks, i) else NextSibling(ks, k)
    ensures u[ks[k]].prevSib == if k == i + 1 then PrevSibling(ks, i) else PrevSibling(ks, k)
  {
    assert ks[k] != ks[i];
    assert ks[k] == PrevSibling(ks, i) <==> k + 1 == i;
    assert ks[k] == NextSibling(ks, i) <==> k == i + 1;
  }

  lemma UnrelatedSiblings(t: Table, u: Table, f: Forest, p: int, x: int)
    requires ForestOk(f) && p in f.parent && 0 <= x < |t| && x != f.parent[p]
    requires Siblings(t, x, Kids(f, x)) && Removed(t, u, f.parent[p], Kids(f, f.parent[p]), Rank(f, p))
    ensures Siblings(u, x, Kids(f, x))
  {
    var sibs := Kids(f, f.parent[p]);
    var i := Rank(f, p);
    forall c | c in Kids(f, x) && c >= 0
      ensures c != p && c != NextSibling(sibs, i) && c != PrevSibling(sibs, i)
    {
      IsListed(f, x, c);
      IsListed(f, f.parent[p], c);
      assert c !in sibs;
      if i > 0 {
        assert sibs[i - 1] in sibs;
      }
      if i + 1 < |sibs| {
        assert sibs[i + 1] in sibs;
      }
      IsListed(f, f.parent[p], p);
    }
    SiblingsFrame(t, u, x, Kids(f, x));
  }

  // ---- outChild as written -----------------------------------------------------------------

  /** Stores of unlinkChild: p_prev_sib is cleared before it is copied to the next sibling. */
  function UnlinkedChild(t: Table, p: int): Table
    requires 0 <= p < |t|
  {
    var t1 := t[p := t[p].(prnt := NULL)];
    var a := t1[p].prevSib;
    var t2 := if 0 <= a < |t| then ClearPrevSib(t1[a := t1[a].(nextSib := t1[p].nextSib)], p) else t1;
    var b := t2[p].nextSib;
    if 0 <= b < |t| then ClearNextSib(t2[b := t2[b].(prevSib := t2[p].prevSib)], p) else t2
  }

  function ClearPrevSib(t: Table, p: int): Table {
    if 0 <= p < |t| then t[p := t[p].(prevSib := NULL)] else t
  }

  function ClearNextSib(t: Table, p: int): Table {
    if 0 <= p < |t| then t[p := t[p].(nextSib := NULL)] else t
  }

  /** Stores of outChild for a process with a parent. */
  function OutChildStores(t: Table, p: int): Table
    requires 0 <= p < |t|
  {
    var q := t[p].prnt;
    var t1 := if 0 <= q < |t| && t[q].child == p then t[q := t[q].(child := t[p].prevSib)] else t;
    UnlinkedChild(t1, p)
  }

  /** Slot by slot: a later sibling loses its back link, and a first child takes the whole list along. */
  ghost predicate OutChildEffect(t: Table, u: Table, q: int, ks: seq<int>, i: nat, x: int)
    requires i < |ks| && 0 <= x < |t|
  {
    var p := ks[i];
    && |u| == |t|
    && u[x] == t[x].(
         prnt := if x == p then NULL else t[x].prnt,
         nextSib := if x == p then NULL else if x == PrevSibling(ks, i) then NextSibling(ks, i) else t[x].nextSib,
         prevSib := if x == p then NULL else if x == NextSibling(ks, i) then NULL else t[x].prevSib,
         child := if x == q && i == 0 then NULL else t[x].child)
  }

  lemma UnlinkedChildAt(t: Table, p: int, x: int)
    requires 0 <= p < |t| && 0 <= x < |t|
    requires var a := t[p].prevSib; var b := t[p].nextSib;
             a != p && b != p && (a == b ==> a == NULL) && -1 <= a < |t| && -1 <= b < |t|
    ensures var a := t[p].prevSib; var b := t[p].nextSib; var u := UnlinkedChild(t, p);
            && |u| == |t|
            && u[x] == t[x].(
                 prnt := if x == p then NULL else t[x].prnt,
                 nextSib := if x == p then NULL else if x == a then b else t[x].nextSib,
                 prevSib := if x == p then NULL else if x == b then NULL else t[x].prevSib)
  {
  }

  lemma OutChildAt(t: Table, q: int, ks: seq<int>, i: nat, x: int)
    requires 0 <= q < |t| && 0 <= x < |t| && Siblings(t, q, ks) && NoDup(ks) && i < |ks| && ks[i] != q
    ensures OutChildEffect(t, OutChildStores(t, ks[i]), q, ks, i, x)
  {
    var p := ks[i];
    assert i == 0 <==> t[q].child == p;
    if i > 0 {
      assert 0 <= ks[i - 1] < |t| && ks[i - 1] != p;
    }
    if i + 1 < |ks| {
      assert 0 <= ks[i + 1] < |t| && ks[i + 1] != p;
    }
    var t1 := if t[q].child == p then t[q := t[q].(child := t[p].prevSib)] else t;
    assert t1[p] == t[p] && t[p].prnt == q;
    UnlinkedChildAt(t1, p, x);
  }

  /** Stores of removeChild for the first child `c` of `q`. */
  function RemoveChildStores(t: Table, q: int, c: int): Table
    requires 0 <= q < |t| && 0 <= c < |t|
  {
    UnlinkedChild(t[q := t[q].(child := t[c].nextSib)], c)
  }

  /** removeChild unlinks a first child properly: it has no previous sibling to lose. */
  lemma RemoveChildDetaches(t: Table, f: Forest, q: int)
    requires ForestOk(f) && TreeIs(t, f) && 0 <= q < |t| && Kids(f, q) != []
    ensures var c := Kids(f, q)[0];
            && 0 <= c < |t| && c == t[q].child && c != q && c in f.parent && f.parent[c] == q
            && TreeIs(RemoveChildStores(t, q, c), Detach(f, c))
            && TreeLinksOnly(t, RemoveChildStores(t, q, c))
  {
    var ks := Kids(f, q);
    var c := ks[0];
    IsListed(f, q, c);
    ChildLinks(t, f, c);
    NotOwnParent(f, c);
    assert c in ks;
    assert Rank(f, c) == 0 by {
      var i := Rank(f, c);
      assert ks[i] == c;
    }
    if |ks| > 1 {
      assert 0 <= ks[1] < |t| && ks[1] != c;
    }
    FirstIsRemoved(t, q, ks);
    RemovedTree(t, RemoveChildStores(t, q, c), f, c);
  }

  lemma FirstIsRemoved(t: Table, q: int, ks: seq<int>)
    requires ks != [] && 0 <= q < |t| && Siblings(t, q, ks) && ks[0] != q && NoDup(ks)
    ensures 0 <= ks[0] < |t| && Removed(t, RemoveChildStores(t, q, ks[0]), q, ks, 0)
    ensures TreeLinksOnly(t, RemoveChildStores(t, q, ks[0]))
  {
    if |ks| > 1 {
      assert 0 <= ks[1] < |t| && ks[1] != ks[0];
    }
    assert t[ks[0]].nextSib == NextSibling(ks, 0) && t[ks[0]].prevSib == NULL;
  }

  predicate LastSibling(t: Table, p: int)
    requires 0 <= p < |t|
  {
    t[p].nextSib == NULL
  }

  /** outChild removes `p` from its parent's children if and only if `p` is the last of them. */
  lemma OutChildRemovesLast(t: Table, f: Forest, p: int)
    requires ForestOk(f) && TreeIs(t, f) && p in f.parent
    ensures 0 <= p < |t|
    ensures TreeIs(OutChildStores(t, p), Detach(f, p)) <==> LastSibling(t, p)
    ensures TreeLinksOnly(t, OutChildStores(t, p))
  {
    ChildLinks(t, f, p);
    NotOwnParent(f, p);
    var q := f.parent[p];
    var ks := Kids(f, q);
    var i := Rank(f, p);
    assert Siblings(t, q, ks);
    OutChildSlots(t, q, ks, i);
    DetachedKids(f, p, q);
    WithoutOne(ks, i);
    if i + 1 == |ks| {
      RemovedTree(t, OutChildStores(t, p), f, p);
    }
  }

  /** The stores remove the last of a list of children properly, and break the list otherwise. */
  lemma OutChildSlots(t: Table, q: int, ks: seq<int>, i: nat)
    requires 0 <= q < |t| && Siblings(t, q, ks) && NoDup(ks) && i < |ks| && ks[i] != q
    ensures 0 <= ks[i] < |t|
    ensures var u := OutChildStores(t, ks[i]);
            && TreeLinksOnly(t, u)
            && (i + 1 == |ks| ==> LastSibling(t, ks[i]) && Removed(t, u, q, ks, i))
            && (i + 1 < |ks| ==> !LastSibling(t, ks[i]) && !Siblings(u, q, Cut(ks, i)))
  {
    var u := OutChildStores(t, ks[i]);
    forall x | 0 <= x < |t|
      ensures |u| == |t| && OutChildEffect(t, u, q, ks, i, x)
    {
      OutChildAt(t, q, ks, i, x);
    }
    EffectIsLocal(t, u, q, ks, i);
    if i + 1 == |ks| {
      LastIsRemoved(t, u, q, ks, i);
    } else {
      assert OutChildEffect(t, u, q, ks, i, q);
      assert OutChildEffect(t, u, q, ks, i, ks[i + 1]);
      LostSibling(u, q, ks, i);
    }
  }

  lemma EffectIsLocal(t: Table, u: Table, q: int, ks: seq<int>, i: nat)
    requires i < |ks| && |u| == |t|
    requires forall x :: 0 <= x < |t| ==> OutChildEffect(t, u, q, ks, i, x)
    ensures TreeLinksOnly(t, u)
  {
    forall x | 0 <= x < |t|
      ensures u[x] == t[x].(prnt := u[x].prnt, child := u[x].child, nextSib := u[x].nextSib, prevSib := u[x].prevSib)
    {
      assert OutChildEffect(t, u, q, ks, i, x);
    }
  }

  lemma NotOwnParent(f: Forest, p: int)
    requires ForestOk(f) && p in f.parent
    ensures f.parent[p] != p
  {
  }

  lemma LastIsRemoved(t: Table, u: Table, q: int, ks: seq<int>, i: nat)
    requires i + 1 == |ks|
    requires forall x :: 0 <= x < |t| ==> OutChildEffect(t, u, q, ks, i, x)
    requires |u| == |t|
    ensures Removed(t, u, q, ks, i)
  {
    forall x | 0 <= x < |t|
      ensures u[x].prnt == (if x == ks[i] then NULL else t[x].prnt)
      ensures u[x].nextSib == (if x == ks[i] then NULL else if x == PrevSibling(ks, i) then NextSibling(ks, i) else t[x].nextSib)
      ensures u[x].prevSib == (if x == ks[i] then NULL else if x == NextSibling(ks, i) then PrevSibling(ks, i) else t[x].prevSib)
      ensures u[x].child == (if x == q && i == 0 then NextSibling(ks, 0) else t[x].child)
    {
      assert OutChildEffect(t, u, q, ks, i, x);
    }
  }

  /** With a later sibling, the list that is left is not the list without `p`. */
  lemma LostSibling(u: Table, q: int, ks: seq<int>, i: nat)
    requires 0 <= q < |u| && i + 1 < |ks| && 0 <= ks[i + 1] < |u|
    requires InTable(u, ks)
    requires i == 0 ==> u[q].child == NULL
    requires u[ks[i + 1]].prevSib == NULL
    ensures !Siblings(u, q, Cut(ks, i))
  {
    var r := Cut(ks, i);
    assert r[i] == ks[i + 1];
    if i > 0 {
      assert PrevSibling(r, i) == ks[i - 1] >= 0;
    }
  }

  // ---- A family that outChild damages, and a repair ------------------------------------------

  function Child(child: int, prnt: int, next: int, prev: int): Pcb {
    Pcb(NULL, NULL, prnt, child, next, prev, 0, 0)
  }

  /** Process 0 with the children 1 and 2. */
  function Family(): Table {
    [Child(1, NULL, NULL, NULL), Child(NULL, 0, 2, NULL), Child(NULL, 0, NULL, 1)]
  }

  function FamilyForest(): Forest {
    Forest(map[1 := 0, 2 := 0], map[0 := [1, 2]], map[1 := 1, 2 := 2], 2)
  }

  /** Removing the elder child makes its parent childless, although 2 still names it as parent. */
  lemma OutChildLosesSibling()
    ensures ForestOk(FamilyForest()) && TreeIs(Family(), FamilyForest())
    ensures var u := OutChildStores(Family(), 1);
            && u[0].child == NULL && u[2].prnt == 0
            && Kids(Detach(FamilyForest(), 1), 0) == [2] && !TreeIs(u, Detach(FamilyForest(), 1))
  {
    FamilyIsForest();
    FamilyIsTree();
    FamilyWithoutElder();
    var u := OutChildStores(Family(), 1);
    assert |u| == 3 && u[0].child == NULL;
    assert !Siblings(u, 0, [2]);
  }

  lemma FamilyWithoutElder()
    ensures Kids(Detach(FamilyForest(), 1), 0) == [2]
  {
    assert Without([1, 2], {1}) == [2] by {
      assert [1, 2][1..] == [2];
    }
  }

  lemma FamilyIsTree()
    ensures TreeIs(Family(), FamilyForest())
  {
    var f := FamilyForest();
    var t := Family();
    assert Kids(f, 0) == [1, 2] && Kids(f, 1) == [] && Kids(f, 2) == [];
    assert Siblings(t, 0, [1, 2]);
    assert Siblings(t, 1, []) && Siblings(t, 2, []);
  }

  lemma FamilyIsForest()
    ensures ForestOk(FamilyForest())
  {
    var f := FamilyForest();
    forall p
      ensures Kids(f, p) == (if p == 0 then [1, 2] else []) && Birth(f, p) <= 2
    {
    }
  }

  /** outChild with the next sibling as new first child, and p_prev_sib read before it is cleared. */
  function RepairedStores(t: Table, p: int): Table
    requires 0 <= p < |t|
  {
    var q := t[p].prnt;
    var t1 := if 0 <= q < |t| && t[q].child == p then t[q := t[q].(child := t[p].nextSib)] else t;
    var t2 := t1[p := t1[p].(prnt := NULL)];
    var a := t2[p].prevSib;
    var t3 := if 0 <= a < |t| then t2[a := t2[a].(nextSib := t2[p].nextSib)] else t2;
    var b := t3[p].nextSib;
    var t4 := if 0 <= b < |t| then t3[b := t3[b].(prevSib := t3[p].prevSib)] else t3;
    t4[p := t4[p].(prevSib := NULL, nextSib := NULL)]
  }

  lemma RepairedAt(t: Table, q: int, ks: seq<int>, i: nat, x: int)
    requires 0 <= q < |t| && 0 <= x < |t| && Siblings(t, q, ks) && NoDup(ks) && i < |ks| && ks[i] != q
    ensures var u := RepairedStores(t, ks[i]); var p := ks[i];
            && |u| == |t|
            && u[x] == t[x].(
                 prnt := if x == p then NULL else t[x].prnt,
                 nextSib := if x == p then NULL else if x == PrevSibling(ks, i) then NextSibling(ks, i) else t[x].nextSib,
                 prevSib := if x == p then NULL else if x == NextSibling(ks, i) then PrevSibling(ks, i) else t[x].prevSib,
                 child := if x == q && i == 0 then NextSibling(ks, 0) else t[x].child)
  {
    var p := ks[i];
    assert i == 0 <==> t[q].child == p;
    if i > 0 {
      assert 0 <= ks[i - 1] < |t| && ks[i - 1] != p;
    }
    if i + 1 < |ks| {
      assert 0 <= ks[i + 1] < |t| && ks[i + 1] != p;
    }
    if 0 < i && i + 1 < |ks| {
      assert ks[i - 1] != ks[i + 1];
    }
    var t1 := if t[q].child == p then t[q := t[q].(child := t[p].nextSib)] else t;
    assert t[p].prnt == q && t1[p] == t[p];
  }

  /** Those two lines are enough: the repaired outChild removes a child at any position. */
  lemma RepairedDetaches(t: Table, f: Forest, p: int)
    requires ForestOk(f) && TreeIs(t, f) && p in f.parent
    ensures 0 <= p < |t| && TreeIs(RepairedStores(t, p), Detach(f, p))
  {
    ChildLinks(t, f, p);
    NotOwnParent(f, p);
    var q := f.parent[p];
    var ks := Kids(f, q);
    assert Siblings(t, q, ks);
    var u := RepairedStores(t, p);
    var i := Rank(f, p);
    forall x | 0 <= x < |t|
      ensures |u| == |t|
      ensures u[x].prnt == (if x == p then NULL else t[x].prnt)
      ensures u[x].nextSib == (if x == p then NULL else if x == PrevSibling(ks, i) then NextSibling(ks, i) else t[x].nextSib)
      ensures u[x].prevSib == (if x == p then NULL else if x == NextSibling(ks, i) then PrevSibling(ks, i) else t[x].prevSib)
      ensures u[x].child == (if x == q && i == 0 then NextSibling(ks, 0) else t[x].child)
    {
      RepairedAt(t, q, ks, i, x);
    }
    RemovedTree(t, u, f, p);
  }
}
