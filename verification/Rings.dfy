// The PCB table and the pointer structures threaded through it. A pcb_t pointer is
// the number of its slot in pcbFree_table; NULL is -1.
module Rings {
  import Seqs
  import Queues

  datatype Pcb = Pcb(
    next: int, prev: int,                                  // process queue links
    prnt: int, child: int, nextSib: int, prevSib: int,     // process tree links
    semAdd: int,                                           // semaphore it is blocked on, 0 for NULL
    v0: int)                                               // result register

  type Table = seq<Pcb>

  function Head(q: seq<int>): int {
    if q == [] then Queues.NULL else q[0]
  }

  function Tail(q: seq<int>): int {
    if q == [] then Queues.NULL else q[|q| - 1]
  }

  function After(q: seq<int>, i: nat): int
    requires i < |q|
  {
    if i + 1 < |q| then q[i + 1] else q[0]
  }

  function Before(q: seq<int>, i: nat): int
    requires i < |q|
  {
    if i > 0 then q[i - 1] else q[|q| - 1]
  }

  ghost predicate InTable(t: Table, q: seq<int>) {
    forall i :: 0 <= i < |q| ==> 0 <= q[i] < |t|
  }

  /** The slots of `q`, in this order, form a circular doubly linked list. */
  ghost predicate Ring(t: Table, q: seq<int>) {
    && InTable(t, q) && Seqs.NoDup(q)
    && (forall i :: 0 <= i < |q| ==> t[q[i]].next == After(q, i) && t[q[i]].prev == Before(q, i))
  }

  /** Next and previous links are inverse to each other all around the ring. */
  lemma RingLinksInverse(t: Table, q: seq<int>, p: int)
    requires Ring(t, q) && p in q
    ensures 0 <= p < |t| && t[p].next in q && t[p].prev in q
    ensures t[t[p].next].prev == p && t[t[p].prev].next == p
  {
    var i :| 0 <= i < |q| && q[i] == p;
    var j := if i + 1 < |q| then i + 1 else 0;
    var k := if i > 0 then i - 1 else |q| - 1;
    assert t[q[j]].prev == Before(q, j) && t[q[k]].next == After(q, k);
  }

  // ---- Single stores ------------------------------------------------------------------

  function NextOf(t: Table, p: int): int {
    if 0 <= p < |t| then t[p].next else Queues.NULL
  }

  function PrevOf(t: Table, p: int): int {
    if 0 <= p < |t| then t[p].prev else Queues.NULL
  }

  function WithNext(t: Table, p: int, v: int): Table {
    if 0 <= p < |t| then t[p := t[p].(next := v)] else t
  }

  function WithPrev(t: Table, p: int, v: int): Table {
    if 0 <= p < |t| then t[p := t[p].(prev := v)] else t
  }

  /** `u` differs from `t` only in the queue links of the slots in `d`. */
  ghost predicate LinksOnly(t: Table, u: Table, d: set<int>) {
    && |u| == |t|
    && (forall x :: 0 <= x < |t| && x !in d ==> u[x] == t[x])
    && (forall x :: 0 <= x < |t| ==> u[x] == t[x].(next := u[x].next, prev := u[x].prev))
  }

  /** A ring that shares no slot with the changed ones stays a ring. */
  lemma RingFrame(t: Table, u: Table, d: set<int>, q: seq<int>)
    requires Ring(t, q) && |u| == |t|
    requires forall x :: 0 <= x < |t| && x !in d ==> u[x].next == t[x].next && u[x].prev == t[x].prev
    requires forall x :: x in q ==> x !in d
    ensures Ring(u, q)
  {
    forall i | 0 <= i < |q|
      ensures u[q[i]].next == After(q, i) && u[q[i]].prev == Before(q, i)
    {
      var x := q[i];
      assert x in q;
    }
  }

  // ---- Appending and unlinking ----------------------------------------------------------

  /** Stores of insertProcQ on a non-empty queue, and of freePcb on a non-empty free list. */
  function Linked(t: Table, p: int, last: int, first: int): Table {
    WithPrev(WithNext(WithNext(WithPrev(t, p, last), p, first), last, p), first, p)
  }

  lemma LinkedAt(t: Table, p: int, last: int, first: int, x: int)
    requires 0 <= p < |t| && 0 <= last < |t| && 0 <= first < |t| && p != last && p != first && 0 <= x < |t|
    ensures var u := Linked(t, p, last, first);
            && |u| == |t|
            && u[x] == t[x].(next := if x == last then p else if x == p then first else t[x].next,
                             prev := if x == first then p else if x == p then last else t[x].prev)
  {
  }

  lemma LinkedRing(t: Table, q: seq<int>, p: int)
    requires Ring(t, q) && q != [] && 0 <= p < |t| && p !in q
    ensures Ring(Linked(t, p, Tail(q), Head(q)), q + [p])
    ensures LinksOnly(t, Linked(t, p, Tail(q), Head(q)), Seqs.Elems(q) + {p})
  {
    var u := Linked(t, p, Tail(q), Head(q));
    assert q[0] in q && q[|q| - 1] in q;
    forall x | 0 <= x < |t|
      ensures |u| == |t|
      ensures u[x] == t[x].(next := if x == Tail(q) then p else if x == p then Head(q) else t[x].next,
                            prev := if x == Head(q) then p else if x == p then Tail(q) else t[x].prev)
    {
      LinkedAt(t, p, Tail(q), Head(q), x);
    }
    LongerRing(t, u, q, p);
  }

  lemma LongerRing(t: Table, u: Table, q: seq<int>, p: int)
    requires Ring(t, q) && q != [] && 0 <= p < |t| && p !in q && |u| == |t|
    requires forall x :: 0 <= x < |t| ==>
               && u[x].next == (if x == Tail(q) then p else if x == p then Head(q) else t[x].next)
               && u[x].prev == (if x == Head(q) then p else if x == p then Tail(q) else t[x].prev)
    ensures Ring(u, q + [p])
  {
    var r := q + [p];
    forall i | 0 <= i < |r|
      ensures 0 <= r[i] < |t| && u[r[i]].next == After(r, i) && u[r[i]].prev == Before(r, i)
    {
      assert InTable(t, q);
      LongerRingAt(t, u, q, p, i);
    }
  }

  lemma LongerRingAt(t: Table, u: Table, q: seq<int>, p: int, i: nat)
    requires Ring(t, q) && q != [] && i <= |q| && 0 <= p < |t| && p !in q && |u| == |t|
    requires var x := (q + [p])[i]; 0 <= x < |t| ==>
               && u[x].next == (if x == Tail(q) then p else if x == p then Head(q) else t[x].next)
               && u[x].prev == (if x == Head(q) then p else if x == p then Tail(q) else t[x].prev)
    ensures var r := q + [p]; 0 <= r[i] < |t| && u[r[i]].next == After(r, i) && u[r[i]].prev == Before(r, i)
  {
    assert q[0] in q && q[|q| - 1] in q;
    if i < |q| {
      var x := q[i];
      assert x in q && x != p;
      assert x == Tail(q) <==> i == |q| - 1;
      assert x == Head(q) <==> i == 0;
      assert t[x].next == After(q, i) && t[x].prev == Before(q, i);
    }
  }

  /** Stores of unlinkPCB. */
  function Unlinked(t: Table, p: int): Table {
    var t1 := WithNext(t, PrevOf(t, p), NextOf(t, p));
    var t2 := WithPrev(t1, NextOf(t1, p), PrevOf(t1, p));
    WithNext(WithPrev(t2, p, Queues.NULL), p, Queues.NULL)
  }

  function Cut(q: seq<int>, i: nat): seq<int>
    requires i < |q|
  {
    q[..i] + q[i + 1..]
  }

  lemma UnlinkedAt(t: Table, p: int, x: int)
    requires 0 <= p < |t| && 0 <= x < |t|
    requires var a := t[p].prev; var b := t[p].next; 0 <= a < |t| && 0 <= b < |t| && (a == p <==> b == p)
    ensures var u := Unlinked(t, p); var a := t[p].prev; var b := t[p].next;
            && |u| == |t|
            && u[x] == t[x].(next := if x == p then Queues.NULL else if x == a then b else t[x].next,
                             prev := if x == p then Queues.NULL else if x == b then a else t[x].prev)
  {
  }

  /** Neighbours in a queue from which position `i` has been cut. */
  lemma CutNeighbours(q: seq<int>, i: nat, j: nat)
    requires Seqs.NoDup(q) && i < |q| && j < |Cut(q, i)|
    ensures var k := if j < i then j else j + 1; var r := Cut(q, i);
            && r[j] == q[k] && q[k] != q[i]
            && After(r, j) == (if q[k] == Before(q, i) then After(q, i) else After(q, k))
            && Before(r, j) == (if q[k] == After(q, i) then Before(q, i) else Before(q, k))
  {
  }

  lemma UnlinkedRing(t: Table, q: seq<int>, i: nat)
    requires Ring(t, q) && i < |q|
    ensures Ring(Unlinked(t, q[i]), Cut(q, i))
    ensures LinksOnly(t, Unlinked(t, q[i]), Seqs.Elems(q))
  {
    var p := q[i];
    var u := Unlinked(t, p);
    var a := Before(q, i);
    var b := After(q, i);
    assert t[p].next == b && t[p].prev == a;
    assert p in q && a in q && b in q;
    forall x | 0 <= x < |t|
      ensures u[x] == t[x].(next := if x == p then Queues.NULL else if x == a then b else t[x].next,
                            prev := if x == p then Queues.NULL else if x == b then a else t[x].prev)
      ensures |u| == |t|
    {
      UnlinkedAt(t, p, x);
    }
    CutRing(t, u, q, i);
  }

  lemma CutRing(t: Table, u: Table, q: seq<int>, i: nat)
    requires Ring(t, q) && i < |q| && |u| == |t|
    requires forall x :: 0 <= x < |t| && x != q[i] ==>
               && u[x].next == (if x == Before(q, i) then After(q, i) else t[x].next)
               && u[x].prev == (if x == After(q, i) then Before(q, i) else t[x].prev)
    ensures Ring(u, Cut(q, i))
  {
    var r := Cut(q, i);
    forall j | 0 <= j < |r|
      ensures u[r[j]].next == After(r, j) && u[r[j]].prev == Before(r, j)
    {
      CutNeighbours(q, i, j);
      var k := if j < i then j else j + 1;
      assert t[q[k]].next == After(q, k) && t[q[k]].prev == Before(q, k);
    }
  }
}
