// pcb.c: the PCB table, its free list, circular process queues with tail pointers,
// and the process tree, all updated in place.
module PcbCode {
  import opened Seqs
  import opened ForestSpec
  import opened Queues
  import opened Rings
  import opened Trees

  class PcbTable {
    const pcbs: array<Pcb>      // pcbFree_table
    var pcbFree: int            // pcbFree_h: head of the free list
    var processCount: int

    constructor (n: nat)
      ensures fresh(pcbs) && pcbs.Length == n && pcbFree == NULL && processCount == 0
      ensures forall i :: 0 <= i < n ==> pcbs[i] == Pcb(NULL, NULL, NULL, NULL, NULL, NULL, 0, 0)
    {
      pcbs := new Pcb[n](_ => Pcb(NULL, NULL, NULL, NULL, NULL, NULL, 0, 0));
      pcbFree, processCount := NULL, 0;
    }

    // ---- Stores --------------------------------------------------------------------

    method SetNext(p: int, v: int)
      requires 0 <= p < pcbs.Length
      modifies pcbs
      ensures pcbs[..] == WithNext(old(pcbs[..]), p, v)
    {
      pcbs[p] := pcbs[p].(next := v);
    }

    method SetPrev(p: int, v: int)
      requires 0 <= p < pcbs.Length
      modifies pcbs
      ensures pcbs[..] == WithPrev(old(pcbs[..]), p, v)
    {
      pcbs[p] := pcbs[p].(prev := v);
    }

    // ---- Free list -------------------------------------------------------------------

    method LinkSlots(i: int, j: int)
      requires 0 <= i < pcbs.Length && 0 <= j < pcbs.Length
      modifies pcbs
      ensures forall x :: 0 <= x < pcbs.Length ==>
                pcbs[x] == old(pcbs[x]).(next := if x == i then j else old(pcbs[x].next), prev := if x == j then i else old(pcbs[x].prev))
    {
      pcbs[i] := pcbs[i].(next := j);
      pcbs[j] := pcbs[j].(prev := i);
    }

    /** All slots, in table order, become the free list. */
    method InitPcbs()
      requires pcbs.Length > 0
      modifies this`pcbFree, pcbs
      ensures Ring(pcbs[..], Count(pcbs.Length)) && pcbFree == 0
      ensures forall x :: 0 <= x < pcbs.Length ==> pcbs[x] == old(pcbs[x]).(next := pcbs[x].next, prev := pcbs[x].prev)
    {
      pcbFree := 0;
      var n := pcbs.Length;
      for i := 0 to n
        invariant pcbFree == 0
        invariant forall x :: 0 <= x < n ==> pcbs[x] == Initialized(old(pcbs[x]), x, i, n)
      {
        WrapAround(i, n);
        LinkSlots(i, (i + 1) % n);
      }
      CountRing(pcbs[..]);
    }

    /** Put `p` at the end of the free list `q`; nothing happens for NULL. */
    method FreePcb(p: int, ghost q: seq<int>)
      requires Ring(pcbs[..], q) && pcbFree == Head(q) && (p == NULL || (0 <= p < pcbs.Length && p !in q))
      modifies this`pcbFree, this`processCount, pcbs
      ensures p == NULL ==> pcbs[..] == old(pcbs[..]) && pcbFree == Head(q) && processCount == old(processCount)
      ensures p != NULL ==>
                && Ring(pcbs[..], q + [p]) && pcbFree == Head(q + [p]) && processCount == old(processCount) - 1
                && LinksOnly(old(pcbs[..]), pcbs[..], Elems(q) + {p})
    {
      if p != NULL {
        AppendFree(p, q);
      }
    }

    method AppendFree(p: int, ghost q: seq<int>)
      requires Ring(pcbs[..], q) && pcbFree == Head(q) && 0 <= p < pcbs.Length && p !in q
      modifies this`pcbFree, this`processCount, pcbs
      ensures Ring(pcbs[..], q + [p]) && pcbFree == Head(q + [p])
      ensures LinksOnly(old(pcbs[..]), pcbs[..], Elems(q) + {p})
      ensures processCount == old(processCount) - 1
    {
      if pcbFree == NULL {
        pcbFree := p;
        pcbs[p] := pcbs[p].(next := p, prev := p);
        assert q + [p] == [p];
      } else {
        LinkedRing(pcbs[..], q, p);
        ghost var t := pcbs[..];
        var first := pcbFree;
        pcbs[p] := pcbs[p].(next := first);
        var last := pcbs[first].prev;
        pcbs[p] := pcbs[p].(prev := last);
        pcbs[first] := pcbs[first].(prev := p);
        pcbs[last] := pcbs[last].(next := p);
        SameLinks(t, pcbs[..], p, Tail(q), Head(q));
      }
      processCount := processCount - 1;
    }

    /** Take the first free slot; NULL when there is none. p_semAdd and the state are left as they are. */
    method AllocPcb(ghost q: seq<int>) returns (p: int)
      requires Ring(pcbs[..], q) && pcbFree == Head(q)
      modifies this`pcbFree, this`processCount, pcbs
      ensures p == Head(q)
      ensures q == [] ==> pcbs[..] == old(pcbs[..]) && processCount == old(processCount) && pcbFree == NULL
      ensures q != [] ==>
                && Ring(pcbs[..], q[1..]) && pcbFree == Head(q[1..]) && processCount == old(processCount) + 1
                && Allocated(old(pcbs[..]), pcbs[..], q)
    {
      if pcbFree == NULL {
        return NULL;
      }
      p := pcbFree;
      UnlinkFirstFree(q);
      ghost var t := pcbs[..];
      pcbs[p] := pcbs[p].(prev := NULL, next := NULL, child := NULL, prnt := NULL, nextSib := NULL, prevSib := NULL);
      processCount := processCount + 1;
      ClearedSlot(old(pcbs[..]), t, pcbs[..], q);
    }

    method UnlinkFirstFree(ghost q: seq<int>)
      requires Ring(pcbs[..], q) && pcbFree == Head(q) && q != []
      modifies this`pcbFree, pcbs
      ensures Ring(pcbs[..], q[1..]) && pcbFree == Head(q[1..])
      ensures LinksOnly(old(pcbs[..]), pcbs[..], Elems(q))
    {
      var p := pcbFree;
      assert Cut(q, 0) == q[1..] && pcbs[p].next == After(q, 0);
      if pcbs[p].next != pcbFree {
        pcbFree := pcbs[p].next;
      } else {
        pcbFree := NULL;
      }
      UnlinkPcb(p, q, 0);
    }

    // ---- Process queues -----------------------------------------------------------------

    /** Unlink the member at position `i` of ring `q`. */
    method UnlinkPcb(p: int, ghost q: seq<int>, ghost i: nat)
      requires Ring(pcbs[..], q) && i < |q| && q[i] == p
      modifies pcbs
      ensures pcbs[..] == Unlinked(old(pcbs[..]), p)
      ensures Ring(pcbs[..], Cut(q, i)) && LinksOnly(old(pcbs[..]), pcbs[..], Elems(q))
    {
      UnlinkedRing(pcbs[..], q, i);
      assert pcbs[p].next == After(q, i) && pcbs[p].prev == Before(q, i);
      SetNext(pcbs[p].prev, pcbs[p].next);
      SetPrev(pcbs[p].next, pcbs[p].prev);
      SetPrev(p, NULL);
      SetNext(p, NULL);
    }

    /** Append `p` to the queue `q` with tail pointer `tp`; returns the new tail pointer. */
    method InsertProcQ(tp: int, p: int, ghost q: seq<int>) returns (tail: int)
      requires Ring(pcbs[..], q) && tp == Tail(q) && 0 <= p < pcbs.Length && p !in q
      modifies pcbs
      ensures Ring(pcbs[..], q + [p]) && tail == Tail(q + [p])
      ensures LinksOnly(old(pcbs[..]), pcbs[..], Elems(q) + {p})
    {
      if tp == NULL {
        pcbs[p] := pcbs[p].(prev := p, next := p);
        assert q + [p] == [p];
      } else {
        LinkedRing(pcbs[..], q, p);
        SetPrev(p, tp);
        var first := pcbs[tp].next;
        SetNext(p, first);
        SetNext(tp, p);
        SetPrev(first, p);
      }
      tail := p;
    }

    /** The oldest member. */
    method HeadProcQ(tp: int, ghost q: seq<int>) returns (p: int)
      requires Ring(pcbs[..], q) && tp == Tail(q)
      ensures p == Head(q)
    {
      if tp == NULL {
        return NULL;
      }
      p := pcbs[tp].next;
    }

    /** Take the oldest member out; NULL if there is none. */
    method RemoveProcQ(tp: int, ghost q: seq<int>) returns (tail: int, p: int)
      requires Ring(pcbs[..], q) && tp == Tail(q)
      modifies pcbs
      ensures p == Head(q)
      ensures q == [] ==> pcbs[..] == old(pcbs[..]) && tail == NULL
      ensures q != [] ==> Ring(pcbs[..], q[1..]) && tail == Tail(q[1..]) && LinksOnly(old(pcbs[..]), pcbs[..], Elems(q))
    {
      if tp == NULL {
        return NULL, NULL;
      }
      p := HeadProcQ(tp, q);
      tail := if p == tp then NULL else tp;
      assert Cut(q, 0) == q[1..];
      UnlinkPcb(p, q, 0);
    }

    /** Take `p` out of the queue wherever it is, the others keeping their order; NULL if it is not there. */
    method OutProcQ(tp: int, p: int, ghost q: seq<int>) returns (tail: int, r: int)
      requires Ring(pcbs[..], q) && tp == Tail(q)
      modifies pcbs
      ensures p !in q ==> r == NULL && tail == tp && pcbs[..] == old(pcbs[..])
      ensures p in q ==> r == p && Ring(pcbs[..], Without(q, {p})) && tail == Tail(Without(q, {p}))
                         && LinksOnly(old(pcbs[..]), pcbs[..], Elems(q))
    {
      if tp == NULL {
        return NULL, NULL;
      }
      ghost var last := |q| - 1;
      if tp == p {
        tail := if tp != pcbs[tp].prev then pcbs[tp].prev else NULL;
        assert q[last] == p && pcbs[p].prev == Before(q, last);
        CutTail(q, last);
        UnlinkPcb(p, q, last);
        return tail, p;
      }
      tail := tp;
      var iter := pcbs[tp].next;
      ghost var k := 0;
      while true
        invariant 0 <= k < |q| && iter == q[k] && tail == tp
        invariant k < last || last == 0
        invariant forall j :: 0 <= j < k ==> q[j] != p
        invariant pcbs[..] == old(pcbs[..])
        decreases |q| - k
      {
        if iter == p {
          CutTail(q, k);
          UnlinkPcb(iter, q, k);
          return tail, iter;
        }
        assert pcbs[q[k]].next == After(q, k);
        iter := pcbs[iter].next;
        if iter == tp {
          break;
        }
        k := k + 1;
      }
      r := NULL;
    }

    // ---- Process tree ---------------------------------------------------------------------

    /** Make `p` the last child of `prnt`. */
    method InsertChild(prnt: int, p: int, ghost f: Forest)
      requires ForestOk(f) && TreeIs(pcbs[..], f)
      requires 0 <= prnt < pcbs.Length && 0 <= p < pcbs.Length && p != prnt && p !in f.parent
      modifies pcbs
      ensures TreeIs(pcbs[..], Adopt(f, prnt, p)) && TreeLinksOnly(old(pcbs[..]), pcbs[..])
    {
      ghost var t := pcbs[..];
      NotListed(f, prnt, p);
      assert Siblings(t, prnt, Kids(f, prnt));
      AppendChild(prnt, p, Kids(f, prnt));
      AppendedTree(t, pcbs[..], f, prnt, p);
    }

    method AppendChild(prnt: int, p: int, ghost ks: seq<int>)
      requires 0 <= prnt < pcbs.Length && 0 <= p < pcbs.Length && p != prnt
      requires Siblings(pcbs[..], prnt, ks) && p !in ks
      modifies pcbs
      ensures Appended(old(pcbs[..]), pcbs[..], prnt, p, ks) && TreeLinksOnly(old(pcbs[..]), pcbs[..])
    {
      ghost var t := pcbs[..];
      pcbs[p] := pcbs[p].(prnt := prnt, nextSib := NULL);
      if pcbs[prnt].child == NULL {
        pcbs[prnt] := pcbs[prnt].(child := p);
        pcbs[p] := pcbs[p].(prevSib := NULL);
      } else {
        var iter := LastChild(prnt, p, ks, t);
        assert iter in ks;
        pcbs[iter] := pcbs[iter].(nextSib := p);
        pcbs[p] := pcbs[p].(prevSib := iter);
      }
    }

    /** Walk to the end of a non-empty list of children. */
    method LastChild(prnt: int, ghost p: int, ghost ks: seq<int>, ghost t: Table) returns (iter: int)
      requires 0 <= prnt < pcbs.Length && |t| == pcbs.Length && Siblings(t, prnt, ks) && ks != []
      requires p !in ks && pcbs[prnt].child == t[prnt].child
      requires forall x :: 0 <= x < pcbs.Length && x != p ==> pcbs[x].nextSib == t[x].nextSib
      ensures iter == Tail(ks)
    {
      iter := pcbs[prnt].child;
      ghost var i := 0;
      assert ks[0] in ks;
      while pcbs[iter].nextSib != NULL
        invariant 0 <= i < |ks| && iter == ks[i] && iter != p
        decreases |ks| - i
      {
        assert t[ks[i]].nextSib == NextSibling(ks, i);
        iter := pcbs[iter].nextSib;
        i := i + 1;
        assert ks[i] in ks;
      }
      assert t[ks[i]].nextSib == NextSibling(ks, i);
      if i + 1 < |ks| {
        assert false;
      }
    }

    method UnlinkChild(p: int)
      requires 0 <= p < pcbs.Length
      requires pcbs[p].prevSib == NULL || 0 <= pcbs[p].prevSib < pcbs.Length
      requires pcbs[p].nextSib == NULL || 0 <= pcbs[p].nextSib < pcbs.Length
      requires pcbs[p].prevSib != p && pcbs[p].nextSib != p
      modifies pcbs
      ensures pcbs[..] == UnlinkedChild(old(pcbs[..]), p)
    {
      pcbs[p] := pcbs[p].(prnt := NULL);
      if pcbs[p].prevSib != NULL {
        var a := pcbs[p].prevSib;
        pcbs[a] := pcbs[a].(nextSib := pcbs[p].nextSib);
        pcbs[p] := pcbs[p].(prevSib := NULL);
      }
      if pcbs[p].nextSib != NULL {
        var b := pcbs[p].nextSib;
        pcbs[b] := pcbs[b].(prevSib := pcbs[p].prevSib);
        pcbs[p] := pcbs[p].(nextSib := NULL);
      }
    }

    /** Take the first child of `p` out; NULL if it has none. */
    method RemoveChild(p: int, ghost f: Forest) returns (c: int)
      requires ForestOk(f) && TreeIs(pcbs[..], f) && 0 <= p < pcbs.Length
      modifies pcbs
      ensures c == Head(Kids(f, p))
      ensures c == NULL ==> pcbs[..] == old(pcbs[..])
      ensures c != NULL ==> TreeIs(pcbs[..], Detach(f, c)) && TreeLinksOnly(old(pcbs[..]), pcbs[..])
    {
      ghost var ks := Kids(f, p);
      assert Siblings(pcbs[..], p, ks) && NoDup(ks);
      if pcbs[p].child == NULL {
        return NULL;
      }
      RemoveChildDetaches(pcbs[..], f, p);
      c := pcbs[p].child;
      assert c == ks[0] && pcbs[c].nextSib == NextSibling(ks, 0) && pcbs[c].prevSib == NULL;
      assert |ks| > 1 ==> 0 <= ks[1] < pcbs.Length && ks[1] != ks[0];
      pcbs[p] := pcbs[p].(child := pcbs[c].nextSib);
      UnlinkChild(c);
    }

    /**
     * Take `p` out of its parent's list of children; NULL if it has no parent. The
     * list is left in order exactly when `p` was its last member.
     */
    method OutChild(p: int, ghost f: Forest) returns (r: int)
      requires ForestOk(f) && TreeIs(pcbs[..], f) && 0 <= p < pcbs.Length
      modifies pcbs
      ensures p !in f.parent ==> r == NULL && pcbs[..] == old(pcbs[..])
      ensures p in f.parent ==> r == p && (TreeIs(pcbs[..], Detach(f, p)) <==> LastSibling(old(pcbs[..]), p))
      ensures TreeLinksOnly(old(pcbs[..]), pcbs[..])
    {
      if p in f.parent {
        ChildLinks(pcbs[..], f, p);
        NotOwnParent(f, p);
        OutChildRemovesLast(pcbs[..], f, p);
        SiblingsApart(f, p);
      }
      if pcbs[p].prnt == NULL {
        return NULL;
      }
      var q := pcbs[p].prnt;
      if pcbs[q].child == p {
        pcbs[q] := pcbs[q].(child := pcbs[p].prevSib);
      }
      UnlinkChild(p);
      r := p;
    }
  }

  /** `u` is `t` with the head of ring `q` unlinked and its links cleared. */
  ghost predicate Allocated(t: Table, u: Table, q: seq<int>)
    requires q != []
  {
    && |u| == |t|
    && (forall x :: 0 <= x < |t| && x !in q ==> u[x] == t[x])
    && (forall x :: 0 <= x < |t| && x != q[0] ==> u[x] == t[x].(next := u[x].next, prev := u[x].prev))
    && (0 <= q[0] < |t| ==> u[q[0]] == Pcb(NULL, NULL, NULL, NULL, NULL, NULL, t[q[0]].semAdd, t[q[0]].v0))
  }

  lemma WrapAround(i: int, n: int)
    requires 0 <= i < n
    ensures (i + 1) % n == if i + 1 < n then i + 1 else 0
  {
  }

  /** Slot `x` when the first `i` links have been stored. */
  function Initialized(b: Pcb, x: int, i: int, n: int): Pcb {
    b.(next := if x < i then (if x + 1 < n then x + 1 else 0) else b.next,
       prev := if 0 < x <= i then x - 1 else if x == 0 && i == n then n - 1 else b.prev)
  }

  lemma ClearedSlot(t0: Table, t: Table, u: Table, q: seq<int>)
    requires q != [] && InTable(t0, q) && NoDup(q) && LinksOnly(t0, t, Elems(q)) && Ring(t, q[1..])
    requires u == t[q[0] := Pcb(NULL, NULL, NULL, NULL, NULL, NULL, t[q[0]].semAdd, t[q[0]].v0)]
    ensures Ring(u, q[1..]) && Allocated(t0, u, q)
  {
    RingFrame(t, u, {q[0]}, q[1..]);
  }

  /** Where a cut leaves the tail pointer, and which list it leaves. */
  lemma CutTail(q: seq<int>, i: nat)
    requires NoDup(q) && i < |q|
    ensures Without(q, {q[i]}) == Cut(q, i)
    ensures Tail(Cut(q, i)) == if i + 1 < |q| then Tail(q) else if |q| > 1 then q[|q| - 2] else NULL
  {
    WithoutOne(q, i);
    CutEnd(q, i);
  }

  lemma CutEnd(q: seq<int>, i: nat)
    requires i < |q|
    ensures Tail(Cut(q, i)) == if i + 1 < |q| then Tail(q) else if |q| > 1 then q[|q| - 2] else NULL
  {
    var r := Cut(q, i);
    if i + 1 < |q| {
      assert r[|r| - 1] == q[|q| - 1];
    } else if |q| > 1 {
      assert r[|r| - 1] == q[|q| - 2];
    }
  }

  /** A process without a parent is in no list of children. */
  lemma NotListed(f: Forest, q: int, p: int)
    requires ForestOk(f) && p !in f.parent
    ensures p !in Kids(f, q)
  {
  }

  /** The neighbours of a child in its list are other processes. */
  lemma SiblingsApart(f: Forest, p: int)
    requires ForestOk(f) && p in f.parent && p >= 0
    ensures var ks := Kids(f, f.parent[p]); var i := Rank(f, p);
            NextSibling(ks, i) != p && PrevSibling(ks, i) != p
  {
  }

  lemma CountRing(t: Table)
    requires forall x :: 0 <= x < |t| ==>
               t[x].next == (if x + 1 < |t| then x + 1 else 0) && t[x].prev == (if x > 0 then x - 1 else |t| - 1)
    ensures Ring(t, Count(|t|))
  {
    var q := Count(|t|);
    forall i | 0 <= i < |q|
      ensures t[q[i]].next == After(q, i) && t[q[i]].prev == Before(q, i)
    {
      assert q[i] == i;
    }
  }

  /** The order of the four stores that link a slot into a ring does not matter. */
  lemma SameLinks(t: Table, u: Table, p: int, last: int, first: int)
    requires 0 <= p < |t| && 0 <= last < |t| && 0 <= first < |t| && p != last && p != first && |u| == |t|
    requires forall x :: 0 <= x < |t| ==>
               u[x] == t[x].(next := if x == last then p else if x == p then first else t[x].next,
                             prev := if x == first then p else if x == p then last else t[x].prev)
    ensures u == Linked(t, p, last, first)
  {
    forall x | 0 <= x < |t|
      ensures u[x] == Linked(t, p, last, first)[x]
    {
      LinkedAt(t, p, last, first, x);
    }
  }
}
