// How terminate_Process_rec may go step by step: terminating a subtree is
// terminating the first child's subtree, then what is left of the parent's, and a
// process without children by itself.
module Killing {
  import opened Seqs
  import opened ForestSpec
  import opened KernelState
  import Queues
  import KernelInv
  import KernelSteps

  lemma PruneTwice(f: Forest, a: set<int>, b: set<int>)
    ensures Prune(Prune(f, a), b) == Prune(f, a + b)
  {
    assert f.parent - a - b == f.parent - (a + b);
    var k := Prune(Prune(f, a), b).kids;
    var l := Prune(f, a + b).kids;
    assert k.Keys == l.Keys;
    forall p | p in l
      ensures k[p] == l[p]
    {
      WithoutUnion(f.kids[p], a, b);
      assert Without([], b) == [];
    }
    assert k == l;
  }

  /** A process leaves its parent's list first: no difference when it is terminated anyway. */
  lemma DetachThenPrune(f: Forest, c: int, d: set<int>)
    requires ForestOk(f) && c in d
    ensures Prune(Detach(f, c), d) == Prune(f, d)
  {
    if c in f.parent {
      var q := f.parent[c];
      assert c in Kids(f, q);
      assert f.parent - {c} - d == f.parent - d;
      var k := Prune(Detach(f, c), d).kids;
      var l := Prune(f, d).kids;
      assert k.Keys == l.Keys;
      forall p | p in l
        ensures k[p] == l[p]
      {
        WithoutUnion(f.kids[p], {c}, d);
        assert {c} + d == d;
      }
      assert k == l;
    }
  }

  lemma BlockedTwice(s: State, a: seq<int>, b: seq<int>, x: int)
    ensures BlockedIn(s, x, Elems(a)) + BlockedIn(Kill(s, a), x, Elems(b)) == BlockedIn(s, x, Elems(a + b))
    ensures Queue(Kill(Kill(s, a), b), x) == Queue(Kill(s, a + b), x)
  {
    KernelSteps.KilledQueue(s, a, x);
    KernelSteps.KilledQueue(Kill(s, a), b, x);
    KernelSteps.KilledQueue(s, a + b, x);
    WithoutUnion(Queue(s, x), Elems(a), Elems(b));
    assert Elems(a + b) == Elems(a) + Elems(b);
  }

  lemma KillTwiceQueues(s: State, a: seq<int>, b: seq<int>)
    ensures Kill(Kill(s, a), b).queues == Kill(s, a + b).queues
  {
    var t := Kill(Kill(s, a), b);
    var u := Kill(s, a + b);
    forall x
      ensures x in t.queues <==> x in u.queues
      ensures x in t.queues ==> t.queues[x] == u.queues[x]
    {
      BlockedTwice(s, a, b, x);
      assert x in t.queues <==> Queue(t, x) != [];
      assert x in u.queues <==> Queue(u, x) != [];
    }
  }

  lemma KilledSem(s: State, order: seq<int>, x: int)
    ensures x in Kill(s, order).sem <==> x in s.sem
    ensures x in s.sem ==> Kill(s, order).sem[x] == s.sem[x] + BlockedIn(s, x, Elems(order))
  {
  }

  lemma KillTwiceSems(s: State, a: seq<int>, b: seq<int>)
    ensures Kill(Kill(s, a), b).sem == Kill(s, a + b).sem
  {
    var t := Kill(Kill(s, a), b).sem;
    var u := Kill(s, a + b).sem;
    forall x
      ensures x in t <==> x in u
      ensures x in t ==> t[x] == u[x]
    {
      BlockedTwice(s, a, b, x);
      KilledSem(s, a, x);
      KilledSem(Kill(s, a), b, x);
      KilledSem(s, a + b, x);
    }
  }

  /** Terminating two groups one after the other. */
  lemma KillTwice(s: State, a: seq<int>, b: seq<int>)
    ensures Kill(Kill(s, a), b) == Kill(s, a + b)
  {
    assert Elems(a + b) == Elems(a) + Elems(b);
    KillTwiceQueues(s, a, b);
    KillTwiceSems(s, a, b);
    WithoutUnion(s.ready, Elems(a), Elems(b));
    PruneTwice(s.forest, Elems(a), Elems(b));
    assert s.semAdd - Elems(a) - Elems(b) == s.semAdd - Elems(a + b);
    assert s.free + a + b == s.free + (a + b);
  }

  lemma DetachedOrder(f: Forest, c: int)
    requires ForestOk(f)
    ensures ForestOk(Detach(f, c)) && PostOrder(Detach(f, c), c) == PostOrder(f, c)
    ensures Prune(Detach(f, c), Elems(PostOrder(f, c))) == Prune(f, Elems(PostOrder(f, c)))
  {
    DetachKeepsForest(f, c);
    forall x | Under(f, c, x)
      ensures Kids(Detach(f, c), x) == Kids(f, x)
    {
      UnderIsYounger(f, c, x);
    }
    PostOrderFrame(f, Detach(f, c), c);
    assert Under(f, c, c);
    PostOrderIsSubtree(f, c, c);
    DetachThenPrune(f, c, Elems(PostOrder(f, c)));
  }

  lemma KillForest(s: State, g: Forest, order: seq<int>)
    requires Prune(g, Elems(order)) == Prune(s.forest, Elems(order))
    ensures Kill(s.(forest := g), order) == Kill(s, order)
  {
    var t := s.(forest := g);
    var d := Elems(order);
    assert forall a :: BlockedIn(t, a, d) == BlockedIn(s, a, d);
    assert Kill(t, order).queues == Kill(s, order).queues;
    assert Kill(t, order).sem == Kill(s, order).sem;
  }

  /** Leaving the parent first changes neither the subtree nor the outcome. */
  lemma KillDetached(s: State, c: int)
    requires ForestOk(s.forest)
    ensures var g := Detach(s.forest, c);
            ForestOk(g) && Kill(s.(forest := g), PostOrder(g, c)) == Kill(s, PostOrder(s.forest, c))
  {
    DetachedOrder(s.forest, c);
    KillForest(s, Detach(s.forest, c), PostOrder(s.forest, c));
  }

  /** The subtree of `p` is that of its first child followed by what is then left under `p`. */
  lemma PeelFirstChild(f: Forest, p: int)
    requires ForestOk(f) && Kids(f, p) != []
    ensures var c := Kids(f, p)[0]; var g := Prune(f, Elems(PostOrder(f, c)));
            && ForestOk(g) && Kids(g, p) == Kids(f, p)[1..]
            && PostOrder(f, p) == PostOrder(f, c) + PostOrder(g, p)
  {
    var ks := Kids(f, p);
    var c := ks[0];
    var d := Elems(PostOrder(f, c));
    var g := Prune(f, d);
    forall x
      ensures x in d <==> Under(f, c, x)
      ensures Kids(g, x) == PrunedKids(f, d, x)
    {
      PostOrderIsSubtree(f, c, x);
      PruneKids(f, d, x);
    }
    PruneKeepsForest(f, d);
    PeeledKids(f, c, p, d);
    PeeledOrder(f, g, p, d);
  }

  lemma PeeledOrder(f: Forest, g: Forest, p: int, d: set<int>)
    requires ForestOk(f) && ForestOk(g) && Kids(f, p) != [] && Kids(g, p) == Kids(f, p)[1..]
    requires forall x :: x in d <==> Under(f, Kids(f, p)[0], x)
    requires forall x :: Kids(g, x) == PrunedKids(f, d, x)
    ensures PostOrder(f, p) == PostOrder(f, Kids(f, p)[0]) + PostOrder(g, p)
  {
    FirstSubtree(f, p);
    var rest := Kids(f, p)[1..];
    forall b, x | b in rest && Under(f, b, x)
      ensures Kids(g, x) == Kids(f, x)
    {
      RestKept(f, p, b, x, d);
    }
    PostOrderAllFrame(f, g, rest, p);
    assert PostOrder(g, p) == PostOrderAll(g, rest, p) + [p];
  }

  lemma RestKept(f: Forest, p: int, b: int, x: int, d: set<int>)
    requires ForestOk(f) && Kids(f, p) != [] && b in Kids(f, p)[1..] && Under(f, b, x)
    requires forall y :: y in d <==> Under(f, Kids(f, p)[0], y)
    ensures PrunedKids(f, d, x) == Kids(f, x)
  {
    var ks := Kids(f, p);
    var c := ks[0];
    assert ks == [c] + ks[1..];
    assert c in ks && b in ks && NoDup(ks);
    OutsideKept(f, c, b, x, d);
  }

  lemma FirstSubtree(f: Forest, p: int)
    requires ForestOk(f) && Kids(f, p) != []
    ensures forall c :: c in Kids(f, p)[1..] ==> c in f.parent && f.parent[c] == p
    ensures PostOrder(f, p) == PostOrder(f, Kids(f, p)[0]) + (PostOrderAll(f, Kids(f, p)[1..], p) + [p])
  {
    var ks := Kids(f, p);
    assert ks == [ks[0]] + ks[1..];
    var one := PostOrder(f, ks[0]);
    var others := PostOrderAll(f, ks[1..], p);
    assert PostOrder(f, p) == one + others + [p];
  }

  lemma PeeledKids(f: Forest, c: int, p: int, d: set<int>)
    requires ForestOk(f) && Kids(f, p) != [] && c == Kids(f, p)[0]
    requires forall x :: x in d <==> Under(f, c, x)
    ensures PrunedKids(f, d, p) == Kids(f, p)[1..]
  {
    var ks := Kids(f, p);
    assert c in ks && ks == [c] + ks[1..];
    assert f.parent[c] == p;
    if Under(f, c, p) {
      UnderIsYounger(f, c, p);
      assert false;
    }
    forall b | b in ks[1..]
      ensures b !in d
    {
      assert Under(f, b, b);
      SiblingSubtreesDisjoint(f, b, c, b);
    }
    WithoutNone(ks[1..], d);
    assert Under(f, c, c);
    assert Without(ks, d) == Without(ks[1..], d);
  }

  /** In the subtree of a sibling of `c` nothing changes when `c`'s subtree goes. */
  lemma OutsideKept(f: Forest, c: int, b: int, x: int, d: set<int>)
    requires ForestOk(f) && b in f.parent && c in f.parent && f.parent[b] == f.parent[c] && b != c && Under(f, b, x)
    requires forall y :: y in d <==> Under(f, c, y)
    ensures PrunedKids(f, d, x) == Kids(f, x)
  {
    SiblingSubtreesDisjoint(f, b, c, x);
    forall k | k in Kids(f, x)
      ensures k !in d
    {
      assert Under(f, b, k);
      SiblingSubtreesDisjoint(f, b, c, k);
    }
    WithoutNone(Kids(f, x), d);
  }

  lemma LeafOrder(f: Forest, p: int)
    requires ForestOk(f) && Kids(f, p) == []
    ensures PostOrder(f, p) == [p]
  {
  }

  /** One turn of the loop: the first child's subtree goes, the rest is still to do. */
  lemma KillFirstChild(s: State, p: int)
    requires ForestOk(s.forest) && Kids(s.forest, p) != []
    ensures var t := Kill(s, PostOrder(s.forest, Kids(s.forest, p)[0]));
            && ForestOk(t.forest) && Kids(t.forest, p) == Kids(s.forest, p)[1..]
            && Kill(t, PostOrder(t.forest, p)) == Kill(s, PostOrder(s.forest, p))
  {
    PeelFirstChild(s.forest, p);
    var order := PostOrder(s.forest, Kids(s.forest, p)[0]);
    var t := Kill(s, order);
    assert t.forest == Prune(s.forest, Elems(order));
    KillTwice(s, order, PostOrder(t.forest, p));
  }

  lemma PruneLeaf(f: Forest, p: int)
    requires ForestOk(f) && p !in f.parent && Kids(f, p) == []
    ensures Prune(f, {p}) == f
  {
    assert f.parent - {p} == f.parent;
    var k := Prune(f, {p}).kids;
    forall q | q in f.kids
      ensures k[q] == f.kids[q]
    {
      if q != p {
        assert p !in Kids(f, q);
        WithoutNone(f.kids[q], {p});
      }
    }
    assert k == f.kids;
  }

  lemma KilledAt(s: State, order: seq<int>, x: int)
    ensures var t := Kill(s, order); var q := Without(Queue(s, x), Elems(order));
            (x in t.queues <==> q != []) && (x in t.queues ==> t.queues[x] == q)
  {
  }

  /** A blocked process without relatives: its semaphore rises by one. */
  lemma KillBlocked(s: State, p: int)
    requires KernelInv.QueuesOk(s) && ForestOk(s.forest) && p in s.semAdd && p !in s.forest.parent && Kids(s.forest, p) == []
    requires p !in s.ready
    ensures var a := s.semAdd[p];
            a in s.sem && Kill(s, [p]) == FreePcb(OutBlocked(Give(s, a), p), p)
  {
    var a := s.semAdd[p];
    assert Elems([p]) == {p};
    PruneLeaf(s.forest, p);
    WithoutNone(s.ready, {p});
    KillBlockedSems(s, p);
    KillBlockedQueues(s, p);
    var t := Kill(s, [p]);
    var u := FreePcb(OutBlocked(Give(s, a), p), p);
    assert t.sem == u.sem && t.queues == u.queues && t.semAdd == u.semAdd;
    assert t.forest == u.forest && t.ready == u.ready && t.free == u.free;
  }

  lemma KillBlockedSems(s: State, p: int)
    requires KernelInv.QueuesOk(s) && p in s.semAdd
    ensures var a := s.semAdd[p]; a in s.sem && Kill(s, [p]).sem == s.sem[a := s.sem[a] + 1]
  {
    assert Elems([p]) == {p};
    var a := s.semAdd[p];
    var t := Kill(s, [p]).sem;
    var u := s.sem[a := s.sem[a] + 1];
    forall x
      ensures x in t <==> x in u
      ensures x in t ==> t[x] == u[x]
    {
      KilledSem(s, [p], x);
      LeavesQueue(s, p, x);
    }
  }

  lemma KillBlockedQueues(s: State, p: int)
    requires KernelInv.QueuesOk(s) && p in s.semAdd
    ensures var a := s.semAdd[p]; Kill(s, [p]).queues == Queues.SetQueue(s.queues, a, Without(Queue(s, a), {p}))
  {
    assert Elems([p]) == {p};
    var a := s.semAdd[p];
    var t := Kill(s, [p]).queues;
    var u := Queues.SetQueue(s.queues, a, Without(Queue(s, a), {p}));
    forall x
      ensures x in t <==> x in u
      ensures x in t ==> t[x] == u[x]
    {
      KilledAt(s, [p], x);
      LeavesQueue(s, p, x);
      KernelInv.SetQueueAt(s.queues, a, Without(Queue(s, a), {p}), x);
    }
  }

  lemma LeavesQueue(s: State, p: int, x: int)
    requires KernelInv.QueuesOk(s) && p in s.semAdd
    ensures x != s.semAdd[p] ==> Without(Queue(s, x), {p}) == Queue(s, x)
    ensures BlockedIn(s, x, {p}) == if x == s.semAdd[p] then 1 else 0
  {
    KernelInv.QueueMember(s, x, p);
    if x == s.semAdd[p] {
      WithoutSize(Queue(s, x), {p});
      assert Elems(Queue(s, x)) * {p} == {p};
    } else {
      WithoutNone(Queue(s, x), {p});
    }
  }

  lemma UntouchedAt(s: State, p: int, x: int)
    requires KernelInv.QueuesOk(s) && p !in s.semAdd
    ensures var t := Kill(s, [p]);
            && (x in t.queues <==> x in s.queues) && (x in t.queues ==> t.queues[x] == s.queues[x])
            && (x in t.sem <==> x in s.sem) && (x in t.sem ==> t.sem[x] == s.sem[x])
  {
    assert Elems([p]) == {p};
    KernelInv.QueueMember(s, x, p);
    WithoutNone(Queue(s, x), {p});
    KilledAt(s, [p], x);
    KilledSem(s, [p], x);
  }

  /** A running or ready process without relatives. */
  lemma KillUnblocked(s: State, p: int)
    requires KernelInv.QueuesOk(s) && ForestOk(s.forest) && p !in s.semAdd && p !in s.forest.parent && Kids(s.forest, p) == []
    ensures Kill(s, [p]) == FreePcb(s.(ready := Without(s.ready, {p})), p)
  {
    var t := Kill(s, [p]);
    assert Elems([p]) == {p};
    PruneLeaf(s.forest, p);
    KillUnblockedSems(s, p);
    assert t.semAdd == s.semAdd;
    var u := FreePcb(s.(ready := Without(s.ready, {p})), p);
    assert t.free == u.free && t.ready == u.ready && t.forest == u.forest && t.procs == u.procs;
  }

  lemma KillUnblockedSems(s: State, p: int)
    requires KernelInv.QueuesOk(s) && p !in s.semAdd
    ensures Kill(s, [p]).queues == s.queues && Kill(s, [p]).sem == s.sem
  {
    var t := Kill(s, [p]);
    forall x
      ensures x in t.queues <==> x in s.queues
      ensures x in t.queues ==> t.queues[x] == s.queues[x]
      ensures x in t.sem <==> x in s.sem
      ensures x in t.sem ==> t.sem[x] == s.sem[x]
    {
      UntouchedAt(s, p, x);
    }
    assert t.queues == s.queues && t.sem == s.sem;
  }
}
