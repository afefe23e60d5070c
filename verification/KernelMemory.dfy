// The kernel's data in memory: when the PCB table holds the queues, the forest and
// the per-process fields of a kernel state, and what keeps it so.
module KernelMemory {
  import opened Seqs
  import opened ForestSpec
  import opened KernelState
  import Queues
  import opened KernelInv
  import KernelSteps
  import Killing
  import opened Rings
  import opened Trees
  import PcbCode
  import SemdList
  import opened AslCode

  /** p_semAdd and the result register of every slot. */
  ghost predicate FieldsStored(t: Table, s: State) {
    && |t| == s.n
    && (forall p :: 0 <= p < |t| ==> t[p].semAdd == if p in s.semAdd then s.semAdd[p] else 0)
    && (forall p :: p in s.v0 ==> 0 <= p < |t| && t[p].v0 == s.v0[p])
  }

  /** The table holds the free list, the ready queue, the semaphore queues and the forest of `s`. */
  ghost predicate Stored(t: Table, s: State) {
    && FieldsStored(t, s) && Ring(t, s.free) && Ring(t, s.ready)
    && TreeIs(t, s.forest) && RingsOk(t, s.queues)
  }

  ghost predicate Apart(s: State) {
    ListsOk(s) && QueuesOk(s)
  }

  /** `p` is in no queue at all. */
  predicate Loose(s: State, p: int) {
    0 <= p < s.n && p !in s.free && p !in s.ready && p !in s.semAdd
  }

  /** Stores to queue links outside the semaphore queues. */
  lemma LinksFrame(t: Table, u: Table, s: State, d: set<int>)
    requires Stored(t, s) && QueuesOk(s) && LinksOnly(t, u, d)
    requires forall x :: x in d ==> x !in s.semAdd
    ensures FieldsStored(u, s) && TreeIs(u, s.forest) && RingsOk(u, s.queues)
  {
    TreeFrame(t, u, s.forest);
    forall a | a in s.queues
      ensures QueueOk(u, s.queues, a)
    {
      assert QueueOk(t, s.queues, a);
      RingFrame(t, u, d, s.queues[a]);
    }
  }

  /** The ready queue becomes `r` by stores to the links in `d`. */
  lemma ReadyStored(t: Table, u: Table, s: State, r: seq<int>, d: set<int>)
    requires Stored(t, s) && Apart(s) && LinksOnly(t, u, d) && Ring(u, r)
    requires forall x :: x in d ==> x !in s.semAdd && x !in s.free
    ensures Stored(u, s.(ready := r))
  {
    LinksFrame(t, u, s, d);
    RingFrame(t, u, d, s.free);
  }

  /** `p` joins the free list. */
  lemma FreedStored(t: Table, u: Table, s: State, p: int)
    requires Stored(t, s) && Apart(s) && Loose(s, p)
    requires LinksOnly(t, u, Elems(s.free) + {p}) && Ring(u, s.free + [p])
    ensures Stored(u, FreePcb(s, p))
  {
    LinksFrame(t, u, s, Elems(s.free) + {p});
    RingFrame(t, u, Elems(s.free) + {p}, s.ready);
  }

  /** The first free PCB is taken; having no relatives, it loses none by being cleared. */
  lemma AllocatedStored(t: Table, u: Table, s: State)
    requires Stored(t, s) && Apart(s) && TreeOk(s) && s.free != []
    requires PcbCode.Allocated(t, u, s.free) && Ring(u, s.free[1..])
    ensures Stored(u, AllocPcb(s))
  {
    AllocatedTree(t, u, s);
    RingFrame(t, u, Elems(s.free), s.ready);
    forall a | a in s.queues
      ensures QueueOk(u, s.queues, a)
    {
      AllocatedQueue(t, u, s, a);
    }
  }

  lemma AllocatedTree(t: Table, u: Table, s: State)
    requires TreeIs(t, s.forest) && TreeOk(s) && s.free != [] && PcbCode.Allocated(t, u, s.free) && 0 <= s.free[0] < |t|
    ensures TreeIs(u, s.forest)
  {
    var p := s.free[0];
    assert p in s.free && Siblings(t, p, Kids(s.forest, p));
    TreeFrame(t, u, s.forest);
  }

  lemma AllocatedQueue(t: Table, u: Table, s: State, a: int)
    requires QueuesOk(s) && ListsOk(s) && s.free != [] && PcbCode.Allocated(t, u, s.free)
    requires a in s.queues && QueueOk(t, s.queues, a)
    ensures QueueOk(u, s.queues, a)
  {
    forall x | x in s.queues[a]
      ensures x !in s.free
    {
      QueueMember(s, a, x);
    }
    RingFrame(t, u, Elems(s.free), s.queues[a]);
  }

  lemma ForestStored(t: Table, u: Table, s: State, f: Forest)
    requires Stored(t, s) && TreeLinksOnly(t, u) && TreeIs(u, f)
    ensures Stored(u, s.(forest := f))
  {
    RingFrame(t, u, {}, s.free);
    RingFrame(t, u, {}, s.ready);
    forall a | a in s.queues
      ensures QueueOk(u, s.queues, a)
    {
      assert QueueOk(t, s.queues, a);
      RingFrame(t, u, {}, s.queues[a]);
    }
  }

  lemma ResultStored(t: Table, s: State, p: int, v: int)
    requires Stored(t, s) && 0 <= p < |t|
    ensures Stored(t[p := t[p].(v0 := v)], s.(v0 := s.v0[p := v]))
  {
    var u := t[p := t[p].(v0 := v)];
    RingFrame(t, u, {}, s.free);
    RingFrame(t, u, {}, s.ready);
    TreeFrame(t, u, s.forest);
    forall a | a in s.queues
      ensures QueueOk(u, s.queues, a)
    {
      assert QueueOk(t, s.queues, a);
      RingFrame(t, u, {}, s.queues[a]);
    }
  }

  /** `p` joins the queue of `a`. */
  lemma BlockedStored(t: Table, u: Table, s: State, a: int, p: int)
    requires Stored(t, s) && Apart(s) && Loose(s, p) && a != 0 && !OutOfDescriptors(s, a)
    requires SemStores(t, u, Queue(s, a), p, a) && RingsOk(u, Queues.SetQueue(s.queues, a, Queue(s, a) + [p]))
    ensures Stored(u, InsertBlocked(s, a, p))
  {
    SemStoresFrame(t, u, s, Queue(s, a), p, a);
  }

  lemma SemStoresFrame(t: Table, u: Table, s: State, q: seq<int>, p: int, a: int)
    requires Stored(t, s) && Apart(s) && SemStores(t, u, q, p, a)
    requires p !in s.free && p !in s.ready && forall x :: x in q ==> x in s.semAdd
    ensures Ring(u, s.free) && Ring(u, s.ready) && TreeIs(u, s.forest)
  {
    RingFrame(t, u, Elems(q) + {p}, s.free);
    RingFrame(t, u, Elems(q) + {p}, s.ready);
    TreeFrame(t, u, s.forest);
  }

  /** `p` leaves the queue of `a`, in which `r` stays. */
  lemma ReleasedStored(t: Table, u: Table, s: State, a: int, p: int, r: seq<int>)
    requires Stored(t, s) && Apart(s) && p in Queue(s, a)
    requires SemStores(t, u, Queue(s, a), p, 0) && RingsOk(u, Queues.SetQueue(s.queues, a, r))
    ensures Stored(u, s.(queues := Queues.SetQueue(s.queues, a, r), semAdd := s.semAdd - {p}))
  {
    forall x
      ensures x in Queue(s, a) ==> x in s.semAdd
    {
      QueueMember(s, a, x);
    }
    SemStoresFrame(t, u, s, Queue(s, a), p, 0);
  }

  /** The semaphore list reads the process table through its queues only. */
  lemma AslFrame(sd: seq<SemdList.Semd>, t: Table, u: Table, c: seq<int>, fr: seq<int>, queues: map<int, seq<int>>)
    requires AslIs(sd, t, c, fr, queues) && RingsOk(u, queues)
    ensures AslIs(sd, u, c, fr, queues)
  {
  }

  /** No descriptor is free exactly when every one is in use. */
  lemma FreeDescriptors(sd: seq<SemdList.Semd>, t: Table, c: seq<int>, fr: seq<int>, queues: map<int, seq<int>>)
    requires AslIs(sd, t, c, fr, queues)
    ensures |fr| == |sd| - 2 - |queues|
  {
  }

  /** After the oldest waiter of `a` is taken off, it is in no queue. */
  lemma RemovedApart(s: State, a: int)
    requires Shape(s) && a in s.queues
    ensures Apart(RemoveBlocked(s, a)) && Loose(RemoveBlocked(s, a), s.queues[a][0])
  {
    var q := s.queues[a];
    var p := q[0];
    var t := RemoveBlocked(s, a);
    assert q == [p] + q[1..] && p in q;
    forall x
      ensures x in q[1..] <==> x != p && x in s.semAdd && s.semAdd[x] == a
      ensures x in q ==> 0 <= x < s.n
    {
      QueueMember(s, a, x);
      assert x in q <==> x in q[1..] || x == p;
    }
    ReplaceQueue(s, t, a, q[1..], t.semAdd);
  }

  /** No process has relatives or is blocked. */
  ghost predicate Unrelated(t: Table) {
    forall x :: 0 <= x < |t| ==>
      t[x].prnt == Queues.NULL && t[x].child == Queues.NULL && t[x].nextSib == Queues.NULL && t[x].prevSib == Queues.NULL && t[x].semAdd == 0
  }

  /** The tables after initPcbs, before any process exists. */
  lemma EmptyStored(t: Table, s: State)
    requires s.n == |t| && s.ready == [] && s.queues == map[] && s.semAdd == map[] && s.v0 == map[]
    requires s.forest == Forest(map[], map[], map[], 0) && Ring(t, s.free)
    requires Unrelated(t)
    ensures Stored(t, s)
  {
  }

  lemma EmptyApart(s: State)
    requires s.n > 0 && s.free == Count(s.n) && s.ready == [] && s.queues == map[] && s.semAdd == map[]
    requires s.forest == Forest(map[], map[], map[], 0)
    ensures Apart(s) && TreeOk(s)
    ensures Apart(AllocPcb(s)) && Loose(AllocPcb(s), 0) && Apart(Enqueue(AllocPcb(s), 0))
  {
    assert Apart(s);
    assert TreeOk(s);
    FirstApart(s, AllocPcb(s));
  }

  lemma FirstApart(s: State, u: State)
    requires s.n > 0 && s.free == Count(s.n) && u == AllocPcb(s)
    requires s.ready == [] && s.queues == map[] && s.semAdd == map[]
    ensures Apart(u) && Loose(u, 0) && Apart(Enqueue(u, 0))
  {
    assert u.free == s.free[1..] && forall i :: 0 <= i < |u.free| ==> u.free[i] == i + 1;
    assert u.ready == [] && u.queues == map[] && u.semAdd == map[];
    assert QueuesOk(u) && ListsOk(u);
  }

  lemma AllocApart(s: State)
    requires Shape(s) && s.free != []
    ensures Apart(AllocPcb(s)) && Loose(AllocPcb(s), s.free[0])
  {
    var p := s.free[0];
    assert s.free == [p] + s.free[1..] && p in s.free;
    assert forall x :: x in s.free[1..] ==> x in s.free && x != p;
  }

  /** The running process can be blocked on `a` after its semaphore and the counter have been changed. */
  lemma CanBlock(s: State, t: State, a: int)
    requires Inv(s) && s.mode.Running? && s.sem.Keys <= t.sem.Keys && t == s.(sem := t.sem, soft := t.soft)
    requires a in t.sem && a != 0 && a != Queues.MAXADD
    ensures Apart(t) && Loose(t, t.current) && Apart(BlockCurrentAt(t, a))
  {
    KernelSteps.ScalarsFrame(s, t);
    KernelSteps.BlockShape(t, a);
  }

  lemma ResultApart(s: State, p: int, v: int)
    requires Apart(s) && Loose(s, p)
    ensures Apart(SetResult(s, p, v)) && Loose(SetResult(s, p, v), p)
  {
  }

  /** The oldest waiter of `a`, if there is one, can be made ready. */
  lemma CanWake(s: State, a: int)
    requires Shape(s)
    ensures Apart(s) && (Queue(s, a) == [] ==> Head(Queue(s, a)) == Queues.NULL)
    ensures Queue(s, a) != [] ==>
              && a in s.queues && Head(Queue(s, a)) != Queues.NULL
              && Apart(RemoveBlocked(s, a)) && Loose(RemoveBlocked(s, a), Head(Queue(s, a)))
  {
    if Queue(s, a) != [] {
      QueueMember(s, a, Queue(s, a)[0]);
      RemovedApart(s, a);
    }
  }

  /** A process taken off its semaphore or out of the ready queue is in no queue. */
  lemma UnqueuedApart(s: State, p: int)
    requires Shape(s) && 0 <= p < s.n && p !in s.free
    ensures p in s.semAdd ==> Apart(Give(s, s.semAdd[p])) && s.semAdd[p] != 0
    ensures p in s.semAdd ==> var t := OutBlocked(Give(s, s.semAdd[p]), p); Apart(t) && Loose(t, p)
    ensures p !in s.semAdd ==> var t := s.(ready := Without(s.ready, {p})); Apart(t) && Loose(t, p)
  {
    if p in s.semAdd {
      var a := s.semAdd[p];
      KernelSteps.ScalarsFrame(s, Give(s, a));
      OutBlockedApart(Give(s, a), p);
    } else {
      WithoutNoDup(s.ready, {p});
    }
  }

  lemma OutBlockedApart(s: State, p: int)
    requires Shape(s) && p in s.semAdd && p !in s.free
    ensures Apart(OutBlocked(s, p)) && Loose(OutBlocked(s, p), p)
  {
    var a := s.semAdd[p];
    var q := Without(Queue(s, a), {p});
    var t := OutBlocked(s, p);
    WithoutNoDup(Queue(s, a), {p});
    forall x
      ensures x in q <==> x != p && x in s.semAdd && s.semAdd[x] == a
      ensures x in q ==> 0 <= x < s.n
    {
      QueueMember(s, a, x);
    }
    ReplaceQueue(s, t, a, q, t.semAdd);
  }

  lemma DetachShape(s: State, p: int)
    requires Shape(s)
    ensures Shape(s.(forest := Detach(s.forest, p)))
  {
    var t := s.(forest := Detach(s.forest, p));
    DetachKeepsForest(s.forest, p);
    KernelSteps.QueuesFrame(s, t);
    forall x | x in t.free
      ensures x !in t.forest.parent && Kids(t.forest, x) == []
    {
      assert Kids(s.forest, x) == [];
      assert p in s.forest.parent ==> p in Kids(s.forest, s.forest.parent[p]);
    }
  }

  /** outChild as written removes `p` properly: it has no parent, or no later sibling. */
  predicate Removable(f: Forest, p: int) {
    p in f.parent ==> Tail(Kids(f, f.parent[p])) == p
  }

  lemma RemovableIsLast(t: Table, f: Forest, p: int)
    requires ForestOk(f) && TreeIs(t, f) && p in f.parent
    ensures 0 <= p < |t| && (LastSibling(t, p) <==> Removable(f, p))
  {
    ChildLinks(t, f, p);
    var ks := Kids(f, f.parent[p]);
    var i := Rank(f, p);
    if i + 1 < |ks| {
      assert ks[i + 1] in ks && 0 <= ks[i + 1];
    }
  }

  lemma FirstKid(t: Table, f: Forest, p: int)
    requires ForestOk(f) && TreeIs(t, f) && 0 <= p < |t|
    ensures t[p].child == Head(Kids(f, p))
    ensures t[p].child != Queues.NULL <==> Kids(f, p) != []
    ensures Kids(f, p) != [] ==> var c := Kids(f, p)[0]; c in f.parent && f.parent[c] == p && Birth(f, p) < Birth(f, c) <= f.clock
  {
    assert Siblings(t, p, Kids(f, p));
    if Kids(f, p) != [] {
      var c := Kids(f, p)[0];
      assert c in Kids(f, p);
    }
  }

  lemma ChildLives(s: State, p: int)
    requires Shape(s) && Kids(s.forest, p) != []
    ensures var c := Kids(s.forest, p)[0];
            0 <= c < s.n && c !in s.free && c in s.forest.parent && s.forest.parent[c] == p
  {
    var ks := Kids(s.forest, p);
    var c := ks[0];
    assert c in ks;
    IsListed(s.forest, p, c);
  }

  lemma ParentSurvives(s: State, c: int, p: int)
    requires ForestOk(s.forest) && c in s.forest.parent && s.forest.parent[c] == p
    requires p !in s.free && p !in s.forest.parent
    ensures var t := Kill(s, PostOrder(s.forest, c));
            p !in t.free && p !in t.forest.parent && t.forest.clock == s.forest.clock && t.forest.birth == s.forest.birth
  {
    PostOrderIsSubtree(s.forest, c, p);
    if Under(s.forest, c, p) {
      UnderIsYounger(s.forest, c, p);
      assert false;
    }
  }

  /** Terminating the first child's subtree leaves the parent alive, and the rest of its subtree to do. */
  lemma FirstChildGone(s: State, p: int)
    requires Shape(s) && 0 <= p < s.n && p !in s.free && p !in s.forest.parent && Kids(s.forest, p) != []
    ensures var t := Kill(s, PostOrder(s.forest, Kids(s.forest, p)[0]));
            && p !in t.free && p !in t.forest.parent && t.n == s.n
            && ForestOk(t.forest) && |Kids(t.forest, p)| < |Kids(s.forest, p)|
            && t.forest.clock == s.forest.clock && t.forest.birth == s.forest.birth
            && Kill(t, PostOrder(t.forest, p)) == Kill(s, PostOrder(s.forest, p))
  {
    ChildLives(s, p);
    ParentSurvives(s, Kids(s.forest, p)[0], p);
    Killing.KillFirstChild(s, p);
  }

  lemma KilledSubtreeShape(s: State, p: int)
    requires Shape(s) && 0 <= p < s.n && p !in s.free
    ensures Shape(Kill(s, PostOrder(s.forest, p)))
  {
    KernelSteps.SubtreeIsClosed(s, p);
    KernelSteps.KillShape(s, PostOrder(s.forest, p));
  }

  lemma WordSteps(s: State, a: int, v: int)
    requires v == Val(s, a)
    ensures Take(s, a) == SetWord(s, a, v - 1) && Give(s, a) == SetWord(s, a, v + 1)
  {
  }

  // ---- The interval timer's loop --------------------------------------------------------

  /** Waking the oldest waiter and then the others is waking them all. */
  lemma WakeOne(s: State)
    requires QueuesOk(s) && Queue(s, DevAddr(s, CLOCK)) != []
    ensures var a := DevAddr(s, CLOCK); var p := Queue(s, a)[0];
            var t := CountSoft(Enqueue(RemoveBlocked(s, a), p), -1);
            WakeClock(t) == WakeClock(s) && Queue(t, a) == Queue(s, a)[1..] && DevAddr(t, CLOCK) == a
  {
    var a := DevAddr(s, CLOCK);
    var q := Queue(s, a);
    var t := CountSoft(Enqueue(RemoveBlocked(s, a), q[0]), -1);
    assert q == [q[0]] + q[1..];
    assert Elems(q) == {q[0]} + Elems(q[1..]);
    assert s.ready + [q[0]] + q[1..] == s.ready + q;
    assert t.queues - {a} == s.queues - {a};
    assert s.semAdd - {q[0]} - Elems(q[1..]) == s.semAdd - Elems(q);
  }

  lemma WakeNone(s: State)
    requires QueuesOk(s) && Queue(s, DevAddr(s, CLOCK)) == []
    ensures WakeClock(s) == SetWord(s, DevAddr(s, CLOCK), 0)
  {
    var a := DevAddr(s, CLOCK);
    assert s.ready + [] == s.ready;
    assert s.queues - {a} == s.queues;
    assert s.semAdd - Elems([]) == s.semAdd;
  }
}
