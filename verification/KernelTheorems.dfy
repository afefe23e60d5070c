// The kernel's guarantees over whole runs, from main() on.
module KernelTheorems {
  import Seqs
  import opened ForestSpec
  import opened KernelState
  import Queues
  import KernelInv
  import opened KernelSteps
  import opened Accounts

  /** Parameters of a machine: room for the device semaphores, and their initial values. */
  predicate Machine(n: nat, dev: int) {
    n > 0 && 0 < dev && dev + 4 * DEVICE_NUM < Queues.MAXADD
  }

  // ---- Places ---------------------------------------------------------------------------

  /**
   * Whatever happens after main(), every PCB is free, ready, blocked or running, and no
   * two of these; it is in the queue of its p_semAdd and in no other; processCount and
   * the free list make up the table; and the forest has no cycle.
   */
  lemma EveryProcessInOnePlace(n: nat, dev: int, sem: map<int, int>, es: seq<Event>, p: int)
    requires Machine(n, dev) && 0 <= p < n
    ensures KernelInv.Inv(Booted(n, dev, sem))
    ensures var s := Run(Booted(n, dev, sem), es);
            && s.n == n && KernelInv.InOnePlace(s, p) && s.procs + |s.free| == n
            && (forall a :: p in Queue(s, a) <==> p in s.semAdd && s.semAdd[p] == a)
            && (p in s.forest.parent ==> s.forest.parent[p] != p && !Under(s.forest, p, s.forest.parent[p]))
  {
    BootInv(n, dev, sem);
    var s := Run(Booted(n, dev, sem), es);
    BootedFields(n, dev, sem);
    RunKeepsSize(Booted(n, dev, sem), es);
    KernelInv.EachInOnePlace(s, p);
    if p in s.forest.parent && Under(s.forest, p, s.forest.parent[p]) {
      UnderIsYounger(s.forest, p, s.forest.parent[p]);
      assert false;
    }
  }

  lemma StepKeepsSize(s: State, e: Event)
    requires KernelInv.Inv(s)
    ensures Step(s, e).n == s.n && Step(s, e).dev == s.dev
  {
    if Possible(s, e) {
      SummaryHolds(s, e, 0);
    }
  }

  lemma {:induction false} RunKeepsSize(s: State, es: seq<Event>)
    requires KernelInv.Inv(s)
    ensures Run(s, es).n == s.n && Run(s, es).dev == s.dev
    decreases |es|
  {
    if es != [] {
      StepKeepsInv(s, es[0]);
      StepKeepsSize(s, es[0]);
      RunKeepsSize(Step(s, es[0]), es[1..]);
    }
  }

  /** In no run can insertBlocked run out of descriptors for the running process. */
  lemma DescriptorsNeverRunOut(s0: State, es: seq<Event>, a: int)
    requires KernelInv.Inv(s0) && Run(s0, es).mode.Running?
    ensures var s := Run(s0, es); !OutOfDescriptors(s, a) && s.current in Queue(BlockCurrentAt(s, a), a)
  {
    var s := Run(s0, es);
    KernelInv.DescriptorsSuffice(s, s.current, a);
    var q := Queue(s, a) + [s.current];
    assert q[|q| - 1] == s.current;
  }

  // ---- Semaphores -------------------------------------------------------------------------

  /**
   * A semaphore with initial value `k`: its waiters number max(0, -s); P's completed so
   * far never exceed k plus the V's, so at most k processes are between P and V; and
   * a P can only be waiting when they have all been used up.
   */
  lemma SemaphoreLaw(s0: State, es: seq<Event>, a: int)
    requires GoodStart(s0) && UserSem(s0, a)
    ensures var h := Record(Start(s0), es); var k := Val(s0, a);
            && h.now == Run(s0, es)
            && |Queue(h.now, a)| == (if Val(h.now, a) < 0 then -Val(h.now, a) else 0)
            && Cnt(h.passed, a) - Cnt(h.vs, a) <= k
            && (Queue(h.now, a) != [] ==> Cnt(h.passed, a) - Cnt(h.vs, a) == k)
  {
    RecordIsRun(Start(s0), es);
    BooksStart(s0);
    BooksAlways(s0, Start(s0), es);
    assert UserLaw(Record(Start(s0), es), Val(s0, a), a);
  }

  /** waitForUprocs: a semaphore that starts at 0 lets m P's through only after m V's. */
  lemma NotificationsComeFirst(s0: State, es: seq<Event>, a: int, m: nat)
    requires GoodStart(s0) && UserSem(s0, a) && Val(s0, a) == 0
    ensures var h := Record(Start(s0), es);
            Cnt(h.passed, a) >= m ==> Cnt(h.vs, a) >= m
  {
    SemaphoreLaw(s0, es, a);
  }

  /** A device semaphore with initial value `v` has v - s waiters, the clock's max(0, -s). */
  lemma DeviceSemaphoreLaw(s0: State, es: seq<Event>, i: int)
    requires GoodStart(s0) && 0 <= i < DEVICE_NUM
    ensures var s := Run(s0, es);
            |Queue(s, DevAddr(s, i))| == DeviceWaiters(s0, s, i)
  {
    RecordIsRun(Start(s0), es);
    BooksStart(s0);
    BooksAlways(s0, Start(s0), es);
    CountWaiters(s0, Record(Start(s0), es), i);
  }

  function DeviceWaiters(s0: State, s: State, i: int): int {
    var value := Val(s, DevAddr(s, i));
    if i < CLOCK then Val(s0, DevAddr(s0, i)) - value
    else if value < 0 then -value else 0
  }

  lemma CountWaiters(s0: State, h: History, i: int)
    requires Books(s0, h) && 0 <= i < DEVICE_NUM
    ensures |Queue(h.now, DevAddr(h.now, i))| == DeviceWaiters(s0, h.now, i)
  {
    if i < CLOCK {
      assert DeviceLaw(h, Val(s0, DevAddr(s0, i)), i);
    } else {
      assert ClockLaw(h);
    }
  }

  /**
   * softBlockedCount is the number of processes waiting for a device or the clock,
   * plus those killed while waiting, minus the device interrupts that found no waiter.
   */
  lemma SoftBlockedCountLaw(s0: State, es: seq<Event>)
    requires GoodStart(s0)
    ensures var h := Record(Start(s0), es);
            h.now == Run(s0, es) && h.now.soft == Shares(h, DEVICE_NUM)
  {
    RecordIsRun(Start(s0), es);
    BooksStart(s0);
    BooksAlways(s0, Start(s0), es);
  }

  /** main() is a good start when the semaphores have the values the laws assume: one process runs, and the clock's semaphore is 0. */
  lemma BootIsGoodStart(n: nat, dev: int, sem: map<int, int>)
    requires Machine(n, dev)
    requires forall a :: a in sem ==> sem[a] >= 0 && (dev <= a < dev + 4 * CLOCK ==> sem[a] <= 1)
    ensures GoodStart(Booted(n, dev, sem))
    ensures var s := Booted(n, dev, sem); Val(s, DevAddr(s, CLOCK)) == 0 && Runner(s) == 0 && s.procs == 1 && s.ready == []
  {
    BootInv(n, dev, sem);
    var s := Booted(n, dev, sem);
    BootedFields(n, dev, sem);
    BootedFirst(n, dev, sem);
    assert forall a :: Val(s, a) >= 0;
  }

  /** The first PCB runs, and no other is in use. */
  lemma BootedFirst(n: nat, dev: int, sem: map<int, int>)
    requires n > 0
    ensures var s := Booted(n, dev, sem); s.mode.Running? && s.current == 0 && s.procs == 1 && s.ready == []
  {
    var s := ClockCleared(n, dev, sem);
    assert s.free != [] && s.free[0] == 0;
    var t := Enqueue(AllocPcb(s), 0);
    assert t.ready == [0] && t.procs == 1;
  }

  lemma BootedFields(n: nat, dev: int, sem: map<int, int>)
    requires n > 0
    ensures var s := Booted(n, dev, sem); s.queues == map[] && s.soft == 0 && s.sem == sem[dev + 4 * CLOCK := 0] && s.dev == dev && s.n == n
  {
  }

  // ---- Creation ---------------------------------------------------------------------------

  /**
   * Creation makes one free PCB the youngest child of the running process and the last
   * ready one; without a free PCB only the creator's result changes.
   */
  lemma CreationAddsOneChild(s0: State, es: seq<Event>, x: int)
    requires KernelInv.Inv(s0) && Run(s0, es).mode.Running?
    ensures var s := Run(s0, es); var t := Step(s, Create); var c := s.current;
            && KernelInv.Inv(t) && c in t.v0 && t.v0[c] == (if s.procs < s.n then 0 else -1)
            && (s.procs == s.n ==> t == s.(v0 := t.v0))
            && (s.procs < s.n ==>
                  var p := s.free[0];
                  && t.procs == s.procs + 1 && p != c && p !in t.semAdd
                  && (x in t.free <==> x in s.free && x != p)
                  && t.ready == s.ready + [p] && Kids(t.forest, c) == Kids(s.forest, c) + [p]
                  && p in t.forest.parent && t.forest.parent[p] == c
                  && (x != c ==> Kids(t.forest, x) == Kids(s.forest, x)))
  {
    var s := Run(s0, es);
    StepKeepsInv(s, Create);
    if s.free != [] {
      var p := s.free[0];
      assert s.free == [p] + s.free[1..] && p in s.free;
      AdoptKids(s.forest, s.current, p, x);
      AdoptKids(s.forest, s.current, p, s.current);
    }
  }

  // ---- Termination ------------------------------------------------------------------------

  /**
   * Termination frees exactly the processes that descend from the running one, each
   * once; each queue keeps its other members in order; each semaphore rises by the
   * number of its waiters that were terminated; the others keep their results, and
   * the survivors their parents.
   */
  lemma TerminationTakesTheSubtree(s0: State, es: seq<Event>, p: int, a: int)
    requires KernelInv.Inv(s0) && Run(s0, es).mode.Running?
    ensures var s := Run(s0, es); var t := Terminated(s);
            && (p in t.free <==> p in s.free || Under(s.forest, s.current, p))
            && Seqs.NoDup(t.free) && |t.free| + t.procs == s.n
            && (p in Queue(t, a) <==> p in Queue(s, a) && !Under(s.forest, s.current, p))
            && (p in t.ready <==> p in s.ready && !Under(s.forest, s.current, p))
            && (a in s.sem ==> a in t.sem && t.sem[a] == s.sem[a] + |Queue(s, a)| - |Queue(t, a)|)
            && (p in t.forest.parent <==> p in s.forest.parent && !Under(s.forest, s.current, p))
  {
    var s := Run(s0, es);
    var order := PostOrder(s.forest, s.current);
    TerminatedShape(s);
    PostOrderIsSubtree(s.forest, s.current, p);
    KilledQueue(s, order, a);
  }

  /** Survivors of a termination never change their order in a queue. */
  lemma SurvivorsKeepOrder(s0: State, es: seq<Event>, a: int, i: nat, j: nat)
    requires KernelInv.Inv(s0) && Run(s0, es).mode.Running?
    requires i < j < |Queue(Terminated(Run(s0, es)), a)|
    ensures var s := Run(s0, es); var q := Queue(Terminated(s), a);
            exists k, l :: 0 <= k < l < |Queue(s, a)| && Queue(s, a)[k] == q[i] && Queue(s, a)[l] == q[j]
  {
    var s := Run(s0, es);
    var order := PostOrder(s.forest, s.current);
    KilledQueue(s, order, a);
    Seqs.WithoutKeepsOrder(Queue(s, a), Seqs.Elems(order), i, j);
  }

  // ---- Children ---------------------------------------------------------------------------

  ghost function AdoptAll(f: Forest, p: int, cs: seq<int>): Forest
    decreases |cs|
  {
    if cs == [] then f else AdoptAll(Adopt(f, p, cs[0]), p, cs[1..])
  }

  /** removeChild until there is no child: who comes out, in which order. */
  ghost function Drained(f: Forest, p: int): seq<int>
    requires ForestOk(f)
    decreases |Kids(f, p)|
  {
    if Kids(f, p) == [] then []
    else
      var c := Kids(f, p)[0];
      FirstLeaves(f, p);
      [c] + Drained(Detach(f, c), p)
  }

  lemma FirstLeaves(f: Forest, p: int)
    requires ForestOk(f) && Kids(f, p) != []
    ensures var g := Detach(f, Kids(f, p)[0]); ForestOk(g) && Kids(g, p) == Kids(f, p)[1..]
  {
    var ks := Kids(f, p);
    var c := ks[0];
    assert c in ks;
    assert c in f.parent && f.parent[c] == p && Seqs.NoDup(ks);
    DetachKeepsForest(f, c);
    assert Kids(Detach(f, c), p) == Seqs.Without(ks, {c});
    assert Seqs.Without(ks, {c}) == ks[1..] by {
      Seqs.WithoutOne(ks, 0);
    }
  }

  lemma {:induction false} DrainedAreKids(f: Forest, p: int)
    requires ForestOk(f)
    ensures Drained(f, p) == Kids(f, p)
    decreases |Kids(f, p)|
  {
    if Kids(f, p) != [] {
      FirstLeaves(f, p);
      DrainedAreKids(Detach(f, Kids(f, p)[0]), p);
    }
  }

  lemma StrangersStay(f: Forest, p: int, c: int, cs: seq<int>)
    requires Seqs.NoDup(cs) && cs != [] && c == cs[0] && p !in cs
    requires forall d :: d in cs ==> d !in f.parent && Kids(f, d) == []
    ensures forall d :: d in cs[1..] ==> d !in Adopt(f, p, c).parent && Kids(Adopt(f, p, c), d) == []
  {
    forall d | d in cs[1..]
      ensures d !in Adopt(f, p, c).parent && Kids(Adopt(f, p, c), d) == []
    {
      assert d in cs && d != c;
      AdoptKids(f, p, c, d);
    }
  }

  lemma {:induction false} AdoptAllKeepsForest(f: Forest, p: int, cs: seq<int>)
    requires ForestOk(f) && Seqs.NoDup(cs) && p !in cs
    requires forall c :: c in cs ==> c !in f.parent && Kids(f, c) == []
    ensures ForestOk(AdoptAll(f, p, cs)) && Kids(AdoptAll(f, p, cs), p) == Kids(f, p) + cs
    decreases |cs|
  {
    if cs == [] {
      assert Kids(f, p) + cs == Kids(f, p);
    } else {
      var c := cs[0];
      var g := Adopt(f, p, c);
      assert cs == [c] + cs[1..] && c in cs;
      AdoptKeepsForest(f, p, c);
      StrangersStay(f, p, c, cs);
      AdoptKids(f, p, c, p);
      AdoptAllKeepsForest(g, p, cs[1..]);
      assert Kids(f, p) + ([c] + cs[1..]) == (Kids(f, p) + [c]) + cs[1..];
    }
  }

  /** Children inserted one by one come out of removeChild in the order of insertion. */
  lemma ChildrenComeOutInOrder(f: Forest, p: int, cs: seq<int>)
    requires ForestOk(f) && Seqs.NoDup(cs) && p !in cs
    requires forall c :: c in cs ==> c !in f.parent && Kids(f, c) == []
    ensures ForestOk(AdoptAll(f, p, cs)) && Drained(AdoptAll(f, p, cs), p) == Kids(f, p) + cs
  {
    AdoptAllKeepsForest(f, p, cs);
    DrainedAreKids(AdoptAll(f, p, cs), p);
  }
}
