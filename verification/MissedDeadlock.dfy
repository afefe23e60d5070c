// A run on which softBlockedCount is wrong: a process is terminated while it waits for a
// device, nobody answers for it, and the scheduler waits for an interrupt that cannot
// make anybody ready.
module MissedDeadlock {
  import Seqs
  import opened ForestSpec
  import opened KernelState
  import Queues
  import opened KernelInv
  import opened KernelSteps
  import Deadlock
  import Accounts
  import KernelTheorems

  const DEV: int := 0x1000
  const MUTEX: int := 4

  /** Three processes, each the child of the one before; the youngest waits for the first disk. */
  function Story(): seq<Event> {
    [Create, Slice, Create, Slice, Slice, IoWait(DISKINT, 0, false), Terminate, P(MUTEX)]
  }

  /** The story can begin: one process runs, two PCBs are free, nobody is blocked. */
  ghost predicate Begin(s: State, es: seq<Event>) {
    Inv(s) && es == Story() && Free(s) && View(s, [1, 2], 0, [], 1) && Kids(s.forest, 1) == [] && Kids(s.forest, 2) == []
  }

  /** The machine after the first `k` events. */
  ghost function At(s: State, es: seq<Event>, k: nat): (t: State)
    requires Inv(s) && k <= |es|
    ensures Inv(t)
  {
    Run(s, es[..k])
  }

  lemma {:induction false} RunOneMore(s: State, es: seq<Event>, e: Event)
    requires Inv(s)
    ensures Run(s, es + [e]) == Step(Run(s, es), e)
    decreases |es|
  {
    StepKeepsInv(s, e);
    if es == [] {
      assert es + [e] == [e];
      RunFirst(s, [e]);
    } else {
      StepKeepsInv(s, es[0]);
      assert (es + [e])[1..] == es[1..] + [e];
      RunFirst(s, es + [e]);
      RunFirst(s, es);
      RunOneMore(Step(s, es[0]), es[1..], e);
    }
  }

  lemma RunFirst(s: State, es: seq<Event>)
    requires Inv(s) && es != []
    ensures Inv(Step(s, es[0])) && Run(s, es) == Run(Step(s, es[0]), es[1..])
  {
    StepKeepsInv(s, es[0]);
  }

  lemma NextAt(s: State, es: seq<Event>, k: nat)
    requires Inv(s) && k < |es|
    ensures At(s, es, k + 1) == Step(At(s, es, k), es[k])
  {
    assert es[..k + 1] == es[..k] + [es[k]];
    RunOneMore(s, es[..k], es[k]);
  }

  /** Nobody is blocked. */
  predicate Free(s: State) {
    && s.mode == Running && s.n == 3 && s.dev == DEV && s.queues == map[] && s.semAdd == map[] && s.soft == 0
    && Val(s, DEV) == 0 && Val(s, MUTEX) == 0
  }

  predicate View(s: State, free: seq<int>, current: int, ready: seq<int>, procs: int) {
    s.free == free && s.current == current && s.ready == ready && s.procs == procs
  }

  lemma CreateView(s: State, p: int)
    requires Inv(s) && Free(s) && s.free != [] && s.free[0] == p
    ensures var t := Step(s, Create);
            Free(t) && View(t, s.free[1..], s.current, s.ready + [p], s.procs + 1) && t.forest == Adopt(s.forest, s.current, p)
  {
  }

  lemma SliceView(s: State, next: int, rest: seq<int>)
    requires Inv(s) && Free(s) && s.ready + [s.current] == [next] + rest
    ensures var t := Step(s, Slice);
            Free(t) && View(t, s.free, next, rest, s.procs) && t.forest == s.forest
  {
  }

  lemma CreateAt(s0: State, es: seq<Event>, k: nat, p: int)
    requires Inv(s0) && k < |es| && es[k] == Create
    requires var s := At(s0, es, k); Free(s) && s.free != [] && s.free[0] == p
    ensures var s := At(s0, es, k); var t := At(s0, es, k + 1);
            Free(t) && View(t, s.free[1..], s.current, s.ready + [p], s.procs + 1) && t.forest == Adopt(s.forest, s.current, p)
  {
    NextAt(s0, es, k);
    CreateView(At(s0, es, k), p);
  }

  lemma SliceAt(s0: State, es: seq<Event>, k: nat, next: int, rest: seq<int>)
    requires Inv(s0) && k < |es| && es[k] == Slice
    requires var s := At(s0, es, k); Free(s) && s.ready + [s.current] == [next] + rest
    ensures var s := At(s0, es, k); var t := At(s0, es, k + 1);
            Free(t) && View(t, s.free, next, rest, s.procs) && t.forest == s.forest
  {
    NextAt(s0, es, k);
    SliceView(At(s0, es, k), next, rest);
  }

  lemma TwoProcesses(s: State, es: seq<Event>)
    requires Begin(s, es)
    ensures var t := At(s, es, 2);
            Free(t) && View(t, [2], 1, [0], 2) && Kids(t.forest, 1) == [] && Kids(t.forest, 2) == []
  {
    assert At(s, es, 0) == s;
    CreateAt(s, es, 0, 1);
    SliceAt(s, es, 1, 1, [0]);
    AdoptKids(s.forest, 0, 1, 1);
    AdoptKids(s.forest, 0, 1, 2);
  }

  lemma ThreeProcesses(s: State, es: seq<Event>)
    requires Begin(s, es)
    ensures var t := At(s, es, 3);
            Free(t) && View(t, [], 1, [0, 2], 3) && Kids(t.forest, 1) == [2] && Kids(t.forest, 2) == []
  {
    TwoProcesses(s, es);
    CreateAt(s, es, 2, 2);
    AdoptKids(At(s, es, 2).forest, 1, 2, 1);
    AdoptKids(At(s, es, 2).forest, 1, 2, 2);
  }

  /** Two processes are created, child and grandchild of the first, and the grandchild runs. */
  lemma Family(s: State, es: seq<Event>)
    requires Begin(s, es)
    ensures var t := At(s, es, 5);
            Free(t) && View(t, [], 2, [1, 0], 3) && Kids(t.forest, 1) == [2] && Kids(t.forest, 2) == []
  {
    ThreeProcesses(s, es);
    SliceAt(s, es, 3, 0, [2, 1]);
    SliceAt(s, es, 4, 2, [1, 0]);
  }

  lemma BootBegins()
    ensures Begin(Booted(3, DEV, map[]), Story())
  {
    var n: nat := 3;
    BootInv(n, DEV, map[]);
    KernelTheorems.BootedFirst(n, DEV, map[]);
    KernelTheorems.BootedFields(n, DEV, map[]);
    FreeAfterBoot(n, DEV, map[]);
  }

  /** All PCBs but the first are free, and nobody has a family. */
  lemma FreeAfterBoot(n: nat, dev: int, sem: map<int, int>)
    requires n == 3
    ensures var s := Booted(n, dev, sem); s.free == [1, 2] && s.semAdd == map[] && s.forest.kids == map[]
  {
    var s := ClockCleared(n, dev, sem);
    assert s.free == [0] + [1, 2];
    var t := Enqueue(AllocPcb(s), 0);
    assert t.free == [1, 2];
  }

  /** It waits for the disk. */
  lemma Asleep(s: State)
    requires Inv(s) && Free(s) && View(s, [], 2, [1, 0], 3)
    ensures var t := Step(s, IoWait(DISKINT, 0, false));
            && t.mode == Running && t.n == 3 && t.dev == DEV && View(t, [], 1, [0], 3) && t.soft == 1
            && t.queues == map[DEV := [2]] && t.semAdd == map[2 := DEV] && t.forest == s.forest && Val(t, MUTEX) == 0
  {
    assert SemIndex(DISKINT, 0, false) == 0 && DevAddr(s, 0) == DEV;
    assert [1, 0][1..] == [0] && [] + [2] == [2];
  }

  /** Its parent terminates and takes it along; softBlockedCount keeps counting it. */
  lemma Orphaned(s: State)
    requires Inv(s) && s.mode == Running && View(s, [], 1, [0], 3) && s.soft == 1
    requires s.n == 3 && s.dev == DEV && s.queues == map[DEV := [2]] && s.semAdd == map[2 := DEV]
    requires Kids(s.forest, 1) == [2] && Kids(s.forest, 2) == [] && Val(s, MUTEX) == 0
    ensures var t := Step(s, Terminate);
            && t.mode == Running && t.n == 3 && t.dev == DEV && View(t, [2, 1], 0, [], 1) && t.soft == 1
            && t.queues == map[] && t.semAdd == map[] && Val(t, MUTEX) == 0
  {
    var order := ParentAndChild(s.forest);
    TwoKilled(s);
    assert Step(s, Terminate) == Scheduler(Kill(s, order));
  }

  lemma TwoKilled(s: State)
    requires s.free == [] && s.ready == [0] && s.procs == 3 && s.queues == map[DEV := [2]] && s.semAdd == map[2 := DEV]
    ensures var t := Kill(s, [2, 1]);
            && t == s.(free := [2, 1], queues := map[], semAdd := map[], forest := t.forest, sem := t.sem, procs := 1)
            && Val(t, MUTEX) == Val(s, MUTEX)
  {
    assert Seqs.Elems([2, 1]) == {1, 2};
    assert [2][1..] == [] && [0][1..] == [];
    assert Seqs.Without([], {1, 2}) == [];
    assert Seqs.Without([0], {1, 2}) == [0] && Seqs.Without([2], {1, 2}) == [];
    var t := Kill(s, [2, 1]);
    assert t.queues == map[] && t.semAdd == map[];
  }

  lemma ParentAndChild(f: Forest) returns (order: seq<int>)
    requires ForestOk(f) && Kids(f, 1) == [2] && Kids(f, 2) == []
    ensures order == PostOrder(f, 1) == [2, 1]
  {
    order := PostOrder(f, 1);
    assert PostOrder(f, 2) == [2];
    assert [2][1..] == [];
    assert PostOrderAll(f, [2], 1) == PostOrder(f, 2) + PostOrderAll(f, [2][1..], 1);
  }

  /** The last process blocks on a semaphore at 0. */
  lemma Blocked(s: State)
    requires Inv(s) && s.mode == Running && s.n == 3 && s.dev == DEV && View(s, [2, 1], 0, [], 1) && s.soft == 1
    requires s.queues == map[] && s.semAdd == map[] && Val(s, MUTEX) == 0
    ensures var t := Step(s, P(MUTEX));
            && t.mode == KernelState.Waiting && t.n == 3 && t.dev == DEV && View(t, [2, 1], Queues.NULL, [], 1) && t.soft == 1
            && t.queues == map[MUTEX := [0]] && t.semAdd == map[0 := MUTEX]
  {
    assert [] + [0] == [0];
  }

  lemma AsleepAt(s0: State, es: seq<Event>)
    requires Begin(s0, es)
    ensures var t := At(s0, es, 6);
            && t.mode == Running && t.n == 3 && t.dev == DEV && View(t, [], 1, [0], 3) && t.soft == 1
            && t.queues == map[DEV := [2]] && t.semAdd == map[2 := DEV] && Val(t, MUTEX) == 0
            && Kids(t.forest, 1) == [2] && Kids(t.forest, 2) == []
  {
    Family(s0, es);
    NextAt(s0, es, 5);
    Asleep(At(s0, es, 5));
  }

  lemma OrphanedAt(s0: State, es: seq<Event>)
    requires Begin(s0, es)
    ensures var t := At(s0, es, 7);
            && t.mode == Running && t.n == 3 && t.dev == DEV && View(t, [2, 1], 0, [], 1) && t.soft == 1
            && t.queues == map[] && t.semAdd == map[] && Val(t, MUTEX) == 0
  {
    AsleepAt(s0, es);
    NextAt(s0, es, 6);
    Orphaned(At(s0, es, 6));
  }

  lemma BlockedAt(s0: State, es: seq<Event>)
    requires Begin(s0, es)
    ensures var t := At(s0, es, 8);
            && t.mode == KernelState.Waiting && t.n == 3 && t.dev == DEV && View(t, [2, 1], Queues.NULL, [], 1) && t.soft == 1
            && t.queues == map[MUTEX := [0]] && t.semAdd == map[0 := MUTEX]
  {
    OrphanedAt(s0, es);
    NextAt(s0, es, 7);
    Blocked(At(s0, es, 7));
  }

  lemma NobodyCanWake(s: State)
    requires s.n == 3 && s.dev == DEV && View(s, [2, 1], Queues.NULL, [], 1) && s.mode == KernelState.Waiting
    requires s.queues == map[MUTEX := [0]] && s.semAdd == map[0 := MUTEX]
    ensures Deadlock.Stuck(s)
  {
    assert Deadlock.NoDeviceWaiter(s);
    forall p | 0 <= p < 3 && p !in s.free
      ensures p == 0
    {
      assert s.free[0] == 2 && s.free[1] == 1;
    }
  }

  /**
   * At the end of the story the machine waits for an interrupt, although nobody waits for
   * a device or the clock and the one process left is on an ordinary semaphore: the
   * scheduler has missed a deadlock.
   */
  lemma SchedulerMissesDeadlock()
    ensures Accounts.GoodStart(Booted(3, DEV, map[]))
    ensures var s := Run(Booted(3, DEV, map[]), Story());
            s.mode.Waiting? && Deadlock.Stuck(s) && s.soft == 1 && Deadlock.Waiters(s, DEVICE_NUM) == 0
  {
    KernelTheorems.BootIsGoodStart(3, DEV, map[]);
    BootBegins();
    TheEnd(Booted(3, DEV, map[]), Story());
  }

  lemma TheEnd(s: State, es: seq<Event>)
    requires Begin(s, es)
    ensures var t := Run(s, es);
            t.mode.Waiting? && Deadlock.Stuck(t) && t.soft == 1 && Deadlock.Waiters(t, DEVICE_NUM) == 0
  {
    assert es[..8] == es;
    BlockedAt(s, es);
    NobodyCanWake(At(s, es, 8));
    Deadlock.NoWaiters(At(s, es, 8), DEVICE_NUM);
  }
}
