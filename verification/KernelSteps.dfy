// Every kernel entry keeps the invariant, from the boot state on.
module KernelSteps {
  import opened Seqs
  import opened ForestSpec
  import opened KernelState
  import opened Queues
  import opened KernelInv

  lemma QueuesFrame(s: State, t: State)
    requires QueuesOk(s) && t.queues == s.queues && t.semAdd == s.semAdd && t.n == s.n && s.sem.Keys <= t.sem.Keys
    ensures QueuesOk(t)
  {
  }

  lemma TreeFrame(s: State, t: State)
    requires TreeOk(s) && t.forest == s.forest && t.n == s.n && forall p :: p in t.free ==> p in s.free
    ensures TreeOk(t)
  {
  }

  /** Only semaphore words, counters, results and the current process differ. */
  lemma ScalarsFrame(s: State, t: State)
    requires Shape(s) && s.sem.Keys <= t.sem.Keys
    requires t == s.(sem := t.sem, soft := t.soft, v0 := t.v0, current := t.current, mode := t.mode)
    ensures Shape(t)
    ensures forall r :: Placed(s, r) ==> Placed(t, r)
  {
    QueuesFrame(s, t);
    TreeFrame(s, t);
  }

  lemma ProcsNotNegative(s: State)
    requires Shape(s)
    ensures s.procs >= 0
  {
    ElemsSize(s.free);
    assert Elems(s.free) <= Below(s.n);
    SubsetSize(Elems(s.free), Below(s.n));
  }

  lemma SchedulerInv(s: State)
    requires Shape(s) && Placed(s, NULL)
    ensures Inv(Scheduler(s))
  {
    ProcsNotNegative(s);
    if s.ready != [] {
      DispatchInv(s);
    } else {
      ScalarsFrame(s, Scheduler(s));
    }
  }

  lemma DispatchInv(s: State)
    requires Shape(s) && Placed(s, NULL) && s.ready != []
    ensures Inv(Scheduler(s))
  {
    var t := Scheduler(s);
    var p := s.ready[0];
    assert s.ready == [p] + s.ready[1..];
    assert forall x :: x in s.ready <==> x == p || x in t.ready;
    assert p in s.ready;
    QueuesFrame(s, t);
    TreeFrame(s, t);
  }

  lemma BlockShape(s: State, a: int)
    requires Shape(s) && Placed(s, s.current) && s.current != NULL
    requires a in s.sem && a != MAXADD && a != 0
    ensures !OutOfDescriptors(s, a)
    ensures Shape(BlockCurrentAt(s, a)) && Placed(BlockCurrentAt(s, a), NULL)
  {
    DescriptorsSuffice(s, s.current, a);
    InsertShape(s, a, s.current);
  }

  /** Blocking the running process and dispatching another one. */
  lemma BlockInv(s: State, a: int)
    requires Shape(s) && Placed(s, s.current) && s.current != NULL
    requires a in s.sem && a != MAXADD && a != 0
    ensures Inv(SleepOn(s, a))
  {
    BlockShape(s, a);
    SchedulerInv(BlockCurrentAt(s, a));
  }

  lemma CreateInv(s: State)
    requires Inv(s) && s.mode.Running?
    ensures Inv(CreateProcess(s))
  {
    var t := CreateProcess(s);
    if s.free == [] {
      ScalarsFrame(s, t);
    } else {
      var p := s.free[0];
      assert s.free == [p] + s.free[1..];
      assert p in s.free;
      CreatedLists(s, t, p);
      QueuesFrame(s, t);
      AdoptTree(s, t, p);
    }
  }

  /** The new process moves from the head of the free list to the end of the ready queue. */
  lemma CreatedLists(s: State, t: State, p: int)
    requires ListsOk(s) && Placed(s, s.current) && s.free != [] && p == s.free[0]
    requires t.n == s.n && t.free == s.free[1..] && t.ready == s.ready + [p] && t.semAdd == s.semAdd && t.current == s.current
    ensures ListsOk(t) && Placed(t, t.current)
    ensures forall x :: x in t.free ==> x in s.free && x != p
  {
    assert s.free == [p] + s.free[1..];
    assert p in s.free;
    assert forall x :: x in s.free <==> x == p || x in t.free;
    assert forall x :: x in t.ready <==> x in s.ready || x == p;
  }

  lemma AdoptTree(s: State, t: State, p: int)
    requires Shape(s) && p in s.free && 0 <= s.current < s.n && s.current !in s.free
    requires t.n == s.n && t.forest == Adopt(s.forest, s.current, p)
    requires forall x :: x in t.free ==> x in s.free && x != p
    ensures TreeOk(t)
  {
    AdoptKeepsForest(s.forest, s.current, p);
    forall x | x in t.free
      ensures x !in t.forest.parent && Kids(t.forest, x) == []
    {
      AdoptKids(s.forest, s.current, p, x);
    }
  }

  lemma PasserenInv(s: State, a: int)
    requires Inv(s) && s.mode.Running? && UserSem(s, a)
    ensures Inv(Passeren(s, a))
  {
    ScalarsFrame(s, Take(s, a));
    if Val(s, a) <= 0 {
      BlockInv(Take(s, a), a);
    }
  }

  lemma VerhogenInv(s: State, a: int)
    requires Inv(s) && s.mode.Running? && UserSem(s, a)
    ensures Inv(Verhogen(s, a))
  {
    var t := Give(s, a);
    ScalarsFrame(s, t);
    if Queue(t, a) != [] {
      var p := Queue(t, a)[0];
      WakeShape(t, a);
    }
  }

  /** Moving the oldest waiter of `a` to the ready queue keeps every process in one place. */
  lemma WakeShape(s: State, a: int)
    requires Shape(s) && Placed(s, Runner(s)) && a in s.queues
    ensures var t := Enqueue(RemoveBlocked(s, a), s.queues[a][0]); Shape(t) && Placed(t, Runner(s))
  {
    var r := RemoveBlocked(s, a);
    var q := s.queues[a];
    var p := q[0];
    assert q == [p] + q[1..] && p in q;
    var t := Enqueue(r, p);
    assert QueuesOk(t) by {
      RemoveQueues(s, a);
    }
    QueueMember(s, a, p);
    assert forall x :: x in t.ready <==> x in s.ready || x == p;
    TreeFrame(s, t);
  }

  lemma RemoveQueues(s: State, a: int)
    requires Layout(s) && QueuesOk(s) && a in s.queues
    ensures QueuesOk(Enqueue(RemoveBlocked(s, a), s.queues[a][0]))
  {
    var q := s.queues[a];
    var p := q[0];
    var t := Enqueue(RemoveBlocked(s, a), p);
    assert q == [p] + q[1..] && p in q;
    forall x
      ensures x in q[1..] <==> x != p && x in s.semAdd && s.semAdd[x] == a
      ensures x in q ==> 0 <= x < s.n
    {
      QueueMember(s, a, x);
      assert x in q <==> x in q[1..] || x == p;
    }
    ReplaceQueue(s, t, a, q[1..], t.semAdd);
  }

  lemma WaitForIOInv(s: State, i: int)
    requires Inv(s) && s.mode.Running? && 0 <= i < CLOCK
    ensures Inv(WaitForIO(s, i))
  {
    var a := DevAddr(s, i);
    var t := CountSoft(Take(s, a), 1);
    ScalarsFrame(s, t);
    BlockInv(t, a);
  }

  lemma WaitForClockInv(s: State)
    requires Inv(s) && s.mode.Running?
    ensures Inv(WaitForClock(s))
  {
    var a := DevAddr(s, CLOCK);
    if Val(s, a) <= 0 {
      var t := CountSoft(Take(s, a), 1);
      ScalarsFrame(s, t);
      BlockInv(t, a);
    } else {
      ScalarsFrame(s, Take(s, a));
    }
  }

  lemma SliceInv(s: State)
    requires Inv(s) && (s.mode.Running? || s.mode.Waiting?)
    ensures Inv(SliceInterrupt(s))
  {
    if s.current != NULL {
      EnqueueShape(s, s.current);
      SchedulerInv(Enqueue(s, s.current));
    }
  }

  lemma ResumeInv(s: State)
    requires Shape(s) && Placed(s, s.current)
    requires s.mode.Running? ==> s.current != NULL
    requires s.mode.Waiting? ==> s.current == NULL
    requires s.mode.Running? || s.mode.Waiting?
    ensures Inv(Resume(s))
  {
    if s.current == NULL {
      SchedulerInv(s);
    }
  }

  lemma WakeClockShape(s: State)
    requires Inv(s) && (s.mode.Running? || s.mode.Waiting?)
    ensures Shape(WakeClock(s)) && Placed(WakeClock(s), s.current)
  {
    var a := DevAddr(s, CLOCK);
    var q := Queue(s, a);
    var t := WakeClock(s);
    forall x
      ensures x in q <==> x in s.semAdd && s.semAdd[x] == a
      ensures x in q ==> 0 <= x < s.n
    {
      QueueMember(s, a, x);
    }
    assert forall x :: x in t.ready <==> x in s.ready || x in q;
    assert NoDup(t.ready) by {
      NoDupConcat(s.ready, q);
    }
    assert SetQueue(s.queues, a, []) == t.queues;
    ReplaceQueue(s, t, a, [], t.semAdd);
  }

  lemma WakeDeviceShape(s: State, i: int, status: int)
    requires Inv(s) && (s.mode.Running? || s.mode.Waiting?) && 0 <= i < CLOCK
    ensures Shape(WakeDevice(s, i, status)) && Placed(WakeDevice(s, i, status), s.current)
  {
    var a := DevAddr(s, i);
    var t := CountSoft(s, -1);
    ScalarsFrame(s, t);
    if Val(s, a) <= 0 && Queue(s, a) != [] {
      WakeShape(t, a);
      ScalarsFrame(Enqueue(RemoveBlocked(t, a), Queue(s, a)[0]), WakeDevice(s, i, status));
    }
  }

  // ---- Termination ------------------------------------------------------------------

  lemma KilledQueue(s: State, order: seq<int>, a: int)
    ensures Queue(Kill(s, order), a) == Without(Queue(s, a), Elems(order))
  {
  }

  lemma KillQueues(s: State, order: seq<int>)
    requires Shape(s)
    ensures QueuesOk(Kill(s, order))
  {
    var t := Kill(s, order);
    var d := Elems(order);
    assert QueuesFilled(t) by {
      forall a | a in t.queues
        ensures t.queues[a] != [] && NoDup(t.queues[a]) && a in t.sem && a != MAXADD && a != 0
      {
        WithoutNoDup(s.queues[a], d);
      }
    }
    forall a, p
      ensures p in Queue(t, a) <==> p in s.semAdd && s.semAdd[p] == a && p !in d
    {
      KilledMember(s, order, a, p);
    }
    MembersMatch(s, t, d);
  }

  lemma MembersMatch(s: State, t: State, d: set<int>)
    requires QueuesOk(s) && t.n == s.n && t.semAdd == s.semAdd - d
    requires forall a, p :: p in Queue(t, a) <==> p in s.semAdd && s.semAdd[p] == a && p !in d
    ensures QueuedAreBlocked(t) && BlockedAreQueued(t)
  {
    forall a, p | a in t.queues && p in t.queues[a]
      ensures p in t.semAdd && t.semAdd[p] == a
    {
      assert p in Queue(t, a);
    }
    forall p | p in t.semAdd
      ensures 0 <= p < t.n && t.semAdd[p] in t.queues && p in t.queues[t.semAdd[p]]
    {
      assert p in Queue(t, s.semAdd[p]);
    }
  }

  lemma KilledMember(s: State, order: seq<int>, a: int, p: int)
    requires QueuesOk(s)
    ensures p in Queue(Kill(s, order), a) <==> p in s.semAdd && s.semAdd[p] == a && p !in order
    ensures p in Queue(Kill(s, order), a) ==> 0 <= p < s.n
  {
    KilledQueue(s, order, a);
    QueueMember(s, a, p);
    assert p in Elems(order) <==> p in order;
  }

  /** Removing a set of live processes that is closed under "child of" keeps the shape. */
  lemma KillShape(s: State, order: seq<int>)
    requires Shape(s) && NoDup(order)
    requires forall p :: p in order ==> 0 <= p < s.n && p !in s.free
    requires forall c :: c in s.forest.parent && s.forest.parent[c] in order ==> c in order
    ensures Shape(Kill(s, order))
  {
    var t := Kill(s, order);
    var d := Elems(order);
    KillQueues(s, order);
    assert ListsOk(t) by {
      NoDupConcat(s.free, order);
      WithoutNoDup(s.ready, d);
      assert forall p :: p in t.free <==> p in s.free || p in order;
    }
    assert TreeOk(t) by {
      PruneKeepsForest(s.forest, d);
      forall p | p in t.free
        ensures p !in t.forest.parent && Kids(t.forest, p) == []
      {
        PruneKids(s.forest, d, p);
        if p !in order {
          assert p in s.free;
          assert Without([], d) == [];
        }
      }
    }
  }

  /** The members of the running process's subtree are live and their children are members. */
  lemma SubtreeIsClosed(s: State, r: int)
    requires Shape(s) && 0 <= r < s.n && r !in s.free
    ensures var order := PostOrder(s.forest, r);
            && NoDup(order) && r in order
            && (forall p :: p in order ==> 0 <= p < s.n && p !in s.free)
            && (forall c :: c in s.forest.parent && s.forest.parent[c] in order ==> c in order)
  {
    var f := s.forest;
    PostOrderNoDup(f, r);
    forall p
      ensures p in PostOrder(f, r) <==> Under(f, r, p)
    {
      PostOrderIsSubtree(f, r, p);
    }
  }

  lemma TerminatedShape(s: State)
    requires Inv(s) && s.mode.Running?
    ensures Shape(Terminated(s)) && Placed(Terminated(s), NULL)
  {
    var order := PostOrder(s.forest, s.current);
    SubtreeIsClosed(s, s.current);
    KillShape(s, order);
    KilledPlaces(s, order, s.current);
  }

  lemma KilledPlaces(s: State, order: seq<int>, r: int)
    requires Placed(s, r) && r in order
    ensures Placed(Kill(s, order), NULL)
  {
    var t := Kill(s, order);
    assert forall p :: p in t.free <==> p in s.free || p in order;
    assert forall p :: p in t.ready <==> p in s.ready && p !in order;
  }

  // ---- All events, all runs -----------------------------------------------------------

  lemma SemIndexRange(line: int, no: int, recv: bool)
    requires DeviceLine(line, no)
    ensures 0 <= SemIndex(line, no, recv) < CLOCK
  {
  }

  lemma StepKeepsInv(s: State, e: Event)
    requires Inv(s)
    ensures Inv(Step(s, e))
  {
    if Possible(s, e) {
      match e
      case Create => CreateInv(s);
      case Terminate =>
        TerminatedShape(s);
        SchedulerInv(Terminated(s));
      case P(a) => PasserenInv(s, a);
      case V(a) => VerhogenInv(s, a);
      case IoWait(line, no, recv) =>
        SemIndexRange(line, no, recv);
        WaitForIOInv(s, SemIndex(line, no, recv));
      case ClockWait => WaitForClockInv(s);
      case Slice => SliceInv(s);
      case Tick =>
        WakeClockShape(s);
        ResumeInv(WakeClock(s));
      case Device(line, no, recv, status) =>
        SemIndexRange(line, no, recv);
        WakeDeviceShape(s, SemIndex(line, no, recv), status);
        ResumeInv(WakeDevice(s, SemIndex(line, no, recv), status));
    }
  }

  /** After initPcbs and initASL: every PCB is free. */
  function Empty(n: nat, dev: int, sem: map<int, int>): State {
    State(n, dev, Count(n), [], NULL, map[], map[], Forest(map[], map[], map[], 0), sem, map[], 0, 0, Running)
  }

  /** ... and with the clock's semaphore at 0. */
  function ClockCleared(n: nat, dev: int, sem: map<int, int>): State {
    SetWord(Empty(n, dev, sem), dev + 4 * CLOCK, 0)
  }

  /** main(): an empty kernel, then the first process, then the scheduler. */
  function Booted(n: nat, dev: int, sem: map<int, int>): State
    requires n > 0
  {
    Scheduler(Enqueue(AllocPcb(ClockCleared(n, dev, sem)), 0))
  }

  lemma BootInv(n: nat, dev: int, sem: map<int, int>)
    requires n > 0 && 0 < dev && dev + 4 * DEVICE_NUM < MAXADD
    ensures Inv(Booted(n, dev, sem))
  {
    var s := Enqueue(AllocPcb(ClockCleared(n, dev, sem)), 0);
    assert s.free == Count(n)[1..] && s.ready == [0];
    forall p | 0 <= p < n
      ensures p in s.free || p in s.ready
    {
      if p > 0 {
        assert s.free[p - 1] == p;
      }
    }
    SchedulerInv(s);
  }

  ghost function Run(s: State, es: seq<Event>): (t: State)
    requires Inv(s)
    ensures Inv(t)
    decreases |es|
  {
    if es == [] then s
    else
      StepKeepsInv(s, es[0]);
      Run(Step(s, es[0]), es[1..])
  }
}
