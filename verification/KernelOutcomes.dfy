// What a kernel entry leaves behind, read off the places of the processes: whether the
// machine runs, waits, halts or panics, who runs next, which result registers change, and
// in which order a terminated family is freed.
module KernelOutcomes {
  import Seqs
  import ForestSpec
  import opened KernelState
  import Queues
  import KernelInv
  import KernelSteps
  import Accounts

  // ---- The mode ---------------------------------------------------------------------------

  /** Processes are left, and every one of them is blocked. */
  predicate AllBlocked(s: State) {
    |s.free| < s.n && forall p :: 0 <= p < s.n && p !in s.free ==> p in s.semAdd
  }

  /** Some process is neither blocked nor free. */
  predicate SomeoneCanRun(s: State) {
    exists p :: 0 <= p < s.n && p !in s.free && p !in s.semAdd
  }

  lemma FreeAll(s: State)
    requires KernelInv.Shape(s) && |s.free| == s.n
    ensures forall p :: 0 <= p < s.n ==> p in s.free
  {
    Seqs.ElemsSize(s.free);
    assert Seqs.Elems(s.free) <= Seqs.Below(s.n);
    if p :| 0 <= p < s.n && p !in s.free {
      assert p in Seqs.Below(s.n) && p !in Seqs.Elems(s.free);
      Seqs.SubsetSize(Seqs.Elems(s.free), Seqs.Below(s.n));
      assert false;
    }
  }

  /** A machine that has not panicked for want of a current process runs, waits, halts or panics as its processes demand. */
  lemma ModeFromPlaces(s: State)
    requires KernelInv.Inv(s)
    ensures s.mode.Halted? <==> |s.free| == s.n
    ensures s.mode.Running? <==> SomeoneCanRun(s)
    ensures s.mode.Waiting? ==> s.soft > 0
    ensures s.mode.Deadlocked? ==> s.soft <= 0
    ensures s.mode.Waiting? || s.mode.Deadlocked? || s.mode.Faulted? <==> AllBlocked(s)
  {
    if |s.free| == s.n {
      FreeAll(s);
    }
    if s.mode.Running? {
      var p := s.current;
      assert p !in s.free && p !in s.semAdd;
    }
  }

  /** Only the local timer's interrupt of an idle machine ends in the panic of its handler. */
  lemma FaultedExactly(s: State, e: Event)
    requires KernelInv.Inv(s) && Possible(s, e)
    ensures Step(s, e).mode.Faulted? <==> e.Slice? && s.mode.Waiting?
  {
    if e.Slice? {
      assert s.mode.Running? ==> s.current != Queues.NULL;
    } else if e.Create? || e.V? {
      assert Step(s, e).mode == s.mode;
    } else if e.Terminate? {
      assert Step(s, e) == Scheduler(Terminated(s));
    } else {
      NeverFaults(s, e);
    }
  }

  lemma NeverFaults(s: State, e: Event)
    requires KernelInv.Inv(s) && Possible(s, e) && (e.P? || e.IoWait? || e.ClockWait? || e.Tick? || e.Device?)
    ensures !Step(s, e).mode.Faulted?
  {
    match e
    case P(a) => NeverFaulted(BlockCurrentAt(Take(s, a), a));
    case IoWait(line, no, recv) =>
      var a := DevAddr(s, SemIndex(line, no, recv));
      NeverFaulted(BlockCurrentAt(CountSoft(Take(s, a), 1), a));
    case ClockWait =>
      var a := DevAddr(s, CLOCK);
      NeverFaulted(BlockCurrentAt(CountSoft(Take(s, a), 1), a));
    case Tick => NeverFaulted(WakeClock(s));
    case Device(line, no, recv, status) => NeverFaulted(WakeDevice(s, SemIndex(line, no, recv), status));
  }

  lemma NeverFaulted(s: State)
    ensures !Scheduler(s).mode.Faulted?
  {
  }

  /**
   * In every run, after any event: HALT exactly when no process is left; the panic of the
   * local timer's handler exactly when it interrupts an idle machine; otherwise WAIT or the
   * scheduler's PANIC exactly when processes are left and all of them are blocked, WAIT if
   * softBlockedCount is positive; and a process runs exactly when one can.
   */
  lemma ModeExactly(s0: State, es: seq<Event>, e: Event)
    requires KernelInv.Inv(s0) && Possible(KernelSteps.Run(s0, es), e)
    ensures var s := KernelSteps.Run(s0, es); var t := Step(s, e);
            && (t.mode.Halted? <==> |t.free| == t.n)
            && (t.mode.Faulted? <==> e.Slice? && s.mode.Waiting?)
            && (t.mode.Waiting? <==> !t.mode.Faulted? && AllBlocked(t) && t.soft > 0)
            && (t.mode.Deadlocked? <==> !t.mode.Faulted? && AllBlocked(t) && t.soft <= 0)
            && (t.mode.Running? <==> SomeoneCanRun(t))
  {
    var s := KernelSteps.Run(s0, es);
    KernelSteps.StepKeepsInv(s, e);
    FaultedExactly(s, e);
    ModeFromPlaces(Step(s, e));
  }

  lemma SchedulerStops(s: State)
    ensures var t := Scheduler(s);
            (t.mode.Halted? || t.mode.Deadlocked? ==> t.current == s.current) && (t.mode.Waiting? ==> t.current == Queues.NULL)
  {
  }

  lemma SleepStops(s: State, a: int)
    requires !OutOfDescriptors(s, a)
    ensures var t := SleepOn(s, a); s.current in t.semAdd && (t.mode.Running? || t.current == Queues.NULL)
  {
    SchedulerStops(BlockCurrentAt(s, a));
  }

  lemma StepStops(s: State, e: Event)
    requires KernelInv.Inv(s) && Possible(s, e)
    ensures var t := Step(s, e);
            t.mode.Halted? || t.mode.Deadlocked? ==> t.current == if s.current in t.semAdd then Queues.NULL else s.current
  {
    KernelSteps.StepKeepsInv(s, e);
    if Accounts.Sleeps(s, e, Accounts.SleepsAt(s, e)) {
      SleeperStops(s, e);
    } else {
      OtherStops(s, e);
    }
  }

  lemma SleeperStops(s: State, e: Event)
    requires KernelInv.Inv(s) && Possible(s, e) && Accounts.Sleeps(s, e, Accounts.SleepsAt(s, e))
    ensures var t := Step(s, e); s.current in t.semAdd && (t.mode.Running? || t.current == Queues.NULL)
  {
    var a := Accounts.SleepsAt(s, e);
    KernelInv.DescriptorsSuffice(s, s.current, a);
    SleepStops(if e.P? then Take(s, a) else CountSoft(Take(s, a), 1), a);
  }

  lemma OtherStops(s: State, e: Event)
    requires KernelInv.Inv(s) && Possible(s, e) && !Accounts.Sleeps(s, e, Accounts.SleepsAt(s, e)) && KernelInv.Inv(Step(s, e))
    ensures var t := Step(s, e);
            t.mode.Halted? || t.mode.Deadlocked? ==> t.current == s.current && s.current !in t.semAdd
  {
    if e.Terminate? {
      SchedulerStops(Terminated(s));
      SchedulerKeepsResults(Terminated(s));
    } else if e.Tick? {
      SchedulerStops(WakeClock(s));
    } else if e.Device? {
      SchedulerStops(WakeDevice(s, SemIndex(e.line, e.no, e.recv), e.status));
    }
  }

  /** In every run, HALT and the scheduler's PANIC leave currentProcess as it was, unless that process has just gone to sleep. */
  lemma StopsWithCurrent(s0: State, es: seq<Event>, e: Event)
    requires KernelInv.Inv(s0) && Possible(KernelSteps.Run(s0, es), e)
    ensures var s := KernelSteps.Run(s0, es); var t := Step(s, e);
            t.mode.Halted? || t.mode.Deadlocked? ==> t.current == if s.current in t.semAdd then Queues.NULL else s.current
  {
    StepStops(KernelSteps.Run(s0, es), e);
  }

  // ---- Who runs next -------------------------------------------------------------------------

  /** The running process has gone to sleep, has been terminated, or has used up its time. */
  predicate GivesUp(s: State, e: Event, t: State) {
    s.current in t.semAdd || s.current in t.free || e.Slice?
  }

  /** Those who were ready and are not terminated, and at the end of a time slice the running process. */
  function Candidates(s: State, e: Event, t: State): seq<int> {
    Seqs.Without(s.ready, Seqs.Elems(t.free)) + if e.Slice? then [s.current] else []
  }

  function First(q: seq<int>): int {
    if q == [] then Queues.NULL else q[0]
  }

  /** The processor stays with the running process, or goes to the first candidate and leaves the others ready. */
  ghost predicate HandsOver(s: State, e: Event, t: State) {
    if GivesUp(s, e, t)
    then
      var q := Candidates(s, e, t);
      Runner(t) == First(q) && t.ready == if q == [] then [] else q[1..]
    else Runner(t) == s.current
  }

  /** The scheduler takes the first of the candidates. */
  lemma SchedulerHandsOver(s: State, e: Event, u: State)
    requires !e.Slice? && (s.current in u.semAdd || s.current in u.free)
    requires u.ready == Seqs.Without(s.ready, Seqs.Elems(u.free))
    ensures HandsOver(s, e, Scheduler(u))
  {
    SchedulerKeepsResults(u);
    assert Candidates(s, e, Scheduler(u)) == u.ready;
  }

  lemma TerminateHandsOver(s: State)
    requires KernelInv.Inv(s) && s.mode.Running?
    ensures HandsOver(s, Terminate, Scheduler(Terminated(s)))
  {
    SurvivorsReady(s, ForestSpec.PostOrder(s.forest, s.current));
    SchedulerHandsOver(s, Terminate, Terminated(s));
  }

  /** The ready processes that survive a termination are those that are not free then. */
  lemma SurvivorsReady(s: State, order: seq<int>)
    requires KernelInv.ListsOk(s) && order != [] && order[|order| - 1] == s.current
    ensures var u := Kill(s, order); s.current in u.free && u.ready == Seqs.Without(s.ready, Seqs.Elems(u.free))
  {
    var u := Kill(s, order);
    assert s.current in order;
    forall x | x in s.ready
      ensures x in Seqs.Elems(order) <==> x in Seqs.Elems(u.free)
    {
      assert x !in s.free;
    }
    SameWithout(s.ready, Seqs.Elems(order), Seqs.Elems(u.free));
  }

  lemma {:induction false} SameWithout(q: seq<int>, a: set<int>, b: set<int>)
    requires forall x :: x in q ==> (x in a <==> x in b)
    ensures Seqs.Without(q, a) == Seqs.Without(q, b)
  {
    if q != [] {
      var first, rest := q[0], q[1..];
      assert q == [first] + rest && first in q;
      SameWithout(rest, a, b);
      assert Seqs.Without(rest, a) == Seqs.Without(rest, b) && (first in a <==> first in b);
    }
  }

  /** An entry that terminates nobody leaves the free list, or takes its head. */
  lemma ReadyStay(s: State, t: State)
    requires KernelInv.Inv(s) && forall p :: p in t.free ==> p in s.free
    ensures Seqs.Without(s.ready, Seqs.Elems(t.free)) == s.ready
  {
    Seqs.WithoutNone(s.ready, Seqs.Elems(t.free));
  }

  lemma SleepHandsOver(s: State, e: Event, u: State, a: int)
    requires KernelInv.Inv(s) && s.mode.Running? && !e.Slice? && !OutOfDescriptors(u, a)
    requires u.free == s.free && u.ready == s.ready && u.current == s.current
    ensures HandsOver(s, e, SleepOn(u, a))
  {
    var b := BlockCurrentAt(u, a);
    ReadyStay(s, b);
    SchedulerHandsOver(s, e, b);
  }

  lemma StaysOn(s: State, e: Event, t: State)
    requires KernelInv.Inv(s) && s.mode.Running? && !e.Slice? && KernelInv.Inv(t)
    requires t.current == s.current && t.mode.Running?
    ensures HandsOver(s, e, t)
  {
  }

  lemma SliceHandsOver(s: State)
    requires KernelInv.Inv(s) && s.mode.Running?
    ensures HandsOver(s, Slice, SliceInterrupt(s))
  {
    ReadyStay(s, SliceInterrupt(s));
  }

  lemma StepHandsOver(s: State, e: Event)
    requires KernelInv.Inv(s) && s.mode.Running? && Possible(s, e)
    ensures HandsOver(s, e, Step(s, e))
  {
    KernelSteps.StepKeepsInv(s, e);
    if e.Terminate? {
      TerminateHandsOver(s);
    } else if e.Slice? {
      SliceHandsOver(s);
    } else if Accounts.Sleeps(s, e, Accounts.SleepsAt(s, e)) {
      var a := Accounts.SleepsAt(s, e);
      KernelInv.DescriptorsSuffice(s, s.current, a);
      SleepHandsOver(s, e, if e.P? then Take(s, a) else CountSoft(Take(s, a), 1), a);
    } else {
      StaysOn(s, e, Step(s, e));
    }
  }

  /**
   * In every run: a process that an event neither blocks nor terminates keeps the processor
   * until the end of its time slice, interrupts included; after one that gives it up, the
   * first of the ready processes that are left runs.
   */
  lemma NextToRun(s0: State, es: seq<Event>, e: Event)
    requires KernelInv.Inv(s0) && KernelSteps.Run(s0, es).mode.Running? && Possible(KernelSteps.Run(s0, es), e)
    ensures var s := KernelSteps.Run(s0, es); HandsOver(s, e, Step(s, e))
  {
    StepHandsOver(KernelSteps.Run(s0, es), e);
  }

  // ---- Result registers ----------------------------------------------------------------------

  predicate SameResult(s: State, t: State, x: int) {
    (x in s.v0 <==> x in t.v0) && (x in s.v0 ==> t.v0[x] == s.v0[x])
  }

  /** The result register of `x` holds `v`. */
  predicate ResultIs(t: State, x: int, v: int) {
    x in t.v0 && t.v0[x] == v
  }

  /** `x` was waiting, and after the event it is not. */
  predicate WokenUp(s: State, t: State, x: int) {
    x in s.semAdd && x !in t.semAdd && x !in t.free
  }

  /** The result register of `x` after an event: a creator's, a process woken by a device, or unchanged. */
  ghost predicate ResultAfter(s: State, e: Event, t: State, x: int) {
    if e.Create? && x == s.current then ResultIs(t, x, if |t.free| < |s.free| then 0 else -1)
    else if e.Device? && WokenUp(s, t, x) then ResultIs(t, x, e.status)
    else SameResult(s, t, x)
  }

  lemma SchedulerKeepsResults(s: State)
    ensures var t := Scheduler(s); t.v0 == s.v0 && t.semAdd == s.semAdd && t.free == s.free && t.forest == s.forest
  {
  }

  lemma DeviceResult(s: State, i: int, e: Event, x: int)
    requires KernelInv.Inv(s) && e.Device? && (s.mode.Running? || s.mode.Waiting?) && 0 <= i < CLOCK
    ensures ResultAfter(s, e, WakeDevice(s, i, e.status), x)
  {
    var a := DevAddr(s, i);
    var q := Queue(s, a);
    if q != [] {
      assert q[0] in q;
      KernelInv.QueueMember(s, a, q[0]);
    }
  }

  lemma StepResult(s: State, e: Event, x: int)
    requires KernelInv.Inv(s) && Possible(s, e)
    ensures ResultAfter(s, e, Step(s, e), x)
  {
    if e.Device? {
      var i := SemIndex(e.line, e.no, e.recv);
      DeviceResult(s, i, e, x);
      SchedulerKeepsResults(WakeDevice(s, i, e.status));
    } else if !e.Create? {
      OthersKeepResults(s, e);
    }
  }

  lemma OthersKeepResults(s: State, e: Event)
    requires KernelInv.Inv(s) && Possible(s, e) && !e.Create? && !e.Device?
    ensures Step(s, e).v0 == s.v0 && (!e.Terminate? ==> Step(s, e).forest == s.forest)
  {
    match e
    case Terminate => SchedulerKeepsResults(Terminated(s));
    case P(a) => SleepKeepsResults(Take(s, a), a);
    case V(a) => VerhogenKeepsResults(s, a);
    case IoWait(line, no, recv) =>
      var a := DevAddr(s, SemIndex(line, no, recv));
      SleepKeepsResults(CountSoft(Take(s, a), 1), a);
    case ClockWait =>
      var a := DevAddr(s, CLOCK);
      SleepKeepsResults(CountSoft(Take(s, a), 1), a);
    case Slice => SchedulerKeepsResults(Enqueue(s, s.current));
    case Tick => SchedulerKeepsResults(WakeClock(s));
  }

  lemma SleepKeepsResults(s: State, a: int)
    ensures SleepOn(s, a).v0 == s.v0 && SleepOn(s, a).forest == s.forest
  {
    SchedulerKeepsResults(BlockCurrentAt(s, a));
  }

  lemma VerhogenKeepsResults(s: State, a: int)
    ensures Verhogen(s, a).v0 == s.v0 && Verhogen(s, a).forest == s.forest
  {
  }

  /**
   * In every run an event changes two kinds of result registers only: a creator's, to 0 or
   * to -1 when no PCB was free, and that of a process woken by a device, to its status.
   */
  lemma ResultsExactly(s0: State, es: seq<Event>, e: Event, x: int)
    requires KernelInv.Inv(s0) && Possible(KernelSteps.Run(s0, es), e)
    ensures var s := KernelSteps.Run(s0, es); ResultAfter(s, e, Step(s, e), x)
  {
    StepResult(KernelSteps.Run(s0, es), e, x);
  }

  // ---- Families ----------------------------------------------------------------------------------

  predicate SameParent(s: State, t: State, x: int) {
    (x in s.forest.parent <==> x in t.forest.parent) && (x in s.forest.parent ==> t.forest.parent[x] == s.forest.parent[x])
  }

  predicate SameChildren(s: State, t: State, x: int) {
    ForestSpec.Kids(t.forest, x) == ForestSpec.Kids(s.forest, x)
  }

  /** `x` has become the last child of the running process. */
  predicate Born(s: State, t: State, x: int) {
    && x in t.forest.parent && t.forest.parent[x] == s.current && ForestSpec.Kids(t.forest, x) == []
    && ForestSpec.Kids(t.forest, s.current) == ForestSpec.Kids(s.forest, s.current) + [x]
  }

  /**
   * In every run, an event other than a termination changes no family, except that a
   * creation with a free PCB makes that PCB the last child of its creator.
   */
  lemma FamiliesExactly(s0: State, es: seq<Event>, e: Event, x: int)
    requires KernelInv.Inv(s0) && Possible(KernelSteps.Run(s0, es), e) && !e.Terminate?
    ensures var s := KernelSteps.Run(s0, es); var t := Step(s, e);
            if e.Create? && x in s.free && x !in t.free then Born(s, t, x)
            else SameParent(s, t, x) && ((e.Create? && x == s.current) || SameChildren(s, t, x))
  {
    var s := KernelSteps.Run(s0, es);
    if e.Create? {
      CreateFamily(s, x);
    } else if e.Device? {
      SchedulerKeepsResults(WakeDevice(s, SemIndex(e.line, e.no, e.recv), e.status));
    } else {
      OthersKeepResults(s, e);
    }
  }

  lemma CreateFamily(s: State, x: int)
    requires KernelInv.Inv(s) && s.mode.Running?
    ensures var t := CreateProcess(s);
            if x in s.free && x !in t.free then Born(s, t, x)
            else SameParent(s, t, x) && (x == s.current || SameChildren(s, t, x))
  {
    if s.free != [] {
      var p := s.free[0];
      assert s.free == [p] + s.free[1..] && p in s.free;
      ForestSpec.AdoptKids(s.forest, s.current, p, x);
      ForestSpec.AdoptKids(s.forest, s.current, p, s.current);
    }
  }

  /**
   * In every run, whoever survives a termination keeps its parent and its children in their
   * order, except that the parent of the process that terminates loses that one child.
   */
  lemma SurvivorsKeepFamily(s0: State, es: seq<Event>, x: int)
    requires KernelInv.Inv(s0) && KernelSteps.Run(s0, es).mode.Running?
    requires var s := KernelSteps.Run(s0, es); !ForestSpec.Under(s.forest, s.current, x)
    ensures var s := KernelSteps.Run(s0, es); var t := Step(s, Terminate);
            && SameParent(s, t, x)
            && ForestSpec.Kids(t.forest, x) == Seqs.Without(ForestSpec.Kids(s.forest, x), {s.current})
  {
    var s := KernelSteps.Run(s0, es);
    var order := ForestSpec.PostOrder(s.forest, s.current);
    var d := Seqs.Elems(order);
    SchedulerKeepsResults(Terminated(s));
    assert Step(s, Terminate).forest == ForestSpec.Prune(s.forest, d);
    SurvivorsChildren(s.forest, s.current, x);
    ForestSpec.PostOrderIsSubtree(s.forest, s.current, x);
    ForestSpec.PruneKids(s.forest, d, x);
  }

  /** A survivor's child is terminated only if it is the root of the subtree. */
  lemma SurvivorsChildren(f: ForestSpec.Forest, r: int, x: int)
    requires ForestSpec.ForestOk(f) && !ForestSpec.Under(f, r, x)
    ensures Seqs.Without(ForestSpec.Kids(f, x), Seqs.Elems(ForestSpec.PostOrder(f, r))) == Seqs.Without(ForestSpec.Kids(f, x), {r})
  {
    var order := ForestSpec.PostOrder(f, r);
    forall c | c in ForestSpec.Kids(f, x)
      ensures c in order <==> c == r
    {
      ForestSpec.PostOrderIsSubtree(f, r, c);
      assert c in f.parent && f.parent[c] == x;
    }
    SameWithout(ForestSpec.Kids(f, x), Seqs.Elems(order), {r});
  }

  // ---- Order of termination --------------------------------------------------------------------

  /**
   * In every run termination appends the descendants to the free list bottom-up: a process
   * is freed after all its children, and the running process last.
   */
  lemma FreedBottomUp(s0: State, es: seq<Event>, c: int)
    requires KernelInv.Inv(s0) && KernelSteps.Run(s0, es).mode.Running?
    ensures var s := KernelSteps.Run(s0, es); var t := Step(s, Terminate); var k := |s.free|;
            && k < |t.free| && t.free[..k] == s.free && t.free[|t.free| - 1] == s.current
            && (c in t.free[k..] && c != s.current ==>
                  c in s.forest.parent && Seqs.Precedes(t.free[k..], c, s.forest.parent[c]))
  {
    var s := KernelSteps.Run(s0, es);
    var order := ForestSpec.PostOrder(s.forest, s.current);
    SchedulerKeepsResults(Terminated(s));
    var free := Step(s, Terminate).free;
    assert free == s.free + order && free[|s.free|..] == order;
    assert order[|order| - 1] == s.current;
    if c in order && c != s.current {
      ForestSpec.PostOrderBottomUp(s.forest, s.current, c);
    }
  }
}
