// The scheduler's PANIC is a sound deadlock verdict: when it happens no live process
// waits for a device or the clock, and no interrupt can make any of them ready again.
module Deadlock {
  import ForestSpec
  import opened KernelState
  import Queues
  import KernelInv
  import KernelSteps
  import opened Accounts

  /** Every device interrupt answers an earlier IOWAIT on its semaphore, a different one each time. */
  ghost predicate Answers(h: History, e: Event) {
    e.Device? && DeviceLine(e.line, e.no) ==>
      var a := DevAddr(h.now, SemIndex(e.line, e.no, e.recv));
      Cnt(h.irqs, a) < Cnt(h.ios, a)
  }

  ghost predicate Disciplined(h: History, es: seq<Event>)
    requires KernelInv.Inv(h.now)
    decreases |es|
  {
    es != [] ==> Answers(h, es[0]) && Disciplined(Next(h, es[0]), es[1..])
  }

  /** Interrupts without a waiter are those whose waiter had been killed. */
  predicate Settled(h: History, i: int) {
    var a := DevAddr(h.now, i);
    0 <= Cnt(h.idle, a) <= Cnt(h.killed, a)
  }

  lemma SettledAfter(h: History, e: Event, g: History, v: int, i: int)
    requires ForestSpec.ForestOk(h.now.forest) && Possible(h.now, e) && After(h, e, g, DevAddr(h.now, i))
    requires 0 <= i < DEVICE_NUM && Answers(h, e)
    requires i < CLOCK ==> DeviceLaw(h, v, i)
    requires Settled(h, i)
    ensures Settled(g, i)
  {
    match e
    case IoWait(line, no, recv) => DeviceAddresses(h.now, line, no, recv);
    case Device(line, no, recv, _) => DeviceAddresses(h.now, line, no, recv);
    case _ =>
  }

  ghost predicate AllSettled(h: History) {
    forall i :: 0 <= i < DEVICE_NUM ==> Settled(h, i)
  }

  lemma SettledNext(s0: State, h: History, e: Event)
    requires GoodStart(s0) && Books(s0, h) && AllSettled(h) && Answers(h, e)
    ensures AllSettled(Next(h, e))
  {
    if Possible(h.now, e) {
      forall i | 0 <= i < DEVICE_NUM
        ensures Settled(Next(h, e), i)
      {
        NextIsAfter(h, e, DevAddr(h.now, i));
        SettledAfter(h, e, Next(h, e), Val(s0, DevAddr(s0, i)), i);
      }
    }
  }

  lemma {:induction false} SettledAlways(s0: State, h: History, es: seq<Event>)
    requires GoodStart(s0) && Books(s0, h) && AllSettled(h) && Disciplined(h, es)
    ensures AllSettled(Record(h, es))
    decreases |es|
  {
    if es != [] {
      SettledNext(s0, h, es[0]);
      BooksNext(s0, h, es[0]);
      SettledAlways(s0, Next(h, es[0]), es[1..]);
    }
  }

  /** Settled books make softBlockedCount an upper bound on every device queue. */
  lemma {:induction false} SharesBound(h: History, k: nat, i: nat)
    requires AllSettled(h) && k <= DEVICE_NUM
    ensures Shares(h, k) >= 0
    ensures i < k ==> |Queue(h.now, DevAddr(h.now, i))| <= Shares(h, k)
  {
    if k > 0 {
      assert Settled(h, k - 1);
      SharesBound(h, k - 1, i);
    }
  }

  // ---- What interrupts alone can do -------------------------------------------------

  /** The part of an interrupt handler that wakes processes. */
  function Wake(s: State, e: Event): State {
    match e
    case Tick => WakeClock(s)
    case Device(line, no, recv, status) =>
      if DeviceLine(line, no) then WakeDevice(s, SemIndex(line, no, recv), status) else s
    case _ => s
  }

  function WakeAll(s: State, es: seq<Event>): State
    decreases |es|
  {
    if es == [] then s else WakeAll(Wake(s, es[0]), es[1..])
  }

  predicate NoDeviceWaiter(s: State) {
    forall i :: 0 <= i < DEVICE_NUM ==> Queue(s, DevAddr(s, i)) == []
  }

  lemma OneWakeIsFutile(s: State, e: Event, i: int)
    requires NoDeviceWaiter(s) && s.ready == [] && 0 <= i < DEVICE_NUM
    ensures Queue(Wake(s, e), DevAddr(s, i)) == []
    ensures var t := Wake(s, e); t.ready == [] && t.semAdd == s.semAdd && t.dev == s.dev
  {
    assert Queue(s, DevAddr(s, i)) == [] && Queue(s, DevAddr(s, CLOCK)) == [];
    if e.Device? && DeviceLine(e.line, e.no) {
      assert Queue(s, DevAddr(s, SemIndex(e.line, e.no, e.recv))) == [];
    }
  }

  lemma {:induction false} WakingIsFutile(s: State, es: seq<Event>)
    requires NoDeviceWaiter(s) && s.ready == []
    ensures NoDeviceWaiter(WakeAll(s, es)) && WakeAll(s, es).ready == []
    ensures WakeAll(s, es).semAdd == s.semAdd
    decreases |es|
  {
    if es != [] {
      var t := Wake(s, es[0]);
      OneWakeIsFutile(s, es[0], 0);
      forall i | 0 <= i < DEVICE_NUM
        ensures Queue(t, DevAddr(t, i)) == []
      {
        OneWakeIsFutile(s, es[0], i);
      }
      WakingIsFutile(t, es[1..]);
    }
  }

  // ---- The verdict ---------------------------------------------------------------------

  /** Live processes exist, and each of them waits on an ordinary semaphore that nobody is left to raise. */
  ghost predicate Stuck(s: State) {
    && s.procs > 0 && s.ready == [] && Runner(s) == Queues.NULL && NoDeviceWaiter(s)
    && (forall p :: 0 <= p < s.n && p !in s.free ==> p in s.semAdd && !IsDeviceSem(s, s.semAdd[p]))
  }

  ghost predicate IsDeviceSem(s: State, a: int) {
    exists i :: 0 <= i < DEVICE_NUM && a == DevAddr(s, i)
  }

  /** In every run whose device interrupts answer IOWAITs, PANIC by the scheduler means deadlock. */
  lemma PanicMeansDeadlock(s0: State, es: seq<Event>, later: seq<Event>)
    requires GoodStart(s0) && Disciplined(Start(s0), es)
    requires KernelSteps.Run(s0, es).mode.Deadlocked?
    ensures Stuck(KernelSteps.Run(s0, es))
    ensures WakeAll(KernelSteps.Run(s0, es), later).ready == []
  {
    var h := Record(Start(s0), es);
    RecordIsRun(Start(s0), es);
    BooksStart(s0);
    BooksAlways(s0, Start(s0), es);
    SettledAlways(s0, Start(s0), es);
    var s := h.now;
    forall i | 0 <= i < DEVICE_NUM
      ensures Queue(s, DevAddr(s, i)) == []
    {
      SharesBound(h, DEVICE_NUM, i);
    }
    forall p | 0 <= p < s.n && p !in s.free
      ensures p in s.semAdd && !IsDeviceSem(s, s.semAdd[p])
    {
      KernelInv.QueueMember(s, s.semAdd[p], p);
    }
    WakingIsFutile(s, later);
  }

  /** softBlockedCount is the number of waiting processes if and only if as many were killed waiting as interrupts found nobody. */
  lemma SoftCountExact(s0: State, es: seq<Event>)
    requires GoodStart(s0)
    ensures var h := Record(Start(s0), es);
            h.now.soft == Waiters(h.now, DEVICE_NUM) <==> Total(h, h.killed, DEVICE_NUM) == Total(h, h.idle, DEVICE_NUM)
  {
    BooksStart(s0);
    BooksAlways(s0, Start(s0), es);
    SharesAreWaiters(Record(Start(s0), es), DEVICE_NUM);
  }

  /** Processes blocked on the first `k` device semaphores. */
  function Waiters(s: State, k: nat): int {
    if k == 0 then 0 else Waiters(s, k - 1) + |Queue(s, DevAddr(s, k - 1))|
  }

  /** Events counted at the first `k` device semaphores. */
  function Total(h: History, c: Counter, k: nat): int {
    if k == 0 then 0 else Total(h, c, k - 1) + Cnt(c, DevAddr(h.now, k - 1))
  }

  lemma {:induction false} SharesAreWaiters(h: History, k: nat)
    ensures Shares(h, k) == Waiters(h.now, k) + Total(h, h.killed, k) - Total(h, h.idle, k)
  {
    if k > 0 {
      SharesAreWaiters(h, k - 1);
    }
  }

  // ---- The converse ---------------------------------------------------------------------------

  /** Processes waiting for a device or the clock, plus killed waiters, minus interrupts that found none. */
  function Awaited(h: History): int {
    Waiters(h.now, DEVICE_NUM) + Total(h, h.killed, DEVICE_NUM) - Total(h, h.idle, DEVICE_NUM)
  }

  /**
   * With nothing ready and processes left, the scheduler panics if and only if nothing is
   * awaited by its count. So it is when the machine has stopped dispatching.
   */
  lemma VerdictExact(s0: State, es: seq<Event>)
    requires GoodStart(s0)
    ensures var h := Record(Start(s0), es); var s := h.now;
            && s == KernelSteps.Run(s0, es)
            && (s.ready == [] && s.procs > 0 ==> (Scheduler(s).mode.Deadlocked? <==> Awaited(h) <= 0))
            && (s.mode.Waiting? || s.mode.Deadlocked? ==> (s.mode.Deadlocked? <==> Awaited(h) <= 0))
  {
    RecordIsRun(Start(s0), es);
    BooksStart(s0);
    BooksAlways(s0, Start(s0), es);
    SharesAreWaiters(Record(Start(s0), es), DEVICE_NUM);
  }

  /** A deadlock goes unnoticed if and only if more waiters were killed than interrupts found none. */
  lemma DeadlockMissedExactly(s0: State, es: seq<Event>)
    requires GoodStart(s0)
    ensures var h := Record(Start(s0), es); var s := h.now;
            Stuck(s) && (s.mode.Waiting? || s.mode.Deadlocked?) ==>
              (s.mode.Waiting? <==> Total(h, h.killed, DEVICE_NUM) > Total(h, h.idle, DEVICE_NUM))
  {
    VerdictExact(s0, es);
    var h := Record(Start(s0), es);
    if Stuck(h.now) {
      NoWaiters(h.now, DEVICE_NUM);
    }
  }

  lemma {:induction false} NoWaiters(s: State, k: nat)
    requires NoDeviceWaiter(s) && k <= DEVICE_NUM
    ensures Waiters(s, k) == 0
  {
    if k > 0 {
      NoWaiters(s, k - 1);
    }
  }
}
