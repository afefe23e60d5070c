// Bookkeeping over whole runs: how semaphore values, queue lengths and
// softBlockedCount relate to what has happened so far. A History is a kernel state
// together with counters of past events; the kernel itself keeps none of them.
module Accounts {
  import Seqs
  import opened ForestSpec
  import opened KernelState
  import opened KernelInv
  import KernelSteps

  type Counter = map<int, int>

  function Cnt(c: Counter, a: int): int {
    if a in c then c[a] else 0
  }

  function Bump(c: Counter, a: int): Counter {
    c[a := Cnt(c, a) + 1]
  }

  datatype History = History(
    now: State,
    time: nat,            // events so far
    passed: Counter,      // P's on a semaphore that are over: returned at once, or woken by a V
    vs: Counter,          // V's on a semaphore
    ios: Counter,         // IOWAITs on a device semaphore
    irqs: Counter,        // interrupts of its device
    idle: Counter,        // those of them that found no waiter
    killed: Counter,      // processes terminated while blocked on a semaphore
    since: map<int, nat>) // when a process last started to wait

  function Start(s: State): History {
    History(s, 0, map[], map[], map[], map[], map[], map[], map[])
  }

  function AddKilled(s: State, killed: Counter, d: set<int>): Counter {
    map a | a in killed.Keys + s.queues.Keys :: Cnt(killed, a) + BlockedIn(s, a, d)
  }

  /** The running process goes to sleep on `a`. */
  predicate Sleeps(s: State, e: Event, a: int) {
    match e
    case P(b) => a == b && Val(s, a) <= 0
    case IoWait(line, no, recv) => a == DevAddr(s, SemIndex(line, no, recv))
    case ClockWait => a == DevAddr(s, CLOCK) && Val(s, a) <= 0
    case _ => false
  }

  function SleepsAt(s: State, e: Event): int {
    match e
    case P(a) => a
    case IoWait(line, no, recv) => DevAddr(s, SemIndex(line, no, recv))
    case _ => DevAddr(s, CLOCK)
  }

  ghost function Counted(h: History, e: Event): History
    requires ForestOk(h.now.forest)
  {
    var s := h.now;
    match e
    case Terminate => h.(killed := AddKilled(s, h.killed, Seqs.Elems(PostOrder(s.forest, s.current))))
    case P(a) => if Val(s, a) > 0 then h.(passed := Bump(h.passed, a)) else h
    case V(a) =>
      h.(vs := Bump(h.vs, a), passed := if Queue(s, a) == [] then h.passed else Bump(h.passed, a))
    case IoWait(line, no, recv) => h.(ios := Bump(h.ios, DevAddr(s, SemIndex(line, no, recv))))
    case Device(line, no, recv, _) =>
      var a := DevAddr(s, SemIndex(line, no, recv));
      h.(irqs := Bump(h.irqs, a), idle := if Queue(s, a) == [] then Bump(h.idle, a) else h.idle)
    case _ => h
  }

  ghost function Next(h: History, e: Event): History
    requires Inv(h.now)
    ensures Inv(Next(h, e).now)
  {
    KernelSteps.StepKeepsInv(h.now, e);
    if !Possible(h.now, e) then h
    else
      var s := h.now;
      Counted(h, e).(now := Step(s, e), time := h.time + 1,
                     since := if Sleeps(s, e, SleepsAt(s, e)) then h.since[s.current := h.time] else h.since)
  }

  ghost function Record(h: History, es: seq<Event>): (g: History)
    requires Inv(h.now)
    ensures Inv(g.now)
    decreases |es|
  {
    if es == [] then h else Record(Next(h, es[0]), es[1..])
  }

  /** The recorded state is the state of the run. */
  lemma {:induction false} RecordIsRun(h: History, es: seq<Event>)
    requires Inv(h.now)
    ensures Record(h, es).now == KernelSteps.Run(h.now, es)
    decreases |es|
  {
    if es != [] {
      RecordIsRun(Next(h, es[0]), es[1..]);
    }
  }

  // ---- Summary of one event -----------------------------------------------------------

  /** Waiters of `b` that the event kills. */
  ghost function Kills(s: State, e: Event, b: int): int
    requires ForestOk(s.forest)
  {
    if e.Terminate? then BlockedIn(s, b, Seqs.Elems(PostOrder(s.forest, s.current))) else 0
  }

  /** The event takes a unit from `b`, whether or not the process then sleeps. */
  predicate Takes(s: State, e: Event, b: int) {
    match e
    case P(a) => a == b
    case IoWait(line, no, recv) => b == DevAddr(s, SemIndex(line, no, recv))
    case ClockWait => b == DevAddr(s, CLOCK)
    case _ => false
  }

  /** The event makes the oldest waiter of `b` ready. */
  predicate Wakes(s: State, e: Event, b: int) {
    match e
    case V(a) => a == b && Queue(s, b) != []
    case Device(line, no, recv, _) =>
      b == DevAddr(s, SemIndex(line, no, recv)) && Val(s, b) <= 0 && Queue(s, b) != []
    case _ => false
  }

  predicate Drains(s: State, e: Event, b: int) {
    e.Tick? && b == DevAddr(s, CLOCK)
  }

  predicate IsP(e: Event, b: int) {
    e.P? && e.a == b
  }

  predicate IsV(e: Event, b: int) {
    e.V? && e.a == b
  }

  function One(b: bool): int {
    if b then 1 else 0
  }

  /** The queue of `b` after the event: arrivals join at the end, the oldest leaves first, survivors keep their order. */
  ghost function NewQueue(s: State, e: Event, b: int): seq<int>
    requires ForestOk(s.forest)
  {
    var q := Queue(s, b);
    if Drains(s, e, b) then []
    else if Sleeps(s, e, b) then q + [s.current]
    else if Wakes(s, e, b) && q != [] then q[1..]
    else if e.Terminate? then Seqs.Without(q, Seqs.Elems(PostOrder(s.forest, s.current)))
    else q
  }

  /** Queue, value and softBlockedCount after the event. */
  ghost predicate Summary(s: State, e: Event, t: State, b: int)
    requires ForestOk(s.forest)
  {
    && t.dev == s.dev && t.n == s.n && Kills(s, e, b) >= 0
    && Queue(t, b) == NewQueue(s, e, b)
    && Val(t, b) == (if Drains(s, e, b) then 0
                     else Val(s, b) + Kills(s, e, b) + One(Wakes(s, e, b) || IsV(e, b)) - One(Takes(s, e, b)))
    && t.soft == s.soft + One(!e.P? && Sleeps(s, e, SleepsAt(s, e))) - One(e.Device?)
                 - (if e.Tick? then |Queue(s, DevAddr(s, CLOCK))| else 0)
  }

  // ---- What one event does to one semaphore ---------------------------------------

  lemma SchedulerKeepsSems(s: State)
    ensures var t := Scheduler(s);
            t.queues == s.queues && t.sem == s.sem && t.soft == s.soft && t.dev == s.dev && t.n == s.n
  {
  }

  /** `t` differs from `s` only in what the scheduler and the process tables change. */
  lemma SummaryVia(s: State, e: Event, u: State, t: State, b: int)
    requires ForestOk(s.forest) && Summary(s, e, u, b)
    requires t.queues == u.queues && t.sem == u.sem && t.soft == u.soft && t.dev == u.dev && t.n == u.n
    ensures Summary(s, e, t, b)
  {
  }

  lemma QuietSummary(s: State, e: Event, b: int)
    requires Inv(s) && Possible(s, e) && (e.Create? || e.Slice?)
    ensures Summary(s, e, Step(s, e), b)
  {
    assert Summary(s, e, s, b);
    if e.Slice? {
      SchedulerKeepsSems(Enqueue(s, s.current));
    }
    SummaryVia(s, e, s, Step(s, e), b);
  }

  /** The running process takes a unit from `a` and, if `sleep`, is blocked on it. */
  lemma SleepSummary(s: State, e: Event, a: int, b: int)
    requires ForestOk(s.forest) && (e.P? || e.IoWait? || e.ClockWait?)
    requires a == SleepsAt(s, e) && Sleeps(s, e, a) && !OutOfDescriptors(s, a)
    ensures Summary(s, e, SleepOn(CountSoft(Take(s, a), One(!e.P?)), a), b)
  {
    var u := CountSoft(Take(s, a), One(!e.P?));
    assert Queue(BlockCurrentAt(u, a), b) == if b == a then Queue(s, a) + [s.current] else Queue(s, b);
    SchedulerKeepsSems(BlockCurrentAt(u, a));
    SummaryVia(s, e, BlockCurrentAt(u, a), Scheduler(BlockCurrentAt(u, a)), b);
  }

  /** The running process takes a unit from `a` without sleeping. */
  lemma TakeSummary(s: State, e: Event, a: int, b: int)
    requires ForestOk(s.forest) && (e.P? || e.ClockWait?) && a == SleepsAt(s, e) && !Sleeps(s, e, a)
    ensures Summary(s, e, Take(s, a), b)
  {
  }

  lemma PSummary(s: State, a: int, b: int)
    requires Inv(s) && Possible(s, P(a))
    ensures Summary(s, P(a), Passeren(s, a), b)
  {
    if Val(s, a) <= 0 {
      DescriptorsSuffice(s, s.current, a);
      SleepSummary(s, P(a), a, b);
      assert CountSoft(Take(s, a), 0) == Take(s, a);
    } else {
      TakeSummary(s, P(a), a, b);
    }
  }

  lemma IoSummary(s: State, e: Event, i: int, b: int)
    requires Inv(s) && s.mode.Running? && e.IoWait? && i == SemIndex(e.line, e.no, e.recv)
    ensures Summary(s, e, WaitForIO(s, i), b)
  {
    var a := DevAddr(s, i);
    DescriptorsSuffice(s, s.current, a);
    SleepSummary(s, e, a, b);
  }

  lemma ClockSummary(s: State, b: int)
    requires Inv(s) && s.mode.Running?
    ensures Summary(s, ClockWait, WaitForClock(s), b)
  {
    var a := DevAddr(s, CLOCK);
    if Val(s, a) <= 0 {
      DescriptorsSuffice(s, s.current, a);
      SleepSummary(s, ClockWait, a, b);
    } else {
      TakeSummary(s, ClockWait, a, b);
    }
  }

  lemma VSummary(s: State, a: int, b: int)
    requires Inv(s) && Possible(s, V(a))
    ensures Summary(s, V(a), Verhogen(s, a), b)
  {
  }

  lemma TickSummary(s: State, b: int)
    requires Inv(s) && Possible(s, Tick)
    ensures Summary(s, Tick, Resume(WakeClock(s)), b)
  {
    assert Summary(s, Tick, WakeClock(s), b);
    SchedulerKeepsSems(WakeClock(s));
    SummaryVia(s, Tick, WakeClock(s), Resume(WakeClock(s)), b);
  }

  lemma DeviceSummary(s: State, line: int, no: int, recv: bool, status: int, b: int)
    requires Inv(s) && Possible(s, Device(line, no, recv, status))
    ensures Summary(s, Device(line, no, recv, status), Resume(WakeDevice(s, SemIndex(line, no, recv), status)), b)
  {
    var e := Device(line, no, recv, status);
    var t := WakeDevice(s, SemIndex(line, no, recv), status);
    assert Summary(s, e, t, b);
    SchedulerKeepsSems(t);
    SummaryVia(s, e, t, Resume(t), b);
  }

  lemma TerminateSummary(s: State, b: int)
    requires Inv(s) && s.mode.Running?
    ensures Summary(s, Terminate, Scheduler(Terminated(s)), b)
  {
    var order := PostOrder(s.forest, s.current);
    KernelSteps.KilledQueue(s, order, b);
    if b !in s.sem {
      assert b !in s.queues;
      assert Seqs.Without([], Seqs.Elems(order)) == [];
    }
    assert Summary(s, Terminate, Terminated(s), b);
    SchedulerKeepsSems(Terminated(s));
    SummaryVia(s, Terminate, Terminated(s), Scheduler(Terminated(s)), b);
  }

  lemma SummaryHolds(s: State, e: Event, b: int)
    requires Inv(s) && Possible(s, e)
    ensures Summary(s, e, Step(s, e), b)
  {
    match e
    case Create => QuietSummary(s, e, b);
    case Slice => QuietSummary(s, e, b);
    case Terminate => TerminateSummary(s, b);
    case P(a) => PSummary(s, a, b);
    case V(a) => VSummary(s, a, b);
    case IoWait(line, no, recv) => IoSummary(s, e, SemIndex(line, no, recv), b);
    case ClockWait => ClockSummary(s, b);
    case Tick => TickSummary(s, b);
    case Device(line, no, recv, status) => DeviceSummary(s, line, no, recv, status, b);
  }

  // ---- What one event does to the counters of one semaphore --------------------------

  predicate InterruptAt(s: State, e: Event, b: int) {
    e.Device? && b == DevAddr(s, SemIndex(e.line, e.no, e.recv))
  }

  ghost predicate Tally(h: History, e: Event, g: History, b: int)
    requires ForestOk(h.now.forest)
  {
    var s := h.now;
    && Cnt(g.vs, b) == Cnt(h.vs, b) + One(IsV(e, b))
    && Cnt(g.passed, b) == Cnt(h.passed, b) + One((IsP(e, b) && Val(s, b) > 0) || (IsV(e, b) && Queue(s, b) != []))
    && Cnt(g.ios, b) == Cnt(h.ios, b) + One(e.IoWait? && Takes(s, e, b))
    && Cnt(g.irqs, b) == Cnt(h.irqs, b) + One(InterruptAt(s, e, b))
    && Cnt(g.idle, b) == Cnt(h.idle, b) + One(InterruptAt(s, e, b) && Queue(s, b) == [])
    && Cnt(g.killed, b) == Cnt(h.killed, b) + Kills(s, e, b)
  }

  lemma KilledCount(s: State, killed: Counter, d: set<int>, a: int)
    ensures Cnt(AddKilled(s, killed, d), a) == Cnt(killed, a) + BlockedIn(s, a, d)
  {
    assert Seqs.Without([], d) == [];
  }

  lemma TallyTerminate(h: History, b: int)
    requires ForestOk(h.now.forest)
    ensures Tally(h, Terminate, Counted(h, Terminate), b)
  {
    KilledCount(h.now, h.killed, Seqs.Elems(PostOrder(h.now.forest, h.now.current)), b);
  }

  lemma BumpAt(c: Counter, a: int, b: int)
    ensures Cnt(Bump(c, a), b) == Cnt(c, b) + One(a == b)
  {
  }

  lemma TallyP(h: History, a: int, b: int)
    requires ForestOk(h.now.forest)
    ensures Tally(h, P(a), Counted(h, P(a)), b)
  {
    BumpAt(h.passed, a, b);
  }

  lemma TallyV(h: History, a: int, b: int)
    requires ForestOk(h.now.forest)
    ensures Tally(h, V(a), Counted(h, V(a)), b)
  {
    BumpAt(h.vs, a, b);
    BumpAt(h.passed, a, b);
    var g := Counted(h, V(a));
    assert g.ios == h.ios && g.irqs == h.irqs && g.idle == h.idle && g.killed == h.killed;
  }

  lemma TallyDevice(h: History, e: Event, b: int)
    requires ForestOk(h.now.forest) && (e.IoWait? || e.Device?)
    ensures Tally(h, e, Counted(h, e), b)
  {
  }

  lemma TallyHolds(h: History, e: Event, b: int)
    requires ForestOk(h.now.forest)
    ensures Tally(h, e, Counted(h, e), b)
  {
    match e
    case Terminate => TallyTerminate(h, b);
    case P(a) => TallyP(h, a, b);
    case V(a) => TallyV(h, a, b);
    case IoWait(_, _, _) => TallyDevice(h, e, b);
    case Device(_, _, _, _) => TallyDevice(h, e, b);
    case _ =>
  }

  /** Everything the laws need to know about one event at address `b`. */
  ghost predicate After(h: History, e: Event, g: History, b: int)
    requires ForestOk(h.now.forest)
  {
    Summary(h.now, e, g.now, b) && Tally(h, e, g, b)
  }

  lemma NextIsAfter(h: History, e: Event, b: int)
    requires Inv(h.now) && Possible(h.now, e)
    ensures After(h, e, Next(h, e), b)
  {
    SummaryHolds(h.now, e, b);
    TallyHolds(h, e, b);
    var g := Next(h, e);
    var c := Counted(h, e);
    assert g.vs == c.vs && g.passed == c.passed && g.ios == c.ios && g.irqs == c.irqs && g.idle == c.idle && g.killed == c.killed;
  }

  // ---- The laws ------------------------------------------------------------------------

  function Debt(x: int): int {
    if x < 0 then -x else 0
  }

  /** P/V semaphore: its debt is its number of waiters; `k` plus V's pays for every finished P. */
  predicate UserLaw(h: History, k: int, a: int) {
    && |Queue(h.now, a)| == Debt(Val(h.now, a))
    && Val(h.now, a) == k + Cnt(h.vs, a) - Cnt(h.passed, a) - |Queue(h.now, a)|
  }

  /** The interval timer's semaphore. */
  predicate ClockLaw(h: History) {
    |Queue(h.now, DevAddr(h.now, CLOCK))| == Debt(Val(h.now, DevAddr(h.now, CLOCK)))
  }

  /** Device semaphore with initial value `v`: waiters, value, and what became of every IOWAIT and interrupt. */
  predicate DeviceLaw(h: History, v: int, i: int) {
    var a := DevAddr(h.now, i);
    && |Queue(h.now, a)| == v - Val(h.now, a)
    && Cnt(h.irqs, a) - Cnt(h.idle, a) == Cnt(h.ios, a) - Cnt(h.killed, a) - |Queue(h.now, a)|
  }

  /** A semaphore descriptor is one of the 49 device semaphores or somebody else's word. */
  lemma DeviceAddresses(s: State, line: int, no: int, recv: bool)
    requires DeviceLine(line, no)
    ensures IsDevice(s, DevAddr(s, SemIndex(line, no, recv))) && SemIndex(line, no, recv) < CLOCK
    ensures IsDevice(s, DevAddr(s, CLOCK))
  {
  }

  lemma UserLawAfter(h: History, e: Event, g: History, k: int, a: int)
    requires ForestOk(h.now.forest) && Possible(h.now, e) && After(h, e, g, a)
    requires UserSem(h.now, a) && UserLaw(h, k, a)
    ensures UserLaw(g, k, a) && UserSem(g.now, a)
  {
    match e
    case IoWait(line, no, recv) => DeviceAddresses(h.now, line, no, recv);
    case Device(line, no, recv, _) => DeviceAddresses(h.now, line, no, recv);
    case _ =>
  }

  lemma ClockLawAfter(h: History, e: Event, g: History)
    requires ForestOk(h.now.forest) && Possible(h.now, e) && After(h, e, g, DevAddr(h.now, CLOCK))
    requires ClockLaw(h)
    ensures ClockLaw(g)
  {
    match e
    case IoWait(line, no, recv) => DeviceAddresses(h.now, line, no, recv);
    case Device(line, no, recv, _) => DeviceAddresses(h.now, line, no, recv);
    case _ =>
  }

  lemma DeviceLawAfter(h: History, e: Event, g: History, v: int, i: int)
    requires ForestOk(h.now.forest) && Possible(h.now, e) && After(h, e, g, DevAddr(h.now, i))
    requires 0 <= i < CLOCK && 0 <= v <= 1 && DeviceLaw(h, v, i)
    ensures DeviceLaw(g, v, i)
  {
    var a := DevAddr(h.now, i);
    match e
    case IoWait(line, no, recv) => DeviceAddresses(h.now, line, no, recv);
    case Device(line, no, recv, _) => DeviceAddresses(h.now, line, no, recv);
    case _ =>
  }

  // ---- softBlockedCount ------------------------------------------------------------------

  /** What device semaphore `i` contributes: waiters, plus killed waiters, minus interrupts without a waiter. */
  function Share(h: History, i: int): int {
    var a := DevAddr(h.now, i);
    |Queue(h.now, a)| + Cnt(h.killed, a) - Cnt(h.idle, a)
  }

  function Shares(h: History, k: nat): int {
    if k == 0 then 0 else Shares(h, k - 1) + Share(h, k - 1)
  }

  predicate SoftLaw(h: History) {
    h.now.soft == Shares(h, DEVICE_NUM)
  }

  lemma {:induction false} SharesDiffer(h: History, g: History, k: nat, j: int, change: int)
    requires forall i :: 0 <= i < k ==> Share(g, i) == Share(h, i) + (if i == j then change else 0)
    ensures Shares(g, k) == Shares(h, k) + (if 0 <= j < k then change else 0)
  {
    if k > 0 {
      SharesDiffer(h, g, k - 1, j, change);
    }
  }

  /** The device semaphore whose share an event changes. */
  function Touches(e: Event): int {
    match e
    case IoWait(line, no, recv) => SemIndex(line, no, recv)
    case Device(line, no, recv, _) => SemIndex(line, no, recv)
    case _ => CLOCK
  }

  /** A waiting process keeps a device semaphore at or below zero, so its interrupt wakes it. */
  predicate InterruptsWake(s: State, i: int) {
    Queue(s, DevAddr(s, i)) != [] ==> Val(s, DevAddr(s, i)) <= 0
  }

  lemma ShareAfter(h: History, e: Event, g: History, i: int)
    requires ForestOk(h.now.forest) && Possible(h.now, e) && After(h, e, g, DevAddr(h.now, i))
    requires 0 <= i < DEVICE_NUM && Layout(h.now)
    requires i < CLOCK ==> InterruptsWake(h.now, i)
    ensures Share(g, i) == Share(h, i) + (if i == Touches(e) then g.now.soft - h.now.soft else 0)
  {
    var a := DevAddr(h.now, i);
    match e
    case IoWait(line, no, recv) => DeviceAddresses(h.now, line, no, recv);
    case Device(line, no, recv, _) => DeviceAddresses(h.now, line, no, recv);
    case _ =>
  }

  lemma SoftLawNext(h: History, e: Event)
    requires Inv(h.now) && SoftLaw(h)
    requires forall i :: 0 <= i < CLOCK ==> InterruptsWake(h.now, i)
    ensures SoftLaw(Next(h, e))
  {
    if Possible(h.now, e) {
      var g := Next(h, e);
      var change := g.now.soft - h.now.soft;
      forall i | 0 <= i < DEVICE_NUM
        ensures Share(g, i) == Share(h, i) + (if i == Touches(e) then change else 0)
      {
        NextIsAfter(h, e, DevAddr(h.now, i));
        ShareAfter(h, e, g, i);
      }
      SharesDiffer(h, g, DEVICE_NUM, Touches(e), change);
      if e.IoWait? || e.Device? {
        KernelSteps.SemIndexRange(e.line, e.no, e.recv);
      }
    }
  }

  // ---- Over whole runs --------------------------------------------------------------------

  /** Initial values of the semaphores: device semaphores 0 or 1, the others not negative. */
  ghost predicate GoodStart(s: State) {
    && Inv(s) && s.queues == map[] && s.soft == 0
    && (forall a :: !IsDevice(s, a) ==> Val(s, a) >= 0)
    && (forall i :: 0 <= i < CLOCK ==> 0 <= Val(s, DevAddr(s, i)) <= 1)
    && Val(s, DevAddr(s, CLOCK)) >= 0
  }

  /** All laws at once, relative to the start state `s0`. */
  ghost predicate Books(s0: State, h: History) {
    && Inv(h.now) && h.now.dev == s0.dev
    && (forall a :: UserSem(s0, a) ==> UserLaw(h, Val(s0, a), a))
    && ClockLaw(h)
    && (forall i :: 0 <= i < CLOCK ==> DeviceLaw(h, Val(s0, DevAddr(s0, i)), i))
    && SoftLaw(h)
  }

  lemma BooksWake(s0: State, h: History)
    requires GoodStart(s0) && Books(s0, h)
    ensures forall i :: 0 <= i < CLOCK ==> InterruptsWake(h.now, i)
  {
    forall i | 0 <= i < CLOCK
      ensures InterruptsWake(h.now, i)
    {
      assert DeviceLaw(h, Val(s0, DevAddr(s0, i)), i);
    }
  }

  lemma BooksNext(s0: State, h: History, e: Event)
    requires GoodStart(s0) && Books(s0, h)
    ensures Books(s0, Next(h, e))
  {
    var g := Next(h, e);
    BooksWake(s0, h);
    SoftLawNext(h, e);
    if Possible(h.now, e) {
      var clock := DevAddr(h.now, CLOCK);
      NextIsAfter(h, e, clock);
      ClockLawAfter(h, e, g);
      forall a | UserSem(s0, a)
        ensures UserLaw(g, Val(s0, a), a)
      {
        NextIsAfter(h, e, a);
        UserLawAfter(h, e, g, Val(s0, a), a);
      }
      forall i | 0 <= i < CLOCK
        ensures DeviceLaw(g, Val(s0, DevAddr(s0, i)), i)
      {
        NextIsAfter(h, e, DevAddr(h.now, i));
        DeviceLawAfter(h, e, g, Val(s0, DevAddr(s0, i)), i);
      }
    }
  }

  lemma {:induction false} SharesAtStart(h: History, k: nat)
    requires h.now.queues == map[] && h.killed == map[] && h.idle == map[]
    ensures Shares(h, k) == 0
  {
    if k > 0 {
      SharesAtStart(h, k - 1);
    }
  }

  lemma BooksStart(s0: State)
    requires GoodStart(s0)
    ensures Books(s0, Start(s0))
  {
    SharesAtStart(Start(s0), DEVICE_NUM);
  }

  /** In every run from a good start the books balance. */
  lemma {:induction false} BooksAlways(s0: State, h: History, es: seq<Event>)
    requires GoodStart(s0) && Books(s0, h)
    ensures Books(s0, Record(h, es))
    decreases |es|
  {
    if es != [] {
      BooksNext(s0, h, es[0]);
      BooksAlways(s0, Next(h, es[0]), es[1..]);
    }
  }
}
