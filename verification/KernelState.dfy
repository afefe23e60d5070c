// The kernel as a state machine over values: what every system call and interrupt
// does to the process queues, the semaphores, the process forest and the counters.
// One event is one kernel entry, from the exception to the next LDST, WAIT, HALT
// or PANIC, none of which returns.
module KernelState {
  import Seqs
  import ForestSpec
  import Queues

  /** Device semaphores; the last one is the interval timer's. */
  const DEVICE_NUM: nat := 49
  const CLOCK: nat := 48

  datatype Mode =
    | Running     // LDST on the current process
    | Waiting     // WAIT, no current process
    | Halted      // HALT: no process is left
    | Deadlocked  // PANIC by the scheduler
    | Faulted     // PANIC by a local timer interrupt without a current process

  datatype State = State(
    n: nat,                         // slots of the PCB table, and semaphore descriptors
    dev: int,                       // address of deviceSemaphores[0]
    free: seq<int>,                 // free PCBs, next to be allocated first
    ready: seq<int>,                // ready queue, next to be dispatched first
    current: int,                   // currentProcess
    queues: map<int, seq<int>>,     // active semaphores: address -> blocked processes, oldest first
    semAdd: map<int, int>,          // p_semAdd of the processes for which it is not NULL
    forest: ForestSpec.Forest,
    sem: map<int, int>,             // memory words used as semaphores
    v0: map<int, int>,              // result register of each process
    soft: int,                      // softBlockedCount
    procs: int,                     // processCount
    mode: Mode)

  function Queue(s: State, a: int): seq<int> {
    Queues.QueueOf(s.queues, a)
  }

  function Val(s: State, a: int): int {
    if a in s.sem then s.sem[a] else 0
  }

  function DevAddr(s: State, i: int): int {
    s.dev + 4 * i
  }

  predicate IsDevice(s: State, a: int) {
    s.dev <= a < s.dev + 4 * DEVICE_NUM
  }

  /** A semaphore outside the kernel: neither NULL, nor the sentinel, nor a device's. */
  predicate UserSem(s: State, a: int) {
    a != 0 && a != Queues.MAXADD && !IsDevice(s, a)
  }

  /** The process the hardware is running, if any. */
  function Runner(s: State): int {
    if s.mode.Running? then s.current else Queues.NULL
  }

  // ---- Operations of the active semaphore list ---------------------------------

  /** No descriptor is left for a semaphore that has none yet. */
  predicate OutOfDescriptors(s: State, a: int) {
    a !in s.queues && |s.queues| >= s.n
  }

  function InsertBlocked(s: State, a: int, p: int): State {
    if OutOfDescriptors(s, a) then s
    else s.(queues := Queues.SetQueue(s.queues, a, Queue(s, a) + [p]), semAdd := s.semAdd[p := a])
  }

  function RemoveBlocked(s: State, a: int): State {
    if a !in s.queues || s.queues[a] == [] then s
    else
      var q := s.queues[a];
      s.(queues := Queues.SetQueue(s.queues, a, q[1..]), semAdd := s.semAdd - {q[0]})
  }

  function OutBlocked(s: State, p: int): State {
    if p !in s.semAdd then s
    else
      var a := s.semAdd[p];
      s.(queues := Queues.SetQueue(s.queues, a, Seqs.Without(Queue(s, a), {p})), semAdd := s.semAdd - {p})
  }

  // ---- Operations of the PCB module --------------------------------------------

  function Enqueue(s: State, p: int): State {
    s.(ready := s.ready + [p])
  }

  function AllocPcb(s: State): State {
    if s.free == [] then s else s.(free := s.free[1..], procs := s.procs + 1)
  }

  function FreePcb(s: State, p: int): State {
    s.(free := s.free + [p], procs := s.procs - 1)
  }

  // ---- Termination: a whole set of processes goes at once ------------------------

  /** Number of members of `d` blocked on `a`. */
  function BlockedIn(s: State, a: int, d: set<int>): int {
    |Queue(s, a)| - |Seqs.Without(Queue(s, a), d)|
  }

  /**
   * Every process listed in `order` leaves its ready or semaphore queue, each
   * semaphore rises by the number of them blocked on it, they leave the forest and
   * join the free list in this order. Nothing else changes.
   */
  function Kill(s: State, order: seq<int>): State {
    var d := Seqs.Elems(order);
    s.(free := s.free + order,
       ready := Seqs.Without(s.ready, d),
       queues := map a | a in s.queues && Seqs.Without(s.queues[a], d) != [] :: Seqs.Without(s.queues[a], d),
       semAdd := s.semAdd - d,
       forest := ForestSpec.Prune(s.forest, d),
       sem := map a | a in s.sem :: s.sem[a] + BlockedIn(s, a, d),
       procs := s.procs - |order|)
  }

  ghost function Terminated(s: State): State
    requires ForestSpec.ForestOk(s.forest)
  {
    Kill(s, ForestSpec.PostOrder(s.forest, s.current))
  }

  // ---- Kernel entries --------------------------------------------------------------

  function Scheduler(s: State): State {
    if s.ready != [] then s.(ready := s.ready[1..], current := s.ready[0], mode := Running)
    else if s.procs == 0 then s.(mode := Halted)
    else if s.soft > 0 then s.(current := Queues.NULL, mode := Waiting)
    else s.(mode := Deadlocked)
  }

  /** The result of insertBlocked is ignored, as in the source. */
  function BlockCurrentAt(s: State, a: int): State {
    InsertBlocked(s, a, s.current).(current := Queues.NULL)
  }

  /** The value a process finds in its result register when it goes on. */
  function SetResult(s: State, p: int, v: int): State {
    s.(v0 := s.v0[p := v])
  }

  function CreateProcess(s: State): State {
    if s.free == [] then SetResult(s, s.current, -1)
    else
      var p := s.free[0];
      SetResult(Enqueue(AllocPcb(s), p).(forest := ForestSpec.Adopt(s.forest, s.current, p)), s.current, 0)
  }

  function SetWord(s: State, a: int, v: int): State {
    s.(sem := s.sem[a := v])
  }

  /** Take a unit from semaphore `a`, and give one back. */
  function Take(s: State, a: int): State {
    SetWord(s, a, Val(s, a) - 1)
  }

  function Give(s: State, a: int): State {
    SetWord(s, a, Val(s, a) + 1)
  }

  function CountSoft(s: State, k: int): State {
    s.(soft := s.soft + k)
  }

  /** The running process sleeps on `a`, and the scheduler picks another. */
  function SleepOn(s: State, a: int): State {
    Scheduler(BlockCurrentAt(s, a))
  }

  function Passeren(s: State, a: int): State {
    if Val(s, a) <= 0 then SleepOn(Take(s, a), a) else Take(s, a)
  }

  function Verhogen(s: State, a: int): State {
    var t := Give(s, a);
    if Queue(t, a) == [] then t else Enqueue(RemoveBlocked(t, a), Queue(t, a)[0])
  }

  function WaitForIO(s: State, i: int): State {
    SleepOn(CountSoft(Take(s, DevAddr(s, i)), 1), DevAddr(s, i))
  }

  function WaitForClock(s: State): State {
    var a := DevAddr(s, CLOCK);
    if Val(s, a) <= 0 then SleepOn(CountSoft(Take(s, a), 1), a) else Take(s, a)
  }

  /** End of a time slice. */
  function SliceInterrupt(s: State): State {
    if s.current != Queues.NULL then Scheduler(Enqueue(s, s.current)) else s.(mode := Faulted)
  }

  /** What the interval timer does before control returns to a process. */
  function WakeClock(s: State): State {
    var a := DevAddr(s, CLOCK);
    var q := Queue(s, a);
    s.(ready := s.ready + q, queues := s.queues - {a}, semAdd := s.semAdd - Seqs.Elems(q),
       soft := s.soft - |q|, sem := s.sem[a := 0])
  }

  /** The longest waiting process of `a`, if there is one, gets the device's status and becomes ready. */
  function WakeOldest(s: State, a: int, status: int): State {
    if Queue(s, a) == [] then s
    else
      var p := Queue(s, a)[0];
      Give(Enqueue(SetResult(RemoveBlocked(s, a), p, status), p), a)
  }

  /** What an interrupt of device semaphore `i` does before control returns to a process. */
  function WakeDevice(s: State, i: int, status: int): State {
    var t := CountSoft(s, -1);
    if Val(s, DevAddr(s, i)) <= 0 then WakeOldest(t, DevAddr(s, i), status) else t
  }

  /** After an interrupt the interrupted process goes on; if there was none, the scheduler picks one. */
  function Resume(s: State): State {
    if s.current != Queues.NULL then s else Scheduler(s)
  }

  // ---- Interrupt lines -------------------------------------------------------------

  const INTERTIMEINT: int := 2
  const DISKINT: int := 3
  const TERMINT: int := 7
  const DEVPERINT: int := 8

  /** A device of an interrupt line; `recv` tells a terminal's receiver from its transmitter. */
  predicate DeviceLine(line: int, no: int) {
    DISKINT <= line <= TERMINT && 0 <= no < DEVPERINT
  }

  function SemIndex(line: int, no: int, recv: bool): int {
    if line == TERMINT && !recv then (line - DISKINT + 1) * 8 + no
    else (line - DISKINT) * 8 + no
  }

  /** Six blocks of eight: disks, flash devices, networks, printers, terminal receivers, terminal transmitters. */
  predicate LaidOut(line: int, no: int, recv: bool, i: int) {
    && i % 8 == no
    && (line == 3 ==> i / 8 == 0)
    && (line == 4 ==> i / 8 == 1)
    && (line == 5 ==> i / 8 == 2)
    && (line == 6 ==> i / 8 == 3)
    && (line == 7 && recv ==> i / 8 == 4)
    && (line == 7 && !recv ==> i / 8 == 5)
  }

  // ---- The machine -------------------------------------------------------------------

  datatype Event =
    | Create                                                  // SYS1
    | Terminate                                               // SYS2
    | P(a: int)                                               // SYS3
    | V(a: int)                                               // SYS4
    | IoWait(line: int, no: int, recv: bool)                  // SYS5
    | ClockWait                                               // SYS7
    | Slice                                                   // processor local timer
    | Tick                                                    // interval timer
    | Device(line: int, no: int, recv: bool, status: int)     // device interrupt

  /** Which events can happen: a system call needs a running process, an interrupt a machine that is not stopped. */
  predicate Possible(s: State, e: Event) {
    match e
    case Create => s.mode.Running?
    case Terminate => s.mode.Running?
    case P(a) => s.mode.Running? && UserSem(s, a)
    case V(a) => s.mode.Running? && UserSem(s, a)
    case IoWait(line, no, _) => s.mode.Running? && DeviceLine(line, no)
    case ClockWait => s.mode.Running?
    case Slice => s.mode.Running? || s.mode.Waiting?
    case Tick => s.mode.Running? || s.mode.Waiting?
    case Device(line, no, _, _) => (s.mode.Running? || s.mode.Waiting?) && DeviceLine(line, no)
  }

  ghost function Apply(s: State, e: Event): State
    requires ForestSpec.ForestOk(s.forest)
  {
    match e
    case Create => CreateProcess(s)
    case Terminate => Scheduler(Terminated(s))
    case P(a) => Passeren(s, a)
    case V(a) => Verhogen(s, a)
    case IoWait(line, no, recv) => WaitForIO(s, SemIndex(line, no, recv))
    case ClockWait => WaitForClock(s)
    case Slice => SliceInterrupt(s)
    case Tick => Resume(WakeClock(s))
    case Device(line, no, recv, status) => Resume(WakeDevice(s, SemIndex(line, no, recv), status))
  }

  /** An event that cannot happen changes nothing. */
  ghost function Step(s: State, e: Event): State
    requires ForestSpec.ForestOk(s.forest)
  {
    if Possible(s, e) then Apply(s, e) else s
  }
}
