// Interrupts wake the right process: device semaphores belong to one device (and
// direction) each, and the process woken is the one that has waited longest on it.
module WaitOrder {
  import Seqs
  import ForestSpec
  import opened KernelState
  import Queues
  import KernelInv
  import KernelSteps
  import opened Accounts

  // ---- One semaphore per device ------------------------------------------------------

  /** A terminal has a semaphore for each direction, any other device has one; the clock's is none of them. */
  lemma SemIndexInjective(line: int, no: int, recv: bool, line': int, no': int, recv': bool)
    requires DeviceLine(line, no) && DeviceLine(line', no')
    ensures 0 <= SemIndex(line, no, recv) < CLOCK
    ensures SemIndex(line, no, recv) == SemIndex(line', no', recv')
            <==> line == line' && no == no' && (line == TERMINT ==> recv == recv')
  {
  }

  /** Which semaphore is whose, and each of the 48 is somebody's. */
  lemma SemIndexLayout(line: int, no: int, recv: bool)
    requires DeviceLine(line, no)
    ensures LaidOut(line, no, recv, SemIndex(line, no, recv))
    ensures forall i :: LaidOut(line, no, recv, i) ==> i == SemIndex(line, no, recv)
  {
  }

  /** The semaphores are words of their own, all inside an array of 49 words. */
  lemma DeviceWordsApart(s: State, i: int, j: int)
    requires 0 <= i < DEVICE_NUM && 0 <= j < DEVICE_NUM && i != j
    ensures s.dev <= DevAddr(s, i) && DevAddr(s, i) + 4 <= s.dev + 4 * 49
    ensures DevAddr(s, i) + 4 <= DevAddr(s, j) || DevAddr(s, j) + 4 <= DevAddr(s, i)
  {
  }

  // ---- Queues are in order of arrival ----------------------------------------------------

  function Since(h: History, p: int): int {
    if p in h.since then h.since[p] else -1
  }

  ghost predicate Ordered(h: History, q: seq<int>) {
    && (forall i, j :: 0 <= i < j < |q| ==> Since(h, q[i]) < Since(h, q[j]))
    && (forall p :: p in q ==> Since(h, p) < h.time)
  }

  ghost predicate ArrivalOrder(h: History) {
    forall a :: Ordered(h, Queue(h.now, a))
  }

  lemma OrderedWithout(h: History, q: seq<int>, d: set<int>)
    requires Ordered(h, q)
    ensures Ordered(h, Seqs.Without(q, d))
  {
    var r := Seqs.Without(q, d);
    forall i, j | 0 <= i < j < |r|
      ensures Since(h, r[i]) < Since(h, r[j])
    {
      Seqs.WithoutKeepsOrder(q, d, i, j);
    }
  }

  lemma OrderedTail(h: History, q: seq<int>)
    requires Ordered(h, q) && q != []
    ensures Ordered(h, q[1..])
  {
    assert forall x :: x in q[1..] ==> x in q;
  }

  lemma SleeperIsNew(s: State, e: Event, a: int)
    requires KernelInv.Inv(s) && Possible(s, e) && Sleeps(s, e, SleepsAt(s, e))
    ensures s.current !in Queue(s, a)
    ensures Sleeps(s, e, a) <==> a == SleepsAt(s, e)
  {
    KernelInv.QueueMember(s, a, s.current);
  }

  lemma OrderedNext(h: History, e: Event, a: int)
    requires KernelInv.Inv(h.now) && Possible(h.now, e) && Ordered(h, Queue(h.now, a))
    ensures var g := Next(h, e); Ordered(g, Queue(g.now, a))
  {
    var g := Next(h, e);
    var q := Queue(h.now, a);
    NextIsAfter(h, e, a);
    OrderedRestamped(h, e, a);
    if q != [] {
      OrderedTail(g, q);
    }
    OrderedWithout(g, q, Seqs.Elems(ForestSpec.PostOrder(h.now.forest, h.now.current)));
  }

  /** The process that goes to sleep, if any. */
  function Sleeper(s: State, e: Event): int {
    if Sleeps(s, e, SleepsAt(s, e)) then s.current else Queues.NULL
  }

  lemma OrderedRestamped(h: History, e: Event, a: int)
    requires KernelInv.Inv(h.now) && Possible(h.now, e) && Ordered(h, Queue(h.now, a))
    ensures var g := Next(h, e); var q := Queue(h.now, a); var p := Sleeper(h.now, e);
            Ordered(g, q) && (p != Queues.NULL ==> Ordered(g, q + [p]))
  {
    var s := h.now;
    var g := Next(h, e);
    var p := Sleeper(s, e);
    if p != Queues.NULL {
      SleeperIsNew(s, e, a);
    } else {
      KernelInv.QueueMember(s, a, Queues.NULL);
    }
    assert forall x :: Since(g, x) == if x == p && p != Queues.NULL then h.time else Since(h, x);
    Restamped(h, g, Queue(s, a), p);
  }

  lemma ArrivalOrderNext(h: History, e: Event)
    requires KernelInv.Inv(h.now) && ArrivalOrder(h)
    ensures ArrivalOrder(Next(h, e))
  {
    if Possible(h.now, e) {
      forall a
        ensures Ordered(Next(h, e), Queue(Next(h, e).now, a))
      {
        OrderedNext(h, e, a);
      }
    }
  }

  /** Stamping a process outside the queue keeps its order, and allows it to join at the end. */
  lemma Restamped(h: History, g: History, q: seq<int>, p: int)
    requires Ordered(h, q) && p !in q && g.time == h.time + 1
    requires forall x :: Since(g, x) == if x == p && p != Queues.NULL then h.time else Since(h, x)
    ensures Ordered(g, q)
    ensures p != Queues.NULL ==> Ordered(g, q + [p])
  {
    forall i | 0 <= i < |q|
      ensures Since(g, q[i]) == Since(h, q[i]) && Since(h, q[i]) < h.time
    {
      var x := q[i];
      assert x in q;
    }
  }

  lemma {:induction false} ArrivalOrderAlways(h: History, es: seq<Event>)
    requires KernelInv.Inv(h.now) && ArrivalOrder(h)
    ensures ArrivalOrder(Record(h, es))
    decreases |es|
  {
    if es != [] {
      ArrivalOrderNext(h, es[0]);
      ArrivalOrderAlways(Next(h, es[0]), es[1..]);
    }
  }

  // ---- What an interrupt does ---------------------------------------------------------------

  /** The longest-waiting process of device semaphore `i` becomes ready, last in line, with its status. */
  ghost predicate WakesOldest(h: History, i: int, status: int, t: State) {
    var s := h.now;
    var a := DevAddr(s, i);
    Queue(s, a) != [] ==>
      var p := Queue(s, a)[0];
      && (forall x :: x in Queue(s, a) ==> Since(h, p) <= Since(h, x))
      && t.ready == s.ready + [p] && p in t.v0 && t.v0[p] == status
      && p !in t.semAdd && Queue(t, a) == Queue(s, a)[1..]
      && (forall b :: b != a ==> Queue(t, b) == Queue(s, b))
      && (forall x :: x != p && x in s.v0 ==> x in t.v0 && t.v0[x] == s.v0[x])
  }

  lemma FirstIsOldest(h: History, q: seq<int>)
    requires Ordered(h, q) && q != []
    ensures forall x :: x in q ==> Since(h, q[0]) <= Since(h, x)
  {
    forall x | x in q
      ensures Since(h, q[0]) <= Since(h, x)
    {
      var j :| 0 <= j < |q| && q[j] == x;
      assert j == 0 || Since(h, q[0]) < Since(h, q[j]);
    }
  }

  lemma WakeDeviceWakesOldest(h: History, i: int, status: int)
    requires KernelInv.Inv(h.now) && InterruptsWake(h.now, i) && Ordered(h, Queue(h.now, DevAddr(h.now, i)))
    ensures WakesOldest(h, i, status, WakeDevice(h.now, i, status))
  {
    var q := Queue(h.now, DevAddr(h.now, i));
    if q != [] {
      FirstIsOldest(h, q);
    }
  }

  /** In every run a device interrupt with a waiter wakes the longest-waiting process of exactly that device. */
  lemma DeviceWakesLongestWaiting(s0: State, es: seq<Event>, line: int, no: int, recv: bool, status: int)
    requires GoodStart(s0) && DeviceLine(line, no)
    ensures var h := Record(Start(s0), es); var i := SemIndex(line, no, recv);
            WakesOldest(h, i, status, WakeDevice(h.now, i, status))
  {
    var h := Record(Start(s0), es);
    var i := SemIndex(line, no, recv);
    BooksStart(s0);
    BooksAlways(s0, Start(s0), es);
    BooksWake(s0, h);
    KernelSteps.SemIndexRange(line, no, recv);
    assert InterruptsWake(h.now, i);
    ArrivalOrderAlways(Start(s0), es);
    assert Ordered(h, Queue(h.now, DevAddr(h.now, i)));
    WakeDeviceWakesOldest(h, i, status);
  }

  /** What a V does to its own semaphore and the ready queue, and to no other. */
  lemma VerhogenMoves(s: State, a: int, b: int)
    ensures var t := Verhogen(s, a); var q := Queue(s, a);
            && Val(t, a) == Val(s, a) + 1 && (b != a ==> Queue(t, b) == Queue(s, b))
            && (q == [] ==> t.ready == s.ready && Queue(t, a) == [])
            && (q != [] ==> t.ready == s.ready + [q[0]] && Queue(t, a) == q[1..] && q[0] !in t.semAdd)
  {
  }

  /** In every run a V with a waiter makes exactly the longest-waiting process of that semaphore ready. */
  lemma VerhogenWakesLongestWaiting(s0: State, es: seq<Event>, a: int, b: int)
    requires GoodStart(s0)
    ensures var h := Record(Start(s0), es); var s := h.now; var t := Verhogen(s, a); var q := Queue(s, a);
            && Val(t, a) == Val(s, a) + 1 && (b != a ==> Queue(t, b) == Queue(s, b))
            && (q == [] ==> t.ready == s.ready && Queue(t, a) == [])
            && (q != [] ==>
                  && t.ready == s.ready + [q[0]] && Queue(t, a) == q[1..] && q[0] !in t.semAdd
                  && (forall x :: x in q ==> Since(h, q[0]) <= Since(h, x)))
  {
    var h := Record(Start(s0), es);
    VerhogenMoves(h.now, a, b);
    ArrivalOrderAlways(Start(s0), es);
    assert Ordered(h, Queue(h.now, a));
    if Queue(h.now, a) != [] {
      FirstIsOldest(h, Queue(h.now, a));
    }
  }

  /** A clock tick appends all clock waiters to the ready queue in the order in which they arrived. */
  lemma TickWakesInOrder(s0: State, es: seq<Event>)
    requires GoodStart(s0)
    ensures var h := Record(Start(s0), es); var s := h.now; var a := DevAddr(s, CLOCK);
            var q := Queue(s, a); var t := WakeClock(s);
            && t.ready == s.ready + q && Queue(t, a) == [] && Val(t, a) == 0
            && (forall i, j :: 0 <= i < j < |q| ==> Since(h, q[i]) < Since(h, q[j]))
            && (forall b :: b != a ==> Queue(t, b) == Queue(s, b))
            && (forall p :: p in q ==> p !in t.semAdd)
  {
    var h := Record(Start(s0), es);
    ArrivalOrderAlways(Start(s0), es);
    assert Ordered(h, Queue(h.now, DevAddr(h.now, CLOCK)));
  }
}
