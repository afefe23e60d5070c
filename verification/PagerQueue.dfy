// The queue of the swap semaphore: processes whose faults have to wait are served in the
// order in which they came, and every one of them is served.
module PagerQueue {
  import Seqs
  import opened PageBits
  import opened PagerState
  import opened PagerInv
  import opened PagerRuns

  // ---- First come, first served ---------------------------------------------------------------

  /** The process that starts to wait at this step, if any. */
  function Joining(s: Pager, e: Event): seq<int>
    requires Sized(s)
  {
    if !PhaseOf(s, e.a).Queued? && PhaseOf(Step(s, e), e.a).Queued? then [e.a] else []
  }

  /** The process that stops waiting at this step, if any: it is past its P. */
  function Entering(s: Pager, e: Event): seq<int>
    requires Sized(s)
  {
    var b := Step(s, e).holder;
    if PhaseOf(s, b).Queued? && Inside(PhaseOf(Step(s, e), b)) then [b] else []
  }

  /** All processes that had to wait during a run, in the order of their P's. */
  ghost function Arrivals(s: Pager, es: seq<Event>): seq<int>
    requires Sized(s)
    decreases |es|
  {
    if es == [] then [] else Joining(s, es[0]) + Arrivals(Step(s, es[0]), es[1..])
  }

  /** Those who got past it during the run, in that order. */
  ghost function Entries(s: Pager, es: seq<Event>): seq<int>
    requires Sized(s)
    decreases |es|
  {
    if es == [] then [] else Entering(s, es[0]) + Entries(Step(s, es[0]), es[1..])
  }

  /** A process starts or stops waiting in no other way. */
  lemma QueueChanges(s: Pager, e: Event, b: int)
    requires Inv(s)
    ensures var t := Step(s, e);
            && (!PhaseOf(s, b).Queued? && PhaseOf(t, b).Queued? <==> b in Joining(s, e))
            && (PhaseOf(s, b).Queued? && !PhaseOf(t, b).Queued? <==> b in Entering(s, e))
  {
    if Possible(s, e) && e.Go? {
      if PhaseOf(s, e.a).Mapped? {
        ReleaseLock(s, e.a, PhaseOf(s, e.a).i);
      } else if PhaseOf(s, e.a).Faulting? {
        AcquireLock(s, e.a, PhaseOf(s, e.a).i);
      } else {
        StepKeepsInv(s, e);
      }
    } else {
      StepKeepsInv(s, e);
    }
  }

  lemma QueueStep(s: Pager, e: Event)
    requires Inv(s)
    ensures s.waiting + Joining(s, e) == Entering(s, e) + Step(s, e).waiting
  {
    if Possible(s, e) && e.Go? && PhaseOf(s, e.a).Mapped? {
      ReleaseQueue(s, e.a, PhaseOf(s, e.a).i);
    } else if Possible(s, e) && e.Go? && PhaseOf(s, e.a).Faulting? {
      AcquireLock(s, e.a, PhaseOf(s, e.a).i);
      assert !PhaseOf(s, Step(s, e).holder).Queued?;
    } else {
      QueueQuiet(s, e);
    }
  }

  lemma ReleaseQueue(s: Pager, a: int, i: int)
    requires Inv(s) && Possible(s, Go(a)) && PhaseOf(s, a) == Mapped(i)
    ensures s.waiting + Joining(s, Go(a)) == Entering(s, Go(a)) + Release(s, a).waiting
  {
    var t := Release(s, a);
    ReleaseLock(s, a, i);
    assert Step(s, Go(a)) == t;
    assert Joining(s, Go(a)) == [];
    if s.waiting != [] {
      assert s.waiting == [s.waiting[0]] + t.waiting;
    }
  }

  lemma QueueQuiet(s: Pager, e: Event)
    requires Inv(s) && (Possible(s, e) && e.Go? ==> !PhaseOf(s, e.a).Mapped? && !PhaseOf(s, e.a).Faulting?)
    ensures Joining(s, e) == [] && Entering(s, e) == [] && Step(s, e).waiting == s.waiting
  {
  }

  lemma {:induction false} QueueRun(s: Pager, es: seq<Event>)
    requires Inv(s)
    ensures s.waiting + Arrivals(s, es) == Entries(s, es) + Run(s, es).waiting
    decreases |es|
  {
    if es != [] {
      var t := Step(s, es[0]);
      StepKeepsInv(s, es[0]);
      QueueStep(s, es[0]);
      QueueRun(t, es[1..]);
      Chain(s.waiting, Joining(s, es[0]), Arrivals(t, es[1..]),
            Entering(s, es[0]), Entries(t, es[1..]), t.waiting, Run(t, es[1..]).waiting);
    }
  }

  lemma Chain(w: seq<int>, j: seq<int>, js: seq<int>, n: seq<int>, ns: seq<int>, v: seq<int>, u: seq<int>)
    requires w + j == n + v && v + js == ns + u
    ensures w + (j + js) == (n + ns) + u
  {
    assert w + (j + js) == (w + j) + js;
    assert (n + v) + js == n + (v + js);
    assert n + (ns + u) == (n + ns) + u;
  }

  /**
   * In every run and interleaving, processes get past P(swapSem) in the order in which they
   * started to wait for it; those still waiting are the last ones to come; and while
   * anybody waits, somebody is between P and V and can take its next step.
   */
  lemma FirstComeFirstServed(s0: Pager, es: seq<Event>, a: int)
    requires Initial(s0)
    ensures var s := Run(s0, es); var js := Arrivals(s0, es); var ns := Entries(s0, es);
            && ns <= js
            && (PhaseOf(s, a).Queued? <==> a in js[|ns|..])
            && Seqs.NoDup(js[|ns|..])
            && (PhaseOf(s, a).Queued? ==> exists b :: Inside(PhaseOf(s, b)) && Possible(s, Go(b)))
  {
    InitialInv(s0);
    Reachable(s0, es);
    QueueRun(s0, es);
    Prefix(Arrivals(s0, es), Entries(s0, es), Run(s0, es).waiting);
    SomebodyInside(Run(s0, es), a);
  }

  lemma Prefix(js: seq<int>, ns: seq<int>, w: seq<int>)
    requires [] + js == ns + w
    ensures ns <= js && js[|ns|..] == w
  {
    assert [] + js == js;
  }

  lemma SomebodyInside(s: Pager, a: int)
    requires Inv(s)
    ensures PhaseOf(s, a).Queued? ==> exists b :: Inside(PhaseOf(s, b)) && Possible(s, Go(b))
  {
    if PhaseOf(s, a).Queued? {
      assert a in s.waiting;
      assert Inside(PhaseOf(s, s.holder)) && Possible(s, Go(s.holder));
    }
  }

  // ---- Bounded waiting -------------------------------------------------------------------------

  /** The step is V(swapSem). */
  predicate IsV(s: Pager, e: Event) {
    e.Go? && Possible(s, e) && PhaseOf(s, e.a).Mapped?
  }

  ghost function Vs(s: Pager, es: seq<Event>): nat
    requires Sized(s)
    decreases |es|
  {
    if es == [] then 0 else (if IsV(s, es[0]) then 1 else 0) + Vs(Step(s, es[0]), es[1..])
  }

  /** At some moment of the run, `a` is between P and V. */
  ghost predicate EverInside(s: Pager, es: seq<Event>, a: int)
    requires Sized(s)
    decreases |es|
  {
    Inside(PhaseOf(s, a)) || (es != [] && EverInside(Step(s, es[0]), es[1..], a))
  }

  /** A V moves every waiter forward by one; nothing else moves any. */
  lemma WaiterMoves(s: Pager, e: Event, k: nat)
    requires Inv(s) && k < |s.waiting|
    ensures var a := s.waiting[k]; var t := Step(s, e);
            if !IsV(s, e) then k < |t.waiting| && t.waiting[k] == a
            else if k > 0 then k - 1 < |t.waiting| && t.waiting[k - 1] == a
            else PhaseOf(t, a).Entered?
  {
    if IsV(s, e) {
      ReleaseLock(s, e.a, PhaseOf(s, e.a).i);
    }
  }

  /** A process with `k` waiters in front of it enters at the (k+1)-th V: not before, and not after. */
  lemma {:induction false} EntersInTurn(s: Pager, es: seq<Event>, k: nat)
    requires Inv(s) && k < |s.waiting|
    ensures EverInside(s, es, s.waiting[k]) <==> Vs(s, es) > k
    decreases |es|
  {
    var a := s.waiting[k];
    assert a in s.waiting && PhaseOf(s, a).Queued?;
    if es != [] {
      var t := Step(s, es[0]);
      StepKeepsInv(s, es[0]);
      WaiterMoves(s, es[0], k);
      if !IsV(s, es[0]) {
        EntersInTurn(t, es[1..], k);
      } else if k > 0 {
        EntersInTurn(t, es[1..], k - 1);
      } else {
        assert EverInside(t, es[1..], a);
      }
    }
  }

  // ---- Every fault is served ---------------------------------------------------------------------

  /** Steps that the process between P and V has still to take, its V included. */
  function StepsLeft(f: Phase): nat {
    match f
    case Entered(_) => 7
    case Picked(_) => 6
    case Evicted(_) => 5
    case Saved(_) => 4
    case Loaded(_) => 3
    case Recorded(_) => 2
    case Mapped(_) => 1
    case _ => 0
  }

  /** Steps taken in the run by processes between P and V. */
  ghost function InsideSteps(s: Pager, es: seq<Event>): nat
    requires Sized(s)
    decreases |es|
  {
    if es == [] then 0
    else (if es[0].Go? && Inside(PhaseOf(s, es[0].a)) then 1 else 0) + InsideSteps(Step(s, es[0]), es[1..])
  }

  /** A page that has been mapped for the process between P and V is valid. */
  predicate DoneOk(s: Pager) {
    HolderPhase(s).Mapped? ==> LoOf(s, Page(s.holder, HolderPhase(s).i)) == Lo(POOLSTART + s.frame, true)
  }

  lemma DoneStep(s: Pager, e: Event)
    requires Inv(s) && DoneOk(s)
    ensures DoneOk(Step(s, e))
  {
    if Possible(s, e) && e.Go? && PhaseOf(s, e.a).Faulting? {
      AcquireLock(s, e.a, PhaseOf(s, e.a).i);
    } else if Possible(s, e) && e.Go? && PhaseOf(s, e.a).Mapped? {
      ReleaseLock(s, e.a, PhaseOf(s, e.a).i);
    } else if Possible(s, e) && !e.Go? {
      assert e.a != s.holder;
    }
  }

  /** At some moment of the run, `a` does its V with entry `i` of its table valid. */
  ghost predicate Serves(s: Pager, es: seq<Event>, a: int, i: int)
    requires Sized(s)
    decreases |es|
  {
    && es != []
    && ((PhaseOf(s, a) == Mapped(i) && es[0] == Go(a) && LoOf(s, Page(a, i)).valid) || Serves(Step(s, es[0]), es[1..], a, i))
  }

  /** The holder gets nearer to its V with each of its own steps, and no other step matters. */
  lemma HolderAdvances(s: Pager, e: Event)
    requires Inv(s) && s.holder != 0 && !IsV(s, e)
    ensures var t := Step(s, e);
            && t.holder == s.holder && Inside(HolderPhase(t)) && HolderPhase(t).i == HolderPhase(s).i
            && StepsLeft(HolderPhase(t)) + (if e.Go? && Inside(PhaseOf(s, e.a)) then 1 else 0) <= StepsLeft(HolderPhase(s))
  {
    if Possible(s, e) {
      if e.Go? && PhaseOf(s, e.a).Faulting? {
        AcquireLock(s, e.a, PhaseOf(s, e.a).i);
      } else if !e.Go? {
        assert e.a != s.holder;
      }
    }
  }

  lemma {:induction false} HolderIsServed(s: Pager, es: seq<Event>)
    requires Inv(s) && DoneOk(s) && s.holder != 0
    requires InsideSteps(s, es) >= StepsLeft(HolderPhase(s))
    ensures Serves(s, es, s.holder, HolderPhase(s).i)
    decreases |es|
  {
    if es != [] {
      var e := es[0];
      StepKeepsInv(s, e);
      DoneStep(s, e);
      if !IsV(s, e) {
        HolderAdvances(s, e);
        HolderIsServed(Step(s, e), es[1..]);
      }
    }
  }

  /** A process with `k` waiters in front is served after so many steps. */
  lemma {:induction false} WaiterIsServed(s: Pager, es: seq<Event>, k: nat, a: int, i: int)
    requires Inv(s) && DoneOk(s) && k < |s.waiting| && a == s.waiting[k] && PhaseOf(s, a) == Queued(i)
    requires InsideSteps(s, es) >= StepsLeft(HolderPhase(s)) + 7 * (k + 1)
    ensures Serves(s, es, a, i)
    decreases |es|
  {
    if es != [] {
      var e := es[0];
      var t := Step(s, e);
      StepKeepsInv(s, e);
      DoneStep(s, e);
      WaiterMoves(s, e, k);
      if !IsV(s, e) {
        HolderAdvances(s, e);
        WaiterStays(s, e, a, i);
        WaiterIsServed(t, es[1..], k, a, i);
      } else {
        PassedOn(s, e);
        if k > 0 {
          assert s.waiting[0] != a;
          WaiterIsServed(t, es[1..], k - 1, a, i);
        } else {
          HolderIsServed(t, es[1..]);
        }
      }
    }
  }

  /** A V passes the semaphore to the first waiter, which has its 7 steps to take; the others stay as they are. */
  lemma PassedOn(s: Pager, e: Event)
    requires Inv(s) && IsV(s, e) && s.waiting != []
    ensures var t := Step(s, e); var b := s.waiting[0];
            && t.holder == b && PhaseOf(s, b).Queued? && HolderPhase(t) == Entered(PhaseOf(s, b).i)
            && StepsLeft(HolderPhase(s)) == 1
            && (forall c :: c in s.waiting && c != b ==> PhaseOf(t, c) == PhaseOf(s, c))
  {
    ReleaseLock(s, e.a, PhaseOf(s, e.a).i);
  }

  lemma WaiterStays(s: Pager, e: Event, a: int, i: int)
    requires Inv(s) && !IsV(s, e) && PhaseOf(s, a) == Queued(i)
    ensures PhaseOf(Step(s, e), a) == Queued(i)
  {
  }

  /** At most seven processes wait. */
  lemma FewWait(s: Pager)
    requires Inv(s)
    ensures |s.waiting| < UPROCMAX
  {
    if s.waiting != [] {
      var users := Seqs.Below(UPROCMAX + 1) - {0};
      assert |users| == UPROCMAX;
      assert Seqs.Elems(s.waiting) < users by {
        WaitersAreOthers(s);
        assert s.holder in users;
      }
      Seqs.ElemsSize(s.waiting);
      Seqs.SubsetSize(Seqs.Elems(s.waiting), users);
    }
  }

  lemma WaitersAreOthers(s: Pager)
    requires Inv(s)
    ensures forall a :: a in s.waiting ==> Asid(a) && a != s.holder
  {
  }

  /**
   * In every run: a process that waits for its page fault to be handled is served, its page
   * valid at its V, as soon as the processes between P and V have taken 56 steps, whatever
   * all processes do in between.
   */
  lemma EveryFaultIsServed(s0: Pager, es: seq<Event>, later: seq<Event>, a: int, i: int)
    requires Initial(s0) && PhaseOf(Run(s0, es), a) == Queued(i)
    requires InsideSteps(Run(s0, es), later) >= 7 * UPROCMAX
    ensures Serves(Run(s0, es), later, a, i)
  {
    var s := Run(s0, es);
    Reachable(s0, es);
    InitialInv(s0);
    DoneAlways(s0, es);
    assert a in s.waiting;
    var k :| 0 <= k < |s.waiting| && s.waiting[k] == a;
    FewWait(s);
    WaiterIsServed(s, later, k, a, i);
  }

  lemma {:induction false} DoneAlways(s: Pager, es: seq<Event>)
    requires Inv(s) && DoneOk(s)
    ensures DoneOk(Run(s, es))
    decreases |es|
  {
    if es != [] {
      StepKeepsInv(s, es[0]);
      DoneStep(s, es[0]);
      DoneAlways(Step(s, es[0]), es[1..]);
    }
  }
}
