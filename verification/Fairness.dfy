// Round robin never starves a ready process: the process at position k of the ready
// queue is running after at most k+1 dispatches, unless it has been terminated.
module Fairness {
  import Seqs
  import ForestSpec
  import opened KernelState
  import Queues
  import KernelInv
  import KernelSteps

  /** Position of the first occurrence. */
  function Pos(q: seq<int>, p: int): (i: nat)
    requires p in q
    ensures i < |q| && q[i] == p
    ensures forall j :: 0 <= j < i ==> q[j] != p
  {
    if q[0] == p then 0
    else
      assert q == [q[0]] + q[1..];
      Pos(q[1..], p) + 1
  }

  lemma {:induction false} PosAppend(q: seq<int>, r: seq<int>, p: int)
    requires p in q
    ensures p in q + r && Pos(q + r, p) == Pos(q, p)
  {
    assert (q + r)[Pos(q, p)] == p;
    if q[0] != p {
      assert (q + r)[1..] == q[1..] + r;
      assert q == [q[0]] + q[1..];
      PosAppend(q[1..], r, p);
    }
  }

  lemma {:induction false} PosWithout(q: seq<int>, d: set<int>, p: int)
    requires p in q && p !in d
    ensures p in Seqs.Without(q, d) && Pos(Seqs.Without(q, d), p) <= Pos(q, p)
  {
    if q[0] != p {
      assert q == [q[0]] + q[1..];
      PosWithout(q[1..], d, p);
      if q[0] !in d {
        assert Seqs.Without(q, d)[1..] == Seqs.Without(q[1..], d);
      }
    }
  }

  /** The event ends in the scheduler. */
  predicate CallsScheduler(s: State, e: Event) {
    match e
    case Create => false
    case Terminate => true
    case P(a) => Val(s, a) <= 0
    case V(a) => false
    case IoWait(_, _, _) => true
    case ClockWait => Val(s, DevAddr(s, CLOCK)) <= 0
    case Slice => s.current != Queues.NULL
    case Tick => s.current == Queues.NULL
    case Device(_, _, _, _) => s.current == Queues.NULL
  }

  /** The event puts a process from the ready queue on the processor. */
  ghost predicate Dispatches(s: State, e: Event)
    requires KernelInv.Inv(s)
  {
    Possible(s, e) && CallsScheduler(s, e) && Step(s, e).mode.Running?
  }

  /** `t` has `p` ready no later than at position `k`. */
  predicate ReadyBy(t: State, p: int, k: int) {
    p in t.ready && Pos(t.ready, p) <= k
  }

  lemma BlockKeepsReady(s: State, a: int)
    ensures BlockCurrentAt(s, a).ready == s.ready
  {
  }

  /** What the event does before any scheduling: nothing is inserted except at the tail. */
  ghost function BeforeScheduler(s: State, e: Event): seq<int>
    requires ForestSpec.ForestOk(s.forest)
  {
    match e
    case Create => if s.free == [] then s.ready else s.ready + [s.free[0]]
    case Terminate => Terminated(s).ready
    case V(a) => if Queue(s, a) == [] then s.ready else s.ready + [Queue(s, a)[0]]
    case Slice => if s.current == Queues.NULL then s.ready else s.ready + [s.current]
    case Tick => s.ready + Queue(s, DevAddr(s, CLOCK))
    case Device(line, no, recv, status) => WakeDevice(s, SemIndex(line, no, recv), status).ready
    case _ => s.ready
  }

  /** `t` is what the event makes of the ready queue `q`. */
  ghost predicate Outcome(s: State, e: Event, q: seq<int>, t: State) {
    if CallsScheduler(s, e)
    then q != [] ==> t.mode.Running? && t.current == q[0] && t.ready == q[1..]
    else t.ready == q && t.mode == (if e.Slice? then Faulted else s.mode) && t.current == s.current
  }

  lemma ReadyAfter(s: State, e: Event)
    requires KernelInv.Inv(s) && Possible(s, e)
    ensures Outcome(s, e, BeforeScheduler(s, e), Step(s, e))
  {
    match e
    case P(a) => BlockKeepsReady(Take(s, a), a);
    case IoWait(line, no, recv) =>
    case ClockWait =>
    case _ =>
  }

  lemma TailInsertion(s: State, e: Event, p: int)
    requires KernelInv.Inv(s) && Possible(s, e) && p in s.ready
    requires e.Terminate? ==> p !in ForestSpec.PostOrder(s.forest, s.current)
    ensures p in BeforeScheduler(s, e) && Pos(BeforeScheduler(s, e), p) <= Pos(s.ready, p)
  {
    var q := BeforeScheduler(s, e);
    match e
    case Terminate => PosWithout(s.ready, Seqs.Elems(ForestSpec.PostOrder(s.forest, s.current)), p);
    case Create => PosAppend(s.ready, q[|s.ready|..], p);
    case V(a) => PosAppend(s.ready, q[|s.ready|..], p);
    case Slice => PosAppend(s.ready, q[|s.ready|..], p);
    case Tick => PosAppend(s.ready, q[|s.ready|..], p);
    case Device(line, no, recv, status) =>
      assert s.ready <= q;
      assert q == s.ready + q[|s.ready|..];
      PosAppend(s.ready, q[|s.ready|..], p);
    case _ =>
  }

  lemma TerminatedAreFree(s: State, p: int)
    requires KernelInv.Inv(s) && s.mode.Running? && p in ForestSpec.PostOrder(s.forest, s.current)
    ensures p in Scheduler(Terminated(s)).free
  {
  }

  /** Taking the head off brings the others forward. */
  lemma HeadLeaves(q: seq<int>, p: int)
    requires p in q && q[0] != p
    ensures p in q[1..] && Pos(q[1..], p) == Pos(q, p) - 1
  {
    assert q == [q[0]] + q[1..];
  }

  /** One event: the ready process is terminated, is dispatched, or moves up by one if anyone was dispatched. */
  lemma OneStepForward(s: State, e: Event, p: int)
    requires KernelInv.Inv(s) && p in s.ready
    ensures var t := Step(s, e);
            || p in t.free
            || Runner(t) == p
            || ReadyBy(t, p, Pos(s.ready, p) - (if Dispatches(s, e) then 1 else 0))
  {
    if Possible(s, e) {
      if e.Terminate? && p in ForestSpec.PostOrder(s.forest, s.current) {
        TerminatedAreFree(s, p);
      } else {
        LiveStepForward(s, e, p);
      }
    }
  }

  lemma LiveStepForward(s: State, e: Event, p: int)
    requires KernelInv.Inv(s) && p in s.ready && Possible(s, e)
    requires e.Terminate? ==> p !in ForestSpec.PostOrder(s.forest, s.current)
    ensures var t := Step(s, e);
            Runner(t) == p || ReadyBy(t, p, Pos(s.ready, p) - (if Dispatches(s, e) then 1 else 0))
  {
    ReadyAfter(s, e);
    TailInsertion(s, e, p);
    OutcomeForward(s, e, BeforeScheduler(s, e), Step(s, e), p, Pos(s.ready, p), Dispatches(s, e));
  }

  lemma OutcomeForward(s: State, e: Event, q: seq<int>, t: State, p: int, k: int, dispatches: bool)
    requires Outcome(s, e, q, t) && p in q && Pos(q, p) <= k
    requires dispatches <==> CallsScheduler(s, e) && t.mode.Running?
    ensures Runner(t) == p || ReadyBy(t, p, k - (if dispatches then 1 else 0))
  {
    if CallsScheduler(s, e) && q[0] != p {
      HeadLeaves(q, p);
    }
  }

  ghost function Dispatched(s: State, es: seq<Event>): nat
    requires KernelInv.Inv(s)
    decreases |es|
  {
    if es == [] then 0
    else
      KernelSteps.StepKeepsInv(s, es[0]);
      (if Dispatches(s, es[0]) then 1 else 0) + Dispatched(Step(s, es[0]), es[1..])
  }

  /** `p` runs, or is terminated, at some moment of the run. */
  ghost predicate Served(s: State, es: seq<Event>, p: int)
    requires KernelInv.Inv(s)
    decreases |es|
  {
    || Runner(s) == p
    || p in s.free
    || (es != [] && (KernelSteps.StepKeepsInv(s, es[0]); Served(Step(s, es[0]), es[1..], p)))
  }

  /** Bounded bypass: more dispatches than processes in front of `p` serve it. */
  lemma {:induction false} BoundedBypass(s: State, es: seq<Event>, p: int)
    requires KernelInv.Inv(s) && p in s.ready
    requires Dispatched(s, es) > Pos(s.ready, p)
    ensures Served(s, es, p)
    decreases |es|
  {
    if es != [] {
      var t := Step(s, es[0]);
      KernelSteps.StepKeepsInv(s, es[0]);
      OneStepForward(s, es[0], p);
      if p in t.free || Runner(t) == p {
        assert Served(t, es[1..], p);
      } else {
        BoundedBypass(t, es[1..], p);
      }
    }
  }
}
