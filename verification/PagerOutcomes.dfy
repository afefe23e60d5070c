// What one event of the pager does to the process it is about, over all runs: when a
// process ends, what a refill writes and where, and where a page fault leads.
module PagerOutcomes {
  import opened PageBits
  import opened PagerState
  import opened PagerInv
  import opened PagerRuns

  /** Entry `i` of a page table is for a page number with the low 18 bits of `vpn`. */
  predicate Agrees(vpn: int, i: int) {
    0 <= i < MAXPAGES && VpnOf(i) % 0x40000 == vpn % 0x40000
  }

  /** Some entry of the table agrees with `vpn`. */
  predicate InTheTable(vpn: int) {
    exists i :: 0 <= i < MAXPAGES && Agrees(vpn, i)
  }

  lemma SearchAgrees(vpn: int)
    requires UserVpn(vpn)
    ensures forall i :: Agrees(vpn, i) <==> 0 <= i < MAXPAGES && i == PageFor(vpn)
    ensures InTheTable(vpn) <==> PageFor(vpn) >= 0
  {
    if PageFor(vpn) >= 0 {
      assert Agrees(vpn, PageFor(vpn));
    }
  }

  // ---- A miss ------------------------------------------------------------------------------

  /** Everything but the phase of `a` is the same. */
  ghost predicate OnlyPhase(s: Pager, t: Pager, a: int) {
    t == s.(phase := t.phase) && forall b :: b != a ==> PhaseOf(t, b) == PhaseOf(s, b)
  }

  /** Entry `i` of the process's table is now in TLB slot `tlbIndex`; nothing else changed but the index. */
  predicate Refilled(s: Pager, t: Pager, a: int, i: int)
    requires Sized(s) && Sized(t)
  {
    && t == s.(tlb := t.tlb, tlbIndex := t.tlbIndex)
    && t.tlb[s.tlbIndex] == TlbEntry(EntryHi(Page(a, i)), LoOf(s, Page(a, i)))
    && (forall k :: 0 <= k < TLBSIZE && k != s.tlbIndex ==> t.tlb[k] == s.tlb[k])
    && (t.tlbIndex == 0 || t.tlbIndex == s.tlbIndex + 1) && (t.tlbIndex == 0 <==> s.tlbIndex == TLBSIZE - 1)
  }

  /**
   * In every run: a process that misses on a page number of which no entry of its table has
   * the low 18 bits is terminated, and nothing else happens; otherwise it goes on, with the
   * entry that has them in the next TLB slot.
   */
  lemma MissOutcome(s0: Pager, es: seq<Event>, a: int, vpn: int, i: int)
    requires Initial(s0) && Possible(Run(s0, es), Miss(a, vpn))
    ensures var s := Run(s0, es); var t := Step(s, Miss(a, vpn));
            && (PhaseOf(t, a).Dead? <==> !InTheTable(vpn))
            && (!InTheTable(vpn) ==> OnlyPhase(s, t, a))
            && (Agrees(vpn, i) ==> Refilled(s, t, a, i))
  {
    SearchAgrees(vpn);
  }

  // ---- A fault -----------------------------------------------------------------------------

  /** In every run a fault leads the process to the entry of the very page it accessed, and nothing else happens. */
  lemma FaultOutcome(s0: Pager, es: seq<Event>, a: int, vpn: int)
    requires Initial(s0) && Possible(Run(s0, es), Fault(a, vpn))
    ensures var s := Run(s0, es); var t := Step(s, Fault(a, vpn)); var f := PhaseOf(t, a);
            f.Faulting? && 0 <= f.i < MAXPAGES && VpnOf(f.i) == vpn && OnlyPhase(s, t, a)
  {
    FaultsFindTheirPage(s0, es, a, vpn);
  }

  // ---- The end of a process ----------------------------------------------------------------

  /** The event ends process `a`: its own exit, or an access outside its table. */
  predicate Ends(s: Pager, e: Event, a: int) {
    Possible(s, e) && e.a == a && (e.Exit? || (e.Miss? && !InTheTable(e.vpn)))
  }

  lemma EndsExactly(s: Pager, e: Event, a: int)
    requires Inv(s) && Asid(a)
    ensures PhaseOf(Step(s, e), a).Dead? <==> PhaseOf(s, a).Dead? || Ends(s, e, a)
  {
    if Possible(s, e) {
      match e
      case Miss(_, vpn) => SearchAgrees(vpn);
      case Fault(_, _) =>
      case Exit(_) =>
      case Go(b) => GoEndsNobody(s, b, a);
    }
  }

  /** No step of the page fault handler ends a process. */
  lemma GoEndsNobody(s: Pager, b: int, a: int)
    requires Inv(s) && Possible(s, Go(b))
    ensures PhaseOf(Advance(s, b), a).Dead? <==> PhaseOf(s, a).Dead?
  {
    match PhaseOf(s, b)
    case Mapped(i) => ReleaseLock(s, b, i);
    case Entered(i) => assert IsPage(Page(b, i));
    case Faulting(_) =>
    case Picked(_) =>
    case Evicted(_) =>
    case Saved(_) =>
    case Loaded(_) =>
    case Recorded(_) =>
  }

  /** One of the events of the run ends process `a`. */
  ghost predicate Ended(s: Pager, es: seq<Event>, a: int)
    requires Sized(s)
    decreases |es|
  {
    es != [] && (Ends(s, es[0], a) || Ended(Step(s, es[0]), es[1..], a))
  }

  lemma {:induction false} DeadSince(s: Pager, es: seq<Event>, a: int)
    requires Inv(s) && Asid(a)
    ensures PhaseOf(Run(s, es), a).Dead? <==> PhaseOf(s, a).Dead? || Ended(s, es, a)
    decreases |es|
  {
    if es != [] {
      StepKeepsInv(s, es[0]);
      EndsExactly(s, es[0], a);
      DeadSince(Step(s, es[0]), es[1..], a);
    }
  }

  /** A user process is dead after a run if and only if it has exited or has accessed a page that is not in its table. */
  lemma DeadExactly(s0: Pager, es: seq<Event>, a: int)
    requires Initial(s0) && Asid(a)
    ensures PhaseOf(Run(s0, es), a).Dead? <==> Ended(s0, es, a)
  {
    InitialInv(s0);
    DeadSince(s0, es, a);
  }

  // ---- TLB slots in turn -------------------------------------------------------------------

  predicate IsRefill(s: Pager, e: Event) {
    e.Miss? && Possible(s, e) && InTheTable(e.vpn)
  }

  /** Refills in a run. */
  ghost function Refills(s: Pager, es: seq<Event>): nat
    requires Sized(s)
    decreases |es|
  {
    if es == [] then 0 else (if IsRefill(s, es[0]) then 1 else 0) + Refills(Step(s, es[0]), es[1..])
  }

  lemma IndexStep(s: Pager, e: Event)
    requires Sized(s)
    ensures Step(s, e).tlbIndex == (s.tlbIndex + if IsRefill(s, e) then 1 else 0) % TLBSIZE
  {
    if Possible(s, e) && e.Miss? {
      SearchAgrees(e.vpn);
    }
  }

  lemma {:induction false} IndexAfter(s: Pager, es: seq<Event>)
    requires Sized(s)
    ensures Run(s, es).tlbIndex == (s.tlbIndex + Refills(s, es)) % TLBSIZE
    decreases |es|
  {
    if es != [] {
      var one, rest := if IsRefill(s, es[0]) then 1 else 0, Refills(Step(s, es[0]), es[1..]);
      IndexStep(s, es[0]);
      IndexAfter(Step(s, es[0]), es[1..]);
      ModAdd(s.tlbIndex, one, rest);
    }
  }

  lemma ModAdd(i: int, one: nat, rest: nat)
    ensures ((i + one) % TLBSIZE + rest) % TLBSIZE == (i + (one + rest)) % TLBSIZE
  {
  }

  /** The n-th refill (from 0) writes slot n mod TLBSIZE. */
  lemma SlotsInTurn(s0: Pager, es: seq<Event>)
    requires Initial(s0)
    ensures Run(s0, es).tlbIndex == Refills(s0, es) % TLBSIZE
  {
    IndexAfter(s0, es);
  }

  // ---- Page tables and TLB -------------------------------------------------------------------

  /** This step of the holder takes a frame away from the page that was loaded POOLSIZE faults ago. */
  predicate TakesFrameOf(s: Pager, e: Event, p: Page) {
    e == Go(s.holder) && HolderPhase(s).Picked? && |s.loads| >= POOLSIZE && p == s.loads[|s.loads| - POOLSIZE]
  }

  /** This step of the holder makes its own page valid. */
  predicate MapsPage(s: Pager, e: Event, p: Page) {
    e == Go(s.holder) && HolderPhase(s).Recorded? && p == Page(s.holder, HolderPhase(s).i)
  }

  lemma TakenFrom(s: Pager, e: Event)
    requires Inv(s) && Possible(s, e) && e.Go? && PhaseOf(s, e.a).Picked?
    ensures |s.loads| < POOLSIZE ==> Step(s, e).pt == s.pt && Step(s, e).tlb == s.tlb
    ensures |s.loads| >= POOLSIZE ==>
              var p := s.loads[|s.loads| - POOLSIZE];
              && IsPage(p) && Step(s, e).pt == s.pt[p := Lo(LoOf(s, p).pfn, false)]
              && Step(s, e).tlb == TlbInvalidate(s.tlb, EntryHi(p))
  {
    var n := |s.loads|;
    OccupiedIffUsed(s, s.frame);
    if n >= POOLSIZE {
      assert (n - POOLSIZE) % POOLSIZE == n % POOLSIZE == s.frame;
    }
  }

  /** The frame of the last page loaded. */
  lemma LastFrame(s: Pager)
    requires Inv(s) && HolderPhase(s).Recorded?
    ensures s.loads != [] && s.frame == (|s.loads| - 1) % POOLSIZE
  {
  }

  /**
   * In every run, an event changes the table entry of a page in two cases only: the page
   * loaded POOLSIZE faults ago loses its valid bit when its frame is taken, and the page
   * loaded last gets the frame of its turn, with the valid bit.
   */
  lemma EntriesExactly(s0: Pager, es: seq<Event>, e: Event, p: Page)
    requires Initial(s0)
    ensures var s := Run(s0, es); var t := Step(s, e);
            LoOf(t, p) == if TakesFrameOf(s, e, p) then Lo(LoOf(s, p).pfn, false)
                          else if MapsPage(s, e, p) then Lo(POOLSTART + (|s.loads| - 1) % POOLSIZE, true)
                          else LoOf(s, p)
  {
    Reachable(s0, es);
    EntryStep(Run(s0, es), e, p);
  }

  lemma EntryStep(s: Pager, e: Event, p: Page)
    requires Inv(s)
    ensures LoOf(Step(s, e), p) == if TakesFrameOf(s, e, p) then Lo(LoOf(s, p).pfn, false)
                                   else if MapsPage(s, e, p) then Lo(POOLSTART + (|s.loads| - 1) % POOLSIZE, true)
                                   else LoOf(s, p)
  {
    if Possible(s, e) && e.Go? && PhaseOf(s, e.a).Picked? {
      TakenFrom(s, e);
    } else if Possible(s, e) && e.Go? && PhaseOf(s, e.a).Recorded? {
      LastFrame(s);
    } else {
      TablesStay(s, e);
    }
  }

  lemma TablesStay(s: Pager, e: Event)
    requires Inv(s) && (Possible(s, e) && e.Go? ==> !PhaseOf(s, e.a).Picked? && !PhaseOf(s, e.a).Recorded?)
    ensures Step(s, e).pt == s.pt && (!e.Miss? ==> Step(s, e).tlb == s.tlb)
    ensures forall p :: !TakesFrameOf(s, e, p) && !MapsPage(s, e, p)
  {
  }

  /**
   * In every run, an event other than a miss changes the TLB in the same two cases only: the
   * first slot for that page becomes invalid, or gets the page's new entry.
   */
  lemma SlotsExactly(s0: Pager, es: seq<Event>, e: Event, k: int, p: Page)
    requires Initial(s0) && 0 <= k < TLBSIZE && !e.Miss?
    ensures var s := Run(s0, es); var t := Step(s, e);
            && (TakesFrameOf(s, e, p) && IsFirst(s.tlb, EntryHi(p), k) ==>
                  t.tlb[k] == TlbEntry(EntryHi(p), Lo(s.tlb[k].lo.pfn, false)))
            && (MapsPage(s, e, p) && IsFirst(s.tlb, EntryHi(p), k) ==> t.tlb[k] == TlbEntry(EntryHi(p), LoOf(t, p)))
            && (t.tlb[k] != s.tlb[k] ==>
                  exists q :: (TakesFrameOf(s, e, q) || MapsPage(s, e, q)) && IsFirst(s.tlb, EntryHi(q), k))
  {
    Reachable(s0, es);
    SlotStep(Run(s0, es), e, k, p);
  }

  lemma SlotStep(s: Pager, e: Event, k: int, p: Page)
    requires Inv(s) && 0 <= k < TLBSIZE && !e.Miss?
    ensures var t := Step(s, e);
            && (TakesFrameOf(s, e, p) && IsFirst(s.tlb, EntryHi(p), k) ==>
                  t.tlb[k] == TlbEntry(EntryHi(p), Lo(s.tlb[k].lo.pfn, false)))
            && (MapsPage(s, e, p) && IsFirst(s.tlb, EntryHi(p), k) ==> t.tlb[k] == TlbEntry(EntryHi(p), LoOf(t, p)))
            && (t.tlb[k] != s.tlb[k] ==>
                  exists q :: (TakesFrameOf(s, e, q) || MapsPage(s, e, q)) && IsFirst(s.tlb, EntryHi(q), k))
  {
    if Possible(s, e) && e.Go? && PhaseOf(s, e.a).Picked? {
      TakenFrom(s, e);
      if |s.loads| >= POOLSIZE {
        var q := s.loads[|s.loads| - POOLSIZE];
        assert TakesFrameOf(s, e, q);
      }
    } else if Possible(s, e) && e.Go? && PhaseOf(s, e.a).Recorded? {
      var q := Page(s.holder, HolderPhase(s).i);
      assert MapsPage(s, e, q);
    } else {
      TablesStay(s, e);
    }
  }
}
