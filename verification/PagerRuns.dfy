// The pager's guarantees over whole runs, from the initialisation of the swap
// structures and page tables on.
module PagerRuns {
  import opened PageBits
  import opened PagerState
  import opened PagerInv
  import opened PagerLaws

  /** All page-table entries as init_uproc_pagetable leaves them: dirty, not valid. */
  function FreshTables(): map<Page, Lo> {
    map a, i | 1 <= a <= UPROCMAX && 0 <= i < MAXPAGES :: Page(a, i) := Lo(0, false)
  }

  function AllUser(): map<int, Phase> {
    map a | Asid(a) && 1 <= a <= UPROCMAX :: User
  }

  /** After initSwapStructs and initUProcs; no TLB entry matches a user address yet. */
  ghost predicate Initial(s: Pager) {
    && s.pt == FreshTables() && s.phase == AllUser()
    && |s.swap| == POOLSIZE && (forall f :: 0 <= f < POOLSIZE ==> s.swap[f].asid == -1)
    && |s.tlb| == TLBSIZE && (forall k :: 0 <= k < TLBSIZE ==> !UserHi(s.tlb[k].hi))
    && s.tlbIndex == 0 && s.frame == 0 && s.swapSem == 1 && s.waiting == []
    && s.holder == 0 && s.loads == [] && s.ios == []
  }

  lemma InitialInv(s: Pager)
    requires Initial(s)
    ensures Inv(s) && AbsentOk(s) && forall law :: Holds(law, s)
  {
    assert forall p :: !LoOf(s, p).valid;
    assert forall a :: PhaseOf(s, a) == if Asid(a) then User else Dead;
    assert TlbOk(s) by {
      forall p | IsPage(p)
        ensures UserHi(EntryHi(p))
      {
        PageIsUserHi(p);
      }
    }
  }

  lemma PageIsUserHi(p: Page)
    requires IsPage(p)
    ensures UserHi(EntryHi(p))
  {
    UserHiFor(VpnOf(p.index), p.asid);
  }

  function Run(s: Pager, es: seq<Event>): (t: Pager)
    requires Sized(s)
    ensures Sized(t)
    decreases |es|
  {
    if es == [] then s else Run(Step(s, es[0]), es[1..])
  }

  lemma {:induction false} RunKeepsInv(s: Pager, es: seq<Event>)
    requires Inv(s)
    ensures Inv(Run(s, es))
    decreases |es|
  {
    if es != [] {
      StepKeepsInv(s, es[0]);
      RunKeepsInv(Step(s, es[0]), es[1..]);
    }
  }

  /** The invariant holds after every run from initialisation. */
  lemma Reachable(s0: Pager, es: seq<Event>)
    requires Initial(s0)
    ensures Inv(Run(s0, es))
  {
    InitialInv(s0);
    RunKeepsInv(s0, es);
  }

  // ---- When the three laws hold ------------------------------------------------------------

  /** The law holds now and after every event of the run. */
  ghost predicate Always(law: Law, s: Pager, es: seq<Event>)
    requires Sized(s)
    decreases |es|
  {
    Holds(law, s) && (es != [] ==> Always(law, Step(s, es[0]), es[1..]))
  }

  /** Every event meets the law's demand. */
  ghost predicate Meets(law: Law, s: Pager, es: seq<Event>)
    requires Sized(s)
    decreases |es|
  {
    es != [] ==> Demands(law, s, es[0]) && Meets(law, Step(s, es[0]), es[1..])
  }

  /** All accesses that miss the TLB are to segment 2. */
  predicate InSegment2(es: seq<Event>) {
    forall j :: 0 <= j < |es| && es[j].Miss? ==> Segment2(es[j].vpn)
  }

  lemma {:induction false} AlwaysIffMeets(law: Law, s: Pager, es: seq<Event>)
    requires Inv(s) && Holds(law, s)
    ensures Always(law, s, es) <==> Meets(law, s, es)
    decreases |es|
  {
    if es != [] {
      StepKeepsInv(s, es[0]);
      StepKeepsLaw(law, s, es[0]);
      if Demands(law, s, es[0]) {
        AlwaysIffMeets(law, Step(s, es[0]), es[1..]);
      }
    }
  }

  /** A law holds all through a run from initialisation if and only if each event meets the law's demand. */
  lemma LawHoldsExactlyWhen(law: Law, s0: Pager, es: seq<Event>)
    requires Initial(s0)
    ensures Always(law, s0, es) <==> Meets(law, s0, es)
  {
    InitialInv(s0);
    AlwaysIffMeets(law, s0, es);
  }

  lemma {:induction false} LawAtTheEnd(law: Law, s: Pager, es: seq<Event>)
    requires Inv(s) && Holds(law, s) && Meets(law, s, es)
    ensures Holds(law, Run(s, es))
    decreases |es|
  {
    if es != [] {
      StepKeepsInv(s, es[0]);
      StepKeepsLaw(law, s, es[0]);
      LawAtTheEnd(law, Step(s, es[0]), es[1..]);
    }
  }

  /** Refills that make no second copy are enough for all three laws. */
  lemma {:induction false} CleanRefillsSuffice(s: Pager, es: seq<Event>)
    requires Inv(s) && TlbOk(s) && Meets(CacheAgrees, s, es)
    ensures Meets(FaultsAreTrue, s, es)
    decreases |es|
  {
    if es != [] {
      StepKeepsInv(s, es[0]);
      StepKeepsLaw(CacheAgrees, s, es[0]);
      LawsFollow(s, es[0]);
      CleanRefillsSuffice(Step(s, es[0]), es[1..]);
    }
  }

  /** True faults are enough for frames to point back, and keep pages that are waited for absent. */
  lemma {:induction false} TrueFaultsSuffice(s: Pager, es: seq<Event>)
    requires Inv(s) && Truthful(s) && AbsentOk(s) && Meets(FaultsAreTrue, s, es)
    ensures Meets(FramesPointBack, s, es) && AbsentOk(Run(s, es))
    decreases |es|
  {
    if es != [] {
      StepKeepsInv(s, es[0]);
      StepKeepsLaw(FaultsAreTrue, s, es[0]);
      AbsentStep(s, es[0]);
      LawsFollow(s, es[0]);
      TrueFaultsSuffice(Step(s, es[0]), es[1..]);
    }
  }

  lemma {:induction false} Segment2Meets(s: Pager, es: seq<Event>)
    requires Inv(s) && InSegment2(es)
    ensures Meets(CacheAgrees, s, es)
    decreases |es|
  {
    if es != [] {
      StepKeepsInv(s, es[0]);
      Segment2IsClean(s, es[0]);
      Segment2Meets(Step(s, es[0]), es[1..]);
    }
  }

  /** Programs that stay in segment 2 never break any of the three laws. */
  lemma Segment2IsSafe(s0: Pager, es: seq<Event>, law: Law)
    requires Initial(s0) && InSegment2(es)
    ensures Meets(law, s0, es) && Always(law, s0, es)
  {
    InitialInv(s0);
    assert Holds(CacheAgrees, s0) && Holds(FaultsAreTrue, s0);
    Segment2Meets(s0, es);
    CleanRefillsSuffice(s0, es);
    TrueFaultsSuffice(s0, es);
    assert Meets(law, s0, es) by {
      match law
      case CacheAgrees =>
      case FaultsAreTrue =>
      case FramesPointBack =>
    }
    LawHoldsExactlyWhen(law, s0, es);
  }

  // ---- Mapping ------------------------------------------------------------------------

  /** Every valid entry's frame has a swap entry naming that entry; no two valid entries share a frame. */
  lemma ValidPagesOwnTheirFrames(s0: Pager, es: seq<Event>, p: Page, q: Page)
    requires Initial(s0) && IsPage(p) && IsPage(q)
    ensures var s := Run(s0, es);
            LoOf(s, p).valid ==>
              var f := LoOf(s, p).pfn - POOLSTART;
              && 0 <= f < POOLSIZE && s.swap[f] == Swap(p.asid, p.index, p)
              && (p != q && LoOf(s, q).valid ==> LoOf(s, q).pfn != LoOf(s, p).pfn)
  {
    Reachable(s0, es);
    var s := Run(s0, es);
    if LoOf(s, p).valid {
      var f := LoOf(s, p).pfn - POOLSTART;
      assert IsFrame(f);
      PageNumRoundTrip(p);
    }
  }

  /** With no fault in flight, occupied frames and valid entries point at each other. */
  lemma FramesAndPagesMatch(s0: Pager, es: seq<Event>, f: int)
    requires Initial(s0) && 0 <= f < POOLSIZE && Meets(FramesPointBack, s0, es)
    ensures var s := Run(s0, es);
            s.holder == 0 ==>
              (Occupied(s.swap[f]) <==> exists p :: IsPage(p) && LoOf(s, p) == Lo(POOLSTART + f, true))
    ensures var s := Run(s0, es);
            s.holder == 0 && Occupied(s.swap[f]) ==> LoOf(s, s.swap[f].pte) == Lo(POOLSTART + f, true)
  {
    Reachable(s0, es);
    InitialInv(s0);
    LawAtTheEnd(FramesPointBack, s0, es);
    var s := Run(s0, es);
    assert IsFrame(f);
    OccupiedIffUsed(s, f);
    if s.holder == 0 {
      NobodyHolds(s);
      if Occupied(s.swap[f]) {
        assert IsPage(s.swap[f].pte) && LoOf(s, s.swap[f].pte) == Lo(POOLSTART + f, true);
      }
      if p :| IsPage(p) && LoOf(s, p) == Lo(POOLSTART + f, true) {
        assert LoOf(s, p).valid;
      }
    }
  }

  lemma NobodyHolds(s: Pager)
    requires Inv(s) && s.holder == 0
    ensures HolderPhase(s).Dead?
  {
    assert !Asid(0);
  }

  // ---- TLB -----------------------------------------------------------------------------

  /** Every TLB entry for a page equals the page's table entry, and there is at most one. */
  lemma TlbAgrees(s0: Pager, es: seq<Event>, p: Page, k: int, l: int)
    requires Initial(s0) && IsPage(p) && 0 <= k < TLBSIZE && 0 <= l < TLBSIZE && Meets(CacheAgrees, s0, es)
    ensures var s := Run(s0, es);
            s.tlb[k].hi == EntryHi(p) ==>
              s.tlb[k].lo == LoOf(s, p) && (s.tlb[l].hi == EntryHi(p) ==> k == l)
  {
    InitialInv(s0);
    LawAtTheEnd(CacheAgrees, s0, es);
  }

  /** A page that faults is in no frame, and stays out of every frame until its own fault is served. */
  lemma FaultingPageIsAbsent(s0: Pager, es: seq<Event>, a: int)
    requires Initial(s0) && Asid(a) && Meets(FaultsAreTrue, s0, es)
    ensures var s := Run(s0, es);
            Pending(PhaseOf(s, a)) ==> !LoOf(s, Page(a, PhaseOf(s, a).i)).valid
    ensures var s := Run(s0, es);
            forall vpn :: Possible(s, Fault(a, vpn)) ==> !LoOf(s, Page(a, PageFor(vpn))).valid
  {
    InitialInv(s0);
    Reachable(s0, es);
    LawAtTheEnd(FaultsAreTrue, s0, es);
    TrueFaultsSuffice(s0, es);
    var s := Run(s0, es);
    forall vpn | Possible(s, Fault(a, vpn))
      ensures !LoOf(s, Page(a, PageFor(vpn))).valid
    {
      FaultMeansInvalid(s, a, vpn);
    }
  }

  /** Whatever is accessed, a page fault is for a page of the table, so the handler's search never ends a process. */
  lemma FaultsFindTheirPage(s0: Pager, es: seq<Event>, a: int, vpn: int)
    requires Initial(s0) && Asid(a)
    ensures var s := Run(s0, es);
            && (Inside(PhaseOf(s, a)) || Pending(PhaseOf(s, a)) ==> IsPage(Page(a, PhaseOf(s, a).i)))
            && (Possible(s, Fault(a, vpn)) ==> IsPage(Page(a, PageFor(vpn))) && vpn == VpnOf(PageFor(vpn)))
            && (s.holder != 0 ==> Inside(HolderPhase(s)))
  {
    Reachable(s0, es);
    var s := Run(s0, es);
    if Possible(s, Fault(a, vpn)) {
      FoundIsPage(s, a, vpn);
      HiIdentifies(vpn, a, Page(a, PageFor(vpn)));
    }
  }

  // ---- Mutual exclusion ------------------------------------------------------------------

  /** At most one process is between P(swapSem) and V(swapSem). */
  lemma OneFaultAtATime(s0: Pager, es: seq<Event>, a: int, b: int)
    requires Initial(s0)
    ensures var s := Run(s0, es);
            Inside(PhaseOf(s, a)) && Inside(PhaseOf(s, b)) ==> a == b
  {
    Reachable(s0, es);
  }

  /** Once chosen, the frame to replace does not change until the missing page has been mapped to it. */
  lemma FrameIsStable(s: Pager, e: Event)
    requires Inv(s) && (Choosing(HolderPhase(s)) || HolderPhase(s).Recorded?)
    ensures Step(s, e).frame == s.frame
  {
    if e.Go? && Possible(s, e) && PhaseOf(s, e.a).Entered? {
      assert false;
    }
  }

  // ---- Replacement order --------------------------------------------------------------------

  /** The frame of the n-th fault: n mod POOLSIZE, unused so far or holding the oldest page. */
  ghost predicate TakesTurn(s: Pager, n: nat, f: int)
    requires Sized(s)
  {
    && f == n % POOLSIZE
    && (n < POOLSIZE ==> !Occupied(s.swap[n]))
    && (n >= POOLSIZE && n <= |s.loads| ==>
          && s.swap[f].pte == s.loads[n - POOLSIZE]
          && (forall m :: n - POOLSIZE <= m < n ==> s.swap[m % POOLSIZE].pte == s.loads[m]))
  }

  lemma PickTakesTurn(s: Pager, a: int, i: int)
    requires Inv(s) && PhaseOf(s, a) == Entered(i) && IsPage(Page(a, i))
    ensures TakesTurn(s, |s.loads|, Pick(s, a, i).frame)
  {
    var n := |s.loads|;
    assert a == s.holder;
    NextFrameIsFifo(s);
    OccupiedIffUsed(s, n % POOLSIZE);
    assert n >= POOLSIZE ==> (n - POOLSIZE) % POOLSIZE == n % POOLSIZE;
  }

  /**
   * The n-th fault (from 0) picks frame n mod POOLSIZE: the next unused one while there
   * is any, and afterwards the one holding the page loaded longest ago.
   */
  lemma ReplacementIsFifo(s0: Pager, es: seq<Event>, a: int, i: int)
    requires Initial(s0) && IsPage(Page(a, i))
    ensures var s := Run(s0, es);
            PhaseOf(s, a) == Entered(i) ==> TakesTurn(s, |s.loads|, Pick(s, a, i).frame)
  {
    Reachable(s0, es);
    if PhaseOf(Run(s0, es), a) == Entered(i) {
      PickTakesTurn(Run(s0, es), a, i);
    }
  }

  /** Occupied frames are the first ones, as many as faults served, until the pool is full. */
  lemma OccupiedIsPrefix(s0: Pager, es: seq<Event>, f: int)
    requires Initial(s0) && 0 <= f < POOLSIZE
    ensures var s := Run(s0, es);
            Occupied(s.swap[f]) <==> f < |s.loads|
  {
    Reachable(s0, es);
    OccupiedIffUsed(Run(s0, es), f);
  }

  /** Serving the n-th fault maps its page to frame n mod POOLSIZE. */
  lemma FaultMapsFrameOfTurn(s0: Pager, es: seq<Event>, a: int, i: int)
    requires Initial(s0)
    ensures var s := Run(s0, es);
            PhaseOf(s, a) == Recorded(i) ==>
              var n := |s.loads| - 1; var t := Map(s, a, i);
              n >= 0 && s.loads[n] == Page(a, i) && LoOf(t, Page(a, i)) == Lo(POOLSTART + n % POOLSIZE, true)
  {
    Reachable(s0, es);
    var s := Run(s0, es);
    if PhaseOf(s, a) == Recorded(i) {
      assert a == s.holder;
    }
  }

  // ---- Flash blocks ---------------------------------------------------------------------------

  /** All flash operations on a page use one device and block, and no other page uses them. */
  lemma BlocksIdentifyPages(s0: Pager, es: seq<Event>, j: int, k: int)
    requires Initial(s0)
    ensures var s := Run(s0, es);
            0 <= j < |s.ios| && 0 <= k < |s.ios| ==>
              var x := s.ios[j]; var y := s.ios[k];
              (x.device == y.device && x.block == y.block <==> x.page == y.page)
  {
    Reachable(s0, es);
  }
}
