// Three laws of the pager that do not hold in every run, because the refill handler
// looks a page up by the low 18 bits of its number: an address of segment 3 makes it
// write an entry for a page of segment 2, of which the TLB may already hold a copy.
// For each law, the exact condition on steps under which it is kept.
module PagerLaws {
  import opened PageBits
  import opened PagerState
  import opened PagerInv

  /** The TLB is a cache of the page tables, with at most one copy of an entry. */
  ghost predicate TlbOk(s: Pager)
    requires Sized(s)
  {
    forall k, p :: 0 <= k < TLBSIZE && IsPage(p) && s.tlb[k].hi == EntryHi(p) ==>
      s.tlb[k].lo == LoOf(s, p) && Probe(s.tlb, EntryHi(p)) == k
  }

  /** A TLB entry that is not valid is for a page that is not valid. */
  ghost predicate Truthful(s: Pager)
    requires Sized(s)
  {
    forall k, p :: 0 <= k < TLBSIZE && IsPage(p) && s.tlb[k].hi == EntryHi(p) && !s.tlb[k].lo.valid ==> !LoOf(s, p).valid
  }

  /** A used frame's page is valid and points back, except the frame being refilled. */
  ghost predicate BackOk(s: Pager)
    requires Sized(s)
  {
    forall f {:trigger IsFrame(f)} :: IsFrame(f) && f < |s.loads| && !(f == s.frame && Open(HolderPhase(s))) ==>
      LoOf(s, s.swap[f].pte) == Lo(POOLSTART + f, true)
  }

  /** The page a process waits for is not valid. */
  ghost predicate AbsentOk(s: Pager) {
    forall a :: Pending(PhaseOf(s, a)) ==> !LoOf(s, Page(a, PhaseOf(s, a).i)).valid
  }

  datatype Law = CacheAgrees | FaultsAreTrue | FramesPointBack

  ghost predicate Holds(law: Law, s: Pager)
    requires Sized(s)
  {
    match law
    case CacheAgrees => TlbOk(s)
    case FaultsAreTrue => Truthful(s)
    case FramesPointBack => BackOk(s)
  }

  // ---- What each law demands of a step -------------------------------------------------------

  /** A refill finds no copy of the entry it writes, except in the slot it overwrites. */
  predicate CleanStep(s: Pager, e: Event)
    requires Sized(s)
  {
    e.Miss? && Possible(s, e) && PageFor(e.vpn) >= 0 ==>
      Probe(s.tlb, EntryHi(Page(e.a, PageFor(e.vpn)))) in [-1, s.tlbIndex]
  }

  /** The step is markValidAndUpdateTLB for a page. */
  predicate Maps(s: Pager, e: Event) {
    e.Go? && Possible(s, e) && PhaseOf(s, e.a).Recorded?
  }

  function MappedPage(s: Pager, e: Event): Page
    requires Maps(s, e)
  {
    Page(e.a, PhaseOf(s, e.a).i)
  }

  /** A page that becomes valid has no copy in the TLB that is not valid, apart from the one that is updated. */
  predicate LoneStep(s: Pager, e: Event)
    requires Sized(s)
  {
    Maps(s, e) ==>
      var hi := EntryHi(MappedPage(s, e));
      forall k :: 0 <= k < TLBSIZE && s.tlb[k].hi == hi && !s.tlb[k].lo.valid ==> k == Probe(s.tlb, hi)
  }

  /** A page that becomes valid was not valid before. */
  predicate FreshStep(s: Pager, e: Event) {
    Maps(s, e) ==> !LoOf(s, MappedPage(s, e)).valid
  }

  predicate Demands(law: Law, s: Pager, e: Event)
    requires Sized(s)
  {
    match law
    case CacheAgrees => CleanStep(s, e)
    case FaultsAreTrue => LoneStep(s, e)
    case FramesPointBack => FreshStep(s, e)
  }

  // ---- Which steps change what ---------------------------------------------------------------

  predicate Refills(s: Pager, e: Event) {
    e.Miss? && Possible(s, e) && PageFor(e.vpn) >= 0
  }

  predicate Evicts(s: Pager, e: Event)
    requires Sized(s)
  {
    e.Go? && Possible(s, e) && PhaseOf(s, e.a).Picked? && Occupied(s.swap[s.frame])
  }

  /** Only refills, evictions and mappings change page tables or TLB. */
  lemma QuietStep(s: Pager, e: Event)
    requires Sized(s) && !Refills(s, e) && !Evicts(s, e) && !Maps(s, e)
    ensures Step(s, e).pt == s.pt && Step(s, e).tlb == s.tlb
  {
  }

  lemma EvictedPage(s: Pager, e: Event)
    requires Inv(s) && Evicts(s, e)
    ensures var q := s.swap[s.frame].pte; var t := Step(s, e);
            && IsPage(q) && s.frame < |s.loads| && e.a == s.holder
            && t.pt == s.pt[q := Lo(LoOf(s, q).pfn, false)] && t.tlb == TlbInvalidate(s.tlb, EntryHi(q))
            && t.swap == s.swap && t.loads == s.loads && t.frame == s.frame
  {
    OccupiedIffUsed(s, s.frame);
    assert IsFrame(s.frame);
  }

  // ---- CacheAgrees -----------------------------------------------------------------------------

  /** With one copy only, the slot holding `hi` is the slot TLBP finds. */
  lemma ProbeFinds(tlb: seq<TlbEntry>, hi: int, k: nat)
    requires k < |tlb| && tlb[k].hi == hi
    requires forall j :: 0 <= j < |tlb| && tlb[j].hi == hi ==> j == k
    ensures Probe(tlb, hi) == k
  {
    var j := Probe(tlb, hi);
    assert j >= 0;
  }

  lemma TlbUnique(s: Pager, k: int, l: int, p: Page)
    requires Sized(s) && TlbOk(s) && IsPage(p)
    requires 0 <= k < TLBSIZE && 0 <= l < TLBSIZE && s.tlb[k].hi == EntryHi(p) && s.tlb[l].hi == EntryHi(p)
    ensures k == l
  {
  }

  /** Changing one page's entry in the table and in its TLB copy keeps them equal. */
  lemma TlbFollows(s: Pager, t: Pager, q: Page, lo: Lo)
    requires Sized(s) && TlbOk(s) && IsPage(q)
    requires t.pt == s.pt[q := lo] && t.tlb == TlbUpdate(s.tlb, EntryHi(q), lo) && Sized(t)
    ensures TlbOk(t)
  {
    forall k, p | 0 <= k < TLBSIZE && IsPage(p) && t.tlb[k].hi == EntryHi(p)
      ensures t.tlb[k].lo == LoOf(t, p) && Probe(t.tlb, EntryHi(p)) == k
    {
      VpnIdentifiesIndex(p, q);
      assert s.tlb[k].hi == EntryHi(p);
      forall l | 0 <= l < |t.tlb| && t.tlb[l].hi == EntryHi(p)
        ensures l == k
      {
        TlbUnique(s, k, l, p);
      }
      ProbeFinds(t.tlb, EntryHi(p), k);
    }
  }

  /** Clearing the valid bit in the TLB is the same as copying the cleared entry. */
  lemma InvalidateIsUpdate(s: Pager, q: Page)
    requires Sized(s) && TlbOk(s) && IsPage(q)
    ensures TlbInvalidate(s.tlb, EntryHi(q)) == TlbUpdate(s.tlb, EntryHi(q), Lo(LoOf(s, q).pfn, false))
  {
  }

  /** A refill keeps the cache in order if and only if it makes no second copy. */
  lemma RefillTlb(s: Pager, a: int, i: int)
    requires Sized(s) && TlbOk(s) && IsPage(Page(a, i))
    ensures TlbOk(Refill(s, a, i)) <==> Probe(s.tlb, EntryHi(Page(a, i))) in [-1, s.tlbIndex]
  {
    var q := Page(a, i);
    var j := Probe(s.tlb, EntryHi(q));
    var t := Refill(s, a, i);
    if j == -1 || j == s.tlbIndex {
      CleanRefill(s, a, i);
    } else {
      assert t.tlb[j].hi == EntryHi(q) && t.tlb[s.tlbIndex].hi == EntryHi(q);
      if TlbOk(t) {
        TlbUnique(t, j, s.tlbIndex, q);
        assert false;
      }
    }
  }

  lemma CleanRefill(s: Pager, a: int, i: int)
    requires Sized(s) && TlbOk(s) && IsPage(Page(a, i))
    requires Probe(s.tlb, EntryHi(Page(a, i))) in [-1, s.tlbIndex]
    ensures TlbOk(Refill(s, a, i))
  {
    var t := Refill(s, a, i);
    var q := Page(a, i);
    forall k, p | 0 <= k < TLBSIZE && IsPage(p) && t.tlb[k].hi == EntryHi(p)
      ensures t.tlb[k].lo == LoOf(t, p) && Probe(t.tlb, EntryHi(p)) == k
    {
      VpnIdentifiesIndex(p, q);
      forall l | 0 <= l < |t.tlb| && t.tlb[l].hi == EntryHi(p)
        ensures l == k
      {
        if l != s.tlbIndex && k != s.tlbIndex {
          TlbUnique(s, k, l, p);
        }
      }
      ProbeFinds(t.tlb, EntryHi(p), k);
    }
  }

  lemma CacheStep(s: Pager, e: Event)
    requires Inv(s) && TlbOk(s)
    ensures TlbOk(Step(s, e)) <==> CleanStep(s, e)
  {
    var t := Step(s, e);
    if Refills(s, e) {
      RefillTlb(s, e.a, PageFor(e.vpn));
    } else if Evicts(s, e) {
      EvictedPage(s, e);
      var q := s.swap[s.frame].pte;
      InvalidateIsUpdate(s, q);
      TlbFollows(s, t, q, Lo(LoOf(s, q).pfn, false));
    } else if Maps(s, e) {
      TlbFollows(s, t, MappedPage(s, e), Lo(POOLSTART + s.frame, true));
    } else {
      QuietStep(s, e);
      assert forall p :: LoOf(t, p) == LoOf(s, p);
    }
  }

  // ---- FaultsAreTrue -----------------------------------------------------------------------------

  lemma TruthStep(s: Pager, e: Event)
    requires Inv(s) && Truthful(s)
    ensures Truthful(Step(s, e)) <==> LoneStep(s, e)
  {
    if Refills(s, e) {
      TrueRefill(s, e.a, PageFor(e.vpn));
    } else if Evicts(s, e) {
      EvictedPage(s, e);
      TrueEvict(s, Step(s, e), s.swap[s.frame].pte);
    } else if Maps(s, e) {
      TrueMap(s, Step(s, e), MappedPage(s, e), Lo(POOLSTART + s.frame, true));
    } else {
      QuietStep(s, e);
      assert forall p :: LoOf(Step(s, e), p) == LoOf(s, p);
    }
  }

  lemma TrueRefill(s: Pager, a: int, i: int)
    requires Sized(s) && Truthful(s) && IsPage(Page(a, i))
    ensures Truthful(Refill(s, a, i))
  {
    var t := Refill(s, a, i);
    forall k, p | 0 <= k < TLBSIZE && IsPage(p) && t.tlb[k].hi == EntryHi(p) && !t.tlb[k].lo.valid
      ensures !LoOf(t, p).valid
    {
      VpnIdentifiesIndex(p, Page(a, i));
      assert LoOf(t, p) == LoOf(s, p);
    }
  }

  lemma TrueEvict(s: Pager, t: Pager, q: Page)
    requires Sized(s) && Sized(t) && Truthful(s) && IsPage(q)
    requires t.pt == s.pt[q := Lo(LoOf(s, q).pfn, false)] && t.tlb == TlbInvalidate(s.tlb, EntryHi(q))
    ensures Truthful(t)
  {
    forall k, p | 0 <= k < TLBSIZE && IsPage(p) && t.tlb[k].hi == EntryHi(p) && !t.tlb[k].lo.valid
      ensures !LoOf(t, p).valid
    {
      VpnIdentifiesIndex(p, q);
      assert s.tlb[k].hi == EntryHi(p);
      if p != q {
        assert t.tlb[k] == s.tlb[k] && LoOf(t, p) == LoOf(s, p);
      }
    }
  }

  /** Mapping a page leaves an untrue entry behind exactly when a second invalid copy exists. */
  lemma TrueMap(s: Pager, t: Pager, q: Page, lo: Lo)
    requires Sized(s) && Sized(t) && Truthful(s) && IsPage(q) && lo.valid
    requires t.pt == s.pt[q := lo] && t.tlb == TlbUpdate(s.tlb, EntryHi(q), lo)
    ensures Truthful(t) <==>
              forall k :: 0 <= k < TLBSIZE && s.tlb[k].hi == EntryHi(q) && !s.tlb[k].lo.valid ==> k == Probe(s.tlb, EntryHi(q))
  {
    var j := Probe(s.tlb, EntryHi(q));
    if k :| 0 <= k < TLBSIZE && s.tlb[k].hi == EntryHi(q) && !s.tlb[k].lo.valid && k != j {
      assert t.tlb[k] == s.tlb[k] && LoOf(t, q).valid;
    } else {
      forall k, p | 0 <= k < TLBSIZE && IsPage(p) && t.tlb[k].hi == EntryHi(p) && !t.tlb[k].lo.valid
        ensures !LoOf(t, p).valid
      {
        VpnIdentifiesIndex(p, q);
        assert k != j && t.tlb[k] == s.tlb[k];
        assert p != q && LoOf(t, p) == LoOf(s, p);
      }
    }
  }

  /** An access that faults finds its page not valid in the page table either. */
  lemma FaultMeansInvalid(s: Pager, a: int, vpn: int)
    requires Inv(s) && Truthful(s) && Possible(s, Fault(a, vpn))
    ensures IsPage(Page(a, PageFor(vpn))) && !LoOf(s, Page(a, PageFor(vpn))).valid
  {
    FoundIsPage(s, a, vpn);
  }

  /** With true faults, a page stays absent from its fault until it is mapped. */
  lemma AbsentStep(s: Pager, e: Event)
    requires Inv(s) && Truthful(s) && AbsentOk(s)
    ensures AbsentOk(Step(s, e))
  {
    var t := Step(s, e);
    StepKeepsInv(s, e);
    if Possible(s, e) {
      if e.Fault? {
        FaultMeansInvalid(s, e.a, e.vpn);
      }
      forall b | Pending(PhaseOf(t, b))
        ensures !LoOf(t, Page(b, PhaseOf(t, b).i)).valid
      {
        WaitsOn(s, e, b);
        if LoOf(t, Page(b, PhaseOf(t, b).i)).valid {
          BecomesValid(s, e, Page(b, PhaseOf(t, b).i));
        }
      }
    }
  }

  /** A process that waits after a step has waited for the same page before, unless it has just faulted. */
  lemma WaitsOn(s: Pager, e: Event, b: int)
    requires Inv(s) && Possible(s, e) && Pending(PhaseOf(Step(s, e), b))
    ensures (e.Fault? && e.a == b) || (Pending(PhaseOf(s, b)) && PhaseOf(Step(s, e), b).i == PhaseOf(s, b).i)
    ensures Maps(s, e) ==> b != e.a
  {
    if e.Go? && PhaseOf(s, e.a).Mapped? {
      ReleaseLock(s, e.a, PhaseOf(s, e.a).i);
    }
  }

  /** Only the page that is mapped becomes valid. */
  lemma BecomesValid(s: Pager, e: Event, p: Page)
    requires Inv(s) && Possible(s, e) && LoOf(Step(s, e), p).valid
    ensures LoOf(s, p).valid || (Maps(s, e) && p == MappedPage(s, e))
  {
    if Evicts(s, e) {
      EvictedPage(s, e);
    } else if !Maps(s, e) && !Refills(s, e) {
      QuietStep(s, e);
    }
  }

  // ---- FramesPointBack ----------------------------------------------------------------------------

  lemma BackStep(s: Pager, e: Event)
    requires Inv(s) && BackOk(s)
    ensures BackOk(Step(s, e)) <==> FreshStep(s, e)
  {
    var t := Step(s, e);
    if Maps(s, e) {
      BackMap(s, t, MappedPage(s, e));
    } else if Evicts(s, e) {
      EvictedPage(s, e);
      BackEvict(s, t, s.swap[s.frame].pte);
    } else {
      BackOther(s, e);
    }
  }

  lemma BackEvict(s: Pager, t: Pager, q: Page)
    requires Sized(s) && Sized(t) && BackOk(s) && s.frame < |s.loads| && q == s.swap[s.frame].pte
    requires t.pt == s.pt[q := Lo(LoOf(s, q).pfn, false)] && t.swap == s.swap && t.frame == s.frame && t.loads == s.loads
    requires HolderPhase(s).Picked? && HolderPhase(t).Evicted?
    ensures BackOk(t)
  {
    assert IsFrame(s.frame);
    forall f | IsFrame(f) && f < |t.loads| && f != t.frame
      ensures LoOf(t, t.swap[f].pte) == Lo(POOLSTART + f, true)
    {
      assert LoOf(s, s.swap[f].pte) == Lo(POOLSTART + f, true);
      assert s.swap[f].pte != q;
    }
  }

  /** Mapping a page that is still valid takes it away from the frame that holds it; otherwise nothing is lost. */
  lemma BackMap(s: Pager, t: Pager, p: Page)
    requires Inv(s) && BackOk(s) && Sized(t) && HolderPhase(s).Recorded? && p == Page(s.holder, HolderPhase(s).i)
    requires t.pt == s.pt[p := Lo(POOLSTART + s.frame, true)] && t.swap == s.swap && t.frame == s.frame && t.loads == s.loads
    requires HolderPhase(t).Mapped?
    ensures BackOk(t) <==> !LoOf(s, p).valid
  {
    assert IsPage(p) && s.swap[s.frame].pte == p;
    if LoOf(s, p).valid {
      var g := LoOf(s, p).pfn - POOLSTART;
      assert IsFrame(g) && g < |t.loads| && t.swap[g].pte == p && g != s.frame;
      assert LoOf(t, t.swap[g].pte) != Lo(POOLSTART + g, true);
    } else {
      forall f | IsFrame(f) && f < |t.loads|
        ensures LoOf(t, t.swap[f].pte) == Lo(POOLSTART + f, true)
      {
        if f != s.frame {
          assert LoOf(s, s.swap[f].pte) == Lo(POOLSTART + f, true);
          assert s.swap[f].pte != p;
        }
      }
    }
  }

  lemma BackSame(s: Pager, t: Pager)
    requires Sized(s) && Sized(t) && BackOk(s)
    requires t.pt == s.pt && t.swap == s.swap && t.loads == s.loads
    requires Open(HolderPhase(s)) ==> Open(HolderPhase(t)) && t.frame == s.frame
    ensures BackOk(t)
  {
    forall f | IsFrame(f) && f < |t.loads| && !(f == t.frame && Open(HolderPhase(t)))
      ensures LoOf(t, t.swap[f].pte) == Lo(POOLSTART + f, true)
    {
      assert LoOf(s, s.swap[f].pte) == Lo(POOLSTART + f, true);
    }
  }

  /** Only the frame that is open gets a new owner. */
  lemma BackNote(s: Pager, t: Pager, p: Page)
    requires Sized(s) && Sized(t) && BackOk(s) && FrameOk(s) && HolderPhase(s).Loaded? && Open(HolderPhase(t))
    requires t.pt == s.pt && t.swap == s.swap[s.frame := EntryFor(p)] && t.loads == s.loads + [p] && t.frame == s.frame
    ensures BackOk(t)
  {
    assert s.frame == |s.loads| % POOLSIZE;
    forall f | IsFrame(f) && f < |t.loads| && f != t.frame
      ensures LoOf(t, t.swap[f].pte) == Lo(POOLSTART + f, true)
    {
      assert f < |s.loads|;
      assert LoOf(s, s.swap[f].pte) == Lo(POOLSTART + f, true);
    }
  }

  lemma BackOther(s: Pager, e: Event)
    requires Inv(s) && BackOk(s) && !Maps(s, e) && !Evicts(s, e)
    ensures BackOk(Step(s, e))
  {
    if Possible(s, e) {
      if e.Go? {
        BackGo(s, e.a);
      } else {
        BackUser(s, e);
      }
    }
  }

  lemma BackUser(s: Pager, e: Event)
    requires Inv(s) && BackOk(s) && Possible(s, e) && !e.Go?
    ensures BackOk(Step(s, e))
  {
    var t := Step(s, e);
    assert e.a != s.holder;
    assert HolderPhase(t) == HolderPhase(s) by {
      assert !Asid(0);
    }
    BackSame(s, t);
  }

  lemma BackGo(s: Pager, a: int)
    requires Inv(s) && BackOk(s) && Possible(s, Go(a)) && !Maps(s, Go(a)) && !Evicts(s, Go(a))
    ensures BackOk(Advance(s, a))
  {
    var t := Advance(s, a);
    var f := PhaseOf(s, a);
    if f.Faulting? {
      AcquireLock(s, a, f.i);
      BackSame(s, t);
    } else if f.Mapped? {
      ReleaseLock(s, a, f.i);
      BackSame(s, t);
    } else {
      assert a == s.holder && PhaseOf(t, a) == HolderPhase(t);
      if f.Loaded? {
        BackNote(s, t, Page(a, f.i));
      } else {
        BackSame(s, t);
      }
    }
  }

  // ---- Any law -----------------------------------------------------------------------------------

  /** A step keeps a law if and only if it meets the law's demand. */
  lemma StepKeepsLaw(law: Law, s: Pager, e: Event)
    requires Inv(s) && Holds(law, s)
    ensures Holds(law, Step(s, e)) <==> Demands(law, s, e)
  {
    match law
    case CacheAgrees => CacheStep(s, e);
    case FaultsAreTrue => TruthStep(s, e);
    case FramesPointBack => BackStep(s, e);
  }

  /** With a cache in order every fault is true, and a page that is waited for and absent can be mapped. */
  lemma LawsFollow(s: Pager, e: Event)
    requires Inv(s)
    ensures TlbOk(s) ==> Truthful(s) && LoneStep(s, e)
    ensures AbsentOk(s) ==> FreshStep(s, e)
  {
  }

  /** An access to segment 2 misses only when there is no copy. */
  lemma Segment2IsClean(s: Pager, e: Event)
    requires Inv(s) && (e.Miss? ==> Segment2(e.vpn))
    ensures CleanStep(s, e)
  {
    if Refills(s, e) {
      SearchFinds(e.vpn, e.a, PageFor(e.vpn));
    }
  }
}
