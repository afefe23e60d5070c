// A program that reads through an address of segment 3, whose page number agrees with
// a page of its table below the segment bits, and what becomes of the pager's laws.
module PagerSegments {
  import opened PageBits
  import opened PagerState
  import PagerLaws
  import opened PagerRuns

  lemma {:induction false} RunConcat(s: Pager, a: seq<Event>, b: seq<Event>)
    requires Sized(s)
    ensures Run(s, a + b) == Run(Run(s, a), b)
    decreases |a|
  {
    if a == [] {
      assert a + b == b;
    } else {
      assert (a + b)[1..] == a[1..] + b;
      RunConcat(Step(s, a[0]), a[1..], b);
    }
  }

  lemma RunOne(s: Pager, e: Event)
    requires Sized(s)
    ensures Run(s, [e]) == Step(s, e)
  {
    assert [e][1..] == [];
    assert Run(Step(s, e), []) == Step(s, e);
  }

  /** The addresses of page 0 and of its alias in segment 3. */
  const PAGE0: int := 0x80000
  const ALIAS0: int := 0xC0000

  function EntryOf(i: int): TlbEntry {
    TlbEntry(EntryHi(Page(1, i)), Lo(0, false))
  }

  // ---- Two accesses are enough for a second copy -----------------------------------------------

  /** Page 0, then the same page through segment 3: two TLB slots hold its entry. */
  lemma SecondCopy(s0: Pager)
    requires Initial(s0)
    ensures var s := Run(s0, [Miss(1, PAGE0), Miss(1, ALIAS0)]);
            s.tlb[0] == EntryOf(0) && s.tlb[1] == EntryOf(0) && !PagerLaws.TlbOk(s)
  {
    var s1 := Run(s0, [Miss(1, PAGE0)]);
    TouchRun(s0, 1);
    assert Touches(1) == [Miss(1, PAGE0)];
    assert [Miss(1, PAGE0), Miss(1, ALIAS0)] == [Miss(1, PAGE0)] + [Miss(1, ALIAS0)];
    RunConcat(s0, [Miss(1, PAGE0)], [Miss(1, ALIAS0)]);
    RunOne(s1, Miss(1, ALIAS0));
    AliasMisses(s0, s1, 1);
    var s := Step(s1, Miss(1, ALIAS0));
    assert s == Refill(s1, 1, 0);
    if PagerLaws.TlbOk(s) {
      PagerLaws.TlbUnique(s, 0, 1, Page(1, 0));
      assert false;
    }
  }

  /** Accesses to pages 0 .. n-1 of process 1. */
  function Touches(n: nat): seq<Event> {
    seq(n, j => Miss(1, PAGE0 + j))
  }

  /** After them the first `n` TLB slots hold these pages' entries. */
  ghost predicate Touched(s0: Pager, s: Pager, n: nat)
    requires Sized(s0) && Sized(s) && n < TLBSIZE
  {
    && s == s0.(tlb := s.tlb, tlbIndex := n)
    && (forall j :: 0 <= j < n ==> s.tlb[j] == EntryOf(j))
    && (forall j :: n <= j < TLBSIZE ==> s.tlb[j] == s0.tlb[j])
  }

  lemma {:induction false} TouchRun(s0: Pager, n: nat)
    requires Initial(s0) && n < TLBSIZE
    ensures Touched(s0, Run(s0, Touches(n)), n)
  {
    if n > 0 {
      TouchRun(s0, n - 1);
      var s := Run(s0, Touches(n - 1));
      var e := Miss(1, PAGE0 + n - 1);
      assert Touches(n) == Touches(n - 1) + [e];
      RunConcat(s0, Touches(n - 1), [e]);
      RunOne(s, e);
      NextMisses(s0, s, n - 1, n - 1);
    }
  }

  /** A page that has not been touched is not in the TLB. */
  lemma NextMisses(s0: Pager, s: Pager, n: nat, i: nat)
    requires Initial(s0) && Sized(s) && n < TLBSIZE && n <= i < MAXPAGES - 1 && Touched(s0, s, n)
    ensures Possible(s, Miss(1, PAGE0 + i)) && Step(s, Miss(1, PAGE0 + i)) == Refill(s, 1, i)
  {
    assert HiFor(PAGE0 + i, 1) == EntryHi(Page(1, i));
    UserHiFor(PAGE0 + i, 1);
    forall j | 0 <= j < TLBSIZE
      ensures s.tlb[j].hi != EntryHi(Page(1, i))
    {
      if j < n {
        VpnIdentifiesIndex(Page(1, j), Page(1, i));
      }
    }
    SearchFinds(PAGE0 + i, 1, i);
  }

  /** The alias of page 0 always misses, and the refill handler takes it for page 0. */
  lemma AliasMisses(s0: Pager, s: Pager, n: nat)
    requires Initial(s0) && Sized(s) && n < TLBSIZE && Touched(s0, s, n)
    ensures Possible(s, Miss(1, ALIAS0)) && Step(s, Miss(1, ALIAS0)) == Refill(s, 1, 0)
  {
    UserHiFor(ALIAS0, 1);
    forall j | 0 <= j < TLBSIZE
      ensures s.tlb[j].hi != HiFor(ALIAS0, 1)
    {
      if j < n {
        HiIdentifies(ALIAS0, 1, Page(1, j));
      }
    }
    SearchFinds(ALIAS0, 1, 0);
  }

  // ---- A fault served without interruption -----------------------------------------------------

  function Turns(n: nat): seq<Event> {
    seq(n, _ => Go(1))
  }

  lemma RunTurn(s: Pager, n: nat)
    requires Sized(s) && n > 0 && Possible(s, Go(1))
    ensures Run(s, Turns(n)) == Run(Advance(s, 1), Turns(n - 1))
  {
    assert Turns(n)[0] == Go(1) && Turns(n)[1..] == Turns(n - 1);
  }

  function Serve(vpn: int): seq<Event> {
    [Fault(1, vpn)] + Turns(7)
  }

  ghost predicate Idle(s: Pager) {
    Sized(s) && PhaseOf(s, 1).User? && s.swapSem == 1 && s.waiting == []
  }

  /** What serving a fault on page `i` into a frame that is not occupied leaves. */
  ghost predicate Served(s: Pager, t: Pager, i: int)
    requires Sized(s)
  {
    var p := Page(1, i);
    var f := NextFrame(s.swap, s.frame);
    && Idle(t) && t.holder == 0 && t.frame == f && t.tlbIndex == s.tlbIndex && 0 <= f < |s.swap|
    && t.swap == s.swap[f := EntryFor(p)] && t.pt == s.pt[p := Lo(POOLSTART + f, true)]
    && t.tlb == TlbUpdate(s.tlb, EntryHi(p), Lo(POOLSTART + f, true))
  }

  lemma ServeRun(s: Pager, vpn: int)
    requires Idle(s) && Possible(s, Fault(1, vpn)) && IsPage(Page(1, PageFor(vpn)))
    requires !Occupied(s.swap[NextFrame(s.swap, s.frame)])
    ensures Served(s, Run(s, Serve(vpn)), PageFor(vpn))
  {
    var i := PageFor(vpn);
    var s0 := FaultTurn(s, vpn);
    var s3 := FirstTurns(s0, i);
    LastTurns(s3, i);
  }

  lemma FaultTurn(s: Pager, vpn: int) returns (t: Pager)
    requires Sized(s) && Possible(s, Fault(1, vpn))
    ensures Sized(t) && Same(s, t) && t.swapSem == s.swapSem && t.frame == s.frame && PhaseOf(t, 1) == Faulting(PageFor(vpn))
    ensures Run(s, Serve(vpn)) == Run(t, Turns(7))
  {
    t := SetPhase(s, 1, Faulting(PageFor(vpn)));
    assert Serve(vpn)[0] == Fault(1, vpn) && Serve(vpn)[1..] == Turns(7);
  }

  lemma FirstTurns(s: Pager, i: int) returns (t: Pager)
    requires Sized(s) && PhaseOf(s, 1) == Faulting(i) && s.swapSem == 1 && IsPage(Page(1, i))
    requires !Occupied(s.swap[NextFrame(s.swap, s.frame)])
    ensures Sized(t) && Same(s, t) && t.swapSem == 0 && t.frame == NextFrame(s.swap, s.frame) && PhaseOf(t, 1) == Saved(i)
    ensures Run(s, Turns(7)) == Run(t, Turns(4))
  {
    RunTurn(s, 7);
    var s1 := Advance(s, 1);
    AcquireTurn(s, i);
    RunTurn(s1, 6);
    var s2 := Advance(s1, 1);
    PickTurn(s1, i);
    RunTurn(s2, 5);
    t := Advance(s2, 1);
    SkipTurn(s2, i);
  }

  /** The step changes the phase of process 1 only, as far as the listed fields go. */
  predicate Same(s: Pager, t: Pager) {
    t.pt == s.pt && t.swap == s.swap && t.tlb == s.tlb && t.tlbIndex == s.tlbIndex && t.waiting == s.waiting
  }

  lemma AcquireTurn(s: Pager, i: int)
    requires Sized(s) && PhaseOf(s, 1) == Faulting(i) && s.swapSem == 1
    ensures var t := Advance(s, 1); Same(s, t) && t.swapSem == 0 && t.frame == s.frame && PhaseOf(t, 1) == Entered(i)
  {
  }

  lemma PickTurn(s: Pager, i: int)
    requires Sized(s) && PhaseOf(s, 1) == Entered(i) && IsPage(Page(1, i))
    ensures var t := Advance(s, 1);
            Same(s, t) && t.swapSem == s.swapSem && t.frame == NextFrame(s.swap, s.frame) && PhaseOf(t, 1) == Picked(i)
  {
  }

  lemma SkipTurn(s: Pager, i: int)
    requires Sized(s) && PhaseOf(s, 1) == Picked(i) && !Occupied(s.swap[s.frame])
    ensures var t := Advance(s, 1); Same(s, t) && t.swapSem == s.swapSem && t.frame == s.frame && PhaseOf(t, 1) == Saved(i)
  {
  }

  lemma LoadTurn(s: Pager, i: int)
    requires Sized(s) && PhaseOf(s, 1) == Saved(i)
    ensures var t := Advance(s, 1); Same(s, t) && t.swapSem == s.swapSem && t.frame == s.frame && PhaseOf(t, 1) == Loaded(i)
  {
  }

  lemma NoteTurn(s: Pager, i: int)
    requires Sized(s) && PhaseOf(s, 1) == Loaded(i)
    ensures var t := Advance(s, 1); var p := Page(1, i);
            && t.pt == s.pt && t.tlb == s.tlb && t.tlbIndex == s.tlbIndex && t.waiting == s.waiting
            && t.swapSem == s.swapSem && t.frame == s.frame && PhaseOf(t, 1) == Recorded(i)
            && t.swap == s.swap[s.frame := EntryFor(p)]
  {
  }

  lemma MapTurn(s: Pager, i: int)
    requires Sized(s) && PhaseOf(s, 1) == Recorded(i)
    ensures var t := Advance(s, 1); var p := Page(1, i); var lo := Lo(POOLSTART + s.frame, true);
            && t.swap == s.swap && t.tlbIndex == s.tlbIndex && t.waiting == s.waiting
            && t.swapSem == s.swapSem && t.frame == s.frame && PhaseOf(t, 1) == Mapped(i)
            && t.pt == s.pt[p := lo] && t.tlb == TlbUpdate(s.tlb, EntryHi(p), lo)
  {
  }

  lemma ReleaseTurn(s: Pager, i: int)
    requires Sized(s) && PhaseOf(s, 1) == Mapped(i) && s.waiting == []
    ensures var t := Advance(s, 1);
            Same(s, t) && t.swapSem == s.swapSem + 1 && t.frame == s.frame && PhaseOf(t, 1) == User && t.holder == 0
  {
  }

  lemma LastTurns(s: Pager, i: int)
    requires Sized(s) && PhaseOf(s, 1) == Saved(i) && s.waiting == []
    ensures var t := Run(s, Turns(4)); var p := Page(1, i);
            && Sized(t) && PhaseOf(t, 1).User? && t.swapSem == s.swapSem + 1 && t.waiting == [] && t.holder == 0
            && t.frame == s.frame && t.tlbIndex == s.tlbIndex
            && t.swap == s.swap[s.frame := EntryFor(p)] && t.pt == s.pt[p := Lo(POOLSTART + s.frame, true)]
            && t.tlb == TlbUpdate(s.tlb, EntryHi(p), Lo(POOLSTART + s.frame, true))
  {
    RunTurn(s, 4);
    var s1 := Advance(s, 1);
    LoadTurn(s, i);
    RunTurn(s1, 3);
    var s2 := Advance(s1, 1);
    NoteTurn(s1, i);
    MapAndRelease(s2, i);
  }

  lemma MapAndRelease(s: Pager, i: int)
    requires Sized(s) && PhaseOf(s, 1) == Recorded(i) && s.waiting == []
    ensures var t := Run(s, Turns(2)); var p := Page(1, i); var lo := Lo(POOLSTART + s.frame, true);
            && Sized(t) && PhaseOf(t, 1).User? && t.swapSem == s.swapSem + 1 && t.waiting == [] && t.holder == 0
            && t.frame == s.frame && t.tlbIndex == s.tlbIndex && t.swap == s.swap
            && t.pt == s.pt[p := lo] && t.tlb == TlbUpdate(s.tlb, EntryHi(p), lo)
  {
    RunTurn(s, 2);
    var s1 := Advance(s, 1);
    MapTurn(s, i);
    RunTurn(s1, 1);
    var s2 := Advance(s1, 1);
    ReleaseTurn(s1, i);
    assert Run(s2, Turns(0)) == s2;
  }

  // ---- A resident page faults, and is loaded a second time ----------------------------------------

  /** Fifteen pages, the alias of page 0, a fault on page 0 served, and one page more. */
  function Detour(): seq<Event> {
    Touches(15) + [Miss(1, ALIAS0)] + Serve(PAGE0) + [Miss(1, PAGE0 + 15)]
  }

  /** Page 0 is resident in frame 0, and the TLB has only the copy made through the alias, which says it is not. */
  ghost predicate Misled(s: Pager) {
    && Idle(s) && s.frame == 0
    && s.swap[0] == EntryFor(Page(1, 0)) && s.swap[1].asid == -1
    && LoOf(s, Page(1, 0)) == Lo(POOLSTART, true)
    && Probe(s.tlb, EntryHi(Page(1, 0))) == 15 && s.tlb[15] == EntryOf(0)
  }

  lemma DetourMisleads(s0: Pager)
    requires Initial(s0)
    ensures Misled(Run(s0, Detour()))
  {
    var a := Touches(15);
    var s1 := Run(s0, a);
    TouchRun(s0, 15);
    AliasMisses(s0, s1, 15);
    var s2 := Refill(s1, 1, 0);
    RunOne(s1, Miss(1, ALIAS0));
    RunConcat(s0, a, [Miss(1, ALIAS0)]);
    var s3 := Run(s2, Serve(PAGE0));
    AliasedFault(s0, s1, s2);
    RunConcat(s0, a + [Miss(1, ALIAS0)], Serve(PAGE0));
    LastMiss(s0, s1, s2, s3);
    var s4 := Step(s3, Miss(1, PAGE0 + 15));
    RunOne(s3, Miss(1, PAGE0 + 15));
    RunConcat(s0, a + [Miss(1, ALIAS0)] + Serve(PAGE0), [Miss(1, PAGE0 + 15)]);
    assert Run(s0, Detour()) == s4;
  }

  /** With both copies in place page 0 faults, and the first copy is the one that is updated. */
  lemma AliasedFault(s0: Pager, s1: Pager, s2: Pager)
    requires Initial(s0) && Sized(s1) && Touched(s0, s1, 15) && s2 == Refill(s1, 1, 0)
    ensures Served(s2, Run(s2, Serve(PAGE0)), 0) && NextFrame(s2.swap, s2.frame) == 0
    ensures Probe(s2.tlb, EntryHi(Page(1, 0))) == 0
  {
    assert s2.tlb[0] == EntryOf(0);
    assert HiFor(PAGE0, 1) == EntryHi(Page(1, 0));
    FirstFrame(s2);
    ServeRun(s2, PAGE0);
  }

  lemma FirstFrame(s: Pager)
    requires Sized(s) && s.swap[0].asid == -1
    ensures NextFrame(s.swap, s.frame) == 0
  {
  }

  /** The next refill overwrites the good copy. */
  lemma LastMiss(s0: Pager, s1: Pager, s2: Pager, s3: Pager)
    requires Initial(s0) && Sized(s1) && Touched(s0, s1, 15) && s2 == Refill(s1, 1, 0) && Served(s2, s3, 0)
    requires NextFrame(s2.swap, s2.frame) == 0 && Probe(s2.tlb, EntryHi(Page(1, 0))) == 0
    ensures Misled(Step(s3, Miss(1, PAGE0 + 15)))
  {
    var t := Step(s3, Miss(1, PAGE0 + 15));
    forall j | 0 <= j < TLBSIZE
      ensures s3.tlb[j].hi == EntryHi(Page(1, if j < 15 then j else 0))
    {
      assert j < 15 ==> s1.tlb[j] == EntryOf(j);
    }
    forall j | 0 <= j < TLBSIZE
      ensures s3.tlb[j].hi != EntryHi(Page(1, 15))
      ensures 0 < j < 15 ==> s3.tlb[j].hi != EntryHi(Page(1, 0))
    {
      VpnIdentifiesIndex(Page(1, if j < 15 then j else 0), Page(1, 15));
      VpnIdentifiesIndex(Page(1, if j < 15 then j else 0), Page(1, 0));
    }
    VpnIdentifiesIndex(Page(1, 15), Page(1, 0));
    assert HiFor(PAGE0 + 15, 1) == EntryHi(Page(1, 15));
    assert t == Refill(s3, 1, 15);
    assert t.tlb[0].hi == EntryHi(Page(1, 15)) && t.tlb[15] == EntryOf(0);
  }

  /** After that detour page 0 is valid in the page table, and an access to it faults. */
  lemma ResidentPageFaults(s0: Pager)
    requires Initial(s0)
    ensures var s := Run(s0, Detour());
            Possible(s, Fault(1, PAGE0)) && LoOf(s, Page(1, 0)).valid && !PagerLaws.Truthful(s)
  {
    DetourMisleads(s0);
    var s := Run(s0, Detour());
    assert HiFor(PAGE0, 1) == EntryHi(Page(1, 0));
    assert s.tlb[15].hi == EntryHi(Page(1, 0)) && IsPage(Page(1, 0));
  }

  /** When that fault has been served, two occupied frames name page 0, and no page is mapped to the first. */
  lemma FrameWithoutPage(s0: Pager)
    requires Initial(s0)
    ensures var s := Run(s0, Detour() + Serve(PAGE0));
            && s.holder == 0 && Occupied(s.swap[0]) && Occupied(s.swap[1])
            && s.swap[0].pte == Page(1, 0) && s.swap[1].pte == Page(1, 0)
            && (forall p :: IsPage(p) ==> LoOf(s, p) != Lo(POOLSTART, true))
  {
    DetourMisleads(s0);
    var s := Run(s0, Detour());
    RunConcat(s0, Detour(), Serve(PAGE0));
    assert HiFor(PAGE0, 1) == EntryHi(Page(1, 0));
    PageNumRoundTrip(Page(1, 0));
    assert FirstUnused(s.swap, 0) == 1;
    ServeRun(s, PAGE0);
    var t := Run(s, Serve(PAGE0));
    Reachable(s0, Detour() + Serve(PAGE0));
    forall p | IsPage(p)
      ensures LoOf(t, p) != Lo(POOLSTART, true)
    {
      if LoOf(t, p).valid {
        assert t.swap[LoOf(t, p).pfn - POOLSTART].pte == p;
      }
    }
  }
}
