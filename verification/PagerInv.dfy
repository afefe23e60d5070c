// What every step of the pager keeps, in every interleaving and for every access.
module PagerInv {
  import Seqs
  import opened PageBits
  import opened PagerState

  /** Past P(swapSem), before the matching V. */
  predicate Inside(f: Phase) {
    f.Entered? || f.Picked? || f.Evicted? || f.Saved? || f.Loaded? || f.Recorded? || f.Mapped?
  }

  /** The frame has been chosen and its new page is not yet in the swap table. */
  predicate Choosing(f: Phase) {
    f.Picked? || f.Evicted? || f.Saved? || f.Loaded?
  }

  /** The frame's swap entry and the page table disagree for the moment. */
  predicate Open(f: Phase) {
    f.Evicted? || f.Saved? || f.Loaded? || f.Recorded?
  }

  /** The process waits for page `f.i` to become valid. */
  predicate Pending(f: Phase) {
    f.Faulting? || f.Queued? || f.Entered? || Choosing(f) || f.Recorded?
  }

  predicate IsFrame(f: int) {
    0 <= f < POOLSIZE
  }

  function HolderPhase(s: Pager): Phase {
    PhaseOf(s, s.holder)
  }

  /** One process at most is past P(swapSem), and it is the one on record. */
  ghost predicate HolderOk(s: Pager) {
    && (forall a :: Inside(PhaseOf(s, a)) ==> a == s.holder)
    && (forall a :: !PhaseOf(s, a).Dead? ==> Asid(a))
    && (s.holder != 0 ==> Asid(s.holder) && Inside(HolderPhase(s)))
    && s.swapSem == (if s.holder == 0 then 1 else 0) - |s.waiting|
  }

  ghost predicate WaitersOk(s: Pager) {
    && (s.waiting != [] ==> s.holder != 0)
    && Seqs.NoDup(s.waiting)
    && (forall a :: a in s.waiting <==> PhaseOf(s, a).Queued?)
  }

  /** frameIndexToReplace follows the number of faults served. */
  predicate FrameOk(s: Pager)
    requires Sized(s)
  {
    s.frame == if Choosing(HolderPhase(s)) then |s.loads| % POOLSIZE
               else if s.loads == [] then 0 else (|s.loads| - 1) % POOLSIZE
  }

  /** Frames are used in order; a used frame's entry is the one its page demands. */
  ghost predicate SwapOk(s: Pager)
    requires Sized(s)
  {
    && (forall f {:trigger IsFrame(f)} :: IsFrame(f) && f < |s.loads| ==>
          IsPage(s.swap[f].pte) && s.swap[f] == EntryFor(s.swap[f].pte))
    && (forall f {:trigger IsFrame(f)} :: IsFrame(f) && |s.loads| <= f ==> s.swap[f].asid == -1)
  }

  /** The last POOLSIZE pages loaded are the ones in the pool, each in the frame of its turn. */
  ghost predicate TurnsOk(s: Pager)
    requires Sized(s)
  {
    && (forall m :: 0 <= m < |s.loads| ==> IsPage(s.loads[m]))
    && (forall m :: 0 <= m < |s.loads| && |s.loads| - POOLSIZE <= m ==> s.swap[m % POOLSIZE].pte == s.loads[m])
  }

  /** A valid page-table entry points to a frame whose swap entry names it. */
  ghost predicate ValidOk(s: Pager)
    requires Sized(s)
  {
    forall p :: IsPage(p) && LoOf(s, p).valid ==>
      var f := LoOf(s, p).pfn - POOLSTART;
      0 <= f < POOLSIZE && f < |s.loads| && s.swap[f].pte == p
  }

  /** Every process in the pager wants a page of its table; a recorded page is not yet mapped to its new frame. */
  ghost predicate WantOk(s: Pager)
    requires Sized(s)
  {
    && (forall a :: Pending(PhaseOf(s, a)) || PhaseOf(s, a).Mapped? ==> IsPage(Page(a, PhaseOf(s, a).i)))
    && (HolderPhase(s).Recorded? ==>
          var p := Page(s.holder, HolderPhase(s).i);
          && s.loads != [] && s.swap[s.frame].pte == p
          && (LoOf(s, p).valid ==> LoOf(s, p).pfn != POOLSTART + s.frame))
  }

  /** While a used frame is being emptied the page it held is not valid. */
  ghost predicate OpenOk(s: Pager)
    requires Sized(s)
  {
    && (HolderPhase(s).Evicted? ==> s.frame < |s.loads|)
    && (HolderPhase(s).Evicted? || HolderPhase(s).Saved? || HolderPhase(s).Loaded? ==>
          s.frame < |s.loads| ==> !LoOf(s, s.swap[s.frame].pte).valid)
  }

  /** A TLB entry that a user address can match is for a page of a table. */
  ghost predicate TagsOk(s: Pager)
    requires Sized(s)
  {
    forall k :: 0 <= k < TLBSIZE && UserHi(s.tlb[k].hi) ==>
      IsPage(PageOfHi(s.tlb[k].hi)) && s.tlb[k].hi == EntryHi(PageOfHi(s.tlb[k].hi))
  }

  /** Every flash operation on a page uses the device and block of that page. */
  ghost predicate IosOk(s: Pager) {
    forall j :: 0 <= j < |s.ios| ==> IsPage(s.ios[j].page) && s.ios[j].device == s.ios[j].page.asid - 1 && s.ios[j].block == s.ios[j].page.index
  }

  ghost predicate Inv(s: Pager) {
    && Sized(s) && HolderOk(s) && WaitersOk(s) && FrameOk(s) && SwapOk(s) && TurnsOk(s)
    && ValidOk(s) && OpenOk(s) && WantOk(s) && TagsOk(s) && IosOk(s)
  }

  // ---- Frames --------------------------------------------------------------------------

  /** The frame chosen for the n-th fault is n mod POOLSIZE. */
  lemma NextFrameIsFifo(s: Pager)
    requires Sized(s) && SwapOk(s) && FrameOk(s) && !Choosing(HolderPhase(s))
    ensures NextFrame(s.swap, s.frame) == |s.loads| % POOLSIZE
  {
    var n := |s.loads|;
    var f := FirstUnused(s.swap, 0);
    forall g | 0 <= g < POOLSIZE && g < n
      ensures s.swap[g].asid != -1
    {
      assert IsFrame(g);
      PageNumRoundTrip(s.swap[g].pte);
    }
    if n < POOLSIZE {
      assert IsFrame(n);
      assert s.swap[n].asid == -1;
    } else {
      assert f == -1;
    }
  }

  lemma OccupiedIffUsed(s: Pager, f: int)
    requires Sized(s) && SwapOk(s) && 0 <= f < POOLSIZE
    ensures Occupied(s.swap[f]) <==> f < |s.loads|
  {
    assert IsFrame(f);
    if f < |s.loads| {
      PageNumRoundTrip(s.swap[f].pte);
    }
  }

  // ---- Parts that most steps leave alone ---------------------------------------------------

  /** What a step does to the phases, for the invariants that depend on nothing else. */
  ghost predicate Moves(s: Pager, t: Pager, a: int, f: Phase) {
    forall b :: PhaseOf(t, b) == if b == a then f else PhaseOf(s, b)
  }

  /** The step leaves page tables, swap table and history alone. */
  predicate SameTables(s: Pager, t: Pager) {
    t.pt == s.pt && t.swap == s.swap && t.loads == s.loads && t.ios == s.ios
  }

  lemma FramesKept(s: Pager, t: Pager)
    requires Sized(s) && FrameOk(s) && SwapOk(s) && TurnsOk(s) && Sized(t)
    requires t.swap == s.swap && t.frame == s.frame && t.loads == s.loads
    requires Choosing(HolderPhase(t)) == Choosing(HolderPhase(s))
    ensures FrameOk(t) && SwapOk(t) && TurnsOk(t)
  {
  }

  lemma ValidKept(s: Pager, t: Pager)
    requires Sized(s) && ValidOk(s) && Sized(t)
    requires t.pt == s.pt && t.swap == s.swap && t.loads == s.loads
    ensures ValidOk(t)
  {
    forall p | IsPage(p) && LoOf(t, p).valid
      ensures var f := LoOf(t, p).pfn - POOLSTART; 0 <= f < POOLSIZE && f < |t.loads| && t.swap[f].pte == p
    {
      assert LoOf(s, p).valid;
    }
  }

  /** The invariants about frames and pages see the phases only through the holder's. */
  lemma TablesKept(s: Pager, t: Pager)
    requires Inv(s) && Sized(t) && SameTables(s, t) && t.frame == s.frame
    requires Choosing(HolderPhase(t)) == Choosing(HolderPhase(s))
    requires HolderPhase(t) == HolderPhase(s) || !Open(HolderPhase(t))
    ensures FrameOk(t) && SwapOk(t) && TurnsOk(t) && ValidOk(t) && OpenOk(t) && IosOk(t)
  {
    FramesKept(s, t);
    ValidKept(s, t);
    assert LoOf(t, t.swap[t.frame].pte) == LoOf(s, s.swap[s.frame].pte);
  }

  lemma TagsKept(s: Pager, t: Pager)
    requires Sized(s) && Sized(t) && TagsOk(s)
    requires forall k :: 0 <= k < TLBSIZE ==> t.tlb[k].hi == s.tlb[k].hi
    ensures TagsOk(t)
  {
  }

  // ---- Processes outside the critical region --------------------------------------------------

  /** A process outside the critical region changes phase and stays outside. */
  lemma OutsideStep(s: Pager, t: Pager, a: int, f: Phase)
    requires Inv(s) && Asid(a) && a != s.holder && Sized(t) && Moves(s, t, a, f)
    requires !PhaseOf(s, a).Queued? && !f.Queued? && !Inside(f)
    requires t.holder == s.holder && t.swapSem == s.swapSem && t.waiting == s.waiting
    requires SameTables(s, t) && t.frame == s.frame && TagsOk(t)
    requires f.Faulting? ==> IsPage(Page(a, f.i))
    ensures Inv(t)
  {
    HolderStays(s, t, a, f);
    TablesKept(s, t);
    assert forall p :: LoOf(t, p) == LoOf(s, p);
    assert WantOk(t);
  }

  lemma HolderStays(s: Pager, t: Pager, a: int, f: Phase)
    requires HolderOk(s) && WaitersOk(s) && Asid(a) && a != s.holder && Moves(s, t, a, f)
    requires !PhaseOf(s, a).Queued? && !f.Queued? && !Inside(f)
    requires t.holder == s.holder && t.swapSem == s.swapSem && t.waiting == s.waiting
    ensures HolderOk(t) && WaitersOk(t) && HolderPhase(t) == HolderPhase(s)
  {
    if s.holder == 0 {
      assert !Asid(0);
      assert PhaseOf(s, 0).Dead?;
    }
  }

  /** What the refill handler writes to the TLB is a page's entry. */
  lemma RefillTags(s: Pager, a: int, i: int)
    requires Sized(s) && TagsOk(s) && IsPage(Page(a, i))
    ensures TagsOk(Refill(s, a, i))
  {
    PageNumRoundTrip(Page(a, i));
  }

  lemma MissInv(s: Pager, a: int, vpn: int)
    requires Inv(s) && Possible(s, Miss(a, vpn))
    ensures Inv(RefillOrEnd(s, a, vpn))
  {
    if PageFor(vpn) < 0 {
      OutsideStep(s, SetPhase(s, a, Dead), a, Dead);
    } else {
      RefillTags(s, a, PageFor(vpn));
      OutsideStep(s, Refill(s, a, PageFor(vpn)), a, User);
    }
  }

  /** An entry that an access finds is the entry of the page accessed, in segment 2. */
  lemma FoundIsPage(s: Pager, a: int, vpn: int)
    requires Inv(s) && Asid(a) && UserVpn(vpn) && Probe(s.tlb, HiFor(vpn, a)) >= 0
    ensures IsPage(Page(a, PageFor(vpn))) && HiFor(vpn, a) == EntryHi(Page(a, PageFor(vpn))) && Segment2(vpn)
  {
    var k := Probe(s.tlb, HiFor(vpn, a));
    var p := PageOfHi(s.tlb[k].hi);
    UserHiFor(vpn, a);
    assert IsPage(p) && HiFor(vpn, a) == EntryHi(p);
    HiIdentifies(vpn, a, p);
    SearchFinds(vpn, a, p.index);
  }

  lemma FaultInv(s: Pager, a: int, vpn: int)
    requires Inv(s) && Possible(s, Fault(a, vpn))
    ensures Inv(SetPhase(s, a, Faulting(PageFor(vpn))))
  {
    FoundIsPage(s, a, vpn);
    OutsideStep(s, SetPhase(s, a, Faulting(PageFor(vpn))), a, Faulting(PageFor(vpn)));
  }

  lemma ExitInv(s: Pager, a: int)
    requires Inv(s) && Asid(a) && PhaseOf(s, a).User?
    ensures Inv(SetPhase(s, a, Dead))
  {
    OutsideStep(s, SetPhase(s, a, Dead), a, Dead);
  }

  // ---- P and V of the swap semaphore ------------------------------------------------------------

  lemma AcquireInv(s: Pager, a: int, i: int)
    requires Inv(s) && Asid(a) && PhaseOf(s, a) == Faulting(i)
    ensures Inv(Acquire(s, a, i))
  {
    var t := Acquire(s, a, i);
    AcquireLock(s, a, i);
    TablesKept(s, t);
    AcquireWants(s, a, i);
  }

  lemma AcquireLock(s: Pager, a: int, i: int)
    requires HolderOk(s) && WaitersOk(s) && Asid(a) && PhaseOf(s, a) == Faulting(i)
    ensures var t := Acquire(s, a, i);
            && HolderOk(t) && WaitersOk(t)
            && (s.holder == 0 ==> HolderPhase(t) == Entered(i) && t.holder == a && HolderPhase(s).Dead?)
            && (s.holder != 0 ==> t.holder == s.holder && HolderPhase(t) == HolderPhase(s) && a != s.holder)
  {
    var t := Acquire(s, a, i);
    assert PhaseOf(s, 0).Dead? by {
      assert !Asid(0);
    }
    assert Moves(s, t, a, PhaseOf(t, a));
    assert a !in s.waiting;
    assert forall b :: b in s.waiting + [a] <==> b in s.waiting || b == a;
  }

  lemma AcquireWants(s: Pager, a: int, i: int)
    requires Sized(s) && WantOk(s) && HolderOk(s) && WaitersOk(s) && Asid(a) && PhaseOf(s, a) == Faulting(i)
    ensures WantOk(Acquire(s, a, i))
  {
    var t := Acquire(s, a, i);
    AcquireLock(s, a, i);
    assert forall b :: PhaseOf(t, b) == if b == a then PhaseOf(t, a) else PhaseOf(s, b);
    assert forall p :: LoOf(t, p) == LoOf(s, p);
  }

  lemma ReleaseInv(s: Pager, a: int, i: int)
    requires Inv(s) && Asid(a) && PhaseOf(s, a) == Mapped(i)
    ensures Inv(Release(s, a))
  {
    var t := Release(s, a);
    ReleaseLock(s, a, i);
    TablesKept(s, t);
    ReleaseWants(s, a, i);
  }

  /** The lock passes to the oldest waiter, or becomes free. */
  lemma ReleaseLock(s: Pager, a: int, i: int)
    requires HolderOk(s) && WaitersOk(s) && Asid(a) && PhaseOf(s, a) == Mapped(i)
    ensures var t := Release(s, a);
            && HolderOk(t) && WaitersOk(t) && PhaseOf(t, a) == User && s.holder == a
            && (if s.waiting == [] then t.holder == 0 && HolderPhase(t).Dead?
                else t.holder == s.waiting[0] && PhaseOf(s, t.holder).Queued? && HolderPhase(t) == Entered(PhaseOf(s, t.holder).i))
            && (forall b :: b != a && b != t.holder ==> PhaseOf(t, b) == PhaseOf(s, b))
  {
    var t := Release(s, a);
    assert PhaseOf(s, 0).Dead? by {
      assert !Asid(0);
    }
    if s.waiting != [] {
      var b := s.waiting[0];
      assert s.waiting == [b] + s.waiting[1..];
      assert b in s.waiting && PhaseOf(s, b).Queued? && b != a;
      assert forall c :: c in t.waiting <==> c in s.waiting && c != b;
      assert forall c :: PhaseOf(t, c) == if c == a then User else if c == b then Entered(PhaseOf(s, b).i) else PhaseOf(s, c);
    } else {
      assert Moves(s, t, a, User);
    }
  }

  lemma ReleaseWants(s: Pager, a: int, i: int)
    requires Sized(s) && WantOk(s) && HolderOk(s) && WaitersOk(s) && Asid(a) && PhaseOf(s, a) == Mapped(i)
    ensures WantOk(Release(s, a))
  {
    ReleaseLock(s, a, i);
  }

  // ---- Steps of the process that holds the swap semaphore ----------------------------

  lemma InsideLock(s: Pager, t: Pager, a: int, f: Phase)
    requires HolderOk(s) && WaitersOk(s) && Inside(PhaseOf(s, a)) && Moves(s, t, a, f) && Inside(f)
    requires t.holder == s.holder && t.swapSem == s.swapSem && t.waiting == s.waiting
    ensures HolderOk(t) && WaitersOk(t) && a == s.holder && HolderPhase(t) == f && HolderPhase(s) == PhaseOf(s, a)
  {
  }

  /** The holder goes on wanting the page it wants. */
  lemma InsideWants(s: Pager, t: Pager, a: int, i: int, f: Phase)
    requires Sized(s) && WantOk(s) && HolderOk(s) && Inside(PhaseOf(s, a)) && PhaseOf(s, a).i == i
    requires Sized(t) && Moves(s, t, a, f) && t.holder == s.holder && Inside(f) && f.i == i
    requires f.Recorded? ==>
               && t.loads != [] && t.swap[t.frame].pte == Page(a, i)
               && (LoOf(t, Page(a, i)).valid ==> LoOf(t, Page(a, i)).pfn != POOLSTART + t.frame)
    ensures WantOk(t)
  {
  }

  lemma PickInv(s: Pager, a: int, i: int)
    requires Inv(s) && PhaseOf(s, a) == Entered(i)
    ensures Inv(Pick(s, a, i))
  {
    var t := Pick(s, a, i);
    assert IsPage(Page(a, i));
    assert Moves(s, t, a, Picked(i));
    InsideLock(s, t, a, Picked(i));
    NextFrameIsFifo(s);
    InsideWants(s, t, a, i, Picked(i));
    ValidKept(s, t);
  }

  lemma EvictInv(s: Pager, a: int, i: int)
    requires Inv(s) && PhaseOf(s, a) == Picked(i)
    ensures Inv(Evict(s, a, i))
  {
    var t := Evict(s, a, i);
    var f := if Occupied(s.swap[s.frame]) then Evicted(i) else Saved(i);
    assert Moves(s, t, a, f);
    assert IsFrame(s.frame);
    OccupiedIffUsed(s, s.frame);
    InsideLock(s, t, a, f);
    FramesKept(s, t);
    InsideWants(s, t, a, i, f);
    if Occupied(s.swap[s.frame]) {
      EvictValid(s, t, s.swap[s.frame].pte);
    } else {
      ValidKept(s, t);
    }
    TagsKept(s, t);
  }

  /** Clearing the valid bit of one entry leaves no other entry's frame without its owner. */
  lemma EvictValid(s: Pager, t: Pager, q: Page)
    requires Sized(s) && Sized(t) && ValidOk(s)
    requires t.pt == s.pt[q := Lo(LoOf(s, q).pfn, false)] && t.swap == s.swap && t.loads == s.loads
    ensures ValidOk(t) && !LoOf(t, q).valid
  {
    forall p | IsPage(p) && LoOf(t, p).valid
      ensures var f := LoOf(t, p).pfn - POOLSTART; 0 <= f < POOLSIZE && f < |t.loads| && t.swap[f].pte == p
    {
      assert p != q && LoOf(s, p) == LoOf(t, p);
    }
  }

  /** Flash transfers change neither tables nor TLB. */
  lemma TransferInv(s: Pager, t: Pager, a: int, i: int, f: Phase, io: Io)
    requires Inv(s) && Moves(s, t, a, f)
    requires (PhaseOf(s, a) == Evicted(i) && f == Saved(i)) || (PhaseOf(s, a) == Saved(i) && f == Loaded(i))
    requires t.pt == s.pt && t.swap == s.swap && t.tlb == s.tlb && t.tlbIndex == s.tlbIndex && t.frame == s.frame
    requires t.swapSem == s.swapSem && t.waiting == s.waiting && t.holder == s.holder && t.loads == s.loads
    requires t.ios == s.ios + [io] && IsPage(io.page) && io.device == io.page.asid - 1 && io.block == io.page.index
    ensures Inv(t)
  {
    InsideLock(s, t, a, f);
    FramesKept(s, t);
    ValidKept(s, t);
    InsideWants(s, t, a, i, f);
    assert LoOf(t, t.swap[t.frame].pte) == LoOf(s, s.swap[s.frame].pte);
  }

  lemma SaveInv(s: Pager, a: int, i: int)
    requires Inv(s) && PhaseOf(s, a) == Evicted(i)
    ensures Inv(Save(s, a, i))
  {
    var w := s.swap[s.frame];
    var t := Save(s, a, i);
    assert IsFrame(s.frame) && a == s.holder;
    PageNumRoundTrip(w.pte);
    assert Moves(s, t, a, Saved(i));
    TransferInv(s, t, a, i, Saved(i), Io(true, w.asid - 1, w.pageNo, w.pte));
  }

  lemma LoadInv(s: Pager, a: int, i: int)
    requires Inv(s) && PhaseOf(s, a) == Saved(i)
    ensures Inv(Load(s, a, i))
  {
    var p := Page(a, i);
    var t := Load(s, a, i);
    assert a == s.holder;
    PageNumRoundTrip(p);
    assert Moves(s, t, a, Loaded(i));
    TransferInv(s, t, a, i, Loaded(i), Io(false, GetAsid(EntryHi(p)) - 1, PageNum(EntryHi(p)), p));
  }

  lemma NoteInv(s: Pager, a: int, i: int)
    requires Inv(s) && PhaseOf(s, a) == Loaded(i)
    ensures Inv(Note(s, a, i))
  {
    var t := Note(s, a, i);
    var p := Page(a, i);
    assert Moves(s, t, a, Recorded(i));
    InsideLock(s, t, a, Recorded(i));
    NoteFrames(s, t, p);
    NoteValid(s, t, p);
    InsideWants(s, t, a, i, Recorded(i));
  }

  lemma NoteFrames(s: Pager, t: Pager, p: Page)
    requires Sized(s) && FrameOk(s) && SwapOk(s) && TurnsOk(s) && Sized(t) && IsPage(p)
    requires t.swap == s.swap[s.frame := EntryFor(p)] && t.loads == s.loads + [p] && t.frame == s.frame
    requires HolderPhase(s).Loaded? && HolderPhase(t).Recorded?
    ensures FrameOk(t) && SwapOk(t) && TurnsOk(t)
  {
    var n := |s.loads|;
    assert s.frame == n % POOLSIZE;
    forall m | 0 <= m < |t.loads| && |t.loads| - POOLSIZE <= m
      ensures t.swap[m % POOLSIZE].pte == t.loads[m]
    {
      if m < n {
        assert m % POOLSIZE != n % POOLSIZE;
      }
    }
  }

  /** No valid entry maps the frame that gets a new owner. */
  lemma NoteValid(s: Pager, t: Pager, p: Page)
    requires Sized(s) && ValidOk(s) && OpenOk(s) && Sized(t)
    requires t.swap == s.swap[s.frame := EntryFor(p)] && t.loads == s.loads + [p] && t.frame == s.frame && t.pt == s.pt
    requires HolderPhase(s).Loaded? && HolderPhase(t).Recorded?
    ensures ValidOk(t) && OpenOk(t)
    ensures forall q :: IsPage(q) && LoOf(t, q).valid ==> LoOf(t, q).pfn != POOLSTART + t.frame
  {
    forall q | IsPage(q) && LoOf(t, q).valid
      ensures var f := LoOf(t, q).pfn - POOLSTART; 0 <= f < POOLSIZE && f < |t.loads| && t.swap[f].pte == q && f != t.frame
    {
      assert LoOf(s, q).valid;
      assert LoOf(s, q).pfn - POOLSTART != s.frame;
    }
  }

  lemma MapInv(s: Pager, a: int, i: int)
    requires Inv(s) && PhaseOf(s, a) == Recorded(i)
    ensures Inv(Map(s, a, i))
  {
    var t := Map(s, a, i);
    assert Moves(s, t, a, Mapped(i));
    InsideLock(s, t, a, Mapped(i));
    FramesKept(s, t);
    InsideWants(s, t, a, i, Mapped(i));
    MapValid(s, t, Page(a, i));
    TagsKept(s, t);
  }

  lemma MapValid(s: Pager, t: Pager, p: Page)
    requires Sized(s) && FrameOk(s) && ValidOk(s) && Sized(t) && s.loads != [] && !Choosing(HolderPhase(s))
    requires s.swap[s.frame].pte == p
    requires t.pt == s.pt[p := Lo(POOLSTART + s.frame, true)] && t.swap == s.swap && t.frame == s.frame && t.loads == s.loads
    ensures ValidOk(t)
  {
    assert s.frame < |s.loads|;
    forall q | IsPage(q) && LoOf(t, q).valid
      ensures var f := LoOf(t, q).pfn - POOLSTART; 0 <= f < POOLSIZE && f < |t.loads| && t.swap[f].pte == q
    {
      if q != p {
        assert LoOf(s, q) == LoOf(t, q);
      }
    }
  }

  // ---- All events -------------------------------------------------------------------------

  lemma InsideInv(s: Pager, a: int)
    requires Inv(s) && Asid(a) && Inside(PhaseOf(s, a)) && !PhaseOf(s, a).Mapped?
    ensures Inv(Advance(s, a))
  {
    match PhaseOf(s, a)
    case Entered(i) => PickInv(s, a, i);
    case Picked(i) => EvictInv(s, a, i);
    case Evicted(i) => SaveInv(s, a, i);
    case Saved(i) => LoadInv(s, a, i);
    case Loaded(i) => NoteInv(s, a, i);
    case Recorded(i) => MapInv(s, a, i);
  }

  lemma AdvanceInv(s: Pager, a: int)
    requires Inv(s) && Asid(a)
    ensures Inv(Advance(s, a))
  {
    match PhaseOf(s, a)
    case Faulting(i) => AcquireInv(s, a, i);
    case Mapped(i) => ReleaseInv(s, a, i);
    case User =>
    case Queued(_) =>
    case Dead =>
    case _ => InsideInv(s, a);
  }

  lemma StepKeepsInv(s: Pager, e: Event)
    requires Inv(s)
    ensures Inv(Step(s, e))
  {
    if Possible(s, e) {
      match e
      case Miss(a, vpn) => MissInv(s, a, vpn);
      case Fault(a, vpn) => FaultInv(s, a, vpn);
      case Go(a) => AdvanceInv(s, a);
      case Exit(a) => ExitInv(s, a);
    }
  }
}
