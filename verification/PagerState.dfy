// The pager as a step machine. User processes access pages, miss or fault; a fault
// is handled under the swap semaphore in several steps, between which every other
// process may run. Only the regions with interrupts disabled are single steps.
module PagerState {
  import opened PageBits

  const POOLSIZE: int := 16
  const TLBSIZE: int := 16

  /** Page frame number of the first frame of the swap pool: FRAMEPOOLSTART / PAGESIZE. */
  const POOLSTART: int := 0x20000 + 32 + 8 + 8

  /** entryLO: page frame number and valid bit. */
  datatype Lo = Lo(pfn: int, valid: bool)

  datatype TlbEntry = TlbEntry(hi: int, lo: Lo)

  /** Swap table entry; `asid` is -1 for a frame never used. `pte` names the page-table entry pointed to. */
  datatype Swap = Swap(asid: int, pageNo: int, pte: Page)

  /** How far a process is in handling a page fault on entry `i` of its table. */
  datatype Phase =
    | User                // running user code
    | Faulting(i: int)    // page fault passed up, before P(swapSem)
    | Queued(i: int)      // blocked on swapSem
    | Entered(i: int)     // P(swapSem) is over
    | Picked(i: int)      // updateFrameIndexToReplace is over
    | Evicted(i: int)     // the old page's entry and TLB copy are invalid
    | Saved(i: int)       // the old page is on its flash device
    | Loaded(i: int)      // the missing page is in the frame
    | Recorded(i: int)    // the swap table names the missing page
    | Mapped(i: int)      // its entry is valid, before V(swapSem)
    | Dead                // terminated

  datatype Io = Io(write: bool, device: int, block: int, page: Page)

  datatype Pager = Pager(
    pt: map<Page, Lo>,        // entryLO of every page-table entry
    swap: seq<Swap>,
    tlb: seq<TlbEntry>,
    tlbIndex: int,
    frame: int,               // frameIndexToReplace
    phase: map<int, Phase>,   // per asid
    swapSem: int,
    waiting: seq<int>,        // processes blocked on swapSem, oldest first
    // history, read by no step
    holder: int,              // process past P(swapSem) without its V, or 0
    loads: seq<Page>,         // pages loaded so far
    ios: seq<Io>)             // flash operations so far

  predicate Asid(a: int) {
    1 <= a <= UPROCMAX
  }

  function PhaseOf(s: Pager, a: int): Phase {
    if a in s.phase then s.phase[a] else Dead
  }

  function LoOf(s: Pager, p: Page): Lo {
    if p in s.pt then s.pt[p] else Lo(0, false)
  }

  predicate Occupied(w: Swap) {
    1 <= w.asid <= 8
  }

  // ---- Translation look-aside buffer -------------------------------------------------

  /** First slot from `from` on that holds an entry for `hi`, or -1. */
  function FirstMatch(tlb: seq<TlbEntry>, hi: int, from: nat): (k: int)
    requires from <= |tlb|
    ensures k == -1 || from <= k < |tlb|
    ensures k >= 0 ==> tlb[k].hi == hi && forall j :: from <= j < k ==> tlb[j].hi != hi
    ensures k == -1 ==> forall j :: from <= j < |tlb| ==> tlb[j].hi != hi
    decreases |tlb| - from
  {
    if from == |tlb| then -1
    else if tlb[from].hi == hi then from
    else FirstMatch(tlb, hi, from + 1)
  }

  /** Slot `k` is the first that holds an entry for `hi`. */
  predicate IsFirst(tlb: seq<TlbEntry>, hi: int, k: int) {
    0 <= k < |tlb| && tlb[k].hi == hi && forall j :: 0 <= j < k ==> tlb[j].hi != hi
  }

  /** TLBP, and every lookup: the first slot with an entry for `hi`, or -1. */
  function Probe(tlb: seq<TlbEntry>, hi: int): int {
    FirstMatch(tlb, hi, 0)
  }

  /** markTLBEntryNotValid */
  function TlbInvalidate(tlb: seq<TlbEntry>, hi: int): seq<TlbEntry> {
    var k := Probe(tlb, hi);
    if k < 0 then tlb else tlb[k := TlbEntry(hi, Lo(tlb[k].lo.pfn, false))]
  }

  /** updateEntryInTLB */
  function TlbUpdate(tlb: seq<TlbEntry>, hi: int, lo: Lo): seq<TlbEntry> {
    var k := Probe(tlb, hi);
    if k < 0 then tlb else tlb[k := TlbEntry(hi, lo)]
  }

  // ---- Frame choice ----------------------------------------------------------------------

  /** Index of the first frame never used, or -1. */
  function FirstUnused(swap: seq<Swap>, from: nat): (f: int)
    requires from <= |swap|
    ensures f == -1 || from <= f < |swap|
    ensures f >= 0 ==> swap[f].asid == -1 && forall j :: from <= j < f ==> swap[j].asid != -1
    ensures f == -1 ==> forall j :: from <= j < |swap| ==> swap[j].asid != -1
    decreases |swap| - from
  {
    if from == |swap| then -1
    else if swap[from].asid == -1 then from
    else FirstUnused(swap, from + 1)
  }

  function NextFrame(swap: seq<Swap>, frame: int): int {
    var f := FirstUnused(swap, 0);
    if f >= 0 then f else (frame + 1) % POOLSIZE
  }

  // ---- Steps --------------------------------------------------------------------------------

  function SetPhase(s: Pager, a: int, f: Phase): Pager {
    s.(phase := s.phase[a := f])
  }

  /** uTLB_RefillHandler: the entry of the missing page goes to the next TLB slot. */
  function Refill(s: Pager, a: int, i: int): Pager
    requires 0 <= s.tlbIndex < |s.tlb|
  {
    var p := Page(a, i);
    s.(tlb := s.tlb[s.tlbIndex := TlbEntry(EntryHi(p), LoOf(s, p))], tlbIndex := (s.tlbIndex + 1) % TLBSIZE)
  }

  function Acquire(s: Pager, a: int, i: int): Pager {
    var t := s.(swapSem := s.swapSem - 1);
    if t.swapSem < 0 then SetPhase(t, a, Queued(i)).(waiting := t.waiting + [a])
    else SetPhase(t, a, Entered(i)).(holder := a)
  }

  function Release(s: Pager, a: int): Pager {
    var t := SetPhase(s.(swapSem := s.swapSem + 1), a, User);
    if t.waiting == [] then t.(holder := 0)
    else
      var b := t.waiting[0];
      var i := match PhaseOf(s, b) case Queued(i) => i case _ => 0;
      SetPhase(t, b, Entered(i)).(waiting := t.waiting[1..], holder := b)
  }

  /** getMissingPageFromSupp, then updateFrameIndexToReplace. A page outside the table ends the process. */
  function Pick(s: Pager, a: int, i: int): Pager {
    if !IsPage(Page(a, i)) then SetPhase(s, a, Dead)
    else SetPhase(s.(frame := NextFrame(s.swap, s.frame)), a, Picked(i))
  }

  /** The atomic part of markInvalidAndSave; skipped when the frame is not occupied. */
  function Evict(s: Pager, a: int, i: int): Pager
    requires 0 <= s.frame < |s.swap|
  {
    var w := s.swap[s.frame];
    if !Occupied(w) then SetPhase(s, a, Saved(i))
    else
      SetPhase(s.(pt := s.pt[w.pte := Lo(LoOf(s, w.pte).pfn, false)],
                  tlb := TlbInvalidate(s.tlb, EntryHi(w.pte))), a, Evicted(i))
  }

  /** writeFromPoolToDev */
  function Save(s: Pager, a: int, i: int): Pager
    requires 0 <= s.frame < |s.swap|
  {
    var w := s.swap[s.frame];
    SetPhase(s.(ios := s.ios + [Io(true, w.asid - 1, w.pageNo, w.pte)]), a, Saved(i))
  }

  /** writeFromDevToPool */
  function Load(s: Pager, a: int, i: int): Pager {
    var p := Page(a, i);
    SetPhase(s.(ios := s.ios + [Io(false, GetAsid(EntryHi(p)) - 1, PageNum(EntryHi(p)), p)]), a, Loaded(i))
  }

  function EntryFor(p: Page): Swap {
    Swap(GetAsid(EntryHi(p)), PageNum(EntryHi(p)), p)
  }

  /** updateSwapTableEntry */
  function Note(s: Pager, a: int, i: int): Pager
    requires 0 <= s.frame < |s.swap|
  {
    var p := Page(a, i);
    SetPhase(s.(swap := s.swap[s.frame := EntryFor(p)], loads := s.loads + [p]), a, Recorded(i))
  }

  /** markValidAndUpdateTLB */
  function Map(s: Pager, a: int, i: int): Pager {
    var p := Page(a, i);
    var lo := Lo(POOLSTART + s.frame, true);
    SetPhase(s.(pt := s.pt[p := lo], tlb := TlbUpdate(s.tlb, EntryHi(p), lo)), a, Mapped(i))
  }

  /** The handler's search for the page of the address; the process ends if it fails. */
  function RefillOrEnd(s: Pager, a: int, vpn: int): Pager
    requires 0 <= s.tlbIndex < |s.tlb|
  {
    if PageFor(vpn) < 0 then SetPhase(s, a, Dead) else Refill(s, a, PageFor(vpn))
  }

  datatype Event =
    | Miss(a: int, vpn: int)    // user access, no TLB entry for the address
    | Fault(a: int, vpn: int)   // user access, TLB entry not valid
    | Go(a: int)                // process `a` takes its next step in the pager
    | Exit(a: int)              // process `a` terminates in user mode

  predicate Possible(s: Pager, e: Event) {
    match e
    case Miss(a, vpn) =>
      Asid(a) && UserVpn(vpn) && PhaseOf(s, a).User? && Probe(s.tlb, HiFor(vpn, a)) == -1
    case Fault(a, vpn) =>
      && Asid(a) && UserVpn(vpn) && PhaseOf(s, a).User?
      && Probe(s.tlb, HiFor(vpn, a)) >= 0 && !s.tlb[Probe(s.tlb, HiFor(vpn, a))].lo.valid
    case Go(a) => Asid(a) && !PhaseOf(s, a).User? && !PhaseOf(s, a).Queued? && !PhaseOf(s, a).Dead?
    case Exit(a) => Asid(a) && PhaseOf(s, a).User?
  }

  predicate Sized(s: Pager) {
    |s.swap| == POOLSIZE && |s.tlb| == TLBSIZE && 0 <= s.frame < POOLSIZE && 0 <= s.tlbIndex < TLBSIZE
  }

  function Advance(s: Pager, a: int): (t: Pager)
    requires Sized(s)
    ensures Sized(t)
  {
    match PhaseOf(s, a)
    case Faulting(i) => Acquire(s, a, i)
    case Entered(i) => Pick(s, a, i)
    case Picked(i) => Evict(s, a, i)
    case Evicted(i) => Save(s, a, i)
    case Saved(i) => Load(s, a, i)
    case Loaded(i) => Note(s, a, i)
    case Recorded(i) => Map(s, a, i)
    case Mapped(i) => Release(s, a)
    case _ => s
  }

  /** An event that cannot happen changes nothing. */
  function Step(s: Pager, e: Event): (t: Pager)
    requires Sized(s)
    ensures Sized(t)
  {
    if !Possible(s, e) then s
    else
      match e
      case Miss(a, vpn) => RefillOrEnd(s, a, vpn)
      case Fault(a, vpn) => SetPhase(s, a, Faulting(PageFor(vpn)))
      case Go(a) => Advance(s, a)
      case Exit(a) => SetPhase(s, a, Dead)
  }
}
