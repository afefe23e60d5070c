// The pager's code: swap table, private page tables, TLB registers and the two
// round-robin indices, updated in place. Every method carries out the data part of
// one step of the pager machine; `s` is the machine state it starts from.
module PagerCode {
  import opened PageBits
  import opened PagerState
  import opened PagerInv
  import opened PagerRuns

  /** Page-table entry. */
  datatype Pte = Pte(hi: int, lo: Lo)

  class Vm {
    const swapTable: array<Swap>
    const tlb: array<TlbEntry>
    const pageTables: array2<Pte>   // sup_privatePgTbl of every process, by asid - 1
    var frameIndexToReplace: int
    var tlbIndex: int
    var ios: seq<Io>                // flash operations issued so far

    ghost predicate Shaped() {
      swapTable.Length == POOLSIZE && tlb.Length == TLBSIZE && pageTables.Length0 == UPROCMAX && pageTables.Length1 == MAXPAGES
    }

    /** Every entry of `asid`'s table, and no other, has the entryHI of its page and the entryLO of the machine state. */
    ghost predicate TablesAre(s: Pager)
      requires Shaped()
      reads this, pageTables
    {
      forall p {:trigger IsPage(p)} :: IsPage(p) ==> pageTables[p.asid - 1, p.index] == Pte(EntryHi(p), LoOf(s, p))
    }

    ghost predicate Represents(s: Pager)
      reads this, swapTable, tlb, pageTables
    {
      && Shaped() && Sized(s)
      && swapTable[..] == s.swap && tlb[..] == s.tlb
      && frameIndexToReplace == s.frame && tlbIndex == s.tlbIndex && ios == s.ios
      && TablesAre(s)
    }

    constructor ()
      ensures fresh(swapTable) && fresh(tlb) && fresh(pageTables) && Shaped()
      ensures frameIndexToReplace == 0 && tlbIndex == 0 && ios == []
      ensures forall k :: 0 <= k < TLBSIZE ==> tlb[k].hi == 0
      ensures forall f :: 0 <= f < POOLSIZE ==> swapTable[f].asid == -1
    {
      swapTable := new Swap[POOLSIZE](_ => Swap(0, 0, Page(0, 0)));
      tlb := new TlbEntry[TLBSIZE](_ => TlbEntry(0, Lo(0, false)));
      pageTables := new Pte[UPROCMAX, MAXPAGES]((_, _) => Pte(0, Lo(0, false)));
      frameIndexToReplace, tlbIndex, ios := 0, 0, [];
      new;
      InitSwapTable();
    }

    method InitSwapTable()
      requires swapTable.Length == POOLSIZE
      modifies swapTable
      ensures forall f :: 0 <= f < POOLSIZE ==> swapTable[f] == old(swapTable[f]).(asid := -1)
    {
      for i := 0 to POOLSIZE
        invariant forall f :: 0 <= f < i ==> swapTable[f] == old(swapTable[f]).(asid := -1)
        invariant forall f :: i <= f < POOLSIZE ==> swapTable[f] == old(swapTable[f])
      {
        swapTable[i] := swapTable[i].(asid := -1);
      }
    }

    method InitUprocPagetable(asid: int)
      requires Shaped() && Asid(asid)
      modifies pageTables
      ensures forall i :: 0 <= i < MAXPAGES ==> pageTables[asid - 1, i] == Pte(EntryHi(Page(asid, i)), Lo(0, false))
      ensures forall a, i :: 0 <= a < UPROCMAX && 0 <= i < MAXPAGES && a != asid - 1 ==> pageTables[a, i] == old(pageTables[a, i])
    {
      for i := 0 to MAXPAGES
        invariant forall j :: 0 <= j < i ==> pageTables[asid - 1, j] == Pte(EntryHi(Page(asid, j)), Lo(0, false))
        invariant forall a, j :: 0 <= a < UPROCMAX && 0 <= j < MAXPAGES && a != asid - 1 ==> pageTables[a, j] == old(pageTables[a, j])
      {
        pageTables[asid - 1, i] := Pte(VpnOf(i) * 4096 + asid * 64, Lo(0, false));
      }
    }

    /** The search of getMissingPage and getMissingPageFromSupp; -1 where the source terminates the process. */
    method GetMissingPage(asid: int, vpn: int, ghost s: Pager) returns (i: int)
      requires Represents(s) && Asid(asid) && UserVpn(vpn)
      ensures i == PageFor(vpn)
    {
      i := 0;
      while i < MAXPAGES
        invariant 0 <= i <= MAXPAGES
        invariant !(0 <= PageFor(vpn) < i)
      {
        assert IsPage(Page(asid, i));
        SearchFinds(vpn, asid, i);
        if GetVpn(pageTables[asid - 1, i].hi) == GetVpn(HiFor(vpn, asid)) {
          return;
        }
        i := i + 1;
      }
      i := -1;
    }

    method UpdateFrameIndexToReplace(ghost s: Pager)
      requires Represents(s)
      modifies this`frameIndexToReplace
      ensures Represents(s.(frame := NextFrame(s.swap, s.frame)))
    {
      for i := 0 to POOLSIZE
        invariant forall j :: 0 <= j < i ==> swapTable[j].asid != -1
        invariant frameIndexToReplace == s.frame
      {
        if swapTable[i].asid == -1 {
          assert FirstUnused(s.swap, 0) == i;
          frameIndexToReplace := i;
          return;
        }
      }
      frameIndexToReplace := (frameIndexToReplace + 1) % POOLSIZE;
    }

    /** TLBP */
    method TlbProbe(hi: int) returns (k: int)
      ensures k == Probe(tlb[..], hi)
    {
      k := 0;
      while k < tlb.Length
        invariant 0 <= k <= tlb.Length
        invariant Probe(tlb[..], hi) == FirstMatch(tlb[..], hi, k)
      {
        if tlb[k].hi == hi {
          return;
        }
        k := k + 1;
      }
      k := -1;
    }

    method MarkTLBEntryNotValid(hi: int)
      modifies tlb
      ensures tlb[..] == TlbInvalidate(old(tlb[..]), hi)
      ensures forall k :: 0 <= k < tlb.Length ==>
                tlb[k] == if IsFirst(old(tlb[..]), hi, k) then TlbEntry(hi, Lo(old(tlb[k]).lo.pfn, false)) else old(tlb[k])
    {
      var k := TlbProbe(hi);
      if k >= 0 {
        tlb[k] := TlbEntry(hi, Lo(tlb[k].lo.pfn, false));
      }
    }

    method UpdateEntryInTLB(hi: int, lo: Lo)
      modifies tlb
      ensures tlb[..] == TlbUpdate(old(tlb[..]), hi, lo)
      ensures forall k :: 0 <= k < tlb.Length ==>
                tlb[k] == if IsFirst(old(tlb[..]), hi, k) then TlbEntry(hi, lo) else old(tlb[k])
    {
      var k := TlbProbe(hi);
      if k >= 0 {
        tlb[k] := TlbEntry(hi, lo);
      }
    }

    /** Store an entryLO; no other entry changes. */
    method SetPteLo(p: Page, lo: Lo, ghost s: Pager)
      requires Represents(s) && IsPage(p)
      modifies pageTables
      ensures Represents(s.(pt := s.pt[p := lo]))
    {
      pageTables[p.asid - 1, p.index] := pageTables[p.asid - 1, p.index].(lo := lo);
      ghost var t := s.(pt := s.pt[p := lo]);
      forall q | IsPage(q)
        ensures pageTables[q.asid - 1, q.index] == Pte(EntryHi(q), LoOf(t, q))
      {
        assert IsPage(q);
      }
    }

    /** markInvalidAndSave up to enable_interrupts, under the test of handleTLBInvalid. */
    method MarkInvalid(ghost s: Pager, ghost a: int, ghost i: int)
      requires Inv(s) && Represents(s) && PhaseOf(s, a) == Picked(i)
      modifies pageTables, tlb
      ensures Represents(Evict(s, a, i))
    {
      assert IsFrame(s.frame);
      OccupiedIffUsed(s, s.frame);
      var w := swapTable[frameIndexToReplace];
      if 1 <= w.asid <= 8 {
        assert IsPage(w.pte);
        ghost var lo := LoOf(s, w.pte);
        SetPteLo(w.pte, Lo(pageTables[w.pte.asid - 1, w.pte.index].lo.pfn, false), s);
        MarkTLBEntryNotValid(pageTables[w.pte.asid - 1, w.pte.index].hi);
      }
    }

    method WriteFromPoolToDev(ghost s: Pager, ghost a: int, ghost i: int)
      requires Represents(s) && 0 <= s.frame < POOLSIZE
      modifies this`ios
      ensures Represents(Save(s, a, i))
    {
      var w := swapTable[frameIndexToReplace];
      ios := ios + [Io(true, w.asid - 1, w.pageNo, w.pte)];
    }

    method WriteFromDevToPool(p: Page, ghost s: Pager)
      requires Represents(s) && IsPage(p)
      modifies this`ios
      ensures Represents(Load(s, p.asid, p.index))
    {
      var hi := pageTables[p.asid - 1, p.index].hi;
      ios := ios + [Io(false, GetAsid(hi) - 1, PageNum(hi), p)];
    }

    method UpdateSwapTableEntry(p: Page, ghost s: Pager)
      requires Represents(s) && IsPage(p) && 0 <= s.frame < POOLSIZE
      modifies swapTable
      ensures Represents(Note(s, p.asid, p.index))
    {
      var hi := pageTables[p.asid - 1, p.index].hi;
      swapTable[frameIndexToReplace] := Swap(GetAsid(hi), PageNum(hi), p);
    }

    method MarkValidAndUpdateTLB(p: Page, ghost s: Pager)
      requires Represents(s) && IsPage(p)
      modifies pageTables, tlb
      ensures Represents(Map(s, p.asid, p.index))
    {
      var lo := Lo(POOLSTART + frameIndexToReplace, true);
      SetPteLo(p, lo, s);
      UpdateEntryInTLB(pageTables[p.asid - 1, p.index].hi, lo);
    }

    /** uTLB_RefillHandler: look the address up in the table and write the entry found; false if there is none. */
    method UTlbRefillHandler(a: int, vpn: int, ghost s: Pager) returns (found: bool)
      requires Represents(s) && Asid(a) && UserVpn(vpn)
      modifies this`tlbIndex, tlb
      ensures found <==> PageFor(vpn) >= 0
      ensures Represents(if found then Refill(s, a, PageFor(vpn)) else s)
    {
      var i := GetMissingPage(a, vpn, s);
      found := i >= 0;
      if found {
        assert IsPage(Page(a, i));
        var pageToWrite := pageTables[a - 1, i];
        tlb[tlbIndex] := TlbEntry(pageToWrite.hi, pageToWrite.lo);
        tlbIndex := (tlbIndex + 1) % TLBSIZE;
      }
    }

    /** The occupied case of handleTLBInvalid: markInvalidAndSave. */
    method EmptyFrame(ghost s: Pager, ghost a: int, ghost i: int)
      requires Inv(s) && Represents(s) && PhaseOf(s, a) == Picked(i)
      modifies this`ios, tlb, pageTables
      ensures Represents(Emptied(s, a, i))
    {
      MarkInvalid(s, a, i);
      if 1 <= swapTable[frameIndexToReplace].asid <= 8 {
        WriteFromPoolToDev(Evict(s, a, i), a, i);
      }
    }

    method FillFrame(p: Page, ghost s: Pager)
      requires Represents(s) && IsPage(p) && 0 <= s.frame < POOLSIZE
      modifies this`ios, swapTable, tlb, pageTables
      ensures Represents(Filled(s, p.asid, p.index))
    {
      WriteFromDevToPool(p, s);
      UpdateSwapTableEntry(p, Load(s, p.asid, p.index));
      MarkValidAndUpdateTLB(p, Note(Load(s, p.asid, p.index), p.asid, p.index));
    }

    /** handleTLBInvalid, when no other process runs in between: its steps one after the other. */
    method HandleTLBInvalid(a: int, vpn: int, ghost s: Pager) returns (found: bool)
      requires Inv(s) && Represents(s) && Asid(a) && UserVpn(vpn) && PhaseOf(s, a) == Entered(PageFor(vpn))
      modifies this`frameIndexToReplace, this`ios, swapTable, tlb, pageTables
      ensures found
      ensures var i := PageFor(vpn); Represents(Filled(Emptied(Pick(s, a, i), a, i), a, i))
    {
      var i := GetMissingPage(a, vpn, s);
      found := i >= 0;
      assert IsPage(Page(a, PageFor(vpn)));
      ghost var s1 := Pick(s, a, i);
      PickInv(s, a, i);
      UpdateFrameIndexToReplace(s);
      assert Represents(s1);
      EmptyFrame(s1, a, i);
      FillFrame(Page(a, i), Emptied(s1, a, i));
    }
  }

  function Emptied(s: Pager, a: int, i: int): Pager
    requires Sized(s)
  {
    if Occupied(s.swap[s.frame]) then Save(Evict(s, a, i), a, i) else Evict(s, a, i)
  }

  function Filled(s: Pager, a: int, i: int): Pager
    requires Sized(s)
  {
    Map(Note(Load(s, a, i), a, i), a, i)
  }

  /** Those steps are what the machine does when it is told to advance `a` over and over. */
  lemma ServedByAdvancing(s: Pager, a: int, i: int)
    requires Inv(s) && PhaseOf(s, a) == Entered(i) && IsPage(Page(a, i))
    ensures var s1 := Advance(s, a);
            s1 == Pick(s, a, i)
            && (if Occupied(s1.swap[s1.frame]) then Advance(Advance(s1, a), a) else Advance(s1, a)) == Emptied(s1, a, i)
            && Advance(Advance(Advance(Emptied(s1, a, i), a), a), a) == Filled(Emptied(s1, a, i), a, i)
  {
    EmptiedByAdvancing(Pick(s, a, i), a, i);
    FilledByAdvancing(Emptied(Pick(s, a, i), a, i), a, i);
  }

  lemma EmptiedByAdvancing(s: Pager, a: int, i: int)
    requires Sized(s) && PhaseOf(s, a) == Picked(i)
    ensures (if Occupied(s.swap[s.frame]) then Advance(Advance(s, a), a) else Advance(s, a)) == Emptied(s, a, i)
    ensures Sized(Emptied(s, a, i)) && PhaseOf(Emptied(s, a, i), a) == Saved(i)
  {
  }

  lemma FilledByAdvancing(s: Pager, a: int, i: int)
    requires Sized(s) && PhaseOf(s, a) == Saved(i)
    ensures Advance(Advance(Advance(s, a), a), a) == Filled(s, a, i)
  {
    var s1 := Load(s, a, i);
    assert Advance(s, a) == s1 && PhaseOf(s1, a) == Loaded(i);
    var s2 := Note(s1, a, i);
    assert Advance(s1, a) == s2 && PhaseOf(s2, a) == Recorded(i);
  }

  // ---- entryLO words ---------------------------------------------------------------------

  /** A 32-bit entryLO word with the frame number and the valid bit of `lo`. */
  predicate Encodes(word: bv32, lo: Lo) {
    PfnOf(word) as int == lo.pfn && (word & VALIDON != 0 <==> lo.valid)
  }

  /** What the code stores with `&= ~VALIDON` and with `frameAddr | VALIDON | DIRTYON` is what evicting and mapping say. */
  lemma EntryWords(s: Pager, a: int, i: int, word: bv32, frame: bv32)
    requires Sized(s) && frame < 16 && frame as int == s.frame
    ensures var q := s.swap[s.frame].pte;
            Occupied(s.swap[s.frame]) && Encodes(word, LoOf(s, q)) ==> Encodes(word & !VALIDON, LoOf(Evict(s, a, i), q))
    ensures Encodes(FrameAddress(frame) | VALIDON | DIRTYON, LoOf(Map(s, a, i), Page(a, i)))
    ensures Encodes(DIRTYON, Lo(0, false))
  {
    InvalidWord(word);
    FrameWord(frame);
    FrameNumber(frame);
    FreshWord();
  }

  // ---- All processes ------------------------------------------------------------------------

  /** The pager's memory together with how far each process is, and the semaphore the kernel keeps for it. */
  class Machine {
    const vm: Vm
    var phase: map<int, Phase>
    var swapSem: int
    var waiting: seq<int>
    ghost var s: Pager

    ghost predicate Valid()
      reads this, vm, vm.swapTable, vm.tlb, vm.pageTables
    {
      vm.Represents(s) && phase == s.phase && swapSem == s.swapSem && waiting == s.waiting
    }

    /** Around memory that represents the state after initialisation. */
    constructor (memory: Vm, ghost s0: Pager)
      requires memory.Represents(s0) && Initial(s0)
      ensures Valid() && s == s0 && vm == memory
    {
      vm := memory;
      phase, swapSem, waiting := AllUser(), 1, [];
      s := s0;
    }

    function PhaseNow(a: int): Phase
      reads this
    {
      if a in phase then phase[a] else Dead
    }

    /** A user access that finds no TLB entry. */
    method Miss(a: int, vpn: int)
      requires Valid() && Inv(s) && Possible(s, Event.Miss(a, vpn))
      modifies this, vm`tlbIndex, vm.tlb
      ensures Valid() && s == RefillOrEnd(old(s), a, vpn)
    {
      var found := vm.UTlbRefillHandler(a, vpn, s);
      if !found {
        phase := phase[a := Dead];
      }
      s := RefillOrEnd(s, a, vpn);
    }

    /** P(swapSem) */
    method Acquire(a: int, i: int)
      requires Valid() && PhaseOf(s, a) == Faulting(i)
      modifies this
      ensures Valid() && s == PagerState.Acquire(old(s), a, i)
    {
      swapSem := swapSem - 1;
      if swapSem < 0 {
        phase, waiting := phase[a := Queued(i)], waiting + [a];
      } else {
        phase := phase[a := Entered(i)];
      }
      s := PagerState.Acquire(s, a, i);
    }

    /** V(swapSem) */
    method Release(a: int)
      requires Valid()
      modifies this
      ensures Valid() && s == PagerState.Release(old(s), a)
    {
      swapSem := swapSem + 1;
      if waiting == [] {
        phase := phase[a := User];
      } else {
        var b := waiting[0];
        var i := match PhaseNow(b) case Queued(j) => j case _ => 0;
        phase, waiting := phase[a := User][b := Entered(i)], waiting[1..];
      }
      s := PagerState.Release(s, a);
    }

    method SetPhase(a: int, f: Phase, ghost t: Pager)
      requires vm.Represents(t) && phase[a := f] == t.phase && swapSem == t.swapSem && waiting == t.waiting
      modifies this
      ensures Valid() && s == t
    {
      phase := phase[a := f];
      s := t;
    }

    /** getMissingPageFromSupp and updateFrameIndexToReplace */
    method ChooseFrame(a: int, i: int)
      requires Valid() && Inv(s) && Asid(a) && PhaseOf(s, a) == Entered(i)
      modifies this, vm`frameIndexToReplace
      ensures Valid() && s == Pick(old(s), a, i)
    {
      assert IsPage(Page(a, i));
      SearchFinds(VpnOf(i), a, i);
      var j := vm.GetMissingPage(a, VpnOf(i), s);
      vm.UpdateFrameIndexToReplace(s);
      SetPhase(a, Picked(j), Pick(s, a, i));
    }

    /** The test of handleTLBInvalid and the atomic part of markInvalidAndSave. */
    method EvictPage(a: int, i: int)
      requires Valid() && Inv(s) && PhaseOf(s, a) == Picked(i)
      modifies this, vm.tlb, vm.pageTables
      ensures Valid() && s == Evict(old(s), a, i)
    {
      var w := vm.swapTable[vm.frameIndexToReplace];
      vm.MarkInvalid(s, a, i);
      SetPhase(a, if 1 <= w.asid <= 8 then Evicted(i) else Saved(i), Evict(s, a, i));
    }

    /** The next step of the process that holds the swap semaphore. */
    method Proceed(a: int)
      requires Valid() && Inv(s) && Asid(a) && Inside(PhaseOf(s, a)) && !PhaseOf(s, a).Mapped?
      modifies this, vm, vm.swapTable, vm.tlb, vm.pageTables
      ensures Valid() && s == Advance(old(s), a)
    {
      match PhaseNow(a)
      case Entered(i) => ChooseFrame(a, i);
      case Picked(i) => EvictPage(a, i);
      case Evicted(i) =>
        vm.WriteFromPoolToDev(s, a, i);
        SetPhase(a, Saved(i), Save(s, a, i));
      case Saved(i) =>
        vm.WriteFromDevToPool(Page(a, i), s);
        SetPhase(a, Loaded(i), Load(s, a, i));
      case Loaded(i) =>
        vm.UpdateSwapTableEntry(Page(a, i), s);
        SetPhase(a, Recorded(i), Note(s, a, i));
      case Recorded(i) =>
        vm.MarkValidAndUpdateTLB(Page(a, i), s);
        SetPhase(a, Mapped(i), Map(s, a, i));
    }

    /** One event on memory is one step of the pager machine. */
    method Handle(e: Event)
      requires Valid() && Inv(s) && Possible(s, e)
      modifies this, vm, vm.swapTable, vm.tlb, vm.pageTables
      ensures Valid() && Inv(s) && s == Step(old(s), e)
    {
      StepKeepsInv(s, e);
      match e
      case Miss(a, vpn) => Miss(a, vpn);
      case Fault(a, vpn) => SetPhase(a, Faulting(PageFor(vpn)), Step(s, e));
      case Exit(a) => SetPhase(a, Dead, Step(s, e));
      case Go(a) =>
        if PhaseNow(a).Faulting? {
          Acquire(a, PhaseNow(a).i);
        } else if PhaseNow(a).Mapped? {
          Release(a);
        } else {
          Proceed(a);
        }
    }

    /** Any interleaving of events on memory is a run of the pager machine. */
    method HandleAll(es: seq<Event>)
      requires Valid() && Inv(s) && AllPossible(s, es)
      modifies this, vm, vm.swapTable, vm.tlb, vm.pageTables
      ensures Valid() && Inv(s) && s == Run(old(s), es)
    {
      var k := 0;
      while k < |es|
        invariant 0 <= k <= |es| && Valid() && Inv(s)
        invariant AllPossible(s, es[k..]) && Run(s, es[k..]) == Run(old(s), es)
      {
        assert es[k..][0] == es[k] && es[k..][1..] == es[k + 1..];
        Handle(es[k]);
        k := k + 1;
      }
      assert es[k..] == [];
    }
  }

  ghost predicate AllPossible(s: Pager, es: seq<Event>)
    requires Sized(s)
    decreases |es|
  {
    es == [] || (Possible(s, es[0]) && AllPossible(Step(s, es[0]), es[1..]))
  }

  /** initSwapStructs, and init_uproc_pagetable for every user process. */
  method InitPager() returns (m: Machine)
    ensures m.Valid() && Initial(m.s) && Inv(m.s) && fresh(m) && fresh(m.vm)
    ensures fresh(m.vm.swapTable) && fresh(m.vm.tlb) && fresh(m.vm.pageTables)
  {
    var vm := new Vm();
    for a := 1 to UPROCMAX + 1
      invariant vm.Shaped() && vm.frameIndexToReplace == 0 && vm.tlbIndex == 0 && vm.ios == []
      invariant forall f :: 0 <= f < POOLSIZE ==> vm.swapTable[f].asid == -1
      invariant forall k :: 0 <= k < TLBSIZE ==> vm.tlb[k].hi == 0
      invariant forall b, i :: 0 <= b < a - 1 && 0 <= i < MAXPAGES ==>
                  vm.pageTables[b, i] == Pte(EntryHi(Page(b + 1, i)), Lo(0, false))
    {
      vm.InitUprocPagetable(a);
    }
    ghost var s0 := Pager(FreshTables(), vm.swapTable[..], vm.tlb[..], 0, 0, AllUser(), 1, [], 0, [], []);
    InitialInv(s0);
    m := new Machine(vm, s0);
  }

  /** From initialisation on, any interleaving of events on memory is a run of the pager machine. */
  method RunPager(es: seq<Event>) returns (m: Machine, ghost s0: Pager)
    requires forall s: Pager :: Initial(s) ==> AllPossible(s, es)
    ensures Initial(s0) && m.Valid() && m.s == Run(s0, es)
  {
    m := InitPager();
    s0 := m.s;
    m.HandleAll(es);
  }
}
