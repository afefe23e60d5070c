// The RAM address at which a page is written back: computed from an entryLO that already
// holds a physical frame number, it is never the address of a frame of the pool.
module WriteBack {
  import opened PageBits
  import opened PagerState
  import opened PagerInv
  import PagerLaws
  import opened PagerRuns
  import opened PagerCode

  /** data0 of the write: FRAMEPOOLSTART plus the frame number in entryLO times the page size. */
  function SaveAddress(word: bv32): bv32 {
    FRAMEPOOLSTART + PfnOf(word) * 4096
  }

  /** The same without FRAMEPOOLSTART. */
  function RepairedAddress(word: bv32): bv32 {
    PfnOf(word) * 4096
  }

  /** `pfn` is the number of a frame of the pool. */
  predicate InPool(pfn: int) {
    POOLSTART <= pfn < POOLSTART + POOLSIZE
  }

  // ---- Every page named by the swap table has been mapped once ---------------------------------

  /** Used frames name pages whose entries hold a pool frame number, except the one that is about to be mapped. */
  ghost predicate PlacedOk(s: Pager)
    requires Sized(s)
  {
    forall f {:trigger IsFrame(f)} :: IsFrame(f) && f < |s.loads| && !(f == s.frame && HolderPhase(s).Recorded?) ==>
      InPool(LoOf(s, s.swap[f].pte).pfn)
  }

  lemma PlacedStep(s: Pager, e: Event)
    requires Inv(s) && PlacedOk(s)
    ensures PlacedOk(Step(s, e))
  {
    var t := Step(s, e);
    if PagerLaws.Maps(s, e) {
      PlacedMap(s, t);
    } else if PagerLaws.Evicts(s, e) {
      PagerLaws.EvictedPage(s, e);
      PlacedSame(s, t);
    } else if Possible(s, e) && e.Go? && PhaseOf(s, e.a).Loaded? {
      PlacedNote(s, t, Page(e.a, PhaseOf(s, e.a).i));
    } else {
      QuietPhases(s, e);
      PlacedSame(s, t);
    }
  }

  /** Frame numbers of entries, swap table and history stay the same. */
  lemma PlacedSame(s: Pager, t: Pager)
    requires Sized(s) && Sized(t) && PlacedOk(s) && t.swap == s.swap && t.loads == s.loads
    requires forall p :: LoOf(t, p).pfn == LoOf(s, p).pfn
    requires HolderPhase(s).Recorded? ==> HolderPhase(t).Recorded? && t.frame == s.frame
    ensures PlacedOk(t)
  {
    forall f | IsFrame(f) && f < |t.loads| && !(f == t.frame && HolderPhase(t).Recorded?)
      ensures InPool(LoOf(t, t.swap[f].pte).pfn)
    {
      assert InPool(LoOf(s, s.swap[f].pte).pfn);
    }
  }

  lemma QuietPhases(s: Pager, e: Event)
    requires Inv(s) && !PagerLaws.Maps(s, e) && !PagerLaws.Evicts(s, e)
    requires Possible(s, e) && e.Go? ==> !PhaseOf(s, e.a).Loaded?
    ensures var t := Step(s, e);
            && t.pt == s.pt && t.swap == s.swap && t.loads == s.loads
            && (HolderPhase(s).Recorded? ==> HolderPhase(t).Recorded? && t.frame == s.frame)
  {
    if Possible(s, e) && e.Go? && PhaseOf(s, e.a).Faulting? {
      AcquireLock(s, e.a, PhaseOf(s, e.a).i);
    } else if Possible(s, e) && !e.Go? {
      assert e.a != s.holder;
    }
  }

  lemma PlacedNote(s: Pager, t: Pager, p: Page)
    requires Sized(s) && Sized(t) && PlacedOk(s) && FrameOk(s) && HolderPhase(s).Loaded? && HolderPhase(t).Recorded?
    requires t.pt == s.pt && t.swap == s.swap[s.frame := EntryFor(p)] && t.loads == s.loads + [p] && t.frame == s.frame
    ensures PlacedOk(t)
  {
    forall f | IsFrame(f) && f < |t.loads| && f != t.frame
      ensures InPool(LoOf(t, t.swap[f].pte).pfn)
    {
      assert f < |s.loads|;
      assert InPool(LoOf(s, s.swap[f].pte).pfn);
    }
  }

  lemma PlacedMap(s: Pager, t: Pager)
    requires Inv(s) && PlacedOk(s) && HolderPhase(s).Recorded? && Sized(t)
    requires var p := Page(s.holder, HolderPhase(s).i); t.pt == s.pt[p := Lo(POOLSTART + s.frame, true)]
    requires t.swap == s.swap && t.loads == s.loads && t.frame == s.frame
    ensures PlacedOk(t)
  {
    var p := Page(s.holder, HolderPhase(s).i);
    forall f | IsFrame(f) && f < |t.loads|
      ensures InPool(LoOf(t, t.swap[f].pte).pfn)
    {
      if t.swap[f].pte != p {
        assert f != s.frame;
        assert InPool(LoOf(s, s.swap[f].pte).pfn);
      }
    }
  }

  lemma {:induction false} PlacedAlways(s: Pager, es: seq<Event>)
    requires Inv(s) && PlacedOk(s)
    ensures PlacedOk(Run(s, es))
    decreases |es|
  {
    if es != [] {
      StepKeepsInv(s, es[0]);
      PlacedStep(s, es[0]);
      PlacedAlways(Step(s, es[0]), es[1..]);
    }
  }

  // ---- Addresses -----------------------------------------------------------------------------------

  lemma WordInPool(word: bv32)
    requires InPool(PfnOf(word) as int)
    ensures 0x20030 <= PfnOf(word) < 0x20040
  {
  }

  /** Twice FRAMEPOOLSTART is beyond the pool. */
  lemma AddressMisses(word: bv32, frame: bv32)
    requires 0x20030 <= PfnOf(word) < 0x20040 && frame < 16
    ensures SaveAddress(word) != FrameAddress(frame)
    ensures RepairedAddress(word) == FrameAddress(frame) <==> PfnOf(word) == 0x20030 + frame
  {
  }

  /**
   * In every run, whenever a page is to be written back, the address the code computes from
   * its entryLO is not the address of any frame of the pool: not of the one that holds it.
   */
  lemma WriteBackMissesPool(s0: Pager, es: seq<Event>, a: int, i: int, word: bv32, frame: bv32)
    requires Initial(s0) && PhaseOf(Run(s0, es), a) == Evicted(i) && frame < 16
    requires var s := Run(s0, es); Encodes(word, LoOf(s, s.swap[s.frame].pte))
    ensures SaveAddress(word) != FrameAddress(frame)
  {
    var s := Run(s0, es);
    EvictedInPool(s0, es, a, i);
    WordInPool(word);
    AddressMisses(word, frame);
  }

  lemma EvictedInPool(s0: Pager, es: seq<Event>, a: int, i: int)
    requires Initial(s0) && PhaseOf(Run(s0, es), a) == Evicted(i)
    ensures var s := Run(s0, es); InPool(LoOf(s, s.swap[s.frame].pte).pfn)
  {
    InitialInv(s0);
    Reachable(s0, es);
    PlacedAlways(s0, es);
    assert IsFrame(Run(s0, es).frame);
  }

  // ---- Without the addition ----------------------------------------------------------------------

  /** The page that is leaving its frame still has that frame's number in its entry. */
  ghost predicate LeavesItsFrame(s: Pager)
    requires Sized(s)
  {
    HolderPhase(s).Evicted? ==> LoOf(s, s.swap[s.frame].pte).pfn == POOLSTART + s.frame
  }

  lemma LeavingStep(s: Pager, e: Event)
    requires Inv(s) && PagerLaws.BackOk(s) && LeavesItsFrame(s)
    ensures LeavesItsFrame(Step(s, e))
  {
    if PagerLaws.Evicts(s, e) {
      PagerLaws.EvictedPage(s, e);
      assert IsFrame(s.frame);
      assert LoOf(s, s.swap[s.frame].pte) == Lo(POOLSTART + s.frame, true);
    } else if Possible(s, e) && e.Go? && PhaseOf(s, e.a).Faulting? {
      AcquireLock(s, e.a, PhaseOf(s, e.a).i);
    } else if Possible(s, e) && e.Go? && PhaseOf(s, e.a).Mapped? {
      ReleaseLock(s, e.a, PhaseOf(s, e.a).i);
    } else if Possible(s, e) && !e.Go? {
      assert e.a != s.holder;
    }
  }

  lemma {:induction false} LeavingAlways(s: Pager, es: seq<Event>)
    requires Inv(s) && PagerLaws.BackOk(s) && LeavesItsFrame(s) && Meets(PagerLaws.FramesPointBack, s, es)
    ensures LeavesItsFrame(Run(s, es))
    decreases |es|
  {
    if es != [] {
      StepKeepsInv(s, es[0]);
      PagerLaws.StepKeepsLaw(PagerLaws.FramesPointBack, s, es[0]);
      LeavingStep(s, es[0]);
      LeavingAlways(Step(s, es[0]), es[1..]);
    }
  }

  /**
   * Without the addition of FRAMEPOOLSTART the address is that of the frame that is being
   * emptied, in every run in which frames point back at their pages, so within segment 2.
   */
  lemma RepairedWriteBack(s0: Pager, es: seq<Event>, a: int, i: int, word: bv32, frame: bv32)
    requires Initial(s0) && Meets(PagerLaws.FramesPointBack, s0, es) && PhaseOf(Run(s0, es), a) == Evicted(i)
    requires var s := Run(s0, es); Encodes(word, LoOf(s, s.swap[s.frame].pte)) && frame < 16 && frame as int == s.frame
    ensures RepairedAddress(word) == FrameAddress(frame)
  {
    InitialInv(s0);
    Reachable(s0, es);
    assert PagerLaws.Holds(PagerLaws.FramesPointBack, s0);
    LeavingAlways(s0, es);
    assert a == Run(s0, es).holder;
    FrameNumber(frame);
    SameNumber(PfnOf(word), 0x20030 + frame);
    EvictedInPool(s0, es, a, i);
    WordInPool(word);
    AddressMisses(word, frame);
  }

  lemma SameNumber(x: bv32, y: bv32)
    requires x as int == y as int
    ensures x == y
  {
    assert (x as int) as bv32 == x && (y as int) as bv32 == y;
  }
}
