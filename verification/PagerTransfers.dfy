// The flash operations of a run, one by one: the n-th page loaded is read from its own
// block, after the page loaded POOLSIZE faults earlier has been written to its own.
module PagerTransfers {
  import opened PageBits
  import opened PagerState
  import opened PagerInv
  import opened PagerRuns

  /** A page in its own flash block: device by process, block by table index. */
  function ReadOf(p: Page): Io {
    Io(false, p.asid - 1, p.index, p)
  }

  function WriteOf(p: Page): Io {
    Io(true, p.asid - 1, p.index, p)
  }

  /** What has to be written before the n-th page is read: the page loaded POOLSIZE faults earlier, if any. */
  function SavedFor(loads: seq<Page>, n: nat): seq<Io>
    requires n <= |loads|
  {
    if n < POOLSIZE then [] else [WriteOf(loads[n - POOLSIZE])]
  }

  /** Write the old page, read the new one, for each of the first `n` pages loaded. */
  function Transfers(loads: seq<Page>, n: nat): seq<Io>
    requires n <= |loads|
  {
    if n == 0 then [] else Transfers(loads, n - 1) + SavedFor(loads, n - 1) + [ReadOf(loads[n - 1])]
  }

  /** The operations for the fault being served. */
  function InFlight(s: Pager): seq<Io> {
    match HolderPhase(s)
    case Saved(_) => SavedFor(s.loads, |s.loads|)
    case Loaded(i) => SavedFor(s.loads, |s.loads|) + [ReadOf(Page(s.holder, i))]
    case _ => []
  }

  predicate TransfersOk(s: Pager) {
    s.ios == Transfers(s.loads, |s.loads|) + InFlight(s)
  }

  lemma {:induction false} TransfersPrefix(loads: seq<Page>, p: Page, n: nat)
    requires n <= |loads|
    ensures Transfers(loads + [p], n) == Transfers(loads, n)
  {
    if n > 0 {
      TransfersPrefix(loads, p, n - 1);
      assert (loads + [p])[n - 1] == loads[n - 1];
      if n - 1 >= POOLSIZE {
        assert (loads + [p])[n - 1 - POOLSIZE] == loads[n - 1 - POOLSIZE];
      }
    }
  }

  /** The frame's page is the one loaded POOLSIZE faults ago. */
  lemma OldestInFrame(s: Pager)
    requires Inv(s) && Choosing(HolderPhase(s)) && |s.loads| >= POOLSIZE
    ensures var w := s.swap[s.frame]; Occupied(w) && w == EntryFor(s.loads[|s.loads| - POOLSIZE]) && IsPage(w.pte)
  {
    var n := |s.loads|;
    assert (n - POOLSIZE) % POOLSIZE == n % POOLSIZE == s.frame;
    assert IsFrame(s.frame);
    OccupiedIffUsed(s, s.frame);
  }

  lemma SaveTransfers(s: Pager, a: int, i: int)
    requires Inv(s) && TransfersOk(s) && PhaseOf(s, a) == Evicted(i)
    ensures TransfersOk(Save(s, a, i))
  {
    var t := Save(s, a, i);
    assert a == s.holder && PhaseOf(t, a) == Saved(i);
    assert IsFrame(s.frame) && s.frame < |s.loads|;
    assert |s.loads| >= POOLSIZE;
    OldestInFrame(s);
    PageNumRoundTrip(s.swap[s.frame].pte);
    assert t.ios == s.ios + [WriteOf(s.loads[|s.loads| - POOLSIZE])];
  }

  lemma LoadTransfers(s: Pager, a: int, i: int)
    requires Inv(s) && TransfersOk(s) && PhaseOf(s, a) == Saved(i)
    ensures TransfersOk(Load(s, a, i))
  {
    var t := Load(s, a, i);
    assert a == s.holder && PhaseOf(t, a) == Loaded(i);
    PageNumRoundTrip(Page(a, i));
    assert t.ios == s.ios + [ReadOf(Page(a, i))];
    assert s.ios + [ReadOf(Page(a, i))] == Transfers(s.loads, |s.loads|) + InFlight(t);
  }

  lemma NoteTransfers(s: Pager, a: int, i: int)
    requires Inv(s) && TransfersOk(s) && PhaseOf(s, a) == Loaded(i)
    ensures TransfersOk(Note(s, a, i))
  {
    var t := Note(s, a, i);
    var n := |s.loads|;
    assert a == s.holder && PhaseOf(t, a) == Recorded(i);
    TransfersPrefix(s.loads, Page(a, i), n);
    if n >= POOLSIZE {
      assert t.loads[n - POOLSIZE] == s.loads[n - POOLSIZE];
    }
    assert SavedFor(t.loads, n) == SavedFor(s.loads, n);
    assert Transfers(t.loads, n + 1) == Transfers(s.loads, n) + SavedFor(s.loads, n) + [ReadOf(Page(a, i))];
  }

  /** A frame that was never used has nothing to be saved. */
  lemma EvictTransfers(s: Pager, a: int, i: int)
    requires Inv(s) && TransfersOk(s) && PhaseOf(s, a) == Picked(i)
    ensures TransfersOk(Evict(s, a, i))
  {
    var t := Evict(s, a, i);
    assert a == s.holder;
    if |s.loads| >= POOLSIZE {
      OldestInFrame(s);
    } else {
      OccupiedIffUsed(s, s.frame);
    }
  }

  lemma QuietTransfers(s: Pager, t: Pager)
    requires TransfersOk(s) && t.ios == s.ios && t.loads == s.loads
    requires HolderPhase(t) == HolderPhase(s) || (Idle(HolderPhase(s)) && Idle(HolderPhase(t)))
    requires t.holder == s.holder || Idle(HolderPhase(t))
    ensures TransfersOk(t)
  {
  }

  /** No operation of the fault being served has been issued yet, or all of them are in the history. */
  predicate Idle(f: Phase) {
    !f.Saved? && !f.Loaded?
  }

  /** Steps of the semaphore and of the handler that issue nothing and record nothing. */
  lemma GoTransfers(s: Pager, a: int)
    requires Inv(s) && TransfersOk(s) && Possible(s, Go(a))
    requires var f := PhaseOf(s, a); f.Faulting? || f.Entered? || f.Recorded? || f.Mapped?
    ensures TransfersOk(Advance(s, a))
  {
    if PhaseOf(s, a).Faulting? {
      AcquireLock(s, a, PhaseOf(s, a).i);
    } else if PhaseOf(s, a).Mapped? {
      ReleaseLock(s, a, PhaseOf(s, a).i);
    } else {
      assert a == s.holder;
    }
    QuietTransfers(s, Advance(s, a));
  }

  lemma UserTransfers(s: Pager, e: Event)
    requires Inv(s) && TransfersOk(s) && Possible(s, e) && !e.Go?
    ensures TransfersOk(Step(s, e))
  {
    assert e.a != s.holder;
    QuietTransfers(s, Step(s, e));
  }

  lemma StepTransfers(s: Pager, e: Event)
    requires Inv(s) && TransfersOk(s)
    ensures TransfersOk(Step(s, e))
  {
    if Possible(s, e) {
      if e.Go? && PhaseOf(s, e.a).Picked? {
        EvictTransfers(s, e.a, PhaseOf(s, e.a).i);
      } else if e.Go? && PhaseOf(s, e.a).Evicted? {
        SaveTransfers(s, e.a, PhaseOf(s, e.a).i);
      } else if e.Go? && PhaseOf(s, e.a).Saved? {
        LoadTransfers(s, e.a, PhaseOf(s, e.a).i);
      } else if e.Go? && PhaseOf(s, e.a).Loaded? {
        NoteTransfers(s, e.a, PhaseOf(s, e.a).i);
      } else if e.Go? {
        GoTransfers(s, e.a);
      } else {
        UserTransfers(s, e);
      }
    }
  }

  lemma {:induction false} TransfersAlways(s: Pager, es: seq<Event>)
    requires Inv(s) && TransfersOk(s)
    ensures TransfersOk(Run(s, es))
    decreases |es|
  {
    if es != [] {
      StepKeepsInv(s, es[0]);
      StepTransfers(s, es[0]);
      TransfersAlways(Step(s, es[0]), es[1..]);
    }
  }

  /**
   * In every run and interleaving, the flash operations are exactly: for the n-th page
   * loaded, a write of the page loaded POOLSIZE faults earlier, if there was one, to its
   * own block, then a read of the new page from its own block; and those issued so far for
   * the fault being served.
   */
  lemma TransfersExactly(s0: Pager, es: seq<Event>)
    requires Initial(s0)
    ensures var s := Run(s0, es); s.ios == Transfers(s.loads, |s.loads|) + InFlight(s)
  {
    InitialInv(s0);
    TransfersAlways(s0, es);
  }

  // ---- Reads and writes apart ------------------------------------------------------------------

  /** The pages of the operations in one direction. */
  function Moved(ios: seq<Io>, write: bool): seq<Page> {
    if ios == [] then []
    else
      var rest, io := ios[..|ios| - 1], ios[|ios| - 1];
      if io.write == write then Moved(rest, write) + [io.page] else Moved(rest, write)
  }

  lemma MovedOne(ios: seq<Io>, io: Io, write: bool)
    ensures Moved(ios + [io], write) == if io.write == write then Moved(ios, write) + [io.page] else Moved(ios, write)
  {
    assert (ios + [io])[..|ios|] == ios;
  }

  /** Pages written before the n-th read: all that were loaded POOLSIZE faults before it. */
  function WrittenBy(n: int): nat {
    if n < POOLSIZE then 0 else n - POOLSIZE
  }

  lemma {:induction false} TransfersMoved(loads: seq<Page>, n: nat)
    requires n <= |loads|
    ensures Moved(Transfers(loads, n), false) == loads[..n] && Moved(Transfers(loads, n), true) == loads[..WrittenBy(n)]
  {
    if n > 0 {
      TransfersMoved(loads, n - 1);
      OneMoreMoved(loads, Transfers(loads, n - 1), n - 1);
    }
  }

  lemma OneMoreMoved(loads: seq<Page>, ios: seq<Io>, n: nat)
    requires n < |loads| && Moved(ios, false) == loads[..n] && Moved(ios, true) == loads[..WrittenBy(n)]
    ensures var more := ios + SavedFor(loads, n) + [ReadOf(loads[n])];
            Moved(more, false) == loads[..n + 1] && Moved(more, true) == loads[..WrittenBy(n + 1)]
  {
    var saved := ios + SavedFor(loads, n);
    SavedMoved(loads, ios, n);
    MovedOne(saved, ReadOf(loads[n]), false);
    MovedOne(saved, ReadOf(loads[n]), true);
    assert loads[..n + 1] == loads[..n] + [loads[n]];
  }

  lemma SavedMoved(loads: seq<Page>, ios: seq<Io>, n: nat)
    requires n <= |loads| && Moved(ios, true) == loads[..WrittenBy(n)]
    ensures Moved(ios + SavedFor(loads, n), true) == loads[..WrittenBy(n + 1)]
    ensures Moved(ios + SavedFor(loads, n), false) == Moved(ios, false)
  {
    if n >= POOLSIZE {
      var w := WriteOf(loads[n - POOLSIZE]);
      MovedOne(ios, w, true);
      MovedOne(ios, w, false);
      assert loads[..n - POOLSIZE + 1] == loads[..n - POOLSIZE] + [loads[n - POOLSIZE]];
    } else {
      assert ios + SavedFor(loads, n) == ios;
    }
  }

  /** No operations in flight: every page loaded was read once, in order, and every one that left was written once, in order. */
  lemma ReadsAndWrites(s0: Pager, es: seq<Event>)
    requires Initial(s0)
    ensures var s := Run(s0, es);
            Idle(HolderPhase(s)) ==>
              Moved(s.ios, false) == s.loads && Moved(s.ios, true) == s.loads[..WrittenBy(|s.loads|)]
  {
    var s := Run(s0, es);
    TransfersExactly(s0, es);
    if Idle(HolderPhase(s)) {
      var n := |s.loads|;
      assert s.loads[..n] == s.loads;
      assert s.ios == Transfers(s.loads, n);
      TransfersMoved(s.loads, n);
    }
  }
}
