// Any number of children of one process terminate themselves, in any order, and then the
// parent terminates: exactly when is some child terminated twice? The list that the stores
// of outChild leave is followed by the positions its members had in the original list.
module SiblingRuns {
  import Seqs
  import opened Queues
  import opened Rings
  import opened Trees
  import opened SelfTermination

  /** The table after the processes `ps` have left their parent one after the other. */
  function AfterAll(t: Table, ps: seq<int>): Table {
    if ps == [] then t
    else
      var u, p := AfterAll(t, ps[..|ps| - 1]), ps[|ps| - 1];
      if 0 <= p < |u| then OutChildStores(u, p) else u
  }

  lemma AfterOne(t: Table, ps: seq<int>, p: int)
    ensures var u := AfterAll(t, ps); AfterAll(t, ps + [p]) == if 0 <= p < |u| then OutChildStores(u, p) else u
  {
    assert (ps + [p])[..|ps|] == ps;
  }

  /** `y` occurs in `ps`, and `x` before it. */
  ghost predicate Before(ps: seq<int>, x: int, y: int) {
    exists k :: 0 <= k < |ps| && ps[k] == y && x in ps[..k]
  }

  /** Two neighbours, neither of them the first child, went in the order in which they were created. */
  ghost predicate NeighboursInOrder(ks: seq<int>, ps: seq<int>) {
    exists j :: 1 <= j < |ks| - 1 && Before(ps, ks[j], ks[j + 1])
  }

  lemma BeforeAppend(ps: seq<int>, p: int, x: int, y: int)
    ensures Before(ps + [p], x, y) <==> Before(ps, x, y) || (y == p && x in ps)
  {
    var r := ps + [p];
    if Before(ps, x, y) {
      var k :| 0 <= k < |ps| && ps[k] == y && x in ps[..k];
      assert r[k] == y && r[..k] == ps[..k];
    }
    if y == p && x in ps {
      assert r[|ps|] == y && r[..|ps|] == ps;
    }
    if Before(r, x, y) {
      var k :| 0 <= k < |r| && r[k] == y && x in r[..k];
      assert r[..k] == ps[..k];
    }
  }

  /** One more child: neighbours are newly in order when its predecessor, not the first child, has gone. */
  lemma InOrderAppend(ks: seq<int>, ps: seq<int>, m: nat)
    requires Seqs.NoDup(ks) && m < |ks|
    ensures NeighboursInOrder(ks, ps + [ks[m]]) <==> NeighboursInOrder(ks, ps) || (m >= 2 && ks[m - 1] in ps)
  {
    var p := ks[m];
    forall j | 1 <= j < |ks| - 1
      ensures Before(ps + [p], ks[j], ks[j + 1]) <==> Before(ps, ks[j], ks[j + 1]) || (j + 1 == m && ks[j] in ps)
    {
      BeforeAppend(ps, p, ks[j], ks[j + 1]);
    }
    if m >= 2 && ks[m - 1] in ps {
      assert Before(ps + [p], ks[m - 1], ks[m - 1 + 1]);
    }
  }

  // ---- Where the walk is ---------------------------------------------------------------------

  /** Increasing positions below `n`. */
  ghost predicate Positions(at: seq<int>, n: int) {
    && (forall i :: 0 <= i < |at| ==> 0 <= at[i] < n)
    && (forall i, j :: 0 <= i < j < |at| ==> at[i] < at[j])
  }

  function At(ks: seq<int>, at: seq<int>): (r: seq<int>)
    requires Positions(at, |ks|)
    ensures |r| == |at| && forall i :: 0 <= i < |at| ==> r[i] == ks[at[i]]
  {
    seq(|at|, i requires 0 <= i < |at| => ks[at[i]])
  }

  /**
   * After `ps` have gone, the walk covers the positions `at`: all below `n` whose child
   * has not gone, and the last one before `n` if anything beyond has been lost.
   */
  ghost predicate Covers(ks: seq<int>, ps: seq<int>, n: nat, at: seq<int>) {
    && n <= |ks| && Positions(at, n)
    && (n == 0 <==> ks == [] || ks[0] in ps)
    && (n > 0 ==> at != [] && at[0] == 0)
    && (0 < n < |ks| ==> at != [] && at[|at| - 1] == n - 1 && ks[n - 1] in ps)
    && (forall m :: 0 <= m < n ==> m in at || ks[m] in ps)
  }

  ghost predicate EarlierLink(ks: seq<int>, n: int, m: int, v: int) {
    v == NULL || exists l :: 0 <= n <= l < m && l < |ks| && v == ks[l]
  }

  ghost predicate LaterLink(ks: seq<int>, m: int, v: int) {
    v == NULL || exists l :: 0 <= m < l < |ks| && v == ks[l]
  }

  /** A child that has not gone: on the walk its back link tells of its predecessor, beyond it all links stay beyond. */
  ghost predicate LinksAt(t: Table, q: int, ks: seq<int>, ps: seq<int>, n: nat, m: nat)
    requires m < |ks| && 0 <= ks[m] < |t|
  {
    && t[ks[m]].prnt == q
    && (1 <= m < n ==> (t[ks[m]].prevSib == NULL <==> ks[m - 1] in ps))
    && (n <= m ==> EarlierLink(ks, n, m, t[ks[m]].prevSib) && LaterLink(ks, m, t[ks[m]].nextSib))
  }

  ghost predicate Links(t: Table, q: int, ks: seq<int>, ps: seq<int>, n: nat) {
    InTable(t, ks) && forall m :: 0 <= m < |ks| && ks[m] !in ps ==> LinksAt(t, q, ks, ps, n, m)
  }

  /** Some process on the walk has gone. */
  ghost predicate Lingers(ks: seq<int>, ps: seq<int>, at: seq<int>)
    requires Positions(at, |ks|)
  {
    exists i :: 0 <= i < |at| && ks[at[i]] in ps
  }

  ghost predicate Tally(ks: seq<int>, ps: seq<int>, n: nat, at: seq<int>)
    requires Positions(at, |ks|)
  {
    n > 0 ==> (Lingers(ks, ps, at) <==> NeighboursInOrder(ks, ps))
  }

  ghost predicate Tracked(t: Table, q: int, ks: seq<int>, ps: seq<int>, n: nat, at: seq<int>) {
    && Seqs.NoDup(ks) && q !in ks && Covers(ks, ps, n, at)
    && Walk(t, q, At(ks, at)) && Links(t, q, ks, ps, n) && Tally(ks, ps, n, at)
  }

  lemma TrackedAtFirst(t: Table, q: int, ks: seq<int>)
    requires 0 <= q < |t| && Siblings(t, q, ks) && Seqs.NoDup(ks) && q !in ks
    ensures Tracked(t, q, ks, [], |ks|, Seqs.Count(|ks|))
  {
    assert At(ks, Seqs.Count(|ks|)) == ks;
  }

  // ---- One more child, beyond the walk -----------------------------------------------------

  /** What the stores of outChild do to slot `x` when `p` is not its parent's first child. */
  ghost predicate UnlinkEffect(t: Table, u: Table, p: int, x: int)
    requires 0 <= p < |t| && 0 <= x < |t|
  {
    && |u| == |t| && u[x].child == t[x].child && (x != p ==> u[x].prnt == t[x].prnt)
    && (x != p && x != t[p].prevSib ==> u[x].nextSib == t[x].nextSib)
    && (x != p && x == t[p].prevSib ==> u[x].nextSib == t[p].nextSib)
    && (x != p ==> u[x].prevSib == if x == t[p].nextSib then NULL else t[x].prevSib)
  }

  lemma BeyondAt(t: Table, q: int, ks: seq<int>, ps: seq<int>, n: nat, m: nat, x: int)
    requires InTable(t, ks) && Seqs.NoDup(ks) && n <= m < |ks| && LinksAt(t, q, ks, ps, n, m)
    requires 0 <= q < |t| && t[q].child != ks[m] && 0 <= x < |t|
    ensures UnlinkEffect(t, OutChildStores(t, ks[m]), ks[m], x)
  {
    var p := ks[m];
    UnlinkedChildAt(t, p, x);
  }

  lemma BeyondLinks(t: Table, q: int, ks: seq<int>, ps: seq<int>, n: nat, m: nat, j: nat)
    requires InTable(t, ks) && Seqs.NoDup(ks) && n <= m < |ks| && LinksAt(t, q, ks, ps, n, m)
    requires 0 <= q < |t| && t[q].child != ks[m]
    requires j < |ks| && j != m && LinksAt(t, q, ks, ps, n, j)
    ensures var u := OutChildStores(t, ks[m]); |u| == |t| && LinksAt(u, q, ks, ps + [ks[m]], n, j)
  {
    BeyondAt(t, q, ks, ps, n, m, ks[j]);
    if n <= j && ks[j] == t[ks[m]].prevSib {
      assert j < m;
    }
  }

  lemma BeyondWalk(t: Table, q: int, ks: seq<int>, ps: seq<int>, n: nat, at: seq<int>, m: nat)
    requires Tracked(t, q, ks, ps, n, at) && n <= m < |ks| && ks[m] !in ps
    ensures var u := OutChildStores(t, ks[m]); |u| == |t| && Walk(u, q, At(ks, at)) && t[q].child != ks[m]
  {
    var r := At(ks, at);
    var u := OutChildStores(t, ks[m]);
    assert LinksAt(t, q, ks, ps, n, m) && t[q].child != ks[m];
    BeyondAt(t, q, ks, ps, n, m, q);
    forall i | 0 <= i < |r|
      ensures u[r[i]].nextSib == NextSibling(r, i) && RightOrLost(u[r[i]].prevSib, r, i)
    {
      BeyondAt(t, q, ks, ps, n, m, r[i]);
      assert r[i] != ks[m] && r[i] != t[ks[m]].prevSib;
    }
  }

  lemma BeyondTally(ks: seq<int>, ps: seq<int>, n: nat, at: seq<int>, m: nat)
    requires Seqs.NoDup(ks) && Covers(ks, ps, n, at) && Tally(ks, ps, n, at) && n <= m < |ks|
    ensures Covers(ks, ps + [ks[m]], n, at) && Tally(ks, ps + [ks[m]], n, at)
  {
    InOrderAppend(ks, ps, m);
    if n > 0 {
      assert ks[at[|at| - 1]] in ps;
      assert ks[m] != ks[0];
    }
  }

  lemma BeyondStep(t: Table, q: int, ks: seq<int>, ps: seq<int>, n: nat, at: seq<int>, m: nat)
    requires Tracked(t, q, ks, ps, n, at) && n <= m < |ks| && ks[m] !in ps
    ensures Tracked(OutChildStores(t, ks[m]), q, ks, ps + [ks[m]], n, at)
  {
    var p, u := ks[m], OutChildStores(t, ks[m]);
    BeyondWalk(t, q, ks, ps, n, at, m);
    BeyondTally(ks, ps, n, at, m);
    assert LinksAt(t, q, ks, ps, n, m);
    assert Links(u, q, ks, ps + [p], n) by {
      forall j | 0 <= j < |ks| && ks[j] !in ps + [p]
        ensures LinksAt(u, q, ks, ps + [p], n, j)
      {
        BeyondLinks(t, q, ks, ps, n, m, j);
      }
    }
  }

  // ---- One more child, on the walk ---------------------------------------------------------

  /** The new bound and the new walk after the child at position `at[i]` has gone. */
  function Bound(t: Table, ks: seq<int>, n: nat, at: seq<int>, i: nat): nat
    requires n <= |ks| && Positions(at, n) && i < |at| && InTable(t, ks)
  {
    if i == 0 then 0 else if Stranded(t, At(ks, at), i) then at[i] + 1 else n
  }

  function Shorter(t: Table, ks: seq<int>, n: nat, at: seq<int>, i: nat): seq<int>
    requires n <= |ks| && Positions(at, n) && i < |at| && InTable(t, ks)
  {
    if i == 0 then [] else if Stranded(t, At(ks, at), i) then at[..i + 1] else Cut(at, i)
  }

  lemma AtCut(ks: seq<int>, n: nat, at: seq<int>, i: nat)
    requires n <= |ks| && Positions(at, n) && i < |at|
    ensures Positions(Cut(at, i), n) && At(ks, Cut(at, i)) == Cut(At(ks, at), i)
  {
    var r := Cut(at, i);
    assert forall k :: 0 <= k < |r| ==> r[k] == at[if k < i then k else k + 1];
  }

  lemma AtUpTo(ks: seq<int>, n: nat, at: seq<int>, i: nat)
    requires n <= |ks| && Positions(at, n) && i < |at|
    ensures Positions(at[..i + 1], at[i] + 1) && At(ks, at[..i + 1]) == At(ks, at)[..i + 1]
  {
  }

  lemma ShorterIsLeft(t: Table, ks: seq<int>, n: nat, at: seq<int>, i: nat)
    requires n <= |ks| && Positions(at, n) && i < |at| && InTable(t, ks)
    ensures var at' := Shorter(t, ks, n, at, i);
            Positions(at', Bound(t, ks, n, at, i)) && At(ks, at') == Left(t, At(ks, at), i)
  {
    AtCut(ks, n, at, i);
    AtUpTo(ks, n, at, i);
  }

  /** An uncovered position belongs to a process that has gone. */
  lemma StillCovered(ks: seq<int>, ps: seq<int>, n: nat, at: seq<int>, m: nat) returns (k: nat)
    requires Covers(ks, ps, n, at) && m < n && ks[m] !in ps
    ensures k < |at| && at[k] == m
  {
    k :| 0 <= k < |at| && at[k] == m;
  }

  lemma CoversCut(ks: seq<int>, ps: seq<int>, n: nat, at: seq<int>, i: nat)
    requires Covers(ks, ps, n, at) && Seqs.NoDup(ks) && 0 < i < |at| && ks[at[i]] !in ps
    ensures Covers(ks, ps + [ks[at[i]]], n, Cut(at, i))
  {
    var p, r := ks[at[i]], Cut(at, i);
    assert r[0] == 0 && ks[0] != p;
    assert n < |ks| ==> i < |at| - 1;
    forall m | 0 <= m < n
      ensures m in r || ks[m] in ps + [p]
    {
      if ks[m] !in ps {
        var k := StillCovered(ks, ps, n, at, m);
        if k != i {
          assert r[if k < i then k else k - 1] == m;
        }
      }
    }
  }

  lemma CoversUpTo(ks: seq<int>, ps: seq<int>, n: nat, at: seq<int>, i: nat)
    requires Covers(ks, ps, n, at) && Seqs.NoDup(ks) && 0 < i < |at| && ks[at[i]] !in ps
    ensures Covers(ks, ps + [ks[at[i]]], at[i] + 1, at[..i + 1])
  {
    var p, r := ks[at[i]], at[..i + 1];
    assert r[0] == 0 && r[i] == at[i] && ks[0] != p;
    forall m | 0 <= m <= at[i]
      ensures m in r || ks[m] in ps + [p]
    {
      if ks[m] !in ps {
        var k := StillCovered(ks, ps, n, at, m);
        assert k <= i && r[k] == m;
      }
    }
  }

  lemma OnWalkCovers(t: Table, q: int, ks: seq<int>, ps: seq<int>, n: nat, at: seq<int>, i: nat)
    requires Tracked(t, q, ks, ps, n, at) && i < |at| && ks[at[i]] !in ps
    ensures Covers(ks, ps + [ks[at[i]]], Bound(t, ks, n, at, i), Shorter(t, ks, n, at, i))
  {
    if i > 0 {
      if Stranded(t, At(ks, at), i) {
        CoversUpTo(ks, ps, n, at, i);
      } else {
        CoversCut(ks, ps, n, at, i);
      }
    }
  }

  /** Two neighbours on the walk: all children between them have gone. */
  lemma BetweenGone(ks: seq<int>, ps: seq<int>, n: nat, at: seq<int>, i: nat, m: int)
    requires Covers(ks, ps, n, at) && i + 1 < |at| && at[i] < m < at[i + 1]
    ensures ks[m] in ps
  {
    assert forall k :: 0 <= k < |at| ==> at[k] <= at[i] || at[k] >= at[i + 1];
  }

  /** The child is stranded exactly when its predecessor in the original list has gone. */
  lemma StrandedExactly(t: Table, q: int, ks: seq<int>, ps: seq<int>, n: nat, at: seq<int>, i: nat)
    requires Tracked(t, q, ks, ps, n, at) && i < |at| && ks[at[i]] !in ps
    ensures Stranded(t, At(ks, at), i) <==> at[i] >= 2 && ks[at[i] - 1] in ps
  {
    assert LinksAt(t, q, ks, ps, n, at[i]);
  }

  // ---- The links that are left -------------------------------------------------------------

  /** On the walk, links are to other children on the walk. */
  lemma OnWalkLinks(t: Table, q: int, ks: seq<int>, ps: seq<int>, n: nat, at: seq<int>, i: nat, i': nat)
    requires Tracked(t, q, ks, ps, n, at) && i < |at| && i' < |at|
    ensures var x := ks[at[i']];
            && EarlierLink(ks, 0, at[i'], t[x].prevSib) && LaterLink(ks, at[i'], t[x].nextSib)
            && (i' > i + 1 ==> EarlierLink(ks, at[i] + 1, at[i'], t[x].prevSib))
  {
    var r := At(ks, at);
    assert r[i'] == ks[at[i']];
    assert i' > 0 ==> PrevSibling(r, i') == ks[at[i' - 1]];
    assert i' + 1 < |at| ==> NextSibling(r, i') == ks[at[i' + 1]];
  }

  lemma OffWalk(ks: seq<int>, n: nat, at: seq<int>, j: nat)
    requires n <= j < |ks| && Positions(at, n) && Seqs.NoDup(ks)
    ensures ks[j] !in At(ks, at)
  {
  }

  /** The links of another child. */
  ghost predicate LeaveEffect(t: Table, u: Table, r: seq<int>, i: nat, x: int)
    requires i < |r| && 0 <= x < |t| && 0 <= r[i] < |t|
  {
    && |u| == |t| && u[x].prnt == t[x].prnt
    && u[x].nextSib == (if x == t[r[i]].prevSib then NextSibling(r, i) else t[x].nextSib)
    && u[x].prevSib == (if x == NextSibling(r, i) then NULL else t[x].prevSib)
  }

  lemma LeaveOthers(t: Table, q: int, ks: seq<int>, ps: seq<int>, n: nat, at: seq<int>, i: nat, x: int)
    requires Tracked(t, q, ks, ps, n, at) && i < |at| && ks[at[i]] !in ps && 0 <= x < |t| && x != ks[at[i]]
    ensures LeaveEffect(t, OutChildStores(t, ks[at[i]]), At(ks, at), i, x)
  {
    var r := At(ks, at);
    assert r[i] == ks[at[i]];
    assert LinksAt(t, q, ks, ps, n, at[i]);
    LeavingAt(t, q, r, i, x);
  }

  /** A child beyond the walk stays beyond it, and keeps its links. */
  lemma LinksBeyond(t: Table, q: int, ks: seq<int>, ps: seq<int>, n: nat, at: seq<int>, i: nat, j: nat, n': nat)
    requires Tracked(t, q, ks, ps, n, at) && i < |at| && ks[at[i]] !in ps
    requires n <= j < |ks| && ks[j] !in ps && n' <= n
    ensures var u := OutChildStores(t, ks[at[i]]); |u| == |t| && LinksAt(u, q, ks, ps + [ks[at[i]]], n', j)
  {
    var r := At(ks, at);
    OffWalk(ks, n, at, j);
    assert r[i] == ks[at[i]] && RightOrLost(t[r[i]].prevSib, r, i);
    LeaveOthers(t, q, ks, ps, n, at, i, ks[j]);
    assert LinksAt(t, q, ks, ps, n, j);
  }

  /** The walk is emptied: all its children are beyond it now. */
  lemma LinksEmptied(t: Table, q: int, ks: seq<int>, ps: seq<int>, n: nat, at: seq<int>, k: nat)
    requires Tracked(t, q, ks, ps, n, at) && 0 < k < |at| && ks[at[0]] !in ps && ks[at[k]] !in ps
    ensures var u := OutChildStores(t, ks[at[0]]); |u| == |t| && LinksAt(u, q, ks, ps + [ks[at[0]]], 0, at[k])
  {
    var r := At(ks, at);
    LeaveOthers(t, q, ks, ps, n, at, 0, ks[at[k]]);
    assert RightOrLost(t[r[0]].prevSib, r, 0);
    OnWalkLinks(t, q, ks, ps, n, at, 0, k);
    assert LinksAt(t, q, ks, ps, n, at[k]);
  }

  /** The walk is cut off behind a stranded child. */
  lemma LinksCutOff(t: Table, q: int, ks: seq<int>, ps: seq<int>, n: nat, at: seq<int>, i: nat, k: nat)
    requires Tracked(t, q, ks, ps, n, at) && 0 < i < |at| && k < |at| && k != i
    requires ks[at[i]] !in ps && ks[at[k]] !in ps && Stranded(t, At(ks, at), i)
    ensures var u := OutChildStores(t, ks[at[i]]);
            |u| == |t| && LinksAt(u, q, ks, ps + [ks[at[i]]], at[i] + 1, at[k])
  {
    var r := At(ks, at);
    assert r[i] == ks[at[i]] && r[k] == ks[at[k]];
    LeaveOthers(t, q, ks, ps, n, at, i, ks[at[k]]);
    OnWalkLinks(t, q, ks, ps, n, at, i, k);
    assert LinksAt(t, q, ks, ps, n, at[k]);
    if k < i {
      assert NextSibling(r, i) != r[k];
    } else {
      assert k == i + 1 ==> NextSibling(r, i) == r[k];
    }
  }

  /** The child is taken out: the next one on the walk loses its back link. */
  lemma LinksCut(t: Table, q: int, ks: seq<int>, ps: seq<int>, n: nat, at: seq<int>, i: nat, k: nat)
    requires Tracked(t, q, ks, ps, n, at) && 0 < i < |at| && k < |at| && k != i
    requires ks[at[i]] !in ps && ks[at[k]] !in ps
    ensures var u := OutChildStores(t, ks[at[i]]); |u| == |t| && LinksAt(u, q, ks, ps + [ks[at[i]]], n, at[k])
  {
    var r := At(ks, at);
    assert r[i] == ks[at[i]] && r[k] == ks[at[k]];
    LeaveOthers(t, q, ks, ps, n, at, i, ks[at[k]]);
    assert LinksAt(t, q, ks, ps, n, at[k]);
    assert NextSibling(r, i) == r[k] <==> k == i + 1;
    PredecessorGone(ks, ps, n, at, i, k);
  }

  /** A child has its predecessor in the original list among those gone when it is the next on the walk, or had before. */
  lemma PredecessorGone(ks: seq<int>, ps: seq<int>, n: nat, at: seq<int>, i: nat, k: nat)
    requires Covers(ks, ps, n, at) && Seqs.NoDup(ks) && i < |at| && k < |at| && k != i
    ensures at[k] > 0 ==> (ks[at[k] - 1] in ps + [ks[at[i]]] <==> k == i + 1 || ks[at[k] - 1] in ps)
  {
    if k == i + 1 && at[i] < at[k] - 1 {
      BetweenGone(ks, ps, n, at, i, at[k] - 1);
    }
    if k > i + 1 {
      assert at[i] < at[i + 1] < at[k];
    }
  }

  lemma OnWalkLeft(t: Table, q: int, ks: seq<int>, ps: seq<int>, n: nat, at: seq<int>, i: nat, j: nat)
    requires Tracked(t, q, ks, ps, n, at) && i < |at| && ks[at[i]] !in ps
    requires j < |ks| && ks[j] !in ps && j != at[i]
    ensures var u := OutChildStores(t, ks[at[i]]);
            |u| == |t| && LinksAt(u, q, ks, ps + [ks[at[i]]], Bound(t, ks, n, at, i), j)
  {
    if n <= j {
      LinksBeyond(t, q, ks, ps, n, at, i, j, Bound(t, ks, n, at, i));
    } else {
      var k := StillCovered(ks, ps, n, at, j);
      if i == 0 {
        LinksEmptied(t, q, ks, ps, n, at, k);
      } else if Stranded(t, At(ks, at), i) {
        LinksCutOff(t, q, ks, ps, n, at, i, k);
      } else {
        LinksCut(t, q, ks, ps, n, at, i, k);
      }
    }
  }

  lemma TallyUpTo(ks: seq<int>, ps: seq<int>, at: seq<int>, i: nat)
    requires Seqs.NoDup(ks) && Positions(at, |ks|) && i < |at| && Positions(at[..i + 1], |ks|)
    requires at[i] >= 2 && ks[at[i] - 1] in ps
    ensures Tally(ks, ps + [ks[at[i]]], at[i] + 1, at[..i + 1])
  {
    assert at[..i + 1][i] == at[i];
    InOrderAppend(ks, ps, at[i]);
  }

  lemma TallyCut(ks: seq<int>, ps: seq<int>, n: nat, at: seq<int>, i: nat)
    requires Seqs.NoDup(ks) && Positions(at, |ks|) && i < |at| && Positions(Cut(at, i), |ks|) && ks[at[i]] !in ps
    requires Tally(ks, ps, n, at) && !(at[i] >= 2 && ks[at[i] - 1] in ps)
    ensures Tally(ks, ps + [ks[at[i]]], n, Cut(at, i))
  {
    LingersCut(ks, ps, at, i);
    InOrderAppend(ks, ps, at[i]);
  }

  lemma OnWalkTally(t: Table, q: int, ks: seq<int>, ps: seq<int>, n: nat, at: seq<int>, i: nat)
    requires Tracked(t, q, ks, ps, n, at) && i < |at| && ks[at[i]] !in ps
    requires Positions(Shorter(t, ks, n, at, i), |ks|)
    ensures Tally(ks, ps + [ks[at[i]]], Bound(t, ks, n, at, i), Shorter(t, ks, n, at, i))
  {
    StrandedExactly(t, q, ks, ps, n, at, i);
    if i > 0 {
      if Stranded(t, At(ks, at), i) {
        TallyUpTo(ks, ps, at, i);
      } else {
        TallyCut(ks, ps, n, at, i);
      }
    }
  }

  lemma LingersCut(ks: seq<int>, ps: seq<int>, at: seq<int>, i: nat)
    requires Positions(at, |ks|) && Seqs.NoDup(ks) && i < |at| && ks[at[i]] !in ps && Positions(Cut(at, i), |ks|)
    ensures Lingers(ks, ps + [ks[at[i]]], Cut(at, i)) <==> Lingers(ks, ps, at)
  {
    var r := Cut(at, i);
    assert forall k :: 0 <= k < |r| ==> r[k] == at[if k < i then k else k + 1];
    if Lingers(ks, ps, at) {
      var k :| 0 <= k < |at| && ks[at[k]] in ps;
      assert k != i && r[if k < i then k else k - 1] == at[k];
    }
  }

  lemma OnWalkWalk(t: Table, q: int, ks: seq<int>, ps: seq<int>, n: nat, at: seq<int>, i: nat)
    requires Tracked(t, q, ks, ps, n, at) && i < |at| && ks[at[i]] !in ps
    ensures var u := OutChildStores(t, ks[at[i]]); var at' := Shorter(t, ks, n, at, i);
            |u| == |t| && Positions(at', |ks|) && Walk(u, q, At(ks, at'))
  {
    var r := At(ks, at);
    assert r[i] == ks[at[i]];
    assert LinksAt(t, q, ks, ps, n, at[i]);
    OutChildLeaves(t, q, r, i);
    ShorterIsLeft(t, ks, n, at, i);
  }

  lemma OnWalkAllLinks(t: Table, q: int, ks: seq<int>, ps: seq<int>, n: nat, at: seq<int>, i: nat)
    requires Tracked(t, q, ks, ps, n, at) && i < |at| && ks[at[i]] !in ps
    ensures Links(OutChildStores(t, ks[at[i]]), q, ks, ps + [ks[at[i]]], Bound(t, ks, n, at, i))
  {
    var p, u, n' := ks[at[i]], OutChildStores(t, ks[at[i]]), Bound(t, ks, n, at, i);
    OnWalkWalk(t, q, ks, ps, n, at, i);
    forall j | 0 <= j < |ks| && ks[j] !in ps + [p]
      ensures LinksAt(u, q, ks, ps + [p], n', j)
    {
      OnWalkLeft(t, q, ks, ps, n, at, i, j);
    }
  }

  lemma OnWalkStep(t: Table, q: int, ks: seq<int>, ps: seq<int>, n: nat, at: seq<int>, i: nat)
    requires Tracked(t, q, ks, ps, n, at) && i < |at| && ks[at[i]] !in ps
    ensures Tracked(OutChildStores(t, ks[at[i]]), q, ks, ps + [ks[at[i]]], Bound(t, ks, n, at, i), Shorter(t, ks, n, at, i))
  {
    OnWalkWalk(t, q, ks, ps, n, at, i);
    OnWalkCovers(t, q, ks, ps, n, at, i);
    OnWalkTally(t, q, ks, ps, n, at, i);
    OnWalkAllLinks(t, q, ks, ps, n, at, i);
  }

  // ---- All of them ----------------------------------------------------------------------------

  lemma TrackedNext(t: Table, q: int, ks: seq<int>, ps: seq<int>, n: nat, at: seq<int>, m: nat) returns (n': nat, at': seq<int>)
    requires Tracked(t, q, ks, ps, n, at) && m < |ks| && ks[m] !in ps
    ensures var u := OutChildStores(t, ks[m]); |u| == |t| && Tracked(u, q, ks, ps + [ks[m]], n', at')
  {
    if n <= m {
      BeyondWalk(t, q, ks, ps, n, at, m);
      BeyondStep(t, q, ks, ps, n, at, m);
      n', at' := n, at;
    } else {
      var i := StillCovered(ks, ps, n, at, m);
      OnWalkWalk(t, q, ks, ps, n, at, i);
      OnWalkStep(t, q, ks, ps, n, at, i);
      n', at' := Bound(t, ks, n, at, i), Shorter(t, ks, n, at, i);
    }
  }

  lemma LastIsNew(ps: seq<int>)
    requires Seqs.NoDup(ps) && ps != []
    ensures var earlier, p := ps[..|ps| - 1], ps[|ps| - 1]; p !in earlier && ps == earlier + [p]
  {
  }

  lemma {:induction false} TrackedAlways(t: Table, q: int, ks: seq<int>, ps: seq<int>) returns (n: nat, at: seq<int>)
    requires 0 <= q < |t| && Siblings(t, q, ks) && Seqs.NoDup(ks) && q !in ks
    requires Seqs.NoDup(ps) && forall p :: p in ps ==> p in ks
    ensures |AfterAll(t, ps)| == |t| && Tracked(AfterAll(t, ps), q, ks, ps, n, at)
  {
    if ps == [] {
      n, at := |ks|, Seqs.Count(|ks|);
      TrackedAtFirst(t, q, ks);
    } else {
      var earlier, p := ps[..|ps| - 1], ps[|ps| - 1];
      assert p in ps;
      n, at := TrackedAlways(t, q, ks, earlier);
      var u := AfterAll(t, earlier);
      LastIsNew(ps);
      var m :| 0 <= m < |ks| && ks[m] == p;
      AfterOne(t, earlier, p);
      n, at := TrackedNext(u, q, ks, earlier, n, at, m);
    }
  }

  lemma {:induction false} FewPositions(at: seq<int>, n: nat, i: nat)
    requires Positions(at, n) && i < |at|
    ensures i <= at[i]
  {
    if i > 0 {
      FewPositions(at, n, i - 1);
    }
  }

  /**
   * Children `ps` of one process terminate themselves, in this order. Its termination
   * then terminates one of them again if and only if the first child is not among them
   * and two neighbours went in the order in which they were created.
   */
  lemma TerminatedTwiceExactly(t: Table, q: int, ks: seq<int>, ps: seq<int>)
    requires 0 <= q < |t| && Siblings(t, q, ks) && Seqs.NoDup(ks) && q !in ks
    requires Seqs.NoDup(ps) && forall p :: p in ps ==> p in ks
    ensures var u := AfterAll(t, ps);
            |u| == |t|
            && ((exists p :: p in ps && p in HandedOut(u, q, |ks|)) <==> Head(ks) !in ps && NeighboursInOrder(ks, ps))
  {
    var n, at := TrackedAlways(t, q, ks, ps);
    var u, r := AfterAll(t, ps), At(ks, at);
    if at != [] {
      FewPositions(at, n, |at| - 1);
    }
    WalkIsHandedOut(u, q, r, |ks|);
    if Lingers(ks, ps, at) {
      var i :| 0 <= i < |at| && ks[at[i]] in ps;
      assert r[i] in HandedOut(u, q, |ks|);
    }
    if p :| p in ps && p in r {
      var i :| 0 <= i < |r| && r[i] == p;
      assert ks[at[i]] in ps;
    }
  }
}
