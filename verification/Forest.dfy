// The process forest: who created whom, with each parent's children in creation
// order. `birth` is an auxiliary creation stamp; no operation reads it. Because a
// child is always younger than its parent the forest has no cycle.
module ForestSpec {
  import opened Seqs

  datatype Forest = Forest(parent: map<int, int>, kids: map<int, seq<int>>, birth: map<int, nat>, clock: nat)

  function Kids(f: Forest, p: int): seq<int> {
    if p in f.kids then f.kids[p] else []
  }

  function Birth(f: Forest, p: int): nat {
    if p in f.birth then f.birth[p] else 0
  }

  /** Every process with a parent is in that parent's list and is younger than it. */
  ghost predicate ChildrenListed(f: Forest) {
    forall c :: c in f.parent ==> c in Kids(f, f.parent[c]) && Birth(f, f.parent[c]) < Birth(f, c)
  }

  /** Every listed child has the list's owner as its parent. */
  ghost predicate ListedAreChildren(f: Forest) {
    forall p, c :: c in Kids(f, p) ==> c in f.parent && f.parent[c] == p
  }

  ghost predicate ListedOnce(f: Forest) {
    forall p :: NoDup(Kids(f, p))
  }

  ghost predicate StampsBounded(f: Forest) {
    forall p :: Birth(f, p) <= f.clock
  }

  /** Parent and child links are inverse and acyclic. */
  ghost predicate ForestOk(f: Forest) {
    ChildrenListed(f) && ListedAreChildren(f) && ListedOnce(f) && StampsBounded(f)
  }

  // ---- Operations -----------------------------------------------------------

  /** `c` becomes the last child of `p`, younger than everything before it. */
  function Adopt(f: Forest, p: int, c: int): Forest {
    Forest(f.parent[c := p], f.kids[p := Kids(f, p) + [c]], f.birth[c := f.clock + 1], f.clock + 1)
  }

  /** `p` leaves its parent's list of children, if it is in one. */
  function Detach(f: Forest, p: int): Forest {
    if p in f.parent then
      var q := f.parent[p];
      f.(parent := f.parent - {p}, kids := f.kids[q := Without(Kids(f, q), {p})])
    else f
  }

  /** Every process of `d` leaves the forest; its own list of children is emptied. */
  function Prune(f: Forest, d: set<int>): Forest {
    f.(parent := f.parent - d,
       kids := map p | p in f.kids :: if p in d then [] else Without(f.kids[p], d))
  }

  // ---- Subtrees -------------------------------------------------------------

  /** `x` is `r` or descends from it, read off the parent links. */
  ghost predicate Under(f: Forest, r: int, x: int)
    requires ForestOk(f)
    decreases Birth(f, x)
  {
    x == r || (x in f.parent && Under(f, r, f.parent[x]))
  }

  /** The subtree of `p`, children before parents, siblings in order. */
  ghost function PostOrder(f: Forest, p: int): (r: seq<int>)
    requires ForestOk(f)
    decreases f.clock - Birth(f, p), 1, 0
  {
    PostOrderAll(f, Kids(f, p), p) + [p]
  }

  ghost function PostOrderAll(f: Forest, cs: seq<int>, p: int): (r: seq<int>)
    requires ForestOk(f)
    requires forall c :: c in cs ==> c in f.parent && f.parent[c] == p
    decreases f.clock - Birth(f, p), 0, |cs|
  {
    if cs == [] then []
    else
      var c := cs[0];
      assert c in cs;
      assert forall x :: x in cs[1..] ==> x in cs;
      PostOrder(f, c) + PostOrderAll(f, cs[1..], p)
  }

  lemma {:induction false} UnderIsYounger(f: Forest, r: int, x: int)
    requires ForestOk(f) && Under(f, r, x)
    ensures x == r || Birth(f, r) < Birth(f, x)
    decreases Birth(f, x)
  {
    if x != r {
      UnderIsYounger(f, r, f.parent[x]);
    }
  }

  lemma {:induction false} UnderTransitive(f: Forest, a: int, b: int, x: int)
    requires ForestOk(f) && Under(f, a, b) && Under(f, b, x)
    ensures Under(f, a, x)
    decreases Birth(f, x)
  {
    if x != b {
      UnderTransitive(f, a, b, f.parent[x]);
    }
  }

  /** Two ancestors of one process lie on one line. */
  lemma {:induction false} UnderComparable(f: Forest, a: int, b: int, x: int)
    requires ForestOk(f) && Under(f, a, x) && Under(f, b, x)
    ensures Under(f, a, b) || Under(f, b, a)
    decreases Birth(f, x)
  {
    if x != a && x != b {
      UnderComparable(f, a, b, f.parent[x]);
    }
  }

  lemma {:induction false} SiblingSubtreesDisjoint(f: Forest, a: int, b: int, x: int)
    requires ForestOk(f) && a in f.parent && b in f.parent && f.parent[a] == f.parent[b] && a != b
    requires Under(f, a, x)
    ensures !Under(f, b, x)
  {
    if Under(f, b, x) {
      UnderComparable(f, a, b, x);
      if Under(f, a, b) {
        UnderIsYounger(f, a, f.parent[b]);
      } else {
        UnderIsYounger(f, b, f.parent[a]);
      }
      assert false;
    }
  }

  /** A proper descendant descends from one of the children. */
  lemma {:induction false} UnderViaChild(f: Forest, p: int, x: int) returns (c: int)
    requires ForestOk(f) && Under(f, p, x) && x != p
    ensures c in Kids(f, p) && Under(f, c, x)
    decreases Birth(f, x)
  {
    if f.parent[x] == p {
      c := x;
    } else {
      c := UnderViaChild(f, p, f.parent[x]);
    }
  }

  /** The post-order lists exactly the processes that descend from `p`. */
  lemma {:induction false} PostOrderIsSubtree(f: Forest, p: int, x: int)
    requires ForestOk(f)
    ensures x in PostOrder(f, p) <==> Under(f, p, x)
    decreases f.clock - Birth(f, p), 1, 0
  {
    PostOrderAllIsSubtrees(f, Kids(f, p), p, x);
    if Under(f, p, x) && x != p {
      var c := UnderViaChild(f, p, x);
    }
    if c :| c in Kids(f, p) && Under(f, c, x) {
      assert Under(f, p, p);
      assert Under(f, p, c);
      UnderTransitive(f, p, c, x);
    }
  }

  lemma {:induction false} PostOrderAllIsSubtrees(f: Forest, cs: seq<int>, p: int, x: int)
    requires ForestOk(f)
    requires forall c :: c in cs ==> c in f.parent && f.parent[c] == p
    ensures x in PostOrderAll(f, cs, p) <==> exists c :: c in cs && Under(f, c, x)
    decreases f.clock - Birth(f, p), 0, |cs|
  {
    if cs != [] {
      var c := cs[0];
      assert c in cs && cs == [c] + cs[1..];
      PostOrderIsSubtree(f, c, x);
      PostOrderAllIsSubtrees(f, cs[1..], p, x);
    }
  }

  /** ... and lists each of them once. */
  lemma {:induction false} PostOrderNoDup(f: Forest, p: int)
    requires ForestOk(f)
    ensures NoDup(PostOrder(f, p))
    decreases f.clock - Birth(f, p), 1, 0
  {
    PostOrderAllNoDup(f, Kids(f, p), p);
    PostOrderAllIsSubtrees(f, Kids(f, p), p, p);
    forall c | c in Kids(f, p)
      ensures !Under(f, c, p)
    {
      if Under(f, c, p) {
        UnderIsYounger(f, c, p);
        assert false;
      }
    }
  }

  lemma {:induction false} PostOrderAllNoDup(f: Forest, cs: seq<int>, p: int)
    requires ForestOk(f) && NoDup(cs)
    requires forall c :: c in cs ==> c in f.parent && f.parent[c] == p
    ensures NoDup(PostOrderAll(f, cs, p))
    decreases f.clock - Birth(f, p), 0, |cs|
  {
    if cs != [] {
      var c := cs[0];
      assert c in cs && cs == [c] + cs[1..];
      PostOrderNoDup(f, c);
      PostOrderAllNoDup(f, cs[1..], p);
      forall x | x in PostOrder(f, c)
        ensures x !in PostOrderAll(f, cs[1..], p)
      {
        PostOrderIsSubtree(f, c, x);
        PostOrderAllIsSubtrees(f, cs[1..], p, x);
        forall b | b in cs[1..]
          ensures !Under(f, b, x)
        {
          SiblingSubtreesDisjoint(f, c, b, x);
        }
      }
      NoDupConcat(PostOrder(f, c), PostOrderAll(f, cs[1..], p));
    }
  }

  /** Everybody in a post-order but its root comes before its parent. */
  lemma {:induction false} PostOrderBottomUp(f: Forest, p: int, c: int)
    requires ForestOk(f) && c in PostOrder(f, p) && c != p
    ensures c in f.parent && Precedes(PostOrder(f, p), c, f.parent[c])
    decreases f.clock - Birth(f, p), 1, 0
  {
    var below := PostOrderAll(f, Kids(f, p), p);
    assert c in below;
    PostOrderAllBottomUp(f, Kids(f, p), p, c);
    PrecedesIn(below, [p], c, f.parent[c]);
  }

  lemma {:induction false} PostOrderAllBottomUp(f: Forest, cs: seq<int>, p: int, c: int)
    requires ForestOk(f) && (forall x :: x in cs ==> x in f.parent && f.parent[x] == p) && c in PostOrderAll(f, cs, p)
    ensures c in f.parent && (f.parent[c] == p || Precedes(PostOrderAll(f, cs, p), c, f.parent[c]))
    decreases f.clock - Birth(f, p), 0, |cs|
  {
    var d := cs[0];
    assert d in cs && cs == [d] + cs[1..];
    var a, b := PostOrder(f, d), PostOrderAll(f, cs[1..], p);
    if c in a && c != d {
      PostOrderBottomUp(f, d, c);
    } else if c !in a {
      PostOrderAllBottomUp(f, cs[1..], p, c);
    }
    if f.parent[c] != p {
      PrecedesIn(a, b, c, f.parent[c]);
    }
  }

  lemma NoDupConcat(a: seq<int>, b: seq<int>)
    requires NoDup(a) && NoDup(b)
    requires forall x :: x in a ==> x !in b
    ensures NoDup(a + b)
  {
    forall i, j | 0 <= i < j < |a + b|
      ensures (a + b)[i] != (a + b)[j]
    {
      if i < |a| <= j {
        var x := a[i];
        var y := b[j - |a|];
        assert x in a && y in b;
      }
    }
  }

  /** The post-order depends only on the lists of children inside the subtree. */
  lemma {:induction false} PostOrderFrame(f: Forest, g: Forest, p: int)
    requires ForestOk(f) && ForestOk(g)
    requires forall x :: Under(f, p, x) ==> Kids(g, x) == Kids(f, x)
    ensures PostOrder(g, p) == PostOrder(f, p)
    decreases f.clock - Birth(f, p), 1, 0
  {
    assert Under(f, p, p);
    forall c, x | c in Kids(f, p) && Under(f, c, x)
      ensures Kids(g, x) == Kids(f, x)
    {
      assert Under(f, p, c);
      UnderTransitive(f, p, c, x);
    }
    PostOrderAllFrame(f, g, Kids(f, p), p);
  }

  lemma {:induction false} PostOrderAllFrame(f: Forest, g: Forest, cs: seq<int>, p: int)
    requires ForestOk(f) && ForestOk(g)
    requires forall c :: c in cs ==> c in f.parent && f.parent[c] == p
    requires forall c :: c in cs ==> c in g.parent && g.parent[c] == p
    requires forall c, x :: c in cs && Under(f, c, x) ==> Kids(g, x) == Kids(f, x)
    ensures PostOrderAll(g, cs, p) == PostOrderAll(f, cs, p)
    decreases f.clock - Birth(f, p), 0, |cs|
  {
    if cs != [] {
      var c := cs[0];
      assert c in cs && cs == [c] + cs[1..];
      PostOrderFrame(f, g, c);
      PostOrderAllFrame(f, g, cs[1..], p);
    }
  }

  // ---- The operations keep the forest ----------------------------------------

  lemma AdoptKids(f: Forest, p: int, c: int, x: int)
    ensures Kids(Adopt(f, p, c), x) == if x == p then Kids(f, p) + [c] else Kids(f, x)
    ensures Birth(Adopt(f, p, c), x) == if x == c then f.clock + 1 else Birth(f, x)
  {
  }

  lemma AdoptKeepsForest(f: Forest, p: int, c: int)
    requires ForestOk(f) && p != c
    requires c !in f.parent && Kids(f, c) == []
    ensures ForestOk(Adopt(f, p, c))
  {
    var g := Adopt(f, p, c);
    forall d | d in g.parent
      ensures d in Kids(g, g.parent[d]) && Birth(g, g.parent[d]) < Birth(g, d)
    {
      AdoptKids(f, p, c, g.parent[d]);
      if d == c {
        assert Kids(g, p)[|Kids(f, p)|] == c;
      } else {
        assert d in Kids(f, f.parent[d]) && f.parent[d] != c;
      }
    }
    forall q, d | d in Kids(g, q)
      ensures d in g.parent && g.parent[d] == q
    {
      AdoptKids(f, p, c, q);
      assert d == c || d in Kids(f, q);
      if d == c {
        assert d !in Kids(f, q);
      }
    }
    forall q
      ensures NoDup(Kids(g, q)) && Birth(g, q) <= g.clock
    {
      AdoptKids(f, p, c, q);
      assert NoDup(Kids(f, q)) && Birth(f, q) <= f.clock;
      assert c !in Kids(f, p);
    }
  }

  lemma PruneKids(f: Forest, d: set<int>, p: int)
    ensures Kids(Prune(f, d), p) == PrunedKids(f, d, p)
  {
  }

  lemma PruneKeepsForest(f: Forest, d: set<int>)
    requires ForestOk(f)
    requires forall c :: c in f.parent && f.parent[c] in d ==> c in d
    ensures ForestOk(Prune(f, d))
  {
    var g := Prune(f, d);
    forall p
      ensures Kids(g, p) == PrunedKids(f, d, p)
    {
      PruneKids(f, d, p);
    }
    PrunedLinks(f, g, d);
  }

  function PrunedKids(f: Forest, d: set<int>, p: int): seq<int> {
    if p in d then [] else Without(Kids(f, p), d)
  }

  lemma PrunedLinks(f: Forest, g: Forest, d: set<int>)
    requires ForestOk(f)
    requires forall c :: c in f.parent && f.parent[c] in d ==> c in d
    requires g.parent == f.parent - d && g.birth == f.birth && g.clock == f.clock
    requires forall p :: Kids(g, p) == PrunedKids(f, d, p)
    ensures ForestOk(g)
  {
    PrunedChildren(f, g, d);
    PrunedListed(f, g, d);
    PrunedOnce(f, g, d);
    assert StampsBounded(g) by {
      forall p
        ensures Birth(g, p) <= g.clock
      {
        assert Birth(f, p) <= f.clock;
      }
    }
  }

  lemma PrunedListed(f: Forest, g: Forest, d: set<int>)
    requires ListedAreChildren(f) && g.parent == f.parent - d
    requires forall p :: Kids(g, p) == PrunedKids(f, d, p)
    ensures ListedAreChildren(g)
  {
    forall p, c | c in Kids(g, p)
      ensures c in g.parent && g.parent[c] == p
    {
      assert c in PrunedKids(f, d, p);
      assert c in Kids(f, p);
    }
  }

  lemma PrunedChildren(f: Forest, g: Forest, d: set<int>)
    requires ChildrenListed(f) && g.parent == f.parent - d && g.birth == f.birth
    requires forall c :: c in f.parent && f.parent[c] in d ==> c in d
    requires forall p :: Kids(g, p) == PrunedKids(f, d, p)
    ensures ChildrenListed(g)
  {
    forall c | c in g.parent
      ensures c in Kids(g, g.parent[c]) && Birth(g, g.parent[c]) < Birth(g, c)
    {
      assert c in f.parent && g.parent[c] == f.parent[c] && c in Kids(f, f.parent[c]);
      assert Kids(g, g.parent[c]) == PrunedKids(f, d, f.parent[c]);
    }
  }

  lemma PrunedOnce(f: Forest, g: Forest, d: set<int>)
    requires ListedOnce(f)
    requires forall p :: Kids(g, p) == PrunedKids(f, d, p)
    ensures ListedOnce(g)
  {
    forall p
      ensures NoDup(Kids(g, p))
    {
      assert NoDup(Kids(f, p));
      WithoutNoDup(Kids(f, p), d);
      assert Kids(g, p) == PrunedKids(f, d, p);
    }
  }

  lemma DetachKeepsForest(f: Forest, p: int)
    requires ForestOk(f)
    ensures ForestOk(Detach(f, p))
    ensures forall x :: Kids(Detach(f, p), x) == if p in f.parent && x == f.parent[p] then Without(Kids(f, x), {p}) else Kids(f, x)
  {
    var g := Detach(f, p);
    if p in f.parent {
      forall q, c | c in Kids(g, q)
        ensures c in g.parent && g.parent[c] == q
      {
        assert c in Kids(f, q);
      }
      forall q
        ensures NoDup(Kids(g, q)) && Birth(g, q) <= g.clock
      {
        assert NoDup(Kids(f, q)) && Birth(f, q) <= f.clock;
        WithoutNoDup(Kids(f, f.parent[p]), {p});
      }
    }
  }
}
