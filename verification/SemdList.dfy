// The semaphore descriptor table: a sorted list of active descriptors between two
// sentinels, and a list of free ones. Descriptor pointers are slot numbers.
module SemdList {
  import Seqs
  import opened Queues
  import opened Rings

  datatype Semd = Semd(next: int, semAdd: int, procQ: int)

  /** Slots 0 and 1 are the sentinels. */
  const LOWER: int := 0
  const UPPER: int := 1

  ghost predicate Slots(sd: seq<Semd>, c: seq<int>) {
    forall i :: 0 <= i < |c| ==> 0 <= c[i] < |sd|
  }

  /** `c` is the active list from sentinel to sentinel. */
  ghost predicate ChainLinked(sd: seq<Semd>, c: seq<int>) {
    && |c| >= 2 && c[0] == LOWER && c[|c| - 1] == UPPER && Slots(sd, c) && Seqs.NoDup(c)
    && (forall i :: 0 <= i < |c| - 1 ==> sd[c[i]].next == c[i + 1])
    && sd[UPPER].semAdd == MAXADD && sd[LOWER].procQ == NULL && sd[UPPER].procQ == NULL
  }

  /** Addresses increase strictly between the sentinels; none of them is the upper sentinel's. */
  ghost predicate Sorted(sd: seq<Semd>, c: seq<int>)
    requires Slots(sd, c)
  {
    && (forall i, j :: 1 <= i < j < |c| - 1 ==> sd[c[i]].semAdd < sd[c[j]].semAdd)
    && (forall i :: 1 <= i < |c| - 1 ==> sd[c[i]].semAdd != MAXADD)
  }

  ghost predicate Chain(sd: seq<Semd>, c: seq<int>) {
    ChainLinked(sd, c) && Sorted(sd, c)
  }

  function NextFree(fr: seq<int>, i: nat): int {
    if i + 1 < |fr| then fr[i + 1] else NULL
  }

  ghost predicate FreeChain(sd: seq<Semd>, fr: seq<int>) {
    && Slots(sd, fr) && Seqs.NoDup(fr)
    && (forall i :: 0 <= i < |fr| ==> sd[fr[i]].next == NextFree(fr, i))
  }

  /** Every slot is active, a sentinel, or free. */
  ghost predicate Partition(sd: seq<Semd>, c: seq<int>, fr: seq<int>) {
    && (forall x :: x in c ==> x !in fr)
    && |c| + |fr| == |sd|
  }

  /** Some active descriptor is for address `a`. */
  ghost predicate Listed(sd: seq<Semd>, c: seq<int>, a: int)
    requires Slots(sd, c)
  {
    exists i :: 1 <= i < |c| - 1 && sd[c[i]].semAdd == a
  }

  /** Result of findSemInActiveList: the last list position whose address is below `a`. */
  predicate FoundAt(sd: seq<Semd>, c: seq<int>, a: int, k: int) {
    && 0 <= k < |c| - 1
    && (k >= 1 ==> 0 <= c[k] < |sd| && sd[c[k]].semAdd < a)
    && (k + 1 < |c| - 1 ==> 0 <= c[k + 1] < |sd| && a <= sd[c[k + 1]].semAdd)
  }

  /** The search decides whether `a` is active. */
  lemma FindDecides(sd: seq<Semd>, c: seq<int>, a: int, k: int)
    requires Chain(sd, c) && FoundAt(sd, c, a, k) && a != MAXADD
    ensures sd[c[k + 1]].semAdd == a <==> Listed(sd, c, a)
    ensures sd[c[k + 1]].semAdd == a ==> k + 1 < |c| - 1
  {
    if i :| 1 <= i < |c| - 1 && sd[c[i]].semAdd == a {
      assert i > k;
      assert k + 1 < |c| - 1;
      assert i == k + 1 || sd[c[k + 1]].semAdd < sd[c[i]].semAdd;
    }
  }

  // ---- Taking a descriptor into and out of the list -----------------------------------

  function Spliced(c: seq<int>, k: int, m: int): seq<int>
    requires 0 <= k < |c|
  {
    c[..k + 1] + [m] + c[k + 1..]
  }

  lemma SplicedAt(c: seq<int>, k: int, m: int, i: int)
    requires 0 <= k < |c| - 1 && 0 <= i < |c| + 1
    ensures var d := Spliced(c, k, m);
            |d| == |c| + 1 && d[i] == if i <= k then c[i] else if i == k + 1 then m else c[i - 1]
  {
  }

  /** `sd'` has descriptor `m` linked behind position `k` for address `a`. */
  ghost predicate Inserted(sd: seq<Semd>, sd': seq<Semd>, c: seq<int>, k: int, m: int, a: int)
    requires 0 <= k < |c| - 1 && Slots(sd, c) && 0 <= m < |sd|
  {
    && |sd'| == |sd|
    && sd'[m].next == c[k + 1] && sd'[m].semAdd == a
    && (forall i :: 0 <= i < |c| ==>
          sd'[c[i]] == if i == k then sd[c[i]].(next := m) else sd[c[i]])
  }

  lemma InsertedChain(sd: seq<Semd>, sd': seq<Semd>, c: seq<int>, k: int, m: int, a: int)
    requires Chain(sd, c) && FoundAt(sd, c, a, k) && a != MAXADD && !Listed(sd, c, a)
    requires 0 <= m < |sd| && m !in c && Inserted(sd, sd', c, k, m, a)
    ensures Chain(sd', Spliced(c, k, m))
    ensures forall b :: Listed(sd', Spliced(c, k, m), b) <==> b == a || Listed(sd, c, b)
  {
    var d := Spliced(c, k, m);
    InsertedLinks(sd, sd', c, k, m, a);
    InsertedOrder(sd, sd', c, k, m, a);
    forall b
      ensures Listed(sd', d, b) <==> b == a || Listed(sd, c, b)
    {
      SplicedAt(c, k, m, k + 1);
      if i :| 1 <= i < |c| - 1 && sd[c[i]].semAdd == b {
        SplicedAt(c, k, m, if i <= k then i else i + 1);
        assert sd'[d[if i <= k then i else i + 1]].semAdd == b;
      }
      if i :| 1 <= i < |d| - 1 && sd'[d[i]].semAdd == b {
        SplicedAt(c, k, m, i);
        if i != k + 1 {
          assert sd[c[if i <= k then i else i - 1]].semAdd == b;
        }
      }
      if b == a {
        assert sd'[d[k + 1]].semAdd == b;
      }
    }
  }

  lemma InsertedLinks(sd: seq<Semd>, sd': seq<Semd>, c: seq<int>, k: int, m: int, a: int)
    requires ChainLinked(sd, c) && 0 <= k < |c| - 1 && 0 <= m < |sd| && m !in c && Inserted(sd, sd', c, k, m, a)
    ensures ChainLinked(sd', Spliced(c, k, m))
  {
    var d := Spliced(c, k, m);
    forall i | 0 <= i < |d|
      ensures 0 <= d[i] < |sd'|
      ensures i < |d| - 1 ==> sd'[d[i]].next == d[i + 1]
    {
      SplicedAt(c, k, m, i);
      if i < |d| - 1 {
        SplicedAt(c, k, m, i + 1);
      }
    }
    forall i, j | 0 <= i < j < |d|
      ensures d[i] != d[j]
    {
      SplicedAt(c, k, m, i);
      SplicedAt(c, k, m, j);
      assert forall l :: 0 <= l < |c| ==> c[l] in c;
    }
    SplicedAt(c, k, m, 0);
    SplicedAt(c, k, m, |d| - 1);
    assert sd'[c[|c| - 1]] == sd[UPPER];
    assert sd'[c[0]].procQ == NULL;
  }

  /** Address at position `i` of the new list, in terms of the old one. */
  lemma InsertedAddress(sd: seq<Semd>, sd': seq<Semd>, c: seq<int>, k: int, m: int, a: int, i: int)
    requires 0 <= k < |c| - 1 && Slots(sd, c) && 0 <= m < |sd| && Inserted(sd, sd', c, k, m, a) && 0 <= i < |c| + 1
    ensures var d := Spliced(c, k, m);
            |d| == |c| + 1 && 0 <= d[i] < |sd'|
            && sd'[d[i]].semAdd == if i <= k then sd[c[i]].semAdd else if i == k + 1 then a else sd[c[i - 1]].semAdd
  {
    SplicedAt(c, k, m, i);
  }

  lemma InsertedOrder(sd: seq<Semd>, sd': seq<Semd>, c: seq<int>, k: int, m: int, a: int)
    requires ChainLinked(sd, c) && Sorted(sd, c) && FoundAt(sd, c, a, k) && a != MAXADD && !Listed(sd, c, a)
    requires 0 <= m < |sd| && Inserted(sd, sd', c, k, m, a)
    requires Slots(sd', Spliced(c, k, m))
    ensures Sorted(sd', Spliced(c, k, m))
  {
    var d := Spliced(c, k, m);
    if k + 1 < |c| - 1 {
      assert a < sd[c[k + 1]].semAdd;
    }
    forall i | 1 <= i < |d| - 1
      ensures sd'[d[i]].semAdd != MAXADD
    {
      InsertedAddress(sd, sd', c, k, m, a, i);
    }
    forall i, j | 1 <= i < j < |d| - 1
      ensures sd'[d[i]].semAdd < sd'[d[j]].semAdd
    {
      InsertedAddress(sd, sd', c, k, m, a, i);
      InsertedAddress(sd, sd', c, k, m, a, j);
      if i != k + 1 {
        AddressesAround(sd, c, a, k, if i <= k then i else i - 1);
      }
      if j != k + 1 {
        AddressesAround(sd, c, a, k, if j <= k then j else j - 1);
      }
    }
  }

  /** Positions up to `k` are below `a`, later ones above. */
  lemma AddressesAround(sd: seq<Semd>, c: seq<int>, a: int, k: int, i: int)
    requires ChainLinked(sd, c) && Sorted(sd, c) && FoundAt(sd, c, a, k) && !Listed(sd, c, a)
    requires 1 <= i < |c| - 1
    ensures if i <= k then sd[c[i]].semAdd < a else a < sd[c[i]].semAdd
  {
    assert sd[c[i]].semAdd != a;
    if k >= 1 && i < k {
      assert sd[c[i]].semAdd < sd[c[k]].semAdd;
    }
    if i > k + 1 {
      assert sd[c[k + 1]].semAdd < sd[c[i]].semAdd;
    }
  }

  /** `sd'` has the descriptor at position `k + 1` unlinked. */
  ghost predicate Excised(sd: seq<Semd>, sd': seq<Semd>, c: seq<int>, k: int)
    requires 0 <= k < |c| - 2 && Slots(sd, c)
  {
    && |sd'| == |sd|
    && (forall i :: 0 <= i < |c| && i != k + 1 ==>
          sd'[c[i]] == if i == k then sd[c[i]].(next := c[k + 2]) else sd[c[i]])
  }

  lemma ExcisedAddress(sd: seq<Semd>, sd': seq<Semd>, c: seq<int>, k: int, i: int)
    requires ChainLinked(sd, c) && 0 <= k < |c| - 2 && Excised(sd, sd', c, k) && 0 <= i < |c| - 1
    ensures var d := Cut(c, k + 1); var j := if i <= k then i else i + 1;
            |d| == |c| - 1 && d[i] == c[j] && 0 <= d[i] < |sd'| && sd'[d[i]].semAdd == sd[c[j]].semAdd
  {
  }

  lemma ExcisedChain(sd: seq<Semd>, sd': seq<Semd>, c: seq<int>, k: int)
    requires Chain(sd, c) && 0 <= k < |c| - 2 && Excised(sd, sd', c, k)
    ensures Chain(sd', Cut(c, k + 1))
    ensures forall b :: Listed(sd', Cut(c, k + 1), b) <==> b != sd[c[k + 1]].semAdd && Listed(sd, c, b)
  {
    var d := Cut(c, k + 1);
    ExcisedLinks(sd, sd', c, k);
    ExcisedOrder(sd, sd', c, k);
    forall b
      ensures Listed(sd', d, b) <==> b != sd[c[k + 1]].semAdd && Listed(sd, c, b)
    {
      ExcisedListed(sd, sd', c, k, b);
    }
  }

  lemma ExcisedOrder(sd: seq<Semd>, sd': seq<Semd>, c: seq<int>, k: int)
    requires Chain(sd, c) && 0 <= k < |c| - 2 && Excised(sd, sd', c, k) && Slots(sd', Cut(c, k + 1))
    ensures Sorted(sd', Cut(c, k + 1))
  {
    var d := Cut(c, k + 1);
    forall i | 1 <= i < |d| - 1
      ensures sd'[d[i]].semAdd != MAXADD
    {
      ExcisedAddress(sd, sd', c, k, i);
    }
    forall i, j | 1 <= i < j < |d| - 1
      ensures sd'[d[i]].semAdd < sd'[d[j]].semAdd
    {
      ExcisedAddress(sd, sd', c, k, i);
      ExcisedAddress(sd, sd', c, k, j);
    }
  }

  lemma ExcisedListed(sd: seq<Semd>, sd': seq<Semd>, c: seq<int>, k: int, b: int)
    requires Chain(sd, c) && 0 <= k < |c| - 2 && Excised(sd, sd', c, k) && Slots(sd', Cut(c, k + 1))
    ensures Listed(sd', Cut(c, k + 1), b) <==> b != sd[c[k + 1]].semAdd && Listed(sd, c, b)
  {
    var d := Cut(c, k + 1);
    if i :| 1 <= i < |c| - 1 && sd[c[i]].semAdd == b && i != k + 1 {
      ExcisedAddress(sd, sd', c, k, if i <= k then i else i - 1);
    }
    if i :| 1 <= i < |d| - 1 && sd'[d[i]].semAdd == b {
      ExcisedAddress(sd, sd', c, k, i);
      var j := if i <= k then i else i + 1;
      assert sd[c[j]].semAdd == b;
      assert j < k + 1 ==> sd[c[j]].semAdd < sd[c[k + 1]].semAdd;
      assert j > k + 1 ==> sd[c[j]].semAdd > sd[c[k + 1]].semAdd;
    }
  }

  lemma ExcisedLinks(sd: seq<Semd>, sd': seq<Semd>, c: seq<int>, k: int)
    requires ChainLinked(sd, c) && 0 <= k < |c| - 2 && Excised(sd, sd', c, k)
    ensures ChainLinked(sd', Cut(c, k + 1))
  {
    var d := Cut(c, k + 1);
    assert forall i :: 0 <= i < |d| ==> d[i] == if i <= k then c[i] else c[i + 1];
    assert sd'[c[|c| - 1]] == sd[UPPER];
    assert sd'[c[0]].procQ == NULL;
  }

  lemma FreeFrame(sd: seq<Semd>, sd': seq<Semd>, fr: seq<int>)
    requires FreeChain(sd, fr) && |sd'| == |sd|
    requires forall x :: x in fr && 0 <= x < |sd| ==> sd'[x].next == sd[x].next
    ensures FreeChain(sd', fr)
  {
    forall i | 0 <= i < |fr|
      ensures sd'[fr[i]].next == NextFree(fr, i)
    {
      var x := fr[i];
      assert x in fr;
    }
  }
}
