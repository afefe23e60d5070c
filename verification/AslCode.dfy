// asl.c: the active semaphore list. The pointer structure is a map from semaphore
// addresses to non-empty FIFO queues of blocked processes.
module AslCode {
  import Seqs
  import opened Queues
  import opened Rings
  import opened SemdList
  import PcbCode

  /** A queue is a ring of processes whose p_semAdd is its address. */
  ghost predicate QueueOk(t: Table, queues: map<int, seq<int>>, a: int)
    requires a in queues
  {
    && queues[a] != [] && Ring(t, queues[a])
    && (forall p :: p in queues[a] && 0 <= p < |t| ==> t[p].semAdd == a)
  }

  /** The descriptor in list position `i` points to the tail of its address's queue. */
  ghost predicate DescriptorOk(sd: seq<Semd>, c: seq<int>, queues: map<int, seq<int>>, i: int)
    requires Slots(sd, c) && 0 <= i < |c|
  {
    sd[c[i]].semAdd in queues && sd[c[i]].procQ == Tail(queues[sd[c[i]].semAdd])
  }

  ghost predicate DescriptorsOk(sd: seq<Semd>, c: seq<int>, queues: map<int, seq<int>>)
    requires Slots(sd, c)
  {
    forall i :: 1 <= i < |c| - 1 ==> DescriptorOk(sd, c, queues, i)
  }

  ghost predicate AllListed(sd: seq<Semd>, c: seq<int>, queues: map<int, seq<int>>)
    requires Slots(sd, c)
  {
    forall a :: a in queues ==> Listed(sd, c, a)
  }

  ghost predicate RingsOk(t: Table, queues: map<int, seq<int>>) {
    forall a :: a in queues ==> QueueOk(t, queues, a)
  }

  /** Active descriptors and queues correspond one to one. */
  ghost predicate QueuesIn(sd: seq<Semd>, t: Table, c: seq<int>, queues: map<int, seq<int>>)
    requires Slots(sd, c)
  {
    DescriptorsOk(sd, c, queues) && AllListed(sd, c, queues) && RingsOk(t, queues) && |queues| == |c| - 2
  }

  ghost predicate AslIs(sd: seq<Semd>, t: Table, c: seq<int>, fr: seq<int>, queues: map<int, seq<int>>) {
    Chain(sd, c) && FreeChain(sd, fr) && Partition(sd, c, fr) && QueuesIn(sd, t, c, queues)
  }

  /** Queues other than `a`'s look the same in `u` as in `t`. */
  ghost predicate OthersKept(t: Table, u: Table, queues: map<int, seq<int>>, a: int) {
    && |u| == |t|
    && (forall b, x :: b in queues && b != a && x in queues[b] && 0 <= x < |t| ==>
          u[x].next == t[x].next && u[x].prev == t[x].prev && u[x].semAdd == t[x].semAdd)
  }

  lemma QueueKept(t: Table, u: Table, queues: map<int, seq<int>>, a: int, b: int)
    requires b in queues && b != a && QueueOk(t, queues, b) && OthersKept(t, u, queues, a)
    ensures QueueOk(u, queues, b)
  {
    var q := queues[b];
    forall i | 0 <= i < |q|
      ensures u[q[i]].next == After(q, i) && u[q[i]].prev == Before(q, i)
    {
      var x := q[i];
      assert x in q;
    }
  }

  /** The stores of a queue operation on `q` and `p` leave the other queues alone. */
  lemma TouchedOnly(t: Table, u: Table, queues: map<int, seq<int>>, a: int, p: int)
    requires RingsOk(t, queues)
    requires |u| == |t| && forall b :: b in queues && b != a ==> p !in queues[b]
    requires forall x :: 0 <= x < |t| && x != p && x !in QueueOf(queues, a) ==> u[x] == t[x]
    ensures OthersKept(t, u, queues, a)
  {
    assert forall y :: y in QueueOf(queues, a) && 0 <= y < |t| ==> t[y].semAdd == a;
    forall b, x | b in queues && b != a && x in queues[b] && 0 <= x < |t|
      ensures u[x] == t[x]
    {
      assert QueueOk(t, queues, b);
      assert t[x].semAdd == b;
    }
  }

  /** A new queue for `a` and kept ones for the others. */
  lemma RingsWith(t: Table, u: Table, queues: map<int, seq<int>>, a: int, q: seq<int>)
    requires RingsOk(t, queues) && OthersKept(t, u, queues, a) && QueueOk(u, queues[a := q], a)
    ensures RingsOk(u, queues[a := q])
  {
    var queues' := queues[a := q];
    forall b | b in queues'
      ensures QueueOk(u, queues', b)
    {
      if b != a {
        QueueKept(t, u, queues, a, b);
      }
    }
  }

  lemma RingsWithout(t: Table, u: Table, queues: map<int, seq<int>>, a: int)
    requires RingsOk(t, queues) && OthersKept(t, u, queues, a)
    ensures RingsOk(u, queues - {a})
  {
    forall b | b in queues - {a}
      ensures QueueOk(u, queues - {a}, b)
    {
      QueueKept(t, u, queues, a, b);
    }
  }

  /** An active semaphore's queue changes and stays non-empty. */
  lemma QueueChanged(sd: seq<Semd>, sd': seq<Semd>, t: Table, u: Table, c: seq<int>, fr: seq<int>,
                     queues: map<int, seq<int>>, k: int, a: int, q: seq<int>)
    requires AslIs(sd, t, c, fr, queues) && 1 <= k < |c| - 1 && sd[c[k]].semAdd == a
    requires sd' == sd[c[k] := sd[c[k]].(procQ := Tail(q))]
    requires OthersKept(t, u, queues, a) && QueueOk(u, queues[a := q], a)
    ensures AslIs(sd', u, c, fr, queues[a := q])
  {
    assert c[k] in c && c[0] != c[k] && c[|c| - 1] != c[k];
    assert ChainLinked(sd', c);
    assert Sorted(sd', c);
    FreeFrame(sd, sd', fr);
    ChangedDescriptors(sd, sd', c, queues, k, a, q);
    RingsWith(t, u, queues, a, q);
    assert DescriptorOk(sd, c, queues, k);
    assert queues[a := q].Keys == queues.Keys;
  }

  lemma ChangedDescriptors(sd: seq<Semd>, sd': seq<Semd>, c: seq<int>, queues: map<int, seq<int>>, k: int, a: int, q: seq<int>)
    requires Chain(sd, c) && DescriptorsOk(sd, c, queues) && AllListed(sd, c, queues)
    requires 1 <= k < |c| - 1 && sd[c[k]].semAdd == a && sd' == sd[c[k] := sd[c[k]].(procQ := Tail(q))]
    ensures DescriptorsOk(sd', c, queues[a := q]) && AllListed(sd', c, queues[a := q])
  {
    var queues' := queues[a := q];
    forall i | 1 <= i < |c| - 1
      ensures DescriptorOk(sd', c, queues', i)
    {
      OneDescriptor(sd, c, k, i);
      assert DescriptorOk(sd, c, queues, i);
    }
    forall b | b in queues'
      ensures Listed(sd', c, b)
    {
      if b == a {
        assert sd'[c[k]].semAdd == b;
      } else {
        var i :| 1 <= i < |c| - 1 && sd[c[i]].semAdd == b;
        assert sd'[c[i]].semAdd == b;
      }
    }
  }

  lemma OneDescriptor(sd: seq<Semd>, c: seq<int>, k: int, i: int)
    requires Chain(sd, c) && 1 <= k < |c| - 1 && 1 <= i < |c| - 1
    ensures sd[c[i]].semAdd == sd[c[k]].semAdd <==> i == k
    ensures c[i] == c[k] <==> i == k
  {
    assert i < k ==> sd[c[i]].semAdd < sd[c[k]].semAdd;
    assert i > k ==> sd[c[i]].semAdd > sd[c[k]].semAdd;
  }

  /** A semaphore becomes active with the free descriptor at the head of the free list. */
  lemma QueueAdded(sd: seq<Semd>, sd': seq<Semd>, t: Table, u: Table, c: seq<int>, fr: seq<int>,
                   queues: map<int, seq<int>>, k: int, a: int, q: seq<int>)
    requires AslIs(sd, t, c, fr, queues) && FoundAt(sd, c, a, k) && a != MAXADD && a !in queues && fr != []
    requires !Listed(sd, c, a) && 0 <= c[k] < |sd| && 0 <= fr[0] < |sd|
    requires sd' == sd[fr[0] := Semd(c[k + 1], a, Tail(q))][c[k] := sd[c[k]].(next := fr[0])]
    requires OthersKept(t, u, queues, a) && QueueOk(u, queues[a := q], a)
    ensures AslIs(sd', u, Spliced(c, k, fr[0]), fr[1..], queues[a := q])
  {
    var m := fr[0];
    assert fr == [m] + fr[1..];
    assert m in fr && m !in c && m !in fr[1..] && c[k] in c && c[k + 1] in c;
    AddedStores(sd, sd', c, fr, k, a, Tail(q));
    AddedChain(sd, sd', c, k, m, a);
    AddedFree(sd, sd', c, fr, k);
    AddedDescriptors(sd, sd', c, queues, k, m, a, q);
    RingsWith(t, u, queues, a, q);
    SplicedAt(c, k, m, 0);
    assert |queues[a := q]| == |queues| + 1;
  }

  lemma AddedStores(sd: seq<Semd>, sd': seq<Semd>, c: seq<int>, fr: seq<int>, k: int, a: int, tail: int)
    requires Slots(sd, c) && Seqs.NoDup(c) && fr != [] && 0 <= fr[0] < |sd| && 0 <= k < |c| - 1
    requires forall x :: x in c ==> x !in fr
    requires sd' == sd[fr[0] := Semd(c[k + 1], a, tail)][c[k] := sd[c[k]].(next := fr[0])]
    ensures sd'[fr[0]] == Semd(c[k + 1], a, tail)
    ensures forall i :: 0 <= i < |c| ==> sd'[c[i]] == if i == k then sd[c[i]].(next := fr[0]) else sd[c[i]]
    ensures forall x :: x in fr && x != fr[0] && 0 <= x < |sd| ==> sd'[x] == sd[x]
  {
    var m := fr[0];
    assert m in fr && c[k] in c;
    forall i | 0 <= i < |c|
      ensures sd'[c[i]] == if i == k then sd[c[i]].(next := m) else sd[c[i]]
    {
      var x := c[i];
      assert x in c;
    }
  }

  lemma AddedChain(sd: seq<Semd>, sd': seq<Semd>, c: seq<int>, k: int, m: int, a: int)
    requires Chain(sd, c) && FoundAt(sd, c, a, k) && a != MAXADD && !Listed(sd, c, a)
    requires 0 <= m < |sd| && m !in c && |sd'| == |sd| && sd'[m].next == c[k + 1] && sd'[m].semAdd == a
    requires forall i :: 0 <= i < |c| ==> sd'[c[i]] == if i == k then sd[c[i]].(next := m) else sd[c[i]]
    ensures Inserted(sd, sd', c, k, m, a)
    ensures Chain(sd', Spliced(c, k, m))
    ensures forall b :: Listed(sd', Spliced(c, k, m), b) <==> b == a || Listed(sd, c, b)
  {
    InsertedChain(sd, sd', c, k, m, a);
  }

  lemma AddedFree(sd: seq<Semd>, sd': seq<Semd>, c: seq<int>, fr: seq<int>, k: int)
    requires FreeChain(sd, fr) && Partition(sd, c, fr) && fr != [] && 0 <= k < |c| - 1 && |sd'| == |sd|
    requires forall x :: x in fr && x != fr[0] && 0 <= x < |sd| ==> sd'[x] == sd[x]
    ensures FreeChain(sd', fr[1..]) && Partition(sd', Spliced(c, k, fr[0]), fr[1..])
  {
    var rest := fr[1..];
    assert fr == [fr[0]] + rest;
    forall i | 0 <= i < |rest|
      ensures sd'[rest[i]].next == NextFree(rest, i)
    {
      var x := rest[i];
      assert x == fr[i + 1] && x in fr && x != fr[0];
      assert sd[fr[i + 1]].next == NextFree(fr, i + 1);
    }
    var d := Spliced(c, k, fr[0]);
    assert fr[0] !in rest;
    forall x | x in d
      ensures x !in rest
    {
      var i :| 0 <= i < |d| && d[i] == x;
      SplicedAt(c, k, fr[0], i);
      assert x == fr[0] || x in c;
      assert x in rest ==> x in fr;
    }
  }

  lemma AddedDescriptors(sd: seq<Semd>, sd': seq<Semd>, c: seq<int>, queues: map<int, seq<int>>,
                         k: int, m: int, a: int, q: seq<int>)
    requires ChainLinked(sd, c) && 0 <= k < |c| - 1 && a !in queues
    requires DescriptorsOk(sd, c, queues) && AllListed(sd, c, queues)
    requires 0 <= m < |sd| && Inserted(sd, sd', c, k, m, a) && sd'[m].procQ == Tail(q)
    requires Slots(sd', Spliced(c, k, m))
    requires forall b :: Listed(sd', Spliced(c, k, m), b) <==> b == a || Listed(sd, c, b)
    ensures DescriptorsOk(sd', Spliced(c, k, m), queues[a := q])
    ensures AllListed(sd', Spliced(c, k, m), queues[a := q])
  {
    var d := Spliced(c, k, m);
    var queues' := queues[a := q];
    forall i | 1 <= i < |d| - 1
      ensures DescriptorOk(sd', d, queues', i)
    {
      SplicedAt(c, k, m, i);
      if i != k + 1 {
        assert DescriptorOk(sd, c, queues, if i <= k then i else i - 1);
      }
    }
  }

  /** An active semaphore without waiters gives its descriptor back. */
  lemma QueueDropped(sd: seq<Semd>, sd': seq<Semd>, t: Table, u: Table, c: seq<int>, fr: seq<int>,
                     queues: map<int, seq<int>>, k: int, a: int)
    requires AslIs(sd, t, c, fr, queues) && 0 <= k < |c| - 2 && sd[c[k + 1]].semAdd == a
    requires OthersKept(t, u, queues, a)
    requires sd' == sd[c[k] := sd[c[k]].(next := c[k + 2])][c[k + 1] := Semd(Head(fr), 0, NULL)]
    ensures AslIs(sd', u, Cut(c, k + 1), [c[k + 1]] + fr, queues - {a})
  {
    var m := c[k + 1];
    assert m in c && c[k] in c;
    forall i | 0 <= i < |c| && i != k + 1
      ensures sd'[c[i]] == if i == k then sd[c[i]].(next := c[k + 2]) else sd[c[i]]
    {
      var x := c[i];
      assert x in c;
    }
    ExcisedChain(sd, sd', c, k);
    DroppedFree(sd, sd', c, fr, k);
    assert DescriptorOk(sd, c, queues, k + 1);
    DroppedDescriptors(sd, sd', c, queues, k, a);
    RingsWithout(t, u, queues, a);
    assert (queues - {a}).Keys == queues.Keys - {a};
  }

  lemma DroppedFree(sd: seq<Semd>, sd': seq<Semd>, c: seq<int>, fr: seq<int>, k: int)
    requires ChainLinked(sd, c) && FreeChain(sd, fr) && Partition(sd, c, fr) && 0 <= k < |c| - 2 && |sd'| == |sd|
    requires forall x :: x in fr && 0 <= x < |sd| ==> sd'[x] == sd[x]
    requires sd'[c[k + 1]].next == Head(fr)
    ensures FreeChain(sd', [c[k + 1]] + fr) && Partition(sd', Cut(c, k + 1), [c[k + 1]] + fr)
  {
    var m := c[k + 1];
    var more := [m] + fr;
    assert m in c && m !in fr;
    FreedChain(sd, sd', fr, m);
    forall x | x in Cut(c, k + 1)
      ensures x !in more
    {
      assert x in c && x != m;
    }
  }

  lemma DroppedDescriptors(sd: seq<Semd>, sd': seq<Semd>, c: seq<int>, queues: map<int, seq<int>>, k: int, a: int)
    requires Chain(sd, c) && 0 <= k < |c| - 2 && sd[c[k + 1]].semAdd == a
    requires DescriptorsOk(sd, c, queues) && AllListed(sd, c, queues)
    requires Excised(sd, sd', c, k) && Slots(sd', Cut(c, k + 1))
    requires forall b :: Listed(sd', Cut(c, k + 1), b) <==> b != a && Listed(sd, c, b)
    ensures DescriptorsOk(sd', Cut(c, k + 1), queues - {a})
    ensures AllListed(sd', Cut(c, k + 1), queues - {a})
  {
    var d := Cut(c, k + 1);
    forall i | 1 <= i < |d| - 1
      ensures DescriptorOk(sd', d, queues - {a}, i)
    {
      ExcisedAddress(sd, sd', c, k, i);
      var j := if i <= k then i else i + 1;
      assert Listed(sd', d, sd'[d[i]].semAdd);
      assert DescriptorOk(sd, c, queues, j);
      assert sd'[d[i]].procQ == sd[c[j]].procQ;
    }
  }

  // ---- What queue operations store in the PCB table ---------------------------------

  /** `u` is `t` up to the queue links in `q` and of `p`, and p_semAdd of `p`. */
  ghost predicate SemStores(t: Table, u: Table, q: seq<int>, p: int, a: int) {
    && |u| == |t|
    && (forall x :: 0 <= x < |t| && x != p && x !in q ==> u[x] == t[x])
    && (forall x :: 0 <= x < |t| ==>
          u[x] == t[x].(next := u[x].next, prev := u[x].prev, semAdd := if x == p then a else t[x].semAdd))
  }

  lemma BlockedStores(t: Table, u: Table, queues: map<int, seq<int>>, a: int, p: int)
    requires RingsOk(t, queues) && 0 <= p < |t| && forall b :: b in queues ==> p !in queues[b]
    requires LinksOnly(t[p := t[p].(semAdd := a)], u, Seqs.Elems(QueueOf(queues, a)) + {p})
    requires Ring(u, QueueOf(queues, a) + [p])
    ensures var q := QueueOf(queues, a);
            SemStores(t, u, q, p, a) && OthersKept(t, u, queues, a) && QueueOk(u, queues[a := q + [p]], a)
  {
    var q := QueueOf(queues, a);
    var t1 := t[p := t[p].(semAdd := a)];
    assert SemStores(t, u, q, p, a);
    TouchedOnly(t, u, queues, a, p);
    forall x | x in q + [p] && 0 <= x < |u|
      ensures u[x].semAdd == a
    {
      assert u[x].semAdd == t1[x].semAdd;
      if x != p {
        assert x in q && QueueOk(t, queues, a);
      }
    }
  }

  lemma ReleasedStores(t: Table, u1: Table, u: Table, queues: map<int, seq<int>>, a: int, p: int)
    requires RingsOk(t, queues) && a in queues && p in queues[a] && 0 <= p < |t|
    requires LinksOnly(t, u1, Seqs.Elems(queues[a])) && Ring(u1, Seqs.Without(queues[a], {p}))
    requires u == u1[p := u1[p].(semAdd := 0)]
    ensures var q := queues[a]; var r := Seqs.Without(q, {p});
            && SemStores(t, u, q, p, 0) && OthersKept(t, u, queues, a)
            && (r != [] ==> QueueOk(u, queues[a := r], a))
  {
    var q := queues[a];
    var r := Seqs.Without(q, {p});
    assert QueueOk(t, queues, a);
    assert SemStores(t, u, q, p, 0);
    NotElsewhere(t, queues, a, p);
    TouchedOnly(t, u, queues, a, p);
    RingFrame(u1, u, {}, r);
    forall x | x in r && 0 <= x < |u|
      ensures u[x].semAdd == a
    {
      assert x in q && x != p;
    }
  }

  /** A process is blocked on one semaphore at a time. */
  lemma NotElsewhere(t: Table, queues: map<int, seq<int>>, a: int, p: int)
    requires RingsOk(t, queues) && a in queues && p in queues[a] && 0 <= p < |t|
    ensures t[p].semAdd == a
    ensures forall b :: b in queues && b != a ==> p !in queues[b]
  {
    assert QueueOk(t, queues, a);
    forall b | b in queues && b != a
      ensures p !in queues[b]
    {
      assert QueueOk(t, queues, b);
    }
  }

  /** What findSemInActiveList tells about the map. */
  lemma FoundIsActive(sd: seq<Semd>, t: Table, c: seq<int>, fr: seq<int>, queues: map<int, seq<int>>, a: int, k: int)
    requires AslIs(sd, t, c, fr, queues) && FoundAt(sd, c, a, k) && a != MAXADD
    ensures 0 <= k && k + 1 < |c| && 0 <= c[k] < |sd| && 0 <= c[k + 1] < |sd| && c[k] != c[k + 1]
    ensures sd[c[k]].next == c[k + 1]
    ensures sd[c[k + 1]].semAdd == a <==> a in queues
    ensures a in queues <==> Listed(sd, c, a)
    ensures a in queues ==> k + 1 < |c| - 1 && sd[c[k + 1]].procQ == Tail(queues[a]) && QueueOk(t, queues, a)
  {
    FindDecides(sd, c, a, k);
    if Listed(sd, c, a) {
      assert DescriptorOk(sd, c, queues, k + 1);
    }
  }

  /** The queue found for a process that waits on no active semaphore is not its own. */
  lemma FoundElsewhere(sd: seq<Semd>, t: Table, c: seq<int>, fr: seq<int>, queues: map<int, seq<int>>, k: int)
    requires AslIs(sd, t, c, fr, queues) && 0 <= k < |c| - 1
    ensures 0 <= c[k] < |sd| && 0 <= c[k + 1] < |sd| && sd[c[k]].next == c[k + 1]
    ensures k + 1 < |c| - 1 ==> var b := sd[c[k + 1]].semAdd;
              b in queues && QueueOk(t, queues, b) && sd[c[k + 1]].procQ == Tail(queues[b])
    ensures k + 1 == |c| - 1 ==> sd[c[k + 1]].procQ == NULL && sd[c[k + 1]].semAdd == MAXADD
  {
    if k + 1 < |c| - 1 {
      assert DescriptorOk(sd, c, queues, k + 1);
    }
  }

  lemma FreedChain(sd: seq<Semd>, sd': seq<Semd>, fr: seq<int>, m: int)
    requires FreeChain(sd, fr) && 0 <= m < |sd| && m !in fr
    requires |sd'| == |sd| && sd'[m].next == Head(fr)
    requires forall x :: x in fr && 0 <= x < |sd| ==> sd'[x] == sd[x]
    ensures FreeChain(sd', [m] + fr)
  {
    var more := [m] + fr;
    forall i | 0 <= i < |more|
      ensures 0 <= more[i] < |sd'| && sd'[more[i]].next == NextFree(more, i)
    {
      if i > 0 {
        var x := fr[i - 1];
        assert x in fr;
        assert sd[fr[i - 1]].next == NextFree(fr, i - 1);
      }
    }
  }

  lemma WithoutFirst(q: seq<int>)
    requires Seqs.NoDup(q) && q != []
    ensures Seqs.Without(q, {q[0]}) == q[1..]
  {
    Seqs.WithoutOne(q, 0);
    assert q[..0] + q[1..] == q[1..];
  }

  lemma SentinelIdle(sd: seq<Semd>, t: Table, c: seq<int>, fr: seq<int>, queues: map<int, seq<int>>)
    requires AslIs(sd, t, c, fr, queues)
    ensures MAXADD !in queues
  {
    forall b | b in queues
      ensures b != MAXADD
    {
      assert Listed(sd, c, b);
    }
  }

  /** A process that is not in the queue found for its p_semAdd is in no queue of that address. */
  lemma NotQueued(sd: seq<Semd>, t: Table, c: seq<int>, fr: seq<int>, queues: map<int, seq<int>>, a: int, k: int, p: int)
    requires AslIs(sd, t, c, fr, queues) && FoundAt(sd, c, a, k)
    requires 0 <= c[k + 1] < |sd|
    requires k + 1 < |c| - 1 ==> p !in QueueOf(queues, sd[c[k + 1]].semAdd)
    ensures p !in QueueOf(queues, a)
  {
    if a == MAXADD {
      SentinelIdle(sd, t, c, fr, queues);
    } else {
      FoundIsActive(sd, t, c, fr, queues, a, k);
    }
  }

  /** The free descriptor and the one found for an address are different slots. */
  lemma ApartInList(sd: seq<Semd>, t: Table, c: seq<int>, fr: seq<int>, queues: map<int, seq<int>>, k: int)
    requires AslIs(sd, t, c, fr, queues) && fr != [] && 0 <= k < |c| - 1
    ensures 0 <= fr[0] < |sd| && 0 <= c[k] < |sd| && fr[0] != c[k] && RingsOk(t, queues) && sd[c[k]].next == c[k + 1]
  {
    assert fr[0] in fr && c[k] in c;
  }

  /** The stores that activate a semaphore with one waiter. */
  lemma SemdLinked(sd: seq<Semd>, sd': seq<Semd>, t: Table, u: Table, c: seq<int>, fr: seq<int>,
                   queues: map<int, seq<int>>, k: int, a: int, p: int)
    requires AslIs(sd, t, c, fr, queues) && FoundAt(sd, c, a, k) && a != MAXADD && a !in queues && fr != []
    requires 0 <= fr[0] < |sd| && 0 <= c[k] < |sd|
    requires sd' == sd[fr[0] := Semd(c[k + 1], a, p)][c[k] := sd[c[k]].(next := fr[0])]
    requires OthersKept(t, u, queues, a) && QueueOk(u, queues[a := [p]], a)
    ensures AslIs(sd', u, Spliced(c, k, fr[0]), fr[1..], queues[a := [p]])
  {
    FoundIsActive(sd, t, c, fr, queues, a, k);
    QueueAdded(sd, sd', t, u, c, fr, queues, k, a, [p]);
  }

  // ---- The module -------------------------------------------------------------------------

  class Asl {
    const semds: array<Semd>          // semd_table
    const table: PcbCode.PcbTable
    var semdFree: int                 // semdFree_h
    ghost var chain: seq<int>         // the active list, from sentinel to sentinel
    ghost var freeChain: seq<int>
    ghost var queues: map<int, seq<int>>

    constructor (pcbs: PcbCode.PcbTable)
      ensures fresh(semds) && table == pcbs && semds.Length == pcbs.pcbs.Length + 2
    {
      semds := new Semd[pcbs.pcbs.Length + 2](_ => Semd(NULL, 0, NULL));
      table := pcbs;
      semdFree, chain, freeChain, queues := NULL, [], [], map[];
    }

    ghost predicate Valid()
      reads this, semds, table.pcbs
    {
      semdFree == Head(freeChain) && AslIs(semds[..], table.pcbs[..], chain, freeChain, queues)
    }

    /** No semaphore is active; every descriptor but the sentinels is free. */
    method InitASL()
      requires semds.Length >= 2
      modifies this, semds
      ensures Valid() && queues == map[] && |freeChain| == semds.Length - 2
    {
      semdFree := NULL;
      semds[LOWER] := Semd(UPPER, 0, NULL);
      semds[UPPER] := Semd(NULL, MAXADD, NULL);
      chain, freeChain, queues := [LOWER, UPPER], [], map[];
      for i := 2 to semds.Length
        invariant semdFree == Head(freeChain) && |freeChain| == i - 2
        invariant forall j :: 0 <= j < i - 2 ==> freeChain[j] == i - 1 - j
        invariant FreeChain(semds[..], freeChain)
        invariant semds[LOWER] == Semd(UPPER, 0, NULL) && semds[UPPER] == Semd(NULL, MAXADD, NULL)
        invariant chain == [LOWER, UPPER] && queues == map[]
      {
        ghost var before := semds[..];
        semds[i] := semds[i].(next := semdFree);
        semdFree := i;
        FreedChain(before, semds[..], freeChain, i);
        freeChain := [i] + freeChain;
      }
    }

    /** The last list element whose address is below `a`; the lower sentinel counts as below everything. */
    method FindSemInActiveList(a: int) returns (tmp: int, ghost k: int)
      requires Valid()
      ensures FoundAt(semds[..], chain, a, k) && tmp == chain[k]
      ensures tmp in chain && 0 <= tmp < semds.Length && 0 <= semds[tmp].next < semds.Length
      ensures tmp == LOWER || semds[tmp].semAdd < a
      ensures semds[tmp].next == UPPER || a <= semds[semds[tmp].next].semAdd
    {
      tmp := LOWER;
      k := 0;
      FoundElsewhere(semds[..], table.pcbs[..], chain, freeChain, queues, 0);
      while semds[semds[tmp].next].semAdd < a && semds[semds[tmp].next].semAdd != MAXADD
        invariant 0 <= k < |chain| - 1 && tmp == chain[k] && 0 <= tmp < semds.Length
        invariant 0 <= semds[tmp].next < semds.Length
        invariant k >= 1 ==> semds[tmp].semAdd < a
        decreases |chain| - k
      {
        FoundElsewhere(semds[..], table.pcbs[..], chain, freeChain, queues, k);
        tmp := semds[tmp].next;
        k := k + 1;
        FoundElsewhere(semds[..], table.pcbs[..], chain, freeChain, queues, k);
      }
      FoundElsewhere(semds[..], table.pcbs[..], chain, freeChain, queues, k);
    }

    /** Take a descriptor off the free list; NULL if there is none. */
    method NewSemd() returns (m: int)
      requires Valid()
      modifies this`semdFree, semds
      ensures m == Head(freeChain)
      ensures m == NULL ==> Valid()
      ensures m != NULL ==> semdFree == Head(freeChain[1..]) && 0 <= m < semds.Length
                            && semds[..] == old(semds[..])[m := Semd(NULL, 0, NULL)]
    {
      if semdFree == NULL {
        return NULL;
      }
      m := semdFree;
      assert semds[freeChain[0]].next == NextFree(freeChain, 0);
      semdFree := semds[m].next;
      semds[m] := Semd(NULL, 0, NULL);
    }

    /** Append `p` to the queue of the descriptor in slot `m`, which is for address `a`. */
    method JoinQueue(m: int, a: int, p: int)
      requires 0 <= m < semds.Length && 0 <= p < table.pcbs.Length && semds[m].procQ == Tail(QueueOf(queues, a))
      requires RingsOk(table.pcbs[..], queues) && forall b :: b in queues ==> p !in queues[b]
      modifies semds, table.pcbs
      ensures var q := QueueOf(queues, a); var t := old(table.pcbs[..]); var u := table.pcbs[..];
              && semds[..] == old(semds[..])[m := old(semds[m]).(procQ := Tail(q + [p]))]
              && SemStores(t, u, q, p, a) && OthersKept(t, u, queues, a) && QueueOk(u, queues[a := q + [p]], a)
    {
      ghost var t, q := table.pcbs[..], QueueOf(queues, a);
      assert Ring(t, q) by {
        assert a in queues ==> QueueOk(t, queues, a);
      }
      table.pcbs[p] := table.pcbs[p].(semAdd := a);
      RingFrame(t, table.pcbs[..], {}, q);
      var tail := table.InsertProcQ(semds[m].procQ, p, q);
      semds[m] := semds[m].(procQ := tail);
      BlockedStores(t, table.pcbs[..], queues, a, p);
    }

    /**
     * Block `p` on semaphore `a`, behind its other waiters. TRUE, and no effect, exactly
     * when `a` needs a descriptor and none is free.
     */
    method InsertBlocked(a: int, p: int) returns (full: bool)
      requires Valid() && a != MAXADD && 0 <= p < table.pcbs.Length
      requires forall b :: b in queues ==> p !in queues[b]
      modifies this, semds, table.pcbs
      ensures Valid()
      ensures full <==> old(a !in queues && freeChain == [])
      ensures full ==> queues == old(queues) && table.pcbs[..] == old(table.pcbs[..])
      ensures !full ==> queues == SetQueue(old(queues), a, old(QueueOf(queues, a)) + [p])
      ensures !full ==> SemStores(old(table.pcbs[..]), table.pcbs[..], old(QueueOf(queues, a)), p, a)
    {
      var tmp, k := FindSemInActiveList(a);
      FoundIsActive(semds[..], table.pcbs[..], chain, freeChain, queues, a, k);
      if semds[semds[tmp].next].semAdd == a {
        ghost var t, sd, q := table.pcbs[..], semds[..], QueueOf(queues, a);
        JoinQueue(semds[tmp].next, a, p);
        assert q + [p] != [];
        QueueChanged(sd, semds[..], t, table.pcbs[..], chain, freeChain, queues, k + 1, a, q + [p]);
        queues := queues[a := q + [p]];
        full := false;
      } else {
        assert QueueOf(queues, a) == [] && [] + [p] == [p];
        full := InsertNew(tmp, a, p, k);
      }
    }

    /** Activate semaphore `a`, which belongs behind `tmp` in the list, with `p` as its only waiter. */
    method InsertNew(tmp: int, a: int, p: int, ghost k: int) returns (full: bool)
      requires Valid() && a != MAXADD && a !in queues && 0 <= p < table.pcbs.Length
      requires FoundAt(semds[..], chain, a, k) && tmp == chain[k]
      requires forall b :: b in queues ==> p !in queues[b]
      modifies this, semds, table.pcbs
      ensures Valid()
      ensures full <==> old(freeChain == [])
      ensures full ==> queues == old(queues) && table.pcbs[..] == old(table.pcbs[..])
      ensures !full ==> queues == old(queues)[a := [p]]
      ensures !full ==> SemStores(old(table.pcbs[..]), table.pcbs[..], [], p, a)
    {
      ghost var sd := semds[..];
      var m := NewSemd();
      if m == NULL {
        return true;
      }
      LinkSemd(sd, m, tmp, a, p, k);
      chain, freeChain, queues := Spliced(chain, k, m), freeChain[1..], queues[a := [p]];
      full := false;
    }

    /** Write the descriptor `m` for the new semaphore, and the queue of its only waiter. */
    method LinkSemd(ghost sd: seq<Semd>, m: int, tmp: int, a: int, p: int, ghost k: int)
      requires freeChain != [] && m == freeChain[0] && semdFree == Head(freeChain[1..])
      requires AslIs(sd, table.pcbs[..], chain, freeChain, queues) && semds[..] == sd[m := Semd(NULL, 0, NULL)]
      requires a != MAXADD && a !in queues && 0 <= p < table.pcbs.Length
      requires FoundAt(sd, chain, a, k) && tmp == chain[k]
      requires forall b :: b in queues ==> p !in queues[b]
      modifies semds, table.pcbs
      ensures AslIs(semds[..], table.pcbs[..], Spliced(chain, k, m), freeChain[1..], queues[a := [p]])
      ensures SemStores(old(table.pcbs[..]), table.pcbs[..], [], p, a)
    {
      ghost var t := table.pcbs[..];
      ApartInList(sd, t, chain, freeChain, queues, k);
      WriteSemd(m, tmp, a, p);
      SemdLinked(sd, semds[..], t, table.pcbs[..], chain, freeChain, queues, k, a, p);
    }

    method WriteSemd(m: int, tmp: int, a: int, p: int)
      requires 0 <= m < semds.Length && 0 <= tmp < semds.Length && m != tmp && 0 <= p < table.pcbs.Length
      requires a !in queues && RingsOk(table.pcbs[..], queues) && forall b :: b in queues ==> p !in queues[b]
      modifies semds, table.pcbs
      ensures semds[..] == old(semds[..])[m := Semd(old(semds[tmp].next), a, p)][tmp := old(semds[tmp]).(next := m)]
      ensures var t := old(table.pcbs[..]); var u := table.pcbs[..];
              SemStores(t, u, [], p, a) && OthersKept(t, u, queues, a) && QueueOk(u, queues[a := [p]], a)
    {
      SpliceIn(m, tmp, a);
      assert QueueOf(queues, a) == [] && [] + [p] == [p];
      JoinQueue(m, a, p);
    }

    method SpliceIn(m: int, tmp: int, a: int)
      requires 0 <= m < semds.Length && 0 <= tmp < semds.Length && m != tmp
      modifies semds
      ensures semds[..] == old(semds[..])[m := Semd(old(semds[tmp].next), a, NULL)][tmp := old(semds[tmp]).(next := m)]
    {
      semds[m] := Semd(semds[tmp].next, a, NULL);
      semds[tmp] := semds[tmp].(next := m);
    }

    /** Store the tail of what is left of a queue; an empty one gives its descriptor back. */
    method StoreQueue(tmp: int, tail: int, ghost k: int, ghost a: int, ghost t: Table, ghost u: Table, ghost r: seq<int>)
      requires semdFree == Head(freeChain) && AslIs(semds[..], t, chain, freeChain, queues)
      requires 0 <= k < |chain| - 2 && tmp == chain[k] && 0 <= tmp < semds.Length
      requires 0 <= chain[k + 1] < semds.Length && semds[chain[k + 1]].semAdd == a
      requires tail == Tail(r) && OthersKept(t, u, queues, a)
      requires r != [] ==> QueueOk(u, queues[a := r], a)
      modifies this, semds
      ensures semdFree == Head(freeChain) && AslIs(semds[..], u, chain, freeChain, queues)
      ensures queues == SetQueue(old(queues), a, r)
    {
      ghost var sd := semds[..];
      assert sd[chain[k]].next == chain[k + 1] && chain[k] != chain[k + 1];
      semds[semds[tmp].next] := semds[semds[tmp].next].(procQ := tail);
      if semds[semds[tmp].next].procQ == NULL {
        var active := semds[tmp].next;
        assert sd[chain[k + 1]].next == chain[k + 2];
        semds[tmp] := semds[tmp].(next := semds[active].next);
        semds[active] := Semd(semdFree, 0, NULL);
        semdFree := active;
        QueueDropped(sd, semds[..], t, u, chain, freeChain, queues, k, a);
        chain, freeChain, queues := Cut(chain, k + 1), [active] + freeChain, queues - {a};
      } else {
        QueueChanged(sd, semds[..], t, u, chain, freeChain, queues, k + 1, a, r);
        queues := queues[a := r];
      }
    }

    /** Take the longest waiting process off semaphore `a`; NULL if none is blocked on it. */
    method RemoveBlocked(a: int) returns (p: int)
      requires Valid() && a != MAXADD
      modifies this, semds, table.pcbs
      ensures Valid() && p == Head(old(QueueOf(queues, a)))
      ensures p == NULL ==> queues == old(queues) && table.pcbs[..] == old(table.pcbs[..])
      ensures p != NULL ==> queues == SetQueue(old(queues), a, old(QueueOf(queues, a))[1..])
      ensures p != NULL ==> SemStores(old(table.pcbs[..]), table.pcbs[..], old(QueueOf(queues, a)), p, 0)
    {
      ghost var t, q := table.pcbs[..], QueueOf(queues, a);
      var tmp, k := FindSemInActiveList(a);
      FoundIsActive(semds[..], t, chain, freeChain, queues, a, k);
      if semds[semds[tmp].next].semAdd != a {
        return NULL;
      }
      var tail;
      tail, p := table.RemoveProcQ(semds[semds[tmp].next].procQ, q);
      WithoutFirst(q);
      ghost var u := table.pcbs[..][p := table.pcbs[p].(semAdd := 0)];
      ReleasedStores(t, table.pcbs[..], u, queues, a, p);
      StoreQueue(tmp, tail, k, a, t, u, q[1..]);
      table.pcbs[p] := table.pcbs[p].(semAdd := 0);
    }

    /** Take `p` off the semaphore it is blocked on, wherever it is in the queue; NULL if it is on none. */
    method OutBlocked(p: int) returns (r: int)
      requires Valid() && 0 <= p < table.pcbs.Length
      modifies this, semds, table.pcbs
      ensures Valid()
      ensures r == if old(p in QueueOf(queues, table.pcbs[p].semAdd)) then p else NULL
      ensures r == NULL ==> queues == old(queues) && table.pcbs[..] == old(table.pcbs[..])
      ensures var a := old(table.pcbs[p].semAdd); var q := old(QueueOf(queues, table.pcbs[p].semAdd));
              r != NULL ==> && queues == SetQueue(old(queues), a, Seqs.Without(q, {p}))
                            && SemStores(old(table.pcbs[..]), table.pcbs[..], q, p, 0)
    {
      ghost var t := table.pcbs[..];
      var a := table.pcbs[p].semAdd;
      var tmp, k := FindSemInActiveList(a);
      FoundElsewhere(semds[..], t, chain, freeChain, queues, k);
      var active := semds[tmp].next;
      ghost var b := semds[active].semAdd;
      ghost var q := QueueOf(queues, b);
      var tail;
      tail, r := table.OutProcQ(semds[active].procQ, p, if k + 1 < |chain| - 1 then q else []);
      if r == NULL {
        NotQueued(semds[..], t, chain, freeChain, queues, a, k, p);
        return NULL;
      }
      NotElsewhere(t, queues, b, p);
      ghost var u := table.pcbs[..][p := table.pcbs[p].(semAdd := 0)];
      ReleasedStores(t, table.pcbs[..], u, queues, a, p);
      StoreQueue(tmp, tail, k, a, t, u, Seqs.Without(q, {p}));
      table.pcbs[p] := table.pcbs[p].(semAdd := 0);
    }

    /** The longest waiting process of semaphore `a`. */
    method HeadBlocked(a: int) returns (p: int)
      requires Valid()
      ensures p == Head(QueueOf(queues, a))
    {
      var tmp, k := FindSemInActiveList(a);
      ghost var t := table.pcbs[..];
      FoundElsewhere(semds[..], t, chain, freeChain, queues, k);
      if a == MAXADD {
        SentinelIdle(semds[..], t, chain, freeChain, queues);
      } else {
        FoundIsActive(semds[..], t, chain, freeChain, queues, a, k);
      }
      if semds[semds[tmp].next].procQ == NULL {
        return NULL;
      }
      if semds[semds[tmp].next].semAdd != a {
        return NULL;
      }
      p := table.HeadProcQ(semds[semds[tmp].next].procQ, QueueOf(queues, a));
    }
  }
}
