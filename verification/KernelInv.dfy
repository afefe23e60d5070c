// What every kernel entry keeps: each process is in exactly one place, p_semAdd and
// the semaphore queues agree, and the process forest is sound.
module KernelInv {
  import Seqs
  import ForestSpec
  import opened KernelState
  import opened Queues

  ghost predicate Layout(s: State) {
    s.n > 0 && 0 < s.dev && s.dev + 4 * DEVICE_NUM < MAXADD
  }

  /** Free and ready list: members are processes, listed once, in one list, and not blocked. */
  ghost predicate ListsOk(s: State) {
    && Seqs.NoDup(s.free) && Seqs.NoDup(s.ready)
    && (forall p :: p in s.free ==> 0 <= p < s.n && p !in s.ready && p !in s.semAdd)
    && (forall p :: p in s.ready ==> 0 <= p < s.n && p !in s.semAdd)
  }

  /** Active semaphores have waiters, a value, and an address other than NULL and the sentinel's. */
  ghost predicate QueuesFilled(s: State) {
    forall a :: a in s.queues ==> s.queues[a] != [] && Seqs.NoDup(s.queues[a]) && a in s.sem && a != MAXADD && a != 0
  }

  ghost predicate QueuedAreBlocked(s: State) {
    forall a, p :: a in s.queues && p in s.queues[a] ==> p in s.semAdd && s.semAdd[p] == a
  }

  ghost predicate BlockedAreQueued(s: State) {
    forall p :: p in s.semAdd ==> 0 <= p < s.n && s.semAdd[p] in s.queues && p in s.queues[s.semAdd[p]]
  }

  /** A process is in the queue of `a` exactly when its p_semAdd is `a`. */
  ghost predicate QueuesOk(s: State) {
    QueuesFilled(s) && QueuedAreBlocked(s) && BlockedAreQueued(s)
  }

  /** Free PCBs have no relatives; a process number in the forest is in the table. */
  ghost predicate TreeOk(s: State) {
    && ForestSpec.ForestOk(s.forest)
    && (forall p :: p in s.free ==> p !in s.forest.parent && ForestSpec.Kids(s.forest, p) == [])
    && (forall p :: p in s.forest.parent ==> 0 <= p < s.n && 0 <= s.forest.parent[p] < s.n)
  }

  ghost predicate Shape(s: State) {
    Layout(s) && ListsOk(s) && QueuesOk(s) && TreeOk(s) && s.procs + |s.free| == s.n
  }

  /** Process `r` (or NULL) is on the processor, and every other PCB is free, ready or blocked. */
  ghost predicate Placed(s: State, r: int) {
    && (r == NULL || (0 <= r < s.n && r !in s.free && r !in s.ready && r !in s.semAdd))
    && (forall p :: 0 <= p < s.n ==> p in s.free || p in s.ready || p in s.semAdd || p == r)
  }

  ghost predicate ModeOk(s: State) {
    match s.mode
    case Running => s.current != NULL
    case Waiting => s.current == NULL && s.ready == [] && s.procs > 0 && s.soft > 0
    case Halted => s.ready == [] && s.procs == 0
    case Deadlocked => s.ready == [] && s.procs > 0 && s.soft <= 0
    case Faulted => s.current == NULL && s.ready == [] && s.procs > 0
  }

  ghost predicate Inv(s: State) {
    Shape(s) && Placed(s, Runner(s)) && ModeOk(s)
  }

  /** In exactly one of the four places. */
  ghost predicate InOnePlace(s: State, p: int) {
    var places := multiset{p in s.free, p in s.ready, p in s.semAdd, p == Runner(s)};
    places[true] == 1
  }

  lemma EachInOnePlace(s: State, p: int)
    requires Inv(s) && 0 <= p < s.n
    ensures InOnePlace(s, p)
    ensures forall a :: p in Queue(s, a) <==> p in s.semAdd && s.semAdd[p] == a
  {
  }

  lemma QueueMember(s: State, a: int, p: int)
    requires QueuesOk(s)
    ensures p in Queue(s, a) <==> p in s.semAdd && s.semAdd[p] == a
    ensures p in Queue(s, a) ==> 0 <= p < s.n
  {
  }

  // ---- Queue operations keep the shape -----------------------------------------

  lemma EnqueueShape(s: State, p: int)
    requires Shape(s) && Placed(s, p) && p != NULL
    ensures Shape(Enqueue(s, p)) && Placed(Enqueue(s, p), NULL)
  {
    var t := Enqueue(s, p);
    assert forall x :: x in t.ready <==> x in s.ready || x == p;
  }

  lemma SetQueueAt(queues: map<int, seq<int>>, a: int, q: seq<int>, b: int)
    ensures b in SetQueue(queues, a, q) <==> if b == a then q != [] else b in queues
    ensures b in SetQueue(queues, a, q) ==> SetQueue(queues, a, q)[b] == if b == a then q else queues[b]
  {
  }

  /** A queue may be replaced by another duplicate-free list of processes that are in no other place. */
  lemma ReplaceQueue(s: State, t: State, a: int, q: seq<int>, semAdd: map<int, int>)
    requires Layout(s) && QueuesOk(s)
    requires t.n == s.n && t.sem.Keys >= s.sem.Keys && t.queues == SetQueue(s.queues, a, q) && t.semAdd == semAdd
    requires Seqs.NoDup(q) && a in t.sem && a != MAXADD && a != 0
    requires forall p :: p in q ==> 0 <= p < s.n && (p in s.semAdd ==> s.semAdd[p] == a)
    requires forall p :: p in semAdd <==> p in q || (p in s.semAdd && s.semAdd[p] != a)
    requires forall p :: p in semAdd ==> semAdd[p] == if p in q then a else s.semAdd[p]
    ensures QueuesOk(t)
  {
    forall b | b in t.queues
      ensures t.queues[b] != [] && Seqs.NoDup(t.queues[b]) && b in t.sem && b != MAXADD && b != 0
    {
      SetQueueAt(s.queues, a, q, b);
    }
    forall b, p | b in t.queues && p in t.queues[b]
      ensures p in t.semAdd && t.semAdd[p] == b
    {
      SetQueueAt(s.queues, a, q, b);
    }
    forall p | p in t.semAdd
      ensures 0 <= p < t.n && t.semAdd[p] in t.queues && p in t.queues[t.semAdd[p]]
    {
      SetQueueAt(s.queues, a, q, t.semAdd[p]);
    }
  }

  lemma InsertShape(s: State, a: int, p: int)
    requires Shape(s) && Placed(s, p) && p != NULL
    requires a in s.sem && a != MAXADD && a != 0 && !OutOfDescriptors(s, a)
    ensures Shape(InsertBlocked(s, a, p)) && Placed(InsertBlocked(s, a, p), NULL)
  {
    var t := InsertBlocked(s, a, p);
    var q := Queue(s, a) + [p];
    forall x
      ensures x in q <==> x == p || (x in s.semAdd && s.semAdd[x] == a)
      ensures x in q ==> 0 <= x < s.n
    {
      QueueMember(s, a, x);
      assert x in q <==> x in Queue(s, a) || x == p;
    }
    ReplaceQueue(s, t, a, q, t.semAdd);
  }

  // ---- Pigeonhole: a running process can always be blocked --------------------------

  /** As many active semaphores as their oldest waiters, which are all different. */
  ghost function Heads(queues: map<int, seq<int>>): set<int>
    requires forall a :: a in queues ==> queues[a] != []
  {
    set a | a in queues :: queues[a][0]
  }

  lemma {:induction false} HeadsSize(queues: map<int, seq<int>>)
    requires forall a :: a in queues ==> queues[a] != []
    requires forall a, b :: a in queues && b in queues && a != b ==> queues[a][0] != queues[b][0]
    ensures |Heads(queues)| == |queues|
    decreases |queues|
  {
    if queues.Keys != {} {
      var a := Seqs.SomeMember(queues.Keys);
      var rest := queues - {a};
      assert rest.Keys == queues.Keys - {a};
      HeadsSize(rest);
      var h := queues[a][0];
      assert h !in Heads(rest);
      forall x
        ensures x in Heads(queues) <==> x in Heads(rest) + {h}
      {
        if x in Heads(queues) {
          var b :| b in queues && queues[b][0] == x;
          assert b == a || b in rest;
        }
      }
      assert Heads(queues) == Heads(rest) + {h};
    } else {
      assert Heads(queues) == {};
    }
  }

  /** With a process on the processor at least one semaphore descriptor is not in use. */
  lemma DescriptorsSuffice(s: State, r: int, a: int)
    requires Shape(s) && Placed(s, r) && r != NULL
    ensures !OutOfDescriptors(s, a)
  {
    forall a, b | a in s.queues && b in s.queues && a != b
      ensures s.queues[a][0] != s.queues[b][0]
    {
      var p := s.queues[a][0];
      var q := s.queues[b][0];
      assert p in s.queues[a] && q in s.queues[b];
      QueueMember(s, a, p);
      QueueMember(s, b, q);
    }
    HeadsSize(s.queues);
    forall h | h in Heads(s.queues)
      ensures h in Seqs.Below(s.n) && h != r
    {
      var a :| a in s.queues && s.queues[a][0] == h;
      assert h in s.queues[a];
      QueueMember(s, a, h);
    }
    assert Heads(s.queues) < Seqs.Below(s.n) by {
      assert r in Seqs.Below(s.n);
    }
    Seqs.SubsetSize(Heads(s.queues), Seqs.Below(s.n));
  }
}
