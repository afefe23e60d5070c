// nucleousSystemCalls.c, scheduler.c and interrupts.c over the linked structures of
// pcb.c and asl.c. Each entry does to the memory what the specification says about
// the state `s`.
module KernelCode {
  import Seqs
  import opened ForestSpec
  import opened KernelState
  import opened Queues
  import opened KernelInv
  import opened KernelSteps
  import Killing
  import Rings
  import PcbCode
  import AslCode
  import opened KernelMemory

  class Kernel {
    const table: PcbCode.PcbTable
    const asl: AslCode.Asl
    const dev: int              // &deviceSemaphores[0]
    var readyQueue: int         // tail pointer
    var currentProcess: int
    var softBlockedCount: int
    var sem: map<int, int>      // memory words used as semaphores
    var mode: Mode              // how the last kernel entry ended
    ghost var s: State

    ghost predicate Valid()
      reads this, table, table.pcbs, asl, asl.semds
    {
      && asl.table == table && asl.semds.Length == table.pcbs.Length + 2
      && asl.Valid() && asl.queues == s.queues
      && Stored(table.pcbs[..], s)
      && table.pcbFree == Rings.Head(s.free) && table.processCount == s.procs
      && readyQueue == Rings.Tail(s.ready) && currentProcess == s.current && softBlockedCount == s.soft
      && sem == s.sem && dev == s.dev && mode == s.mode
    }

    /** Memory as the loader leaves it. */
    ghost predicate Blank()
      reads this, table, table.pcbs
    {
      && asl.table == table && asl.semds.Length == table.pcbs.Length + 2 && table.processCount == 0
      && (forall x :: 0 <= x < table.pcbs.Length ==> table.pcbs[x] == Rings.Pcb(NULL, NULL, NULL, NULL, NULL, NULL, 0, 0))
      && readyQueue == NULL && currentProcess == NULL && softBlockedCount == 0 && mode == Running
    }

    constructor (n: nat, deviceSemaphores: int, words: map<int, int>)
      ensures Blank() && table.pcbs.Length == n && dev == deviceSemaphores && sem == words
      ensures fresh(table) && fresh(table.pcbs) && fresh(asl) && fresh(asl.semds)
    {
      var pcbs := new PcbCode.PcbTable(n);
      var semaphores := new AslCode.Asl(pcbs);
      table, asl, dev, sem := pcbs, semaphores, deviceSemaphores, words;
      readyQueue, currentProcess, softBlockedCount, mode := NULL, NULL, 0, Running;
      s := Empty(n, deviceSemaphores, words);
    }

    /** initPcbs and initASL. */
    method InitTables()
      requires Blank() && table.pcbs.Length > 0
      modifies this`s, table, table.pcbs, asl, asl.semds
      ensures Valid() && s == Empty(table.pcbs.Length, dev, sem)
    {
      table.InitPcbs();
      asl.InitASL();
      StartEmpty();
    }

    method StartEmpty()
      requires asl.table == table && asl.semds.Length == table.pcbs.Length + 2 && asl.Valid() && asl.queues == map[]
      requires table.pcbs.Length > 0 && Rings.Ring(table.pcbs[..], Seqs.Count(table.pcbs.Length)) && Unrelated(table.pcbs[..])
      requires table.pcbFree == 0 && table.processCount == 0
      requires readyQueue == NULL && currentProcess == NULL && softBlockedCount == 0 && mode == Running
      modifies this`s
      ensures Valid() && s == Empty(table.pcbs.Length, dev, sem)
    {
      s := Empty(table.pcbs.Length, dev, sem);
      EmptyStored(table.pcbs[..], s);
    }

    /** main(): initialise the tables and the clock's semaphore, make the first process, and start it. */
    method Boot()
      requires Blank() && table.pcbs.Length > 0
      modifies this, table, table.pcbs, asl, asl.semds
      ensures Valid() && s == Booted(table.pcbs.Length, dev, old(sem))
    {
      InitKernel();
      EmptyApart(s);
      StartFirst();
    }

    method InitKernel()
      requires Blank() && table.pcbs.Length > 0
      modifies this`s, this`sem, table, table.pcbs, asl, asl.semds
      ensures Valid() && s == ClockCleared(table.pcbs.Length, dev, old(sem))
    {
      InitTables();
      ghost var e := s;
      assert e == Empty(table.pcbs.Length, dev, old(sem));
      var clock := dev + 4 * CLOCK;
      SetWord(clock, 0);
      assert s == KernelState.SetWord(e, clock, 0);
    }

    method StartFirst()
      requires Valid() && Apart(s) && TreeOk(s) && Rings.Head(s.free) == 0
      requires Apart(AllocPcb(s)) && Loose(AllocPcb(s), 0) && Apart(Enqueue(AllocPcb(s), 0))
      modifies this, table, table.pcbs
      ensures Valid() && s == Scheduler(Enqueue(AllocPcb(old(s)), 0))
    {
      var p := Alloc();
      EnqueueReady(p);
      Schedule();
    }

    // ---- Queues of the kernel ---------------------------------------------------------

    /** insertProcQ(&readyQueue, p) */
    method EnqueueReady(p: int)
      requires Valid() && Apart(s) && Loose(s, p)
      modifies this`readyQueue, this`s, table.pcbs
      ensures Valid() && s == Enqueue(old(s), p)
    {
      ghost var t := table.pcbs[..];
      readyQueue := table.InsertProcQ(readyQueue, p, s.ready);
      ReadyStored(t, table.pcbs[..], s, s.ready + [p], Seqs.Elems(s.ready) + {p});
      AslFrame(asl.semds[..], t, table.pcbs[..], asl.chain, asl.freeChain, asl.queues);
      s := Enqueue(s, p);
    }

    /** removeProcQ(&readyQueue) */
    method DequeueReady() returns (p: int)
      requires Valid() && Apart(s)
      modifies this`readyQueue, this`s, table.pcbs
      ensures Valid() && p == Rings.Head(old(s).ready)
      ensures s == if old(s).ready == [] then old(s) else old(s).(ready := old(s).ready[1..])
    {
      ghost var t := table.pcbs[..];
      readyQueue, p := table.RemoveProcQ(readyQueue, s.ready);
      if s.ready != [] {
        ReadyStored(t, table.pcbs[..], s, s.ready[1..], Seqs.Elems(s.ready));
        AslFrame(asl.semds[..], t, table.pcbs[..], asl.chain, asl.freeChain, asl.queues);
        s := s.(ready := s.ready[1..]);
      }
    }

    /** outProcQ(&readyQueue, p) */
    method DropReady(p: int)
      requires Valid() && Apart(s) && p != NULL
      modifies this`readyQueue, this`s, table.pcbs
      ensures Valid() && s == old(s).(ready := Seqs.Without(old(s).ready, {p}))
    {
      ghost var t := table.pcbs[..];
      var r;
      ghost var rest := Seqs.Without(s.ready, {p});
      readyQueue, r := table.OutProcQ(readyQueue, p, s.ready);
      if p in s.ready {
        ghost var u := table.pcbs[..];
        ReadyStored(t, u, s, rest, Seqs.Elems(s.ready));
        AslFrame(asl.semds[..], t, u, asl.chain, asl.freeChain, asl.queues);
        s := s.(ready := rest);
      } else {
        Seqs.WithoutNone(s.ready, {p});
        assert s.(ready := rest) == s;
      }
    }

    method Alloc() returns (p: int)
      requires Valid() && Apart(s) && TreeOk(s)
      modifies this`s, table, table.pcbs
      ensures Valid() && p == Rings.Head(old(s).free) && s == AllocPcb(old(s))
    {
      ghost var t := table.pcbs[..];
      p := table.AllocPcb(s.free);
      if s.free != [] {
        AllocatedStored(t, table.pcbs[..], s);
        AslFrame(asl.semds[..], t, table.pcbs[..], asl.chain, asl.freeChain, asl.queues);
      }
      s := AllocPcb(s);
    }

    method Free(p: int)
      requires Valid() && Apart(s) && Loose(s, p)
      modifies this`s, table, table.pcbs
      ensures Valid() && s == FreePcb(old(s), p)
    {
      ghost var t := table.pcbs[..];
      table.FreePcb(p, s.free);
      FreedStored(t, table.pcbs[..], s, p);
      AslFrame(asl.semds[..], t, table.pcbs[..], asl.chain, asl.freeChain, asl.queues);
      s := FreePcb(s, p);
    }

    /** insertBlocked(a, p) with its result ignored. */
    method Block(a: int, p: int)
      requires Valid() && Apart(s) && Loose(s, p) && a != 0 && a != MAXADD
      modifies this`s, table.pcbs, asl, asl.semds
      ensures Valid() && s == InsertBlocked(old(s), a, p)
    {
      ghost var t := table.pcbs[..];
      FreeDescriptors(asl.semds[..], t, asl.chain, asl.freeChain, asl.queues);
      forall b | b in asl.queues
        ensures p !in asl.queues[b]
      {
        QueueMember(s, b, p);
      }
      var full := asl.InsertBlocked(a, p);
      if !full {
        BlockedStored(t, table.pcbs[..], s, a, p);
      }
      s := InsertBlocked(s, a, p);
    }

    /** removeBlocked(a) */
    method Unblock(a: int) returns (p: int)
      requires Valid() && Apart(s) && a != MAXADD
      modifies this`s, table.pcbs, asl, asl.semds
      ensures Valid() && p == Rings.Head(Queue(old(s), a)) && s == RemoveBlocked(old(s), a)
    {
      ghost var t := table.pcbs[..];
      p := asl.RemoveBlocked(a);
      if Queue(s, a) != [] {
        AslCode.WithoutFirst(Queue(s, a));
        ReleasedStored(t, table.pcbs[..], s, a, p, Queue(s, a)[1..]);
      }
      s := RemoveBlocked(s, a);
    }

    /** outBlocked(p) for a blocked process. */
    method LeaveSemaphore(p: int)
      requires Valid() && Apart(s) && p in s.semAdd
      modifies this`s, table.pcbs, asl, asl.semds
      ensures Valid() && s == OutBlocked(old(s), p)
    {
      ghost var t := table.pcbs[..];
      QueueMember(s, s.semAdd[p], p);
      var r := asl.OutBlocked(p);
      ReleasedStored(t, table.pcbs[..], s, s.semAdd[p], p, Seqs.Without(Queue(s, s.semAdd[p]), {p}));
      s := OutBlocked(s, p);
    }

    method SetResult(p: int, v: int)
      requires Valid() && 0 <= p < table.pcbs.Length
      modifies this`s, table.pcbs
      ensures Valid() && s == KernelState.SetResult(old(s), p, v)
    {
      ghost var t := table.pcbs[..];
      table.pcbs[p] := table.pcbs[p].(v0 := v);
      assert table.pcbs[..] == t[p := t[p].(v0 := v)];
      ResultStored(t, s, p, v);
      AslFrame(asl.semds[..], t, table.pcbs[..], asl.chain, asl.freeChain, asl.queues);
      s := KernelState.SetResult(s, p, v);
    }

    function ReadSem(a: int): (v: int)
      reads this
      ensures sem == s.sem ==> v == Val(s, a)
    {
      if a in sem then sem[a] else 0
    }

    method SetWord(a: int, v: int)
      requires Valid()
      modifies this`s, this`sem
      ensures Valid() && s == KernelState.SetWord(old(s), a, v)
    {
      sem := sem[a := v];
      s := KernelState.SetWord(s, a, v);
    }

    method TakeSem(a: int)
      requires Valid()
      modifies this`s, this`sem
      ensures Valid() && s == Take(old(s), a)
    {
      var v := ReadSem(a);
      WordSteps(s, a, v);
      SetWord(a, v - 1);
    }

    method GiveSem(a: int)
      requires Valid()
      modifies this`s, this`sem
      ensures Valid() && s == Give(old(s), a)
    {
      var v := ReadSem(a);
      WordSteps(s, a, v);
      SetWord(a, v + 1);
    }

    /** Let `p` be the current process, and the entry end in `m`. */
    method Enter(p: int, m: Mode)
      requires Valid()
      modifies this`currentProcess, this`mode, this`s
      ensures Valid() && s == old(s).(current := p, mode := m)
    {
      currentProcess, mode := p, m;
      s := s.(current := p, mode := m);
    }

    method AddSoft(k: int)
      requires Valid()
      modifies this`softBlockedCount, this`s
      ensures Valid() && s == CountSoft(old(s), k)
    {
      softBlockedCount := softBlockedCount + k;
      s := CountSoft(s, k);
    }

    // ---- Scheduler --------------------------------------------------------------------

    method Schedule()
      requires Valid() && Apart(s)
      modifies this, table.pcbs
      ensures Valid() && s == Scheduler(old(s))
    {
      var p := DequeueReady();
      if p != NULL {
        Enter(p, Running);
      } else if table.processCount == 0 {
        Enter(currentProcess, Halted);
      } else if softBlockedCount > 0 {
        Enter(NULL, Waiting);
      } else {
        Enter(currentProcess, Deadlocked);
      }
    }

    // ---- System calls -----------------------------------------------------------------

    /** insertChild(prnt, p) */
    method AdoptChild(prnt: int, p: int)
      requires Valid() && ForestOk(s.forest) && p != prnt && p !in s.forest.parent
      requires 0 <= prnt < table.pcbs.Length && 0 <= p < table.pcbs.Length
      modifies this`s, table.pcbs
      ensures Valid() && s == old(s).(forest := Adopt(old(s).forest, prnt, p))
    {
      ghost var t := table.pcbs[..];
      table.InsertChild(prnt, p, s.forest);
      ForestStored(t, table.pcbs[..], s, Adopt(s.forest, prnt, p));
      AslFrame(asl.semds[..], t, table.pcbs[..], asl.chain, asl.freeChain, asl.queues);
      s := s.(forest := Adopt(s.forest, prnt, p));
    }

    method CreateProcess()
      requires Valid() && Inv(s) && s.mode.Running?
      modifies this, table, table.pcbs
      ensures Valid() && s == KernelState.CreateProcess(old(s))
    {
      if s.free != [] {
        AllocApart(s);
        assert s.free[0] in s.free;
      }
      var p := Alloc();
      if p == NULL {
        SetResult(currentProcess, -1);
      } else {
        EnqueueReady(p);
        AdoptChild(currentProcess, p);
        SetResult(currentProcess, 0);
      }
    }

    /** blockCurrentProcessAt(a), which ignores the result of insertBlocked, and scheduler(). */
    method Sleep(a: int)
      requires Valid() && Apart(s) && Loose(s, s.current) && a != 0 && a != MAXADD && Apart(BlockCurrentAt(s, a))
      modifies this, table.pcbs, asl, asl.semds
      ensures Valid() && s == SleepOn(old(s), a)
    {
      Block(a, currentProcess);
      Enter(NULL, mode);
      Schedule();
    }

    method Passeren(a: int)
      requires Valid() && Inv(s) && s.mode.Running? && a != 0 && a != MAXADD
      modifies this, table.pcbs, asl, asl.semds
      ensures Valid() && s == KernelState.Passeren(old(s), a)
    {
      CanBlock(s, Take(s, a), a);
      TakeSem(a);
      if ReadSem(a) < 0 {
        Sleep(a);
      }
    }

    method Verhogen(a: int)
      requires Valid() && Inv(s) && s.mode.Running? && a != 0 && a != MAXADD
      modifies this, table.pcbs, asl, asl.semds
      ensures Valid() && s == KernelState.Verhogen(old(s), a)
    {
      ScalarsFrame(s, Give(s, a));
      CanWake(Give(s, a), a);
      GiveSem(a);
      var p := Unblock(a);
      if p != NULL {
        EnqueueReady(p);
      }
    }

    /** getSemIndex; `known` is false where it panics. */
    method GetSemIndex(line: int, no: int, recv: bool) returns (i: int, known: bool)
      ensures known <==> INTERTIMEINT <= line <= TERMINT
      ensures line == INTERTIMEINT ==> i == CLOCK
      ensures DISKINT <= line <= TERMINT ==> i == SemIndex(line, no, recv)
      ensures DeviceLine(line, no) ==> LaidOut(line, no, recv, i)
    {
      known := true;
      if line == INTERTIMEINT {
        i := DEVICE_NUM - 1;
      } else if DISKINT <= line < TERMINT {
        i := (line - DISKINT) * 8 + no;
      } else if line == TERMINT {
        i := if recv then (line - DISKINT) * 8 + no else (line - DISKINT + 1) * 8 + no;
      } else {
        i, known := 0, false;
      }
    }

    method WaitForIO(line: int, no: int, recv: bool)
      requires Valid() && Inv(s) && s.mode.Running? && (DeviceLine(line, no) || line == INTERTIMEINT)
      modifies this, table.pcbs, asl, asl.semds
      ensures Valid()
      ensures s == KernelState.WaitForIO(old(s), if line == INTERTIMEINT then CLOCK else SemIndex(line, no, recv))
    {
      var i, known := GetSemIndex(line, no, recv);
      if line != INTERTIMEINT {
        SemIndexRange(line, no, recv);
      }
      WaitOnDevice(i);
    }

    method WaitOnDevice(i: int)
      requires Valid() && Inv(s) && s.mode.Running? && 0 <= i < DEVICE_NUM
      modifies this, table.pcbs, asl, asl.semds
      ensures Valid() && s == KernelState.WaitForIO(old(s), i)
    {
      var a := dev + 4 * i;
      ghost var t := KernelState.CountSoft(Take(s, a), 1);
      CanBlock(s, t, a);
      TakeSem(a);
      AddSoft(1);
      assert s == t && a == DevAddr(old(s), i);
      Sleep(a);
    }

    method WaitForClock()
      requires Valid() && Inv(s) && s.mode.Running?
      modifies this, table.pcbs, asl, asl.semds
      ensures Valid() && s == KernelState.WaitForClock(old(s))
    {
      var a := dev + 4 * CLOCK;
      CanBlock(s, CountSoft(Take(s, a), 1), a);
      TakeSem(a);
      if ReadSem(a) < 0 {
        AddSoft(1);
        Sleep(a);
      }
    }

    // ---- Interrupts ---------------------------------------------------------------------

    method HandlePLTInterrupt()
      requires Valid() && Inv(s) && (s.mode.Running? || s.mode.Waiting?)
      modifies this, table.pcbs
      ensures Valid() && s == SliceInterrupt(old(s))
    {
      if currentProcess != NULL {
        EnqueueShape(s, s.current);
        EnqueueReady(currentProcess);
        Schedule();
      } else {
        Enter(currentProcess, Faulted);
      }
    }

    /** releaseSemAndUpdateStatus */
    method ReleaseSemAndUpdateStatus(i: int, status: int)
      requires Valid() && Inv(s) && (s.mode.Running? || s.mode.Waiting?) && 0 <= i < CLOCK
      modifies this, table.pcbs, asl, asl.semds
      ensures Valid() && s == WakeDevice(old(s), i, status)
    {
      var a := dev + 4 * i;
      ghost var t := KernelState.CountSoft(s, -1);
      ScalarsFrame(s, t);
      AddSoft(-1);
      assert s == t && a == DevAddr(old(s), i);
      WakeIfNeeded(a, status);
    }

    method WakeIfNeeded(a: int, status: int)
      requires Valid() && Shape(s) && a != MAXADD
      modifies this, table.pcbs, asl, asl.semds
      ensures Valid() && s == if Val(old(s), a) <= 0 then WakeOldest(old(s), a, status) else old(s)
    {
      if ReadSem(a) <= 0 {
        Wake(a, status);
      }
    }

    method Wake(a: int, status: int)
      requires Valid() && Shape(s) && a != MAXADD
      modifies this, table.pcbs, asl, asl.semds
      ensures Valid() && s == WakeOldest(old(s), a, status)
    {
      CanWake(s, a);
      var p := Unblock(a);
      if p != NULL {
        ResultApart(s, p, status);
        SetResult(p, status);
        EnqueueReady(p);
        GiveSem(a);
      }
    }

    /** handleIntervalTimerInterrupt */
    method HandleIntervalTimerInterrupt()
      requires Valid() && Inv(s) && (s.mode.Running? || s.mode.Waiting?)
      modifies this, table.pcbs, asl, asl.semds
      ensures Valid() && s == WakeClock(old(s))
    {
      var a := dev + 4 * CLOCK;
      ghost var b := s;
      CanWake(b, a);
      var p := Unblock(a);
      while p != NULL
        invariant Valid() && Shape(b) && Placed(b, Runner(b)) && a == DevAddr(b, CLOCK)
        invariant p == Rings.Head(Queue(b, a)) && s == RemoveBlocked(b, a)
        invariant WakeClock(b) == WakeClock(old(s))
        decreases |Queue(b, a)|
      {
        CanWake(b, a);
        WakeOne(b);
        WakeShape(b, a);
        EnqueueReady(p);
        ScalarsFrame(s, KernelState.CountSoft(s, -1));
        AddSoft(-1);
        b := s;
        CanWake(b, a);
        p := Unblock(a);
      }
      CanWake(b, a);
      WakeNone(b);
      SetWord(a, 0);
    }

    /** After an interrupt: back to the current process, or to the scheduler if there is none. */
    method ResumeOrSchedule()
      requires Valid() && Apart(s)
      modifies this, table.pcbs
      ensures Valid() && s == Resume(old(s))
    {
      if currentProcess == NULL {
        Schedule();
      }
    }

    // ---- Termination --------------------------------------------------------------------

    /** outChild(p) */
    method OutChild(p: int)
      requires Valid() && ForestOk(s.forest) && 0 <= p < table.pcbs.Length && Removable(s.forest, p)
      modifies this`s, table.pcbs
      ensures Valid() && s == old(s).(forest := Detach(old(s).forest, p))
    {
      ghost var t := table.pcbs[..];
      if p in s.forest.parent {
        RemovableIsLast(t, s.forest, p);
      }
      var r := table.OutChild(p, s.forest);
      ForestStored(t, table.pcbs[..], s, Detach(s.forest, p));
      AslFrame(asl.semds[..], t, table.pcbs[..], asl.chain, asl.freeChain, asl.queues);
      s := s.(forest := Detach(s.forest, p));
    }

    /** removeChild(p) for a process with children. */
    method RemoveChild(p: int) returns (c: int)
      requires Valid() && ForestOk(s.forest) && 0 <= p < table.pcbs.Length && Kids(s.forest, p) != []
      modifies this`s, table.pcbs
      ensures Valid() && c == Kids(old(s).forest, p)[0] && s == old(s).(forest := Detach(old(s).forest, c))
    {
      ghost var t := table.pcbs[..];
      FirstKid(t, s.forest, p);
      c := table.RemoveChild(p, s.forest);
      ForestStored(t, table.pcbs[..], s, Detach(s.forest, c));
      AslFrame(asl.semds[..], t, table.pcbs[..], asl.chain, asl.freeChain, asl.queues);
      s := s.(forest := Detach(s.forest, c));
    }

    /** The end of terminate_Process_rec, when `p` has neither parent nor children left. */
    method FreeAlone(p: int)
      requires Valid() && Shape(s) && 0 <= p < s.n && p !in s.free
      requires p !in s.forest.parent && Kids(s.forest, p) == []
      modifies this, table, table.pcbs, asl, asl.semds
      ensures Valid() && s == Kill(old(s), [p])
    {
      UnqueuedApart(s, p);
      var a := table.pcbs[p].semAdd;
      if a != 0 {
        Killing.KillBlocked(s, p);
        GiveSem(a);
        LeaveSemaphore(p);
      } else {
        Killing.KillUnblocked(s, p);
        DropReady(p);
      }
      Free(p);
    }

    /** terminate_Process_rec: the whole subtree of `p` goes; NULL has none. */
    method TerminateRec(p: int)
      requires Valid() && Shape(s)
      requires p != NULL ==> 0 <= p < s.n && p !in s.free && Removable(s.forest, p)
      modifies this, table, table.pcbs, asl, asl.semds
      ensures Valid() && Shape(s)
      ensures s == if p == NULL then old(s) else Kill(old(s), PostOrder(old(s).forest, p))
      decreases s.forest.clock - Birth(s.forest, p), 2
    {
      if p == NULL {
        return;
      }
      KilledSubtreeShape(s, p);
      Killing.KillDetached(s, p);
      DetachShape(s, p);
      OutChild(p);
      TerminateBelow(p);
    }

    /** The loop over the children of `p`, and then `p` itself. */
    method TerminateBelow(p: int)
      requires Valid() && Shape(s) && 0 <= p < s.n && p !in s.free && p !in s.forest.parent
      modifies this, table, table.pcbs, asl, asl.semds
      ensures Valid() && s == Kill(old(s), PostOrder(old(s).forest, p))
      decreases s.forest.clock - Birth(s.forest, p), 1
    {
      ghost var f, goal := s.forest, Kill(s, PostOrder(s.forest, p));
      FirstKid(table.pcbs[..], f, p);
      while table.pcbs[p].child != NULL
        invariant Valid() && Shape(s) && 0 <= p < s.n && p !in s.free && p !in s.forest.parent
        invariant s.forest.clock == f.clock && s.forest.birth == f.birth
        invariant Kill(s, PostOrder(s.forest, p)) == goal
        invariant table.pcbs[p].child != NULL <==> Kids(s.forest, p) != []
        decreases |Kids(s.forest, p)|
      {
        FirstChildGone(s, p);
        TerminateFirstChild(p);
        FirstKid(table.pcbs[..], s.forest, p);
      }
      Killing.LeafOrder(s.forest, p);
      FreeAlone(p);
    }

    method TerminateFirstChild(p: int)
      requires Valid() && Shape(s) && 0 <= p < s.n && p !in s.free && p !in s.forest.parent && Kids(s.forest, p) != []
      modifies this, table, table.pcbs, asl, asl.semds
      ensures Valid() && Shape(s) && s == Kill(old(s), PostOrder(old(s).forest, Kids(old(s).forest, p)[0]))
      decreases s.forest.clock - Birth(s.forest, p), 0
    {
      ghost var b := s;
      FirstKid(table.pcbs[..], s.forest, p);
      ChildLives(b, p);
      var c := RemoveChild(p);
      Killing.KillDetached(b, c);
      DetachShape(b, c);
      TerminateRec(c);
    }

    method TerminateProcess()
      requires Valid() && Inv(s) && s.mode.Running? && Removable(s.forest, s.current)
      modifies this, table, table.pcbs, asl, asl.semds
      ensures Valid() && s == Scheduler(Terminated(old(s)))
    {
      TerminateRec(currentProcess);
      Schedule();
    }

    // ---- Whole runs -----------------------------------------------------------------------

    /** One kernel entry on memory is one step of the machine. */
    method Handle(e: Event)
      requires Valid() && Inv(s) && Handled(s, e)
      modifies this, table, table.pcbs, asl, asl.semds
      ensures Valid() && Inv(s) && s == Step(old(s), e)
    {
      StepKeepsInv(s, e);
      match e
      case Create => CreateProcess();
      case Terminate => TerminateProcess();
      case P(a) => Passeren(a);
      case V(a) => Verhogen(a);
      case IoWait(line, no, recv) => WaitForIO(line, no, recv);
      case ClockWait => WaitForClock();
      case Slice => HandlePLTInterrupt();
      case Tick => TickInterrupt();
      case Device(line, no, recv, status) => DeviceInterrupt(line, no, recv, status);
    }

    method TickInterrupt()
      requires Valid() && Inv(s) && (s.mode.Running? || s.mode.Waiting?)
      modifies this, table.pcbs, asl, asl.semds
      ensures Valid() && s == Resume(WakeClock(old(s)))
    {
      WakeClockShape(s);
      HandleIntervalTimerInterrupt();
      ResumeOrSchedule();
    }

    method DeviceInterrupt(line: int, no: int, recv: bool, status: int)
      requires Valid() && Inv(s) && (s.mode.Running? || s.mode.Waiting?) && DeviceLine(line, no)
      modifies this, table.pcbs, asl, asl.semds
      ensures Valid() && s == Resume(WakeDevice(old(s), SemIndex(line, no, recv), status))
    {
      var i, known := GetSemIndex(line, no, recv);
      SemIndexRange(line, no, recv);
      WakeDeviceShape(s, i, status);
      ReleaseSemAndUpdateStatus(i, status);
      ResumeOrSchedule();
    }

    /** Any sequence of kernel entries on memory is a run of the machine. */
    method HandleAll(es: seq<Event>)
      requires Valid() && Inv(s) && AllHandled(s, es)
      modifies this, table, table.pcbs, asl, asl.semds
      ensures Valid() && Inv(s) && s == Run(old(s), es)
    {
      var k := 0;
      while k < |es|
        invariant 0 <= k <= |es| && Valid() && Inv(s)
        invariant AllHandled(s, es[k..]) && Run(s, es[k..]) == Run(old(s), es)
      {
        assert es[k..][0] == es[k] && es[k..][1..] == es[k + 1..];
        Handle(es[k]);
        k := k + 1;
      }
      assert es[k..] == [];
    }
  }

  /** Entries the code as written handles: possible ones, and a termination only of a process outChild can remove. */
  ghost predicate Handled(s: State, e: Event) {
    Possible(s, e) && (e.Terminate? ==> Removable(s.forest, s.current))
  }

  ghost predicate AllHandled(s: State, es: seq<Event>)
    requires Inv(s)
    decreases |es|
  {
    es == [] || (Handled(s, es[0]) && (StepKeepsInv(s, es[0]); AllHandled(Step(s, es[0]), es[1..])))
  }

  /** From the loader's memory on: main(), then any sequence of entries, is a run from the boot state. */
  method RunKernel(n: nat, deviceSemaphores: int, words: map<int, int>, es: seq<Event>) returns (k: Kernel)
    requires n > 0 && 0 < deviceSemaphores && deviceSemaphores + 4 * DEVICE_NUM < MAXADD
    requires Inv(Booted(n, deviceSemaphores, words)) && AllHandled(Booted(n, deviceSemaphores, words), es)
    ensures k.Valid() && Inv(k.s) && k.s == Run(Booted(n, deviceSemaphores, words), es)
  {
    k := new Kernel(n, deviceSemaphores, words);
    k.Boot();
    k.HandleAll(es);
  }
}
