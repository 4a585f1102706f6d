/** The system calls on the kernel's own tables, each proved equal to its step of
    the state machine. */
module Kernels {
  import opened QueueModel
  import opened QueueTable
  import opened KernelModel
  import opened KernelCalls
  import opened KernelInv
  import opened KernelRuns
  import Queues

  const DEFER_START := 1
  const DEFER_STOP := 2

  /** Priorities are 16-bit integers. */
  ghost predicate Priorities(procs: seq<Proc>) {
    forall p | 0 <= p < |procs| :: -0x8000 <= procs[p].prio < 0x8000
  }

  /** A table that stands for k, with the queue of every process in home. */
  ghost predicate Stands(k: K, home: seq<int>) {
    && Tables(k) && |home| == NPROC && Priorities(k.procs)
    && (forall p | 0 <= p < NPROC :: -1 <= home[p] < NLISTS)
    && (forall n, p | 0 <= n < NLISTS && 0 <= p < NPROC :: p in k.lists[n] <==> home[p] == n)
  }

  /** The queue a process is on is the one its state names; the current process is
      on none, and unless it is the null process somebody is ready. */
  lemma StateHome(k: K, home: seq<int>)
    requires Inv(k) && Stands(k, home)
    ensures forall p | 0 <= p < NPROC :: home[p] == Home(k.procs[p])
    ensures k.procs[k.curr].state == CURR && home[k.curr] == -1
    ensures forall p | 0 <= p < NPROC && home[p] >= 0 :: k.procs[p].state != FREE
    ensures k.curr != NULLPROC ==> k.lists[READYQ] != []
  {
    forall p | 0 <= p < NPROC ensures home[p] == Home(k.procs[p]) {
      if home[p] >= 0 { assert p in k.lists[home[p]]; }
      if Home(k.procs[p]) >= 0 { assert p in k.lists[Home(k.procs[p])]; }
    }
    NeverIdle(k);
  }

  /** The waiting processes are as many as the count says. */
  lemma WaitersCounted(k: K, s: nat)
    requires Inv(k) && s < NSEM && k.sems[s].used
    ensures if k.sems[s].count < 0 then |k.lists[s]| == -k.sems[s].count else k.lists[s] == []
  {
    assert SemFine(k.sems[s], k.lists[s]);
  }

  /** In the middle of a signaln. */
  lemma TimesCounted(k: K, s: nat, n: nat)
    requires Inv(k) && s < NSEM && k.sems[s].used
    ensures Tables(k)
    ensures var t := SignalTimes(k, s, n);
      t.sems[s].used && t.curr == k.curr && (t.sems[s].count < 0 ==> t.lists[s] != [])
  {
    StructTables(k, true);
    SignalTimesOk(k, s, n);
    var t := SignalTimes(k, s, n);
    assert SemFine(t.sems[s], t.lists[s]);
  }

  /** Releasing a process does not look at the semaphore table. */
  lemma ReleaseOther(k: K, n: nat, sems: seq<Sem>)
    requires Tables(k) && n < NSEM && |sems| == NSEM
    ensures if k.lists[n] == [] then ReleaseAll(k.(sems := sems), n) == k.(sems := sems)
      else ReleaseAll(k.(sems := sems), n) == ReleaseAll(ReleaseFirst(k, n).(sems := sems), n)
  {
    if k.lists[n] != [] {
      assert ReleaseFirst(k.(sems := sems), n) == ReleaseFirst(k, n).(sems := sems);
    }
  }

  /** The state a process is about to get does not matter while it is woken. */
  lemma StateForgotten(k: K, p: nat, st: PState)
    requires Tables(k) && p < NPROC
    ensures MakeReady(DropSleeper(k, p, k.procs[p].state), p) == MakeReady(DropSleeper(k, p, st), p)
  {
    hide Without, UnsleptKeys, DescPos;
    assert SetState(DropSleeper(k, p, k.procs[p].state), p, READY).procs
        == SetState(DropSleeper(k, p, st), p, READY).procs;
  }

  lemma FreeSemStep(sems: seq<Sem>, next: nat, n: nat)
    requires |sems| == NSEM && next < NSEM
    ensures var next' := if next + 1 >= NSEM then 0 else next + 1;
      FreeSem(sems, next, n) == if n == 0 then (-1, next)
                                else if !sems[next].used then (next, next') else FreeSem(sems, next', n - 1)
  {
  }

  lemma NextSem(k: K)
    requires Inv(k)
    ensures k.nextsem < NSEM && k.preempt >= 1
  {
  }

  lemma OnlyCurrent(k: K, p: nat)
    requires Inv(k) && p < NPROC
    ensures k.procs[p].state == CURR <==> p == k.curr
    ensures k.procs[p].state in {SLEEP, RECTIM, WAIT} ==> p != NULLPROC
    ensures k.procs[p].state == WAIT ==> k.procs[p].sem < NSEM
  {
  }

  class Kernel {
    const queues: Queues.QueueTab
    const proctab: array<Proc>
    const semtab: array<Sem>
    var currpid: nat
    var ndefers: nat
    var attempt: bool
    var preempt: nat
    var nextpid: nat
    var nextsem: nat

    ghost function Repr(): set<object> { {this, queues, queues.queuetab, proctab, semtab} }

    ghost predicate Rep()
      reads Repr()
    {
      && queues.Valid() && proctab.Length == NPROC && semtab.Length == NSEM && currpid < NPROC
      && Priorities(proctab[..])
    }

    /** The state of the kernel as a value. */
    ghost function Abs(): (k: K)
      requires Rep()
      reads Repr()
      ensures Stands(k, queues.home)
    {
      Queues.TablePids(queues.queuetab[..], queues.lists, queues.home);
      K(proctab[..], semtab[..], queues.lists, Queues.Keys(queues.queuetab[..]), currpid, ndefers, attempt, preempt,
        nextpid, nextsem)
    }

    /** sysinit: the tables of a machine with only the null process.  All queues are
        made, and nextqid is left at an offset that newqueue's test lets through. */
    constructor ()
      ensures Rep() && Abs() == Boot() && Inv(Abs()) && fresh(Repr()) && queues.nextqid == NQENT
    {
      queues := new Queues.QueueTab();
      proctab := new Proc[NPROC](_ => Proc(FREE, 0, 0, false, 0, 0));
      semtab := new Sem[NSEM](_ => Sem(false, 0));
      currpid, ndefers, attempt, preempt, nextpid, nextsem := NULLPROC, 0, false, QUANTUM + 1, 1, 0;
      new;
      hide Queues.Made, Inv;
      proctab[NULLPROC] := proctab[NULLPROC].(state := CURR);
      MakeQueues();
      Queues.MadeTable(queues.queuetab[..]);
      BootInv();
    }

    /** sysinit's semaphores with their queues, then the ready and the sleep list. */
    method MakeQueues()
      requires queues.queuetab.Length == NQENT && queues.nextqid == NPROC && Queues.Made(queues.queuetab[..], 0)
      requires semtab.Length == NSEM
      modifies semtab, queues`nextqid, queues.queuetab
      ensures Queues.Made(queues.queuetab[..], NLISTS) && semtab[..] == seq(NSEM, _ => Sem(false, 0))
      ensures queues.nextqid == NQENT
      ensures Queues.Keys(queues.queuetab[..]) == old(Queues.Keys(queues.queuetab[..]))
    {
      hide Queues.Made, Queues.Keys;
      var sem := 0;
      while sem < NSEM
        invariant sem <= NSEM && queues.nextqid == Head(sem) && Queues.Made(queues.queuetab[..], sem)
        invariant Queues.Keys(queues.queuetab[..]) == old(Queues.Keys(queues.queuetab[..]))
        invariant forall s | 0 <= s < sem :: semtab[s] == Sem(false, 0)
      {
        semtab[sem] := Sem(false, 0);
        var squeue := queues.NewQueue();
        sem := sem + 1;
      }
      var readylist := queues.NewQueue();
      var sleepq := queues.NewQueue();
    }

    // ----- scheduling -----

    /** If the current process stops here, another can run. */
    ghost predicate Switchable()
      requires Rep()
      reads Repr()
    {
      ndefers == 0 ==>
        if proctab[currpid].state == CURR then queues.home[currpid] == -1 else queues.lists[READYQ] != []
    }

    method Resched()
      requires Rep() && Switchable()
      modifies Repr()
      ensures Rep() && Abs() == KernelModel.Resched(old(Abs())) && semtab[..] == old(semtab[..])
    {
      hide QueueTable.Table, NoDup, MakeReady, Dispatch;
      ghost var k := Abs();
      if ndefers > 0 {
        attempt := true;
        return;
      }
      var ptold := currpid;
      if proctab[ptold].state == CURR {
        Queues.Walk(queues.queuetab[..], queues.lists, queues.home, READYQ, 0);
        if proctab[ptold].prio > queues.queuetab[queues.FirstId(Head(READYQ))].qkey { return; }
        Requeue();
      }
      Switch();
    }

    /** The old process will no longer remain current. */
    method Requeue()
      requires Rep() && queues.home[currpid] == -1
      modifies Repr()
      ensures Rep() && Abs() == MakeReady(old(Abs()), old(currpid)) && semtab[..] == old(semtab[..])
    {
      hide QueueTable.Table, NoDup, DescPos;
      ghost var k := Abs();
      proctab[currpid] := proctab[currpid].(state := READY);
      var _ := queues.Insert(currpid, Head(READYQ), proctab[currpid].prio);
    }

    /** The first ready process becomes current, with a new time slice. */
    method Switch()
      requires Rep() && Abs().lists[READYQ] != []
      modifies Repr()
      ensures Rep() && Abs() == Dispatch(old(Abs())) && semtab[..] == old(semtab[..])
    {
      hide QueueTable.Table, NoDup;
      ghost var k := Abs();
      currpid := queues.Dequeue(Head(READYQ));
      proctab[currpid] := proctab[currpid].(state := CURR);
      preempt := QUANTUM;
    }

    /** The current process runs and is on no list, and who is on a list lives. */
    ghost predicate Running()
      requires Rep()
      reads Repr()
    {
      && proctab[currpid].state == CURR && queues.home[currpid] == -1
      && forall p | 0 <= p < NPROC && queues.home[p] >= 0 :: proctab[p].state != FREE
    }

    /** isbadpid, which also turns away entries not in use. */
    predicate IsBadPid(pid: int)
      requires proctab.Length == NPROC
      reads proctab
    {
      Queues.IsBadPid(pid) || proctab[pid].state == FREE
    }

    method Ready(pid: int, resch: bool) returns (r: int)
      requires Rep() && (!IsBadPid(pid) ==> queues.home[pid] == -1 && (resch ==> pid != currpid && Running()))
      modifies Repr()
      ensures Rep() && semtab[..] == old(semtab[..])
      ensures if old(IsBadPid(pid)) then r == SYSERR && Abs() == old(Abs())
        else (&& r == OK
              && Abs() == (if resch then KernelModel.Resched(MakeReady(old(Abs()), pid))
                           else MakeReady(old(Abs()), pid))
              && (!resch ==> queues.home == old(queues.home)[pid := READYQ])
              && (!resch && pid != old(currpid) && old(Running()) ==> Running()))
    {
      hide KernelModel.Resched, QueueTable.Table, NoDup;
      if IsBadPid(pid) { return SYSERR; }
      ghost var k := Abs();
      proctab[pid] := proctab[pid].(state := READY);
      var _ := queues.Insert(pid, Head(READYQ), proctab[pid].prio);
      assert Abs() == MakeReady(k, pid);
      if resch { Resched(); }
      return OK;
    }

    // ----- semaphores -----

    method Wait(sem: int) returns (r: int)
      requires Rep() && Inv(Abs()) && (GoodSem(Abs(), sem) && semtab[sem].count <= 0 ==> currpid != NULLPROC)
      modifies Repr()
      ensures Rep() && (Abs(), r) == WaitCall(old(Abs()), sem)
    {
      hide KernelModel.Resched, Inv, QueueTable.Table, NoDup;
      ghost var k := Abs();
      StateHome(k, queues.home);
      if sem < 0 || sem >= NSEM { return SYSERR; }
      if !semtab[sem].used { return SYSERR; }
      semtab[sem] := semtab[sem].(count := semtab[sem].count - 1);
      assert Abs() == SetCount(k, sem, k.sems[sem].count - 1);
      if semtab[sem].count < 0 {
        proctab[currpid] := proctab[currpid].(state := WAIT);
        proctab[currpid] := proctab[currpid].(sem := sem);
        var _ := queues.Enqueue(currpid, Head(sem));
        assert Abs() == Enqueued(SetCount(k, sem, k.sems[sem].count - 1), sem);
        Resched();
      }
      return OK;
    }

    method Signal(sem: int) returns (r: int)
      requires Rep() && Inv(Abs())
      modifies Repr()
      ensures Rep() && (Abs(), r) == SignalCall(old(Abs()), sem)
    {
      hide KernelModel.Resched, Inv, QueueTable.Table, NoDup, MakeReady;
      ghost var k := Abs();
      StateHome(k, queues.home);
      if sem < 0 || sem >= NSEM { return SYSERR; }
      if !semtab[sem].used { return SYSERR; }
      var was := semtab[sem].count;
      WaitersCounted(k, sem);
      semtab[sem] := semtab[sem].(count := was + 1);
      if was < 0 {
        assert Abs() == SetCount(k, sem, was + 1);
        var pid := queues.Dequeue(Head(sem));
        var _ := Ready(pid, true);
      }
      return OK;
    }

    /** The body of signaln's loop: one signal, without rescheduling. */
    method SignalStep(sem: nat)
      requires Rep() && Running() && sem < NSEM && (semtab[sem].count < 0 ==> queues.lists[sem] != [])
      modifies Repr()
      ensures Rep() && Running() && Abs() == SignalOnce(old(Abs()), sem)
    {
      hide QueueTable.Table, NoDup, MakeReady;
      ghost var k := Abs();
      var was := semtab[sem].count;
      semtab[sem] := semtab[sem].(count := was + 1);
      assert Abs() == SetCount(k, sem, was + 1);
      if was < 0 {
        var pid := queues.Dequeue(Head(sem));
        var _ := Ready(pid, false);
      }
    }

    method Signaln(sem: int, count: int) returns (r: int)
      requires Rep() && Inv(Abs())
      modifies Repr()
      ensures Rep() && (Abs(), r) == SignalnCall(old(Abs()), sem, count)
    {
      hide KernelModel.Resched, Inv, QueueTable.Table, NoDup, SignalOnce;
      ghost var k := Abs();
      StateHome(k, queues.home);
      if sem < 0 || sem >= NSEM || count < 0 { return SYSERR; }
      if !semtab[sem].used { return SYSERR; }
      var left := count;
      while left > 0
        invariant 0 <= left <= count && Rep() && Running()
        invariant Abs() == SignalTimes(k, sem, count - left)
      {
        TimesCounted(k, sem, count - left);
        SignalStep(sem);
        left := left - 1;
      }
      Resched();
      return OK;
    }

    /** ready(getfirst(queue), RESCHED_NO): the body of semdelete's and semreset's
        loops. */
    method ReleaseNext(sem: nat) returns (pid: int)
      requires Rep() && Running() && sem < NSEM
      modifies Repr()
      ensures Rep() && Running()
      ensures if old(queues.lists)[sem] == [] then pid == EMPTY && Abs() == old(Abs())
        else pid != EMPTY && Abs() == ReleaseFirst(old(Abs()), sem)
      ensures semtab[..] == old(semtab[..])
    {
      hide QueueTable.Table, NoDup, MakeReady;
      ghost var k := Abs();
      pid := queues.GetFirst(Head(sem));
      if pid != EMPTY { var _ := Ready(pid, false); }
    }

    /** scount++, as an expression. */
    method PostIncrement(sem: nat) returns (was: int)
      requires Rep() && sem < NSEM
      modifies semtab
      ensures Rep() && was == old(semtab[sem]).count
      ensures semtab[..] == old(semtab[..])[sem := Sem(old(semtab[sem]).used, was + 1)]
      ensures Abs() == old(Abs()).(sems := semtab[..])
    {
      hide QueueTable.Table, NoDup;
      was := semtab[sem].count;
      semtab[sem] := semtab[sem].(count := was + 1);
    }

    method SemDelete(sem: int) returns (r: int)
      requires Rep() && Inv(Abs())
      modifies Repr()
      ensures Rep() && (Abs(), r) == SemDeleteCall(old(Abs()), sem)
    {
      hide KernelModel.Resched, Inv, QueueTable.Table, NoDup, ReleaseFirst, ReleaseAll;
      ghost var k := Abs();
      StateHome(k, queues.home);
      if sem < 0 || sem >= NSEM { return SYSERR; }
      if !semtab[sem].used { return SYSERR; }
      WaitersCounted(k, sem);
      ghost var sems := k.sems[sem := Sem(false, (if k.sems[sem].count < 0 then 0 else k.sems[sem].count) + 1)];
      semtab[sem] := semtab[sem].(used := false);
      var was := PostIncrement(sem);
      ReleaseOther(k, sem, sems);
      EmptyQueue(sem, was, k.sems, sems);
      Resched();
      return OK;
    }

    /** The loop of semdelete: one waiter is released for each unit below zero. */
    method EmptyQueue(sem: nat, was0: int, ghost sems0: seq<Sem>, ghost sems: seq<Sem>)
      requires Rep() && Running() && sem < NSEM && |sems0| == NSEM
      requires semtab[..] == sems0[sem := Sem(false, was0 + 1)]
      requires |queues.lists[sem]| == if was0 < 0 then -was0 else 0
      requires sems == sems0[sem := Sem(false, (if was0 < 0 then 0 else was0) + 1)]
      modifies Repr()
      ensures Rep() && Running() && Abs() == ReleaseAll(old(Abs()).(sems := sems), sem)
    {
      hide QueueTable.Table, NoDup, ReleaseFirst, ReleaseAll;
      ghost var k := Abs();
      var was := was0;
      ReleaseOther(k, sem, sems);
      while was < 0
        invariant Rep() && Running() && semtab[..] == sems0[sem := Sem(false, was + 1)]
        invariant |queues.lists| == NLISTS
        invariant if was < 0 then |queues.lists[sem]| == -was && was0 < 0
          else queues.lists[sem] == [] && was == if was0 < 0 then 0 else was0
        invariant ReleaseAll(Abs().(sems := sems), sem) == ReleaseAll(k.(sems := sems), sem)
        decreases -was
      {
        ReleaseOther(Abs(), sem, sems);
        var _ := ReleaseNext(sem);
        was := PostIncrement(sem);
      }
      ReleaseOther(Abs(), sem, sems);
    }

    method SemReset(sem: int, count: int) returns (r: int)
      requires Rep() && Inv(Abs())
      modifies Repr()
      ensures Rep() && (Abs(), r) == SemResetCall(old(Abs()), sem, count)
    {
      hide KernelModel.Resched, Inv, QueueTable.Table, NoDup, ReleaseFirst;
      ghost var k := Abs();
      StateHome(k, queues.home);
      if count < 0 || sem < 0 || sem >= NSEM || !semtab[sem].used { return SYSERR; }
      var pid := ReleaseNext(sem);
      while pid != EMPTY
        invariant Rep() && Running()
        invariant ReleaseAll(Abs(), sem) == ReleaseAll(k, sem)
        invariant pid == EMPTY ==> queues.lists[sem] == []
        decreases |queues.lists[sem]|, pid != EMPTY
      {
        pid := ReleaseNext(sem);
      }
      semtab[sem] := semtab[sem].(count := count);
      Resched();
      return OK;
    }

    /** newsem and semcreate. */
    method SemCreate(count: int) returns (r: int)
      requires Rep() && Inv(Abs())
      modifies Repr()
      ensures Rep() && (Abs(), r) == SemCreateCall(old(Abs()), count)
    {
      hide Inv, QueueTable.Table, NoDup, FreeSem;
      ghost var k := Abs();
      NextSem(k);
      if count < 0 { return SYSERR; }
      var i := 0;
      while i < NSEM
        invariant 0 <= i <= NSEM && Rep() && nextsem < NSEM && Abs() == k.(nextsem := nextsem)
        invariant FreeSem(k.sems, nextsem, NSEM - i) == FreeSem(k.sems, k.nextsem, NSEM)
      {
        FreeSemStep(k.sems, nextsem, NSEM - i);
        var sem := nextsem;
        nextsem := if nextsem + 1 >= NSEM then 0 else nextsem + 1;
        if !semtab[sem].used {
          semtab[sem] := semtab[sem].(used := true);
          semtab[sem] := semtab[sem].(count := count);
          assert semtab[..] == k.sems[sem := Sem(true, count)];
          return sem;
        }
        i := i + 1;
      }
      FreeSemStep(k.sems, nextsem, 0);
      return SYSERR;
    }

    // ----- processes -----

    method Suspend(pid: int) returns (r: int)
      requires Rep() && Inv(Abs())
      modifies Repr()
      ensures Rep() && (0 <= pid < NPROC ==> -1 <= Home(old(Abs()).procs[pid]) < NLISTS)
      ensures (Abs(), r) == SuspendCall(old(Abs()), pid)
    {
      hide KernelModel.Resched, Inv, QueueTable.Table, NoDup;
      ghost var k := Abs();
      StateHome(k, queues.home);
      if IsBadPid(pid) || pid == NULLPROC { return SYSERR; }
      OnlyCurrent(k, pid);
      if proctab[pid].state != CURR && proctab[pid].state != READY { return SYSERR; }
      var prio := proctab[pid].prio;
      if proctab[pid].state == READY {
        var _ := queues.GetItem(pid);
        proctab[pid] := proctab[pid].(state := SUSP);
      } else {
        proctab[pid] := proctab[pid].(state := SUSP);
        assert Abs() == SetState(k, pid, SUSP);
        Resched();
      }
      return prio;
    }

    method Resume(pid: int) returns (r: int)
      requires Rep() && Inv(Abs())
      modifies Repr()
      ensures Rep() && (Abs(), r) == ResumeCall(old(Abs()), pid)
    {
      hide KernelModel.Resched, Inv, QueueTable.Table, NoDup, MakeReady;
      ghost var k := Abs();
      StateHome(k, queues.home);
      if IsBadPid(pid) { return SYSERR; }
      if proctab[pid].state != SUSP { return SYSERR; }
      var prio := proctab[pid].prio;
      var _ := Ready(pid, true);
      return prio;
    }

    /** newpid and the table part of create. */
    method Create(sizeOk: bool, priority: int, stackOk: bool) returns (r: int)
      requires Rep() && Inv(Abs()) && KernelCalls.Enabled(Abs(), Call.Create(sizeOk, priority, stackOk))
      modifies Repr()
      ensures Rep() && (Abs(), r) == CreateCall(old(Abs()), sizeOk, priority, stackOk)
    {
      hide Inv, QueueTable.Table, NoDup;
      ghost var k := Abs();
      if !sizeOk || priority <= 0 { return SYSERR; }
      var pid := NewPid();
      if pid == SYSERR || !stackOk { return SYSERR; }
      proctab[pid] := proctab[pid].(state := SUSP);
      proctab[pid] := proctab[pid].(prio := priority);
      proctab[pid] := proctab[pid].(parent := currpid);
      proctab[pid] := proctab[pid].(hasmsg := false);
      assert proctab[..] ==
        k.procs[pid := k.procs[pid].(state := SUSP, prio := priority, parent := k.curr, hasmsg := false)];
      return pid;
    }

    method NewPid() returns (pid: int)
      requires Rep()
      modifies this`nextpid
      ensures Rep() && (pid, nextpid) == FreePid(proctab[..], old(nextpid), NPROC)
    {
      hide QueueTable.Table, NoDup;
      var i := 0;
      while i < NPROC
        invariant 0 <= i <= NPROC && Rep()
        invariant FreePid(proctab[..], nextpid, NPROC - i) == FreePid(proctab[..], old(nextpid), NPROC)
      {
        nextpid := nextpid % NPROC;
        if proctab[nextpid].state == FREE {
          nextpid := nextpid + 1;
          return nextpid - 1;
        } else {
          nextpid := nextpid + 1;
        }
        i := i + 1;
      }
      return SYSERR;
    }

    /** The first part of kill: the parent is told, which may reschedule. */
    method KillNotify(pid: int) returns (r: int)
      requires Rep() && Inv(Abs())
      modifies Repr()
      ensures Rep()
      ensures if !GoodPid(old(Abs()), pid) || pid == NULLPROC then r == SYSERR && Abs() == old(Abs())
        else r == OK && Abs() == SendCall(old(Abs()), old(proctab[pid].parent), pid).0
    {
      hide Inv, SendCall, QueueTable.Table;
      if IsBadPid(pid) || pid == NULLPROC || proctab[pid].state == FREE { return SYSERR; }
      var _ := Send(proctab[pid].parent, pid);
      return OK;
    }

    /** Takes a process that is to end off its ready list or semaphore queue. */
    method LeaveQueue(pid: nat)
      requires Rep() && pid < NPROC && 0 <= queues.home[pid] == Home(proctab[pid])
      modifies Repr()
      ensures Rep() && old(Home(proctab[pid])) < NLISTS && Abs() == Drop(old(Abs()), pid, FREE)
    {
      hide QueueTable.Table, NoDup, Without;
      var _ := queues.GetItem(pid);
      proctab[pid] := proctab[pid].(state := FREE);
    }

    method LeaveSleep(pid: nat)
      requires Rep() && pid < NPROC && proctab[pid].state in {SLEEP, RECTIM} && queues.home[pid] == SLEEPQ
      modifies Repr()
      ensures Rep() && Abs() == DropSleeper(old(Abs()), pid, FREE)
    {
      hide QueueTable.Table, NoDup, Without, UnsleptKeys;
      var _ := Unsleep(pid);
      proctab[pid] := proctab[pid].(state := FREE);
    }

    /** The rest of kill: the process leaves the queue of the state it is in. */
    method KillRemove(pid: nat)
      requires Rep() && Inv(Abs()) && pid < NPROC && pid != NULLPROC
      modifies Repr()
      ensures Rep() && -1 <= Home(old(Abs()).procs[pid]) < NLISTS && Abs() == KillCall(old(Abs()), pid)
    {
      hide KernelModel.Resched, Inv, QueueTable.Table, NoDup, UnsleptKeys, Without;
      ghost var k := Abs();
      StateHome(k, queues.home);
      OnlyCurrent(k, pid);
      match proctab[pid].state {
        case CURR =>
          proctab[pid] := proctab[pid].(state := FREE);
          assert Abs() == SetState(k, pid, FREE);
          Resched();
        case SLEEP =>
          LeaveSleep(pid);
        case RECTIM =>
          LeaveSleep(pid);
        case WAIT =>
          var sem := proctab[pid].sem;
          var _ := PostIncrement(sem);
          LeaveQueue(pid);
        case READY =>
          LeaveQueue(pid);
        case _ =>
          proctab[pid] := proctab[pid].(state := FREE);
      }
    }

    // ----- messages and time -----

    /** Takes a sleeping process off the sleep list and leaves its state alone. */
    method Unsleep(pid: int) returns (r: int)
      requires Rep() && (!IsBadPid(pid) && proctab[pid].state in {SLEEP, RECTIM} ==> queues.home[pid] == SLEEPQ)
      modifies queues, queues.queuetab
      ensures Rep()
      ensures if IsBadPid(pid) || proctab[pid].state !in {SLEEP, RECTIM} then r == SYSERR && Abs() == old(Abs())
        else (var k := old(Abs());
          && r == OK && Abs() == DropSleeper(k, pid, k.procs[pid].state)
          && queues.home == old(queues.home)[pid := -1])
    {
      hide QueueTable.Table, NoDup, Without, UnsleptKeys;
      ghost var k := Abs();
      if IsBadPid(pid) { return SYSERR; }
      if proctab[pid].state != SLEEP && proctab[pid].state != RECTIM { return SYSERR; }
      queues.Unsleep(pid);
      assert proctab[..] == k.procs[pid := k.procs[pid].(state := k.procs[pid].state)];
      return OK;
    }

    method Send(pid: int, msg: int) returns (r: int)
      requires Rep() && Inv(Abs())
      modifies Repr()
      ensures Rep() && (Abs(), r) == SendCall(old(Abs()), pid, msg)
    {
      hide KernelModel.Resched, Inv, QueueTable.Table, NoDup, MakeReady, Without, UnsleptKeys;
      ghost var k := Abs();
      StateHome(k, queues.home);
      if IsBadPid(pid) { return SYSERR; }
      OnlyCurrent(k, pid);
      if proctab[pid].state == FREE || proctab[pid].hasmsg { return SYSERR; }
      proctab[pid] := proctab[pid].(msg := msg);
      proctab[pid] := proctab[pid].(hasmsg := true);
      ghost var k1 := k.(procs := k.procs[pid := k.procs[pid].(msg := msg, hasmsg := true)]);
      assert Abs() == k1;
      if proctab[pid].state == RECV {
        var _ := Ready(pid, true);
      } else if proctab[pid].state == RECTIM {
        var _ := Unsleep(pid);
        StateForgotten(k1, pid, SUSP);
        var _ := Ready(pid, true);
      }
      return OK;
    }

    /** receive and recvtime up to the point where the process waits; false if it
        need not. */
    method ReceiveStart() returns (waits: bool)
      requires Rep() && Inv(Abs()) && (currpid == NULLPROC ==> proctab[currpid].hasmsg)
      modifies Repr()
      ensures Rep() && waits == !old(Abs()).procs[old(currpid)].hasmsg
      ensures Abs() == if waits then ReceiveBlock(old(Abs())) else old(Abs())
    {
      hide KernelModel.Resched, Inv, QueueTable.Table, NoDup;
      ghost var k := Abs();
      StateHome(k, queues.home);
      waits := !proctab[currpid].hasmsg;
      if waits {
        proctab[currpid] := proctab[currpid].(state := RECV);
        assert Abs() == SetState(k, k.curr, RECV);
        Resched();
      }
    }

    method RecvTimeStart(maxwait: int) returns (waits: bool)
      requires Rep() && Inv(Abs()) && (currpid == NULLPROC ==> maxwait < 0 || proctab[currpid].hasmsg)
      modifies Repr()
      ensures Rep() && waits == (maxwait >= 0 && !old(Abs()).procs[old(currpid)].hasmsg)
      ensures Abs() == if waits then RecvTimeBlock(old(Abs()), maxwait) else old(Abs())
    {
      hide KernelModel.Resched, Inv, QueueTable.Table, NoDup, DeltaList, DeltaKeys;
      ghost var k := Abs();
      StateHome(k, queues.home);
      waits := maxwait >= 0 && !proctab[currpid].hasmsg;
      if waits {
        var _ := queues.InsertD(currpid, Head(SLEEPQ), maxwait);
        proctab[currpid] := proctab[currpid].(state := RECTIM);
        assert Abs() == Delayed(k, maxwait, RECTIM);
        Resched();
      }
    }

    /** The end of receive, when the process runs. */
    method ReceiveEnd() returns (msg: int)
      requires Rep()
      modifies proctab
      ensures Rep() && (Abs(), msg) == TakeMessage(old(Abs()))
    {
      hide QueueTable.Table;
      msg := proctab[currpid].msg;
      proctab[currpid] := proctab[currpid].(hasmsg := false);
    }

    /** The end of recvtime, when the process runs. */
    method RecvTimeEnd() returns (msg: int)
      requires Rep()
      modifies proctab
      ensures Rep() && (Abs(), msg) == TakeOrTimeout(old(Abs()))
    {
      hide QueueTable.Table;
      if proctab[currpid].hasmsg {
        msg := ReceiveEnd();
      } else {
        msg := TIMEOUT;
      }
    }

    method SleepMs(delay: nat) returns (r: int)
      requires Rep() && Inv(Abs()) && (currpid == NULLPROC ==> delay == 0) && delay < 0x1_0000_0000
      modifies Repr()
      ensures Rep() && r == OK && Abs() == SleepCall(old(Abs()), delay)
    {
      hide KernelModel.Resched, Inv, QueueTable.Table, NoDup, DeltaList, DeltaKeys;
      ghost var k := Abs();
      StateHome(k, queues.home);
      if delay == 0 {
        Resched();
        return OK;
      }
      var _ := queues.InsertD(currpid, Head(SLEEPQ), Signed(delay));
      proctab[currpid] := proctab[currpid].(state := SLEEP);
      assert Abs() == Delayed(k, Signed(delay), SLEEP);
      Resched();
      return OK;
    }

    /** Every process whose time has come is made ready. */
    method Wakeup()
      requires Rep() && Running()
      modifies Repr()
      ensures Rep() && Abs() == KernelModel.Resched(WakeExpired(old(Abs())))
    {
      hide KernelModel.Resched, QueueTable.Table, NoDup, ReleaseFirst;
      ghost var k := Abs();
      var due := FirstDue();
      while due
        invariant Rep() && Running() && WakeExpired(Abs()) == WakeExpired(k) && |queues.lists| == NLISTS
        invariant due == (queues.lists[SLEEPQ] != [] && FirstKey(Abs(), SLEEPQ) <= 0)
        decreases |queues.lists[SLEEPQ]|
      {
        WakeNext();
        due := FirstDue();
      }
      Resched();
    }

    /** nonempty(sleepq) && firstkey(sleepq) <= 0 */
    method FirstDue() returns (due: bool)
      requires Rep()
      ensures |queues.lists| == NLISTS && due == (queues.lists[SLEEPQ] != [] && FirstKey(Abs(), SLEEPQ) <= 0)
    {
      hide QueueTable.Table, NoDup;
      ghost var k := Abs();
      Queues.Walk(queues.queuetab[..], queues.lists, queues.home, SLEEPQ, 0);
      due := !queues.IsEmpty(Head(SLEEPQ)) && queues.queuetab[queues.FirstId(Head(SLEEPQ))].qkey <= 0;
    }

    /** ready(dequeue(sleepq), RESCHED_NO) */
    method WakeNext()
      requires Rep() && Running() && |queues.lists| == NLISTS && queues.lists[SLEEPQ] != []
      modifies Repr()
      ensures Rep() && Running() && Abs() == ReleaseFirst(old(Abs()), SLEEPQ)
    {
      hide QueueTable.Table, NoDup, MakeReady;
      ghost var k := Abs();
      var pid := queues.Dequeue(Head(SLEEPQ));
      var _ := Ready(pid, false);
    }

    /** clkhandler's first half: the sleep list loses a tick. */
    method ClockTick()
      requires Rep() && Inv(Abs())
      modifies Repr()
      ensures Rep() && Abs() == TickCall(old(Abs()))
    {
      hide KernelModel.Resched, Inv, QueueTable.Table, NoDup, WakeExpired;
      ghost var k := Abs();
      StateHome(k, queues.home);
      Queues.Walk(queues.queuetab[..], queues.lists, queues.home, SLEEPQ, 0);
      if !queues.IsEmpty(Head(SLEEPQ)) {
        queues.DecrementFirst(Head(SLEEPQ));
        assert Abs() == Ticked(k);
        Queues.Walk(queues.queuetab[..], queues.lists, queues.home, SLEEPQ, 0);
        if queues.queuetab[queues.FirstId(Head(SLEEPQ))].qkey <= 0 { Wakeup(); }
      }
    }

    /** clkhandler's second half: the time slice. */
    method ClockQuantum()
      requires Rep() && Inv(Abs())
      modifies Repr()
      ensures Rep() && Abs() == QuantumCall(old(Abs()))
    {
      hide KernelModel.Resched, Inv, QueueTable.Table, NoDup;
      ghost var k := Abs();
      StateHome(k, queues.home);
      NextSem(k);
      preempt := preempt - 1;
      if preempt <= 0 {
        preempt := QUANTUM;
        Resched();
      }
    }

    method DeferStart()
      requires Rep()
      modifies this
      ensures Rep() && Abs() == KernelCalls.DeferStart(old(Abs()))
    {
      hide QueueTable.Table;
      if ndefers == 0 { attempt := false; }
      ndefers := ndefers + 1;
    }

    method DeferStop() returns (r: int)
      requires Rep() && Inv(Abs())
      modifies Repr()
      ensures Rep() && (Abs(), r) == KernelCalls.DeferStop(old(Abs()))
    {
      hide KernelModel.Resched, Inv, QueueTable.Table, NoDup;
      ghost var k := Abs();
      StateHome(k, queues.home);
      if ndefers <= 0 { return SYSERR; }
      ndefers := ndefers - 1;
      assert Abs() == k.(ndefers := k.ndefers - 1);
      if ndefers == 0 && attempt { Resched(); }
      return OK;
    }

    method SchedCntl(def: int) returns (r: int)
      requires Rep() && Inv(Abs())
      modifies Repr()
      ensures Rep()
      ensures (Abs(), r) == (if def == DEFER_START then (KernelCalls.DeferStart(old(Abs())), OK)
                             else if def == DEFER_STOP then KernelCalls.DeferStop(old(Abs()))
                             else (old(Abs()), SYSERR))
    {
      hide KernelModel.Resched, Inv, QueueTable.Table, KernelCalls.DeferStart, KernelCalls.DeferStop;
      if def == DEFER_START {
        DeferStart();
        r := OK;
      } else if def == DEFER_STOP {
        r := DeferStop();
      } else {
        r := SYSERR;
      }
    }

    method Yield() returns (r: int)
      requires Rep() && Inv(Abs())
      modifies Repr()
      ensures Rep() && r == OK && Abs() == KernelModel.Resched(old(Abs()))
    {
      hide KernelModel.Resched, Inv, QueueTable.Table, NoDup;
      StateHome(Abs(), queues.home);
      Resched();
      return OK;
    }

    // ----- runs -----

    /** One step of the state machine, done by the code. */
    method Do(c: Call) returns (r: Answer)
      requires Rep() && Inv(Abs()) && KernelCalls.Enabled(Abs(), c)
      modifies Repr()
      ensures Rep() && Abs() == Step(old(Abs()), c) && Inv(Abs()) && r == Reply(old(Abs()), c)
    {
      hide Inv, QueueTable.Table, NoDup, WaitCall, SignalCall, SignalnCall, SemCreateCall, SemDeleteCall, SemResetCall,
        SuspendCall, ResumeCall, CreateCall, KillCall, SendCall, ReceiveBlock, TakeMessage, RecvTimeBlock,
        SleepCall, KernelModel.Resched, TickCall, QuantumCall, KernelCalls.DeferStart, KernelCalls.DeferStop;
      ghost var k := Abs();
      StepInv(k, c);
      var code := OK;
      match c {
        case Wait(s) => code := Wait(s);
        case Signal(s) => code := Signal(s);
        case Signaln(s, n) => code := Signaln(s, n);
        case SemCreate(c) => code := SemCreate(c);
        case SemDelete(s) => code := SemDelete(s);
        case SemReset(s, c) => code := SemReset(s, c);
        case Suspend(p) => code := Suspend(p);
        case Resume(p) => code := Resume(p);
        case Create(sizeOk, prio, stackOk) => code := Create(sizeOk, prio, stackOk);
        case Kill(p) => KillRemove(p);
        case Send(p, msg) => code := Send(p, msg);
        case Receive =>
          var waits := ReceiveStart();
          if waits { return Pending; }
          code := ReceiveEnd();
        case ReceiveDone => code := ReceiveEnd();
        case RecvTime(d) =>
          var waits := RecvTimeStart(d);
          if waits { return Pending; }
          if d < 0 { code := SYSERR; } else { code := RecvTimeEnd(); }
        case RecvTimeDone => code := RecvTimeEnd();
        case Sleep(delay) => code := SleepMs(delay);
        case Yield => code := Yield();
        case Tick => ClockTick();
        case Quantum => ClockQuantum();
        case StartDefer => DeferStart();
        case StopDefer => code := DeferStop();
      }
      r := Answer.Answer(code);
    }

    /** Any sequence of calls leaves the tables as the state machine says. */
    method DoAll(cs: seq<Call>) returns (rs: seq<Answer>)
      requires Rep() && Inv(Abs()) && Legal(Abs(), cs)
      modifies Repr()
      ensures Rep() && Abs() == Run(old(Abs()), cs) && rs == Replies(old(Abs()), cs)
    {
      hide Inv, QueueTable.Table, NoDup, Step, Reply;
      ghost var k := Abs();
      var i := 0;
      rs := [];
      assert cs[0..] == cs;
      while i < |cs|
        invariant 0 <= i <= |cs| && Rep() && Inv(Abs()) && Legal(Abs(), cs[i..])
        invariant Run(Abs(), cs[i..]) == Run(k, cs) && rs + Replies(Abs(), cs[i..]) == Replies(k, cs)
      {
        assert cs[i..][0] == cs[i] && cs[i..][1..] == cs[i + 1..];
        var r := Do(cs[i]);
        assert rs + ([r] + Replies(Abs(), cs[i + 1..])) == rs + [r] + Replies(Abs(), cs[i + 1..]);
        rs := rs + [r];
        i := i + 1;
      }
    }
  }
}
