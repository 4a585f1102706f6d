/** Properties of whole runs of the kernel, over every sequence of calls. */
module KernelRuns {
  import opened QueueModel
  import opened KernelModel
  import opened KernelCalls
  import opened KernelInv
  import opened CircularSearch

  // ----- runs -----

  ghost predicate Legal(k: K, cs: seq<Call>)
    requires Inv(k)
    decreases |cs|
  {
    cs == [] || (Enabled(k, cs[0]) && (StepInv(k, cs[0]); Legal(Step(k, cs[0]), cs[1..])))
  }

  /** The state after a run; every state of every run satisfies the invariant. */
  ghost function Run(k: K, cs: seq<Call>): (t: K)
    requires Inv(k) && Legal(k, cs)
    ensures Inv(t)
    decreases |cs|
  {
    if cs == [] then k else
    StepInv(k, cs[0]);
    Run(Step(k, cs[0]), cs[1..])
  }

  /** What the calls of a run return. */
  ghost function Replies(k: K, cs: seq<Call>): seq<Answer>
    requires Inv(k) && Legal(k, cs)
    decreases |cs|
  {
    if cs == [] then [] else
    StepInv(k, cs[0]);
    [Reply(k, cs[0])] + Replies(Step(k, cs[0]), cs[1..])
  }

  /** The tables as sysinit leaves them: the null process is current. */
  function Boot(): K {
    var p := Proc(FREE, 0, 0, false, 0, 0);
    K(seq(NPROC, _ => p)[NULLPROC := p.(state := CURR)], seq(NSEM, _ => Sem(false, 0)),
      seq(NLISTS, _ => []), seq(NPROC, _ => MINKEY), NULLPROC, 0, false, QUANTUM + 1, 1, 0)
  }

  lemma BootInv()
    ensures Inv(Boot())
  {
  }

  // ----- table searches -----

  /** newsem's circular search fails only when every entry is in use, and otherwise
      takes the first free entry from nextsem on. */
  lemma {:induction false} FreeSemFinds(sems: seq<Sem>, next: nat, n: nat)
    requires |sems| == NSEM && next < NSEM && n <= NSEM
    ensures var s := FreeSem(sems, next, n).0;
      if s < 0 then forall t | 0 <= t < NSEM && Ahead(next, t, NSEM) < n :: sems[t].used
      else !sems[s].used && Ahead(next, s, NSEM) < n
           && forall t | 0 <= t < NSEM && Ahead(next, t, NSEM) < Ahead(next, s, NSEM) :: sems[t].used
    decreases n
  {
    hide Ahead;
    forall t | 0 <= t < NSEM
      ensures t != next ==> Ahead(if next + 1 >= NSEM then 0 else next + 1, t, NSEM) == Ahead(next, t, NSEM) - 1
      ensures Ahead(next, next, NSEM) == 0 && 0 <= Ahead(next, t, NSEM)
    {
      AheadNext(next, t, NSEM);
    }
    if n > 0 && sems[next].used {
      FreeSemFinds(sems, if next + 1 >= NSEM then 0 else next + 1, n - 1);
    }
  }

  /** newpid's circular search fails only when no entry is free, and otherwise takes
      the first free one from nextpid on. */
  lemma {:induction false} FreePidFinds(procs: seq<Proc>, next: nat, n: nat)
    requires |procs| == NPROC && n <= NPROC
    ensures var start, p := next % NPROC, FreePid(procs, next, n).0;
      if p < 0 then forall t | 0 <= t < NPROC && Ahead(start, t, NPROC) < n :: procs[t].state != FREE
      else procs[p].state == FREE && Ahead(start, p, NPROC) < n
           && forall t | 0 <= t < NPROC && Ahead(start, t, NPROC) < Ahead(start, p, NPROC) :: procs[t].state != FREE
    decreases n
  {
    hide Ahead;
    var start := next % NPROC;
    forall t | 0 <= t < NPROC
      ensures t != start ==> Ahead(if start + 1 >= NPROC then 0 else start + 1, t, NPROC) == Ahead(start, t, NPROC) - 1
      ensures Ahead(start, start, NPROC) == 0 && 0 <= Ahead(start, t, NPROC)
    {
      AheadNext(start, t, NPROC);
    }
    if n > 0 && procs[start].state != FREE {
      assert (start + 1) % NPROC == if start + 1 >= NPROC then 0 else start + 1;
      FreePidFinds(procs, start + 1, n - 1);
    }
  }

  // ----- what the invariant says, in the terms of the system -----

  /** Exactly one process is current; a process is on the ready list, on the queue
      of its semaphore or on the sleep list just when its state says so, and then
      on no other list. */
  lemma StateIsQueue(k: K, p: nat, n: nat)
    requires Inv(k) && p < NPROC && n < NLISTS
    ensures k.procs[p].state == CURR <==> p == k.curr
    ensures p in k.lists[READYQ] <==> k.procs[p].state == READY
    ensures p in k.lists[SLEEPQ] <==> k.procs[p].state in {SLEEP, RECTIM}
    ensures n < NSEM ==> (p in k.lists[n] <==> k.procs[p].state == WAIT && k.procs[p].sem == n)
    ensures forall m | 0 <= m < NLISTS && p in k.lists[n] && p in k.lists[m] :: m == n
  {
    assert forall m | 0 <= m < NLISTS :: p in k.lists[m] <==> Home(k.procs[p]) == m;
  }

  /** Whenever a process stops running there is another one to run: the null
      process is current or on the ready list. */
  lemma NeverIdle(k: K)
    requires Inv(k)
    ensures k.curr == NULLPROC || NULLPROC in k.lists[READYQ]
    ensures k.curr != NULLPROC ==> k.lists[READYQ] != []
  {
    StateIsQueue(k, NULLPROC, READYQ);
  }

  /** Unless a reschedule was asked for while rescheduling is deferred nobody ready
      outranks the current process, and ending the last deferral makes it so again. */
  lemma HighestRuns(k: K, p: nat)
    requires Inv(k) && p < NPROC
    ensures (k.ndefers == 0 || !k.attempt) && k.procs[p].state == READY ==> k.procs[k.curr].prio >= k.procs[p].prio
    ensures k.ndefers == 1 ==>
              var t := Step(k, StopDefer);
              t.ndefers == 0 && (t.procs[p].state == READY ==> t.procs[t.curr].prio >= t.procs[p].prio)
  {
    hide Resched, Struct;
    InvParts(k);
    DeferOk(k);
    if k.ndefers == 1 {
      var k1 := k.(ndefers := 0);
      StructSame(k, k1, true);
      if k1.attempt { ReschedOk(k1, true); }
    }
  }

  // ----- blocking while rescheduling is deferred -----

  /** The call makes the current process stop. */
  ghost predicate Blocks(k: K, c: Call)
    requires Sizes(k)
  {
    match c
    case Wait(s) => GoodSem(k, s) && k.sems[s].count <= 0
    case Suspend(p) => p == k.curr
    case Kill(p) => p == k.curr
    case Receive => !k.procs[k.curr].hasmsg
    case RecvTime(maxwait) => maxwait >= 0 && !k.procs[k.curr].hasmsg
    case Sleep(delay) => 0 < delay < 0x8000_0000
    case _ => false
  }

  /** What such a call does, whether rescheduling is deferred or not. */
  ghost function Stopping(k: K, c: Call): (t: K)
    requires Inv(k) && Blocks(k, c) && k.curr != NULLPROC
    ensures Tables(t) && (Enabled(k, c) ==> t == Step(k, c))
  {
    InvParts(k);
    InvCurr(k, k.curr);
    match c
    case Wait(s) => WaitCall(k, s).0
    case Suspend(p) => SuspendCall(k, p).0
    case Kill(p) => KillCall(k, p)
    case Receive => ReceiveBlock(k)
    case RecvTime(maxwait) => RecvTimeBlock(k, maxwait)
    case Sleep(delay) => SleepCall(k, delay)
  }

  /** A call that blocks keeps the invariant just when rescheduling is not deferred;
      otherwise the process runs on although it is not current. */
  lemma DeferredBlock(k: K, c: Call)
    requires Inv(k) && Blocks(k, c) && k.curr != NULLPROC
    ensures Inv(Stopping(k, c)) <==> k.ndefers == 0
    ensures k.ndefers > 0 ==> var t := Stopping(k, c); t.curr == k.curr && t.procs[t.curr].state != CURR && t.attempt
  {
    hide Inv, DeltaList, DeltaKeys, Without;
    InvParts(k);
    InvCurr(k, k.curr);
    var t := Stopping(k, c);
    if k.ndefers == 0 {
      StepInv(k, c);
    } else if Inv(t) {
      InvCurr(t, t.curr);
    }
  }

  // ----- semaphores over a run -----

  /** How a call changes the count of semaphore s, from what the caller asked. */
  ghost function Counted(k: K, c: Call, s: nat, count: int): int
    requires Sizes(k) && s < NSEM && k.nextsem < NSEM
  {
    match c
    case Wait(x) => if x == s && GoodSem(k, s) then count - 1 else count
    case Signal(x) => if x == s && GoodSem(k, s) then count + 1 else count
    case Signaln(x, n) => if x == s && GoodSem(k, s) && n >= 0 then count + n else count
    case SemReset(x, c) => if x == s && GoodSem(k, s) && c >= 0 then c else count
    case SemCreate(n) => if Creates(k, c, s) then n else count
    case Kill(p) => if p < NPROC && k.procs[p].state == WAIT && k.procs[p].sem == s then count + 1 else count
    case _ => count
  }

  ghost predicate Creates(k: K, c: Call, s: nat)
    requires Sizes(k) && k.nextsem < NSEM
  {
    c.SemCreate? && c.c >= 0 && FreeSem(k.sems, k.nextsem, NSEM).0 == s
  }

  /** The process that joins the queue of s, if any. */
  ghost function Joins(k: K, c: Call, s: nat): seq<nat>
    requires Sizes(k) && s < NSEM
  {
    if c.Wait? && c.s == s && GoodSem(k, s) && k.sems[s].count <= 0 then [k.curr] else []
  }

  /** How many processes, from the front, a call releases from the queue of s. */
  ghost function Leaves(k: K, c: Call, s: nat): (n: nat)
    requires Sizes(k) && s < NSEM
    ensures n <= |k.lists[s]|
  {
    var l := k.lists[s];
    match c
    case Signal(x) => if x == s && GoodSem(k, s) && l != [] then 1 else 0
    case Signaln(x, n) => if x == s && GoodSem(k, s) && n >= 0 then (if n < |l| then n else |l|) else 0
    case SemDelete(x) => if x == s && GoodSem(k, s) then |l| else 0
    case SemReset(x, c) => if x == s && GoodSem(k, s) && c >= 0 then |l| else 0
    case _ => 0
  }

  /** What is left of a queue when n have gone from its front. */
  ghost function Rest(l: seq<nat>, n: nat): seq<nat>
    requires n <= |l|
  {
    l[n..]
  }

  lemma RestEnds(l: seq<nat>)
    ensures Rest(l, 0) == l && Rest(l, |l|) == [] && (l != [] ==> Rest(l, 1) == l[1..])
  {
  }

  /** What a kill takes out of the queue of s. */
  ghost function Survivors(k: K, c: Call, s: nat, l: seq<nat>): seq<nat>
    requires Sizes(k)
  {
    if c.Kill? && c.pid < NPROC && k.procs[c.pid].state == WAIT && k.procs[c.pid].sem == s
    then Without(l, c.pid) else l
  }

  /** The process a kill takes out of the queue of s, if any. */
  ghost function Slain(k: K, c: Call, s: nat): seq<nat>
    requires Sizes(k)
  {
    if c.Kill? && c.pid < NPROC && k.procs[c.pid].state == WAIT && k.procs[c.pid].sem == s then [c.pid] else []
  }

  /** Nobody but the killed process is missing from the queue. */
  lemma SlainMissing(k: K, c: Call, s: nat)
    requires Inv(k) && s < NSEM
    ensures var l := Rest(k.lists[s], Leaves(k, c, s));
      multiset(l) == multiset(Survivors(k, c, s, l)) + multiset(Slain(k, c, s))
  {
    hide Inv, Without, Rest;
    InvParts(k);
    var l := k.lists[s];
    RestEnds(l);
    if Slain(k, c, s) != [] {
      WaiterListed(k, c.pid);
      OneMissing(l, c.pid);
    }
  }

  lemma WaiterListed(k: K, p: nat)
    requires Inv(k) && p < NPROC && k.procs[p].state == WAIT && k.procs[p].sem < NSEM
    ensures p in k.lists[k.procs[p].sem]
  {
    WaiterFacts(k, p);
  }

  lemma OneMissing(l: seq<nat>, p: nat)
    requires p in l
    ensures multiset(l) == multiset(Without(l, p)) + multiset([p])
  {
    var i := IndexOf(l, p);
    assert l == l[..i] + [p] + l[i + 1..];
  }

  /** Scheduling touches neither semaphores nor their queues. */
  lemma ReschedKeeps(k: K, running: bool, s: nat)
    requires Almost(k, running) && (running || k.ndefers == 0) && s < NSEM
    ensures Resched(k).lists[s] == k.lists[s] && Resched(k).sems == k.sems
  {
    hide Inv, Almost, Resched;
    ReschedOk(k, running);
  }

  lemma {:induction false} SignalTimesQueue(k: K, s: nat, n: nat)
    requires Almost(k, true) && s < NSEM && k.sems[s].used
    ensures Tables(k)
    ensures SignalTimes(k, s, n).lists[s] == Rest(k.lists[s], if n < |k.lists[s]| then n else |k.lists[s]|)
    decreases n
  {
    hide Almost, SignalOnce, Frame;
    AlmostTables(k);
    if n > 0 {
      SignalTimesQueue(k, s, n - 1);
      SignalTimesOk(k, s, n - 1);
      SignalOnceOk(SignalTimes(k, s, n - 1), s);
    }
  }

  /** One step: the released processes are the longest-waiting ones, a process that
      must wait goes last, and only a kill takes out one in between. */
  lemma QueueStep(k: K, c: Call, s: nat)
    requires Inv(k) && Enabled(k, c) && s < NSEM
    ensures Step(k, c).lists[s] == Survivors(k, c, s, Rest(k.lists[s], Leaves(k, c, s))) + Joins(k, c, s)
    ensures Step(k, c).sems[s].used ==>
              Step(k, c).sems[s].count == Counted(k, c, s, k.sems[s].count) && (k.sems[s].used || Creates(k, c, s))
  {
    hide Inv, WaitCall, SignalCall, SignalnCall, SemCreateCall, SemDeleteCall, SemResetCall, KillCall, SendCall,
      Resched, Creates, Rest;
    InvParts(k);
    QueueFine(k, s);
    RestEnds(k.lists[s]);
    match c
    case Wait(x) => WaitQueue(k, x, s);
    case Signal(x) => SignalQueue(k, x, s);
    case Signaln(x, n) => SignalnQueue(k, x, n, s);
    case SemCreate(n) => CreateQueue(k, n, s);
    case SemDelete(x) => DeleteQueue(k, x, s);
    case SemReset(x, c) => ResetQueue(k, x, c, s);
    case Kill(p) => KillQueue(k, p, s);
    case Send(p, msg) => SendQueue(k, p, msg, s);
    case _ => OtherQueue(k, c, s);
  }

  lemma QueueFine(k: K, s: nat)
    requires Inv(k) && s < NSEM
    ensures SemFine(k.sems[s], k.lists[s]) && k.nextsem < NSEM
  {
  }

  lemma CreateQueue(k: K, n: int, s: nat)
    requires Inv(k) && s < NSEM
    ensures Tables(k) && SemCreateCall(k, n).0.lists == k.lists
    ensures SemCreateCall(k, n).0.sems[s].used ==>
              && SemCreateCall(k, n).0.sems[s].count == Counted(k, SemCreate(n), s, k.sems[s].count)
              && (k.sems[s].used || Creates(k, SemCreate(n), s))
    ensures SemCreateCall(k, n).0.sems[s] == if Creates(k, SemCreate(n), s) then Sem(true, n) else k.sems[s]
  {
    hide Inv, FreeSem;
    InvParts(k);
    QueueFine(k, s);
  }

  lemma WaitQueue(k: K, x: int, s: nat)
    requires Inv(k) && Enabled(k, Wait(x)) && s < NSEM
    ensures Tables(k)
    ensures WaitCall(k, x).0.lists[s] == k.lists[s] + Joins(k, Wait(x), s)
    ensures WaitCall(k, x).0.sems[s] == Sem(k.sems[s].used, Counted(k, Wait(x), s, k.sems[s].count))
  {
    hide Inv, Struct, Almost, SemsOk, Resched, Creates;
    InvParts(k);
    InvSems(k);
    if GoodSem(k, x) {
      var k1 := SetCount(k, x, k.sems[x].count - 1);
      StructSame(k, k1, true);
      if k1.sems[x].count < 0 {
        EnqueuedOk(k1, x);
        var t := Enqueued(k1, x);
        SemsChanged(k, t, x);
        MakeAlmost(t, false);
        ReschedKeeps(t, false, s);
      }
    }
  }

  /** A signal's reschedule touches no semaphore. */
  lemma SignalResched(k: K, x: nat, s: nat)
    requires Inv(k) && x < NSEM && k.sems[x].used && s < NSEM
    ensures Tables(k) && SignalCall(k, x).0.sems == SignalOnce(k, x).sems
    ensures SignalCall(k, x).0.lists[s] == SignalOnce(k, x).lists[s]
  {
    hide Inv, Almost, Resched, SignalOnce, Frame;
    InvParts(k);
    SignalOnceOk(k, x);
    ReschedKeeps(SignalOnce(k, x), true, s);
  }

  lemma SignalOnceQueue(k: K, x: nat, s: nat)
    requires Inv(k) && x < NSEM && k.sems[x].used && s < NSEM
    ensures Tables(k) && SignalOnce(k, x).sems == k.sems[x := k.sems[x].(count := k.sems[x].count + 1)]
    ensures SignalOnce(k, x).lists[s] == if s == x && k.lists[s] != [] then k.lists[s][1..] else k.lists[s]
  {
    hide Inv, Almost, SignalOnce;
    InvParts(k);
    SignalOnceOk(k, x);
    SignalOnceSems(k, x);
  }

  lemma SignalQueue(k: K, x: int, s: nat)
    requires Inv(k) && s < NSEM
    ensures Tables(k)
    ensures SignalCall(k, x).0.lists[s] == Rest(k.lists[s], Leaves(k, Signal(x), s))
    ensures SignalCall(k, x).0.sems[s] == Sem(k.sems[s].used, Counted(k, Signal(x), s, k.sems[s].count))
  {
    hide Inv, SignalOnce, Resched, Creates, Rest;
    InvParts(k);
    QueueFine(k, s);
    RestEnds(k.lists[s]);
    if GoodSem(k, x) {
      SignalResched(k, x, s);
      SignalOnceQueue(k, x, s);
      hide SignalCall;
    }
  }

  lemma SignalOnceSems(k: K, x: nat)
    requires Tables(k) && x < NSEM
    ensures SignalOnce(k, x).sems == k.sems[x := k.sems[x].(count := k.sems[x].count + 1)]
  {
    hide DescPos;
  }

  lemma SignalnQueue(k: K, x: int, n: int, s: nat)
    requires Inv(k) && s < NSEM
    ensures Tables(k)
    ensures SignalnCall(k, x, n).0.lists[s] == Rest(k.lists[s], Leaves(k, Signaln(x, n), s))
    ensures SignalnCall(k, x, n).0.sems[s] == Sem(k.sems[s].used, Counted(k, Signaln(x, n), s, k.sems[s].count))
  {
    hide Inv, Struct, Almost, SemsOk, Resched, SignalTimes, Creates, Rest;
    InvParts(k);
    RestEnds(k.lists[s]);
    if GoodSem(k, x) && n >= 0 {
      SignalTimesOk(k, x, n);
      SignalTimesQueue(k, x, n);
      SignalTimesOthers(k, x, n, s);
      ReschedKeeps(SignalTimes(k, x, n), true, s);
    }
  }

  lemma {:induction false} SignalTimesOthers(k: K, x: nat, n: nat, s: nat)
    requires Almost(k, true) && x < NSEM && k.sems[x].used && s < NSEM
    ensures Tables(k) && (s != x ==> SignalTimes(k, x, n).sems[s] == k.sems[s])
    decreases n
  {
    hide Almost, SignalOnce;
    AlmostTables(k);
    if n > 0 {
      SignalTimesOthers(k, x, n - 1, s);
      SignalTimesOk(k, x, n - 1);
      SignalOnceSems(SignalTimes(k, x, n - 1), x);
    }
  }

  lemma DeleteQueue(k: K, x: int, s: nat)
    requires Inv(k) && s < NSEM
    ensures Tables(k)
    ensures SemDeleteCall(k, x).0.lists[s] == Rest(k.lists[s], Leaves(k, SemDelete(x), s))
    ensures SemDeleteCall(k, x).0.sems[s].used ==> SemDeleteCall(k, x).0.sems[s] == k.sems[s] && k.sems[s].used
    ensures k.sems[s].used && x != s ==> SemDeleteCall(k, x).0.sems[s].used
    ensures x == s ==> !SemDeleteCall(k, x).0.sems[s].used
  {
    hide Inv, Struct, SemsOk, ReleaseAll, Almost, Resched, Creates, Rest;
    InvParts(k);
    RestEnds(k.lists[s]);
    if GoodSem(k, x) {
      var c := k.sems[x].count;
      var k1 := k.(sems := k.sems[x := Sem(false, (if c < 0 then 0 else c) + 1)]);
      StructSame(k, k1, true);
      assert SemFine(k.sems[x], k.lists[x]);
      if c < 0 { ReleaseAllOk(k1, x); }
      var t := if c < 0 then ReleaseAll(k1, x) else k1;
      InvSems(k);
      ReleasedSems(k, x, t);
      MakeAlmost(t, true);
      ReschedKeeps(t, true, s);
    }
  }

  lemma ResetQueue(k: K, x: int, c: int, s: nat)
    requires Inv(k) && s < NSEM
    ensures Tables(k)
    ensures SemResetCall(k, x, c).0.lists[s] == Rest(k.lists[s], Leaves(k, SemReset(x, c), s))
    ensures SemResetCall(k, x, c).0.sems[s] == Sem(k.sems[s].used, Counted(k, SemReset(x, c), s, k.sems[s].count))
  {
    hide Inv, Struct, Almost, SemsOk, Resched, ReleaseAll, Creates, Rest;
    InvParts(k);
    InvSems(k);
    RestEnds(k.lists[s]);
    if GoodSem(k, x) && c >= 0 {
      ReleaseAllOk(k, x);
      var t := SetCount(ReleaseAll(k, x), x, c);
      StructSame(ReleaseAll(k, x), t, true);
      ReleasedSems(k, x, t);
      MakeAlmost(t, true);
      ReschedKeeps(t, true, s);
    }
  }

  lemma KillQueue(k: K, p: nat, s: nat)
    requires Inv(k) && Enabled(k, Kill(p)) && s < NSEM
    ensures Tables(k) && -1 <= Home(k.procs[p]) < NLISTS
    ensures KillCall(k, p).lists[s] == Survivors(k, Kill(p), s, k.lists[s])
    ensures KillCall(k, p).sems[s] == Sem(k.sems[s].used, Counted(k, Kill(p), s, k.sems[s].count))
  {
    hide Inv, Struct, Almost, SemsOk, Resched, Without, UnsleptKeys, Creates;
    InvParts(k);
    InvSems(k);
    InvCurr(k, p);
    StructHome(k, p);
    if k.procs[p].state == WAIT {
      KillWaiterOk(k, p);
    } else if k.procs[p].state == CURR {
      StopOk(k, FREE);
      SemsKept(k, SetState(k, p, FREE));
      MakeAlmost(SetState(k, p, FREE), false);
      ReschedKeeps(SetState(k, p, FREE), false, s);
    }
  }

  lemma SendQueue(k: K, p: int, msg: int, s: nat)
    requires Inv(k) && s < NSEM
    ensures Tables(k) && SendCall(k, p, msg).0.lists[s] == k.lists[s] && SendCall(k, p, msg).0.sems == k.sems
  {
    hide Inv, Struct, SemsOk, Almost, UnsleptKeys, Without, DescPos, Resched;
    InvParts(k);
    InvSems(k);
    if GoodPid(k, p) && !k.procs[p].hasmsg {
      var k1 := k.(procs := k.procs[p := k.procs[p].(msg := msg, hasmsg := true)]);
      StructMessages(k, k1, true);
      if k.procs[p].state == RECV {
        MakeReadyOk(k1, true, p);
        SemsKept(k, MakeReady(k1, p));
        MakeAlmost(MakeReady(k1, p), true);
        ReschedKeeps(MakeReady(k1, p), true, s);
      } else if k.procs[p].state == RECTIM {
        DropSleeperOk(k1, true, p, SUSP);
        var k2 := DropSleeper(k1, p, SUSP);
        MakeReadyOk(k2, true, p);
        SemsKept(k, MakeReady(k2, p));
        MakeAlmost(MakeReady(k2, p), true);
        ReschedKeeps(MakeReady(k2, p), true, s);
      }
    }
  }

  /** Calls that have nothing to do with semaphores. */
  lemma OtherQueue(k: K, c: Call, s: nat)
    requires Inv(k) && Enabled(k, c) && s < NSEM
    requires !c.Wait? && !c.Signal? && !c.Signaln? && !c.SemCreate? && !c.SemDelete? && !c.SemReset?
    requires !c.Kill? && !c.Send?
    ensures Step(k, c).lists[s] == k.lists[s] && Step(k, c).sems == k.sems
  {
    hide Inv, Struct, Almost, SemsOk, Resched, Delayed, TickCall, Without, DescPos, FreePid;
    InvParts(k);
    InvSems(k);
    match c
    case Suspend(p) => if p == k.curr && p != NULLPROC { StoppedQueue(k, SUSP, s); }
    case Resume(p) =>
      if GoodPid(k, p) && k.procs[p].state == SUSP {
        MakeReadyOk(k, true, p);
        SemsKept(k, MakeReady(k, p));
        MakeAlmost(MakeReady(k, p), true);
        ReschedKeeps(MakeReady(k, p), true, s);
      }
    case Receive => if MayBlock(k) { StoppedQueue(k, RECV, s); }
    case RecvTime(d) => if MayBlock(k) && d >= 0 { DelayedQueue(k, d, RECTIM, s); }
    case Sleep(d) => if MayBlock(k) && d > 0 { DelayedQueue(k, d, SLEEP, s); } else { ReschedKeeps(k, true, s); }
    case Yield => ReschedKeeps(k, true, s);
    case Tick => TickQueue(k, s);
    case Quantum => CountedQueue(k, k.(preempt := QUANTUM), s);
    case StopDefer => if k.ndefers > 0 { CountedQueue(k, k.(ndefers := k.ndefers - 1), s); }
    case _ =>
  }

  lemma StoppedQueue(k: K, st: PState, s: nat)
    requires Inv(k) && s < NSEM && k.curr != NULLPROC && k.ndefers == 0 && st in {SUSP, RECV}
    ensures Tables(k) && Resched(SetState(k, k.curr, st)).lists[s] == k.lists[s]
    ensures Resched(SetState(k, k.curr, st)).sems == k.sems
  {
    hide Inv, Struct, Almost, SemsOk, Resched;
    InvParts(k);
    InvSems(k);
    StopOk(k, st);
    SemsKept(k, SetState(k, k.curr, st));
    MakeAlmost(SetState(k, k.curr, st), false);
    ReschedKeeps(SetState(k, k.curr, st), false, s);
  }

  lemma CountedQueue(k: K, t: K, s: nat)
    requires Inv(k) && s < NSEM && Sizes(t) && t.preempt >= 1
    requires t.(preempt := k.preempt, ndefers := k.ndefers) == k
    ensures Tables(t) && Resched(t).lists[s] == k.lists[s] && Resched(t).sems == k.sems
  {
    hide Inv, Struct, Almost, SemsOk, Resched;
    InvParts(k);
    InvSems(k);
    StructSame(k, t, true);
    SemsKept(k, t);
    MakeAlmost(t, true);
    ReschedKeeps(t, true, s);
  }

  lemma DelayedQueue(k: K, d: int, st: PState, s: nat)
    requires Inv(k) && MayBlock(k) && d >= 0 && st in {SLEEP, RECTIM} && s < NSEM
    ensures Tables(k) && Resched(Delayed(k, d, st)).lists[s] == k.lists[s] && Resched(Delayed(k, d, st)).sems == k.sems
  {
    hide Inv, Struct, Almost, SemsOk, Resched, DeltaList, DeltaKeys;
    InvParts(k);
    InvSems(k);
    DelayedOk(k, d, st);
    SemsKept(k, Delayed(k, d, st));
    MakeAlmost(Delayed(k, d, st), false);
    ReschedKeeps(Delayed(k, d, st), false, s);
  }

  lemma TickQueue(k: K, s: nat)
    requires Inv(k) && s < NSEM
    ensures Tables(k) && TickCall(k).lists[s] == k.lists[s] && TickCall(k).sems == k.sems
  {
    hide Inv, Struct, Almost, SemsOk, Resched, Expiring, WakeExpired;
    InvParts(k);
    InvSems(k);
    if k.lists[SLEEPQ] != [] {
      var k1 := Ticked(k);
      TickedExpiring(k);
      if FirstKey(k1, SLEEPQ) <= 0 {
        WakeOk(k1);
        SemsKept(k, WakeExpired(k1));
        MakeAlmost(WakeExpired(k1), true);
        ReschedKeeps(WakeExpired(k1), true, s);
      }
    }
  }
}
