/** Every step of the kernel keeps the invariant, so it holds in every run. */
module KernelInv {
  import opened QueueModel
  import opened KernelModel
  import opened KernelCalls

  /** t differs from k at most in process states and keys, in the ready list and
      in the lists of the set changed. */
  ghost predicate Frame(k: K, t: K, changed: set<nat>)
    requires Sizes(k) && Sizes(t)
  {
    && t.sems == k.sems && t.curr == k.curr && t.ndefers == k.ndefers && t.attempt == k.attempt
    && t.preempt == k.preempt && t.nextpid == k.nextpid && t.nextsem == k.nextsem
    && (forall n | 0 <= n < NLISTS && n != READYQ && n !in changed :: t.lists[n] == k.lists[n])
  }

  /** What a reschedule needs: everything but the priority rule. */
  ghost predicate Almost(k: K, running: bool) {
    Struct(k, running) && SemsOk(k) && k.preempt >= 1 && k.nextsem < NSEM
  }

  lemma SemsKept(k: K, t: K)
    requires Sizes(k) && Sizes(t) && SemsOk(k) && t.sems == k.sems
    requires forall s | 0 <= s < NSEM :: t.lists[s] == k.lists[s]
    ensures SemsOk(t)
  {
  }

  lemma AlmostTables(k: K)
    requires Almost(k, true)
    ensures Tables(k)
  {
  }

  lemma InvParts(k: K)
    requires Inv(k)
    ensures Almost(k, true) && Struct(k, true) && Tables(k) && k.nextsem < NSEM
    ensures forall s | 0 <= s < NSEM :: SemFine(k.sems[s], k.lists[s])
  {
  }

  lemma InvSems(k: K)
    requires Inv(k)
    ensures SemsOk(k) && k.preempt >= 1
  {
  }

  lemma MakeAlmost(t: K, running: bool)
    requires Struct(t, running) && SemsOk(t) && t.preempt >= 1 && t.nextsem < NSEM
    ensures Almost(t, running)
  {
  }

  lemma InvCurr(k: K, p: nat)
    requires Inv(k) && p < NPROC
    ensures k.procs[p].state == CURR <==> p == k.curr
    ensures k.procs[p].state !in {READY, CURR} ==> p != NULLPROC
  {
  }

  /** resched restores the priority rule, or notes that it is due. */
  lemma ReschedOk(k: K, running: bool)
    requires Almost(k, running) && (running || k.ndefers == 0)
    ensures Inv(Resched(k))
    ensures forall n | 0 <= n < NLISTS && n != READYQ :: Resched(k).lists[n] == k.lists[n]
    ensures Resched(k).sems == k.sems && Resched(k).ndefers == k.ndefers
  {
    if k.ndefers > 0 {
      StructSame(k, Resched(k), running);
    } else if !running {
      DispatchOk(k);
      hide Struct;
      SemsKept(k, Dispatch(k));
    } else if k.procs[k.curr].prio > FirstKey(k, READYQ) {
      if k.lists[READYQ] != [] {
        ReadyMembers(k);
        HeadHighest(k);
      } else {
        NoneReady(k);
      }
    } else {
      var k1 := SetState(k, k.curr, SUSP);
      YieldedOk(k);
      var k2 := MakeReady(k, k.curr);
      DispatchOk(k2);
      hide Struct;
      SemsKept(k, k2);
      SemsKept(k2, Dispatch(k2));
    }
  }

  lemma NoneReady(k: K)
    requires Sizes(k) && Membership(k) && k.lists[READYQ] == []
    ensures forall p | 0 <= p < NPROC :: k.procs[p].state != READY
  {
    forall p | 0 <= p < NPROC ensures k.procs[p].state != READY {
      assert p !in k.lists[READYQ];
    }
  }

  /** The current process goes back to the ready list. */
  lemma YieldedOk(k: K)
    requires Struct(k, true)
    ensures Struct(MakeReady(k, k.curr), false)
    ensures forall n | 0 <= n < NLISTS && n != READYQ :: MakeReady(k, k.curr).lists[n] == k.lists[n]
  {
    MakeReadyBasic(k, k.curr);
    var t := MakeReady(k, k.curr);
    NotOnList(k, k.curr, SLEEPQ);
    hide Membership, ReadyOk, Descending;
    assert forall q | 0 <= q < NPROC && q != k.curr :: t.procs[q] == k.procs[q] && t.keys[q] == k.keys[q];
  }

  lemma StructSame(k: K, t: K, running: bool)
    requires Struct(k, running) && Sizes(t)
    requires t.procs == k.procs && t.lists == k.lists && t.keys == k.keys && t.curr == k.curr
    ensures Struct(t, running)
  {
  }

  /** Message fields do not matter to the scheduler. */
  lemma StructMessages(k: K, t: K, running: bool)
    requires Struct(k, running) && Sizes(t) && t.lists == k.lists && t.keys == k.keys && t.curr == k.curr
    requires forall p | 0 <= p < NPROC ::
               && t.procs[p].state == k.procs[p].state && t.procs[p].prio == k.procs[p].prio
               && t.procs[p].sem == k.procs[p].sem
    ensures Struct(t, running)
  {
    forall n, p | 0 <= n < NLISTS && 0 <= p < NPROC ensures p in t.lists[n] <==> Home(t.procs[p]) == n {
      assert p in k.lists[n] <==> Home(k.procs[p]) == n;
    }
  }

  // ----- releasing waiting processes -----

  lemma ReleaseAsDrop(k: K, n: nat)
    requires Tables(k) && Membership(k) && n < NLISTS && n != READYQ && k.lists[n] != []
    ensures k.lists[n][0] < NPROC && Home(k.procs[k.lists[n][0]]) == n
    ensures ReleaseFirst(k, n) == MakeReady(Drop(k, k.lists[n][0], SUSP), k.lists[n][0])
  {
    var p := k.lists[n][0];
    assert p in k.lists[n];
    FirstWithout(k.lists[n]);
    assert SetState(SetState(k, p, SUSP), p, READY).procs == SetState(k, p, READY).procs;
  }

  lemma ReleaseOk(k: K, s: nat)
    requires Struct(k, true) && s < NSEM && k.lists[s] != [] && k.lists[s][0] != NULLPROC
    ensures Tables(k) && Struct(ReleaseFirst(k, s), true) && Frame(k, ReleaseFirst(k, s), {s})
  {
    StructTables(k, true);
    var p := k.lists[s][0];
    ReleaseAsDrop(k, s);
    hide Struct;
    DropWaiting(k, s, p);
    MakeReadyOk(Drop(k, p, SUSP), true, p);
  }

  lemma DropWaiting(k: K, s: nat, p: nat)
    requires Struct(k, true) && p < NPROC && p != NULLPROC && Home(k.procs[p]) == s < NSEM
    ensures k.procs[p].state == WAIT && Tables(k) && Struct(Drop(k, p, SUSP), true)
    ensures Frame(k, Drop(k, p, SUSP), {s}) && Drop(k, p, SUSP).procs[p].state == SUSP
  {
    DropOk(k, true, p, SUSP);
  }

  /** The null process is never on a semaphore's queue or asleep. */
  lemma NullNotWaiting(k: K, running: bool, n: nat)
    requires Struct(k, running) && n < NLISTS && n != READYQ
    ensures NULLPROC !in k.lists[n]
  {
    assert NULLPROC in k.lists[n] <==> Home(k.procs[NULLPROC]) == n;
  }

  lemma SignalOnceOk(k: K, s: nat)
    requires Almost(k, true) && s < NSEM && k.sems[s].used
    ensures Tables(k) && Almost(SignalOnce(k, s), true) && SignalOnce(k, s).sems[s].used
    ensures Frame(k.(sems := SignalOnce(k, s).sems), SignalOnce(k, s), {s})
    ensures SignalOnce(k, s).sems[s].count == k.sems[s].count + 1
    ensures k.sems[s].count < 0 ==> k.lists[s] != []
    ensures k.sems[s].count >= 0 ==> SignalOnce(k, s).lists == k.lists && SignalOnce(k, s).procs == k.procs
    ensures SignalOnce(k, s).lists[s] == if k.lists[s] == [] then [] else k.lists[s][1..]
  {
    StructTables(k, true);
    var k1 := SetCount(k, s, k.sems[s].count + 1);
    StructSame(k, k1, true);
    NullNotWaiting(k, true, s);
    assert SemFine(k.sems[s], k.lists[s]);
    if k.sems[s].count < 0 {
      ReleaseOk(k1, s);
    }
    hide Struct;
    var t := SignalOnce(k, s);
    forall r | 0 <= r < NSEM ensures SemFine(t.sems[r], t.lists[r]) {
      assert SemFine(k.sems[r], k.lists[r]);
    }
  }

  lemma {:induction false} SignalTimesOk(k: K, s: nat, n: nat)
    requires Almost(k, true) && s < NSEM && k.sems[s].used
    ensures Tables(k) && Almost(SignalTimes(k, s, n), true)
    ensures SignalTimes(k, s, n).sems[s] == Sem(true, k.sems[s].count + n)
    ensures Frame(k.(sems := SignalTimes(k, s, n).sems), SignalTimes(k, s, n), {s})
    decreases n
  {
    hide Almost, SignalOnce;
    AlmostTables(k);
    if n > 0 {
      SignalTimesOk(k, s, n - 1);
      SignalOnceOk(SignalTimes(k, s, n - 1), s);
    }
  }

  lemma {:induction false} ReleaseAllOk(k: K, s: nat)
    requires Struct(k, true) && s < NSEM
    ensures Tables(k) && Struct(ReleaseAll(k, s), true) && Frame(k, ReleaseAll(k, s), {s})
    ensures ReleaseAll(k, s).lists[s] == []
    decreases if s < |k.lists| then |k.lists[s]| else 0
  {
    StructTables(k, true);
    if k.lists[s] != [] {
      NullNotWaiting(k, true, s);
      hide Struct;
      ReleaseOk(k, s);
      ReleaseAllOk(ReleaseFirst(k, s), s);
    }
  }

  // ----- the clock -----

  /** Struct, except that the first delay may have run out. */
  ghost predicate Expiring(k: K) {
    && Sizes(k) && Membership(k) && ReadyOk(k)
    && (forall i | 1 <= i < |k.lists[SLEEPQ]| :: k.keys[k.lists[SLEEPQ][i]] >= 0)
    && (forall p | 0 <= p < NPROC :: k.procs[p].state == CURR <==> p == k.curr)
    && k.procs[NULLPROC].state in {READY, CURR}
  }

  lemma WakeStep(k: K)
    requires Expiring(k) && k.lists[SLEEPQ] != []
    ensures Tables(k) && Expiring(ReleaseFirst(k, SLEEPQ)) && Frame(k, ReleaseFirst(k, SLEEPQ), {SLEEPQ})
    ensures ReleaseFirst(k, SLEEPQ).lists[SLEEPQ] == k.lists[SLEEPQ][1..]
    ensures NonNegative(k.lists[SLEEPQ][1..], ReleaseFirst(k, SLEEPQ).keys)
  {
    hide MakeReady;
    WakeMoves(k);
    var l := k.lists[SLEEPQ];
    var p := l[0];
    ReleaseAsDrop(k, SLEEPQ);
    DropListed(k, p, SUSP);
    MakeReadyBasic(Drop(k, p, SUSP), p);
    var t := ReleaseFirst(k, SLEEPQ);
    hide Membership, ReadyOk, ReleaseFirst;
    assert forall q | 0 <= q < NPROC && q != p :: t.procs[q] == k.procs[q];
  }

  /** Waking the first sleeper changes its own entry and the ready list only. */
  lemma WakeMoves(k: K)
    requires Expiring(k) && k.lists[SLEEPQ] != []
    ensures Tables(k) && Frame(k, ReleaseFirst(k, SLEEPQ), {SLEEPQ})
    ensures ReleaseFirst(k, SLEEPQ).procs == SetState(k, k.lists[SLEEPQ][0], READY).procs
    ensures forall i | 1 <= i < |k.lists[SLEEPQ]| ::
              ReleaseFirst(k, SLEEPQ).keys[k.lists[SLEEPQ][i]] == k.keys[k.lists[SLEEPQ][i]]
  {
    assert forall i | 1 <= i < |k.lists[SLEEPQ]| :: k.lists[SLEEPQ][i] != k.lists[SLEEPQ][0];
    hide Membership, ReadyOk;
  }

  lemma {:induction false} WakeOk(k: K)
    requires Expiring(k) && (k.lists[SLEEPQ] != [] && FirstKey(k, SLEEPQ) > 0 ==> NonNegative(k.lists[SLEEPQ], k.keys))
    ensures Tables(k) && Struct(WakeExpired(k), true) && Frame(k, WakeExpired(k), {SLEEPQ})
    decreases |k.lists[SLEEPQ]|
  {
    assert Tables(k);
    if k.lists[SLEEPQ] != [] && FirstKey(k, SLEEPQ) <= 0 {
      WakeStep(k);
      hide Expiring;
      WakeOk(ReleaseFirst(k, SLEEPQ));
    }
  }

  lemma TickOk(k: K)
    requires Inv(k)
    ensures Tables(k) && Inv(TickCall(k))
  {
    StructTables(k, true);
    if k.lists[SLEEPQ] != [] {
      var k1, l := Ticked(k), k.lists[SLEEPQ];
      TickedExpiring(k);
      if FirstKey(k1, SLEEPQ) <= 0 {
        WakeOk(k1);
        hide Struct, Expiring;
        SemsKept(k, WakeExpired(k1));
        ReschedOk(WakeExpired(k1), true);
      } else {
        assert forall i | 0 <= i < |l| :: k1.keys[l[i]] >= 0;
      }
    }
  }

  lemma TickedExpiring(k: K)
    requires Struct(k, true) && k.lists[SLEEPQ] != []
    ensures Tables(k) && Expiring(Ticked(k)) && Ticked(k).lists == k.lists
    ensures forall i | 1 <= i < |k.lists[SLEEPQ]| :: Ticked(k).keys[k.lists[SLEEPQ][i]] == k.keys[k.lists[SLEEPQ][i]]
  {
    var l := k.lists[SLEEPQ];
    assert l[0] in l;
    ReadyMembers(k);
    DescendingKept(k.lists[READYQ], k.keys, Ticked(k).keys);
  }

  // ----- each call keeps the invariant -----

  /** Queues and counts fit after a change to one semaphore. */
  lemma SemsChanged(k: K, t: K, s: nat)
    requires Sizes(k) && Sizes(t) && SemsOk(k) && s < NSEM && SemFine(t.sems[s], t.lists[s])
    requires forall r | 0 <= r < NSEM && r != s :: t.sems[r] == k.sems[r] && t.lists[r] == k.lists[r]
    ensures SemsOk(t)
  {
  }

  lemma WaitOk(k: K, s: int)
    requires Inv(k) && Enabled(k, Wait(s))
    ensures Tables(k) && Inv(WaitCall(k, s).0)
  {
    hide Inv, Struct, Almost, SemsOk, Resched;
    InvParts(k);
    InvSems(k);
    if GoodSem(k, s) {
      var k1 := SetCount(k, s, k.sems[s].count - 1);
      StructSame(k, k1, true);
      if k1.sems[s].count < 0 {
        EnqueuedOk(k1, s);
        var t := Enqueued(k1, s);
        SemsChanged(k, t, s);
        MakeAlmost(t, false);
        ReschedOk(t, false);
      } else {
        SemsChanged(k, k1, s);
        PrioSame(k, k1);
      }
    }
  }

  /** The priority rule does not look at semaphores, messages or counters. */
  lemma PrioSame(k: K, t: K)
    requires Inv(k) && Struct(t, true) && SemsOk(t) && t.preempt >= 1 && t.nextsem < NSEM
    requires t.procs == k.procs && t.curr == k.curr && t.ndefers == k.ndefers && t.attempt == k.attempt
    ensures Inv(t)
  {
  }

  lemma SignalOk(k: K, s: int)
    requires Inv(k)
    ensures Tables(k) && Inv(SignalCall(k, s).0)
  {
    hide Inv, Struct, Almost, SemsOk, Resched, SignalOnce;
    InvParts(k);
    if GoodSem(k, s) {
      SignalOnceOk(k, s);
      if k.sems[s].count < 0 {
        ReschedOk(SignalOnce(k, s), true);
      } else {
        SignalFree(k, s);
      }
    }
  }

  lemma SignalFree(k: K, s: nat)
    requires Inv(k) && s < NSEM && k.sems[s].used && k.sems[s].count >= 0
    ensures Tables(k) && Inv(SignalOnce(k, s))
  {
    hide Inv, Struct, SemsOk;
    InvParts(k);
    InvSems(k);
    var k1 := SetCount(k, s, k.sems[s].count + 1);
    StructSame(k, k1, true);
    SemsChanged(k, k1, s);
    PrioSame(k, k1);
  }

  lemma SignalnOk(k: K, s: int, n: int)
    requires Inv(k)
    ensures Tables(k) && Inv(SignalnCall(k, s, n).0)
  {
    hide Inv, Struct, Almost, Resched;
    InvParts(k);
    if GoodSem(k, s) && n >= 0 {
      SignalTimesOk(k, s, n);
      ReschedOk(SignalTimes(k, s, n), true);
    }
  }

  lemma SemDeleteOk(k: K, s: int)
    requires Inv(k)
    ensures Tables(k) && Inv(SemDeleteCall(k, s).0)
    ensures GoodSem(k, s) ==> SemDeleteCall(k, s).0.lists[s] == []
  {
    hide Inv, Struct, Almost, SemsOk, Resched, ReleaseAll;
    InvParts(k);
    InvSems(k);
    if GoodSem(k, s) {
      var c := k.sems[s].count;
      var k1 := k.(sems := k.sems[s := Sem(false, (if c < 0 then 0 else c) + 1)]);
      StructSame(k, k1, true);
      assert SemFine(k.sems[s], k.lists[s]);
      if c < 0 { ReleaseAllOk(k1, s); }
      var t := if c < 0 then ReleaseAll(k1, s) else k1;
      ReleasedSems(k, s, t);
      MakeAlmost(t, true);
      ReschedOk(t, true);
    }
  }

  /** With its queue empty an entry is fine whatever its new count says. */
  lemma ReleasedSems(k: K, s: nat, t: K)
    requires Sizes(k) && Sizes(t) && SemsOk(k) && s < NSEM && t.lists[s] == []
    requires forall r | 0 <= r < NSEM && r != s :: t.sems[r] == k.sems[r] && t.lists[r] == k.lists[r]
    requires !t.sems[s].used || t.sems[s].count >= 0
    ensures SemsOk(t)
  {
  }

  lemma SemResetOk(k: K, s: int, c: int)
    requires Inv(k)
    ensures Tables(k) && Inv(SemResetCall(k, s, c).0)
    ensures c >= 0 && GoodSem(k, s) ==>
              SemResetCall(k, s, c).0.lists[s] == [] && SemResetCall(k, s, c).0.sems[s] == Sem(true, c)
  {
    hide Inv, Struct, Almost, SemsOk, Resched, ReleaseAll;
    InvParts(k);
    InvSems(k);
    if GoodSem(k, s) && c >= 0 {
      ReleaseAllOk(k, s);
      var t := SetCount(ReleaseAll(k, s), s, c);
      StructSame(ReleaseAll(k, s), t, true);
      ReleasedSems(k, s, t);
      MakeAlmost(t, true);
      ReschedOk(t, true);
    }
  }

  lemma SemCreateOk(k: K, c: int)
    requires Inv(k)
    ensures Tables(k) && Inv(SemCreateCall(k, c).0)
  {
    StructTables(k, true);
    var t, s := SemCreateCall(k, c).0, FreeSem(k.sems, k.nextsem, NSEM).0;
    StructSame(k, t, true);
    if c >= 0 && s >= 0 { assert SemFine(k.sems[s], k.lists[s]); }
    hide Struct;
    forall r | 0 <= r < NSEM ensures SemFine(t.sems[r], t.lists[r]) {
      assert SemFine(k.sems[r], k.lists[r]);
    }
  }

  /** One ready process fewer does not hurt the priority rule. */
  lemma PrioFewer(k: K, t: K, p: nat)
    requires Inv(k) && Struct(t, true) && SemsOk(t) && t.preempt >= 1 && t.nextsem < NSEM && p < NPROC && p != k.curr
    requires t.curr == k.curr && t.ndefers == k.ndefers && t.attempt == k.attempt && t.procs[p].state != READY
    requires forall q | 0 <= q < NPROC && q != p :: t.procs[q] == k.procs[q]
    ensures Inv(t)
  {
  }

  /** A process that is neither current nor waiting is taken out of the game. */
  lemma DropInv(k: K, p: nat, st: PState)
    requires Inv(k) && p < NPROC && p != NULLPROC && k.procs[p].state !in {CURR, SLEEP, RECTIM, WAIT}
    requires st in {FREE, SUSP}
    ensures Tables(k) && -1 <= Home(k.procs[p]) < NLISTS && Inv(Drop(k, p, st))
  {
    hide Inv, Struct, SemsOk;
    InvParts(k);
    InvSems(k);
    InvCurr(k, p);
    DropOk(k, true, p, st);
    SemsKept(k, Drop(k, p, st));
    PrioFewer(k, Drop(k, p, st), p);
  }

  lemma SuspendOk(k: K, p: int)
    requires Inv(k) && Enabled(k, Suspend(p))
    ensures Tables(k) && (0 <= p < NPROC ==> -1 <= Home(k.procs[p]) < NLISTS) && Inv(SuspendCall(k, p).0)
  {
    hide Inv, Struct, Almost, SemsOk, Resched, Drop;
    InvParts(k);
    InvSems(k);
    if 0 <= p < NPROC {
      StructHome(k, p);
      InvCurr(k, p);
      if p != NULLPROC && k.procs[p].state == READY {
        DropInv(k, p, SUSP);
      } else if p != NULLPROC && k.procs[p].state == CURR {
        StopOk(k, SUSP);
        SemsKept(k, SetState(k, p, SUSP));
        MakeAlmost(SetState(k, p, SUSP), false);
        ReschedOk(SetState(k, p, SUSP), false);
      }
    }
  }

  lemma StructHome(k: K, p: nat)
    requires Struct(k, true) && p < NPROC
    ensures -1 <= Home(k.procs[p]) < NLISTS
  {
  }

  lemma ResumeOk(k: K, p: int)
    requires Inv(k)
    ensures Tables(k) && Inv(ResumeCall(k, p).0)
  {
    hide Inv, Struct, Almost, SemsOk, Resched, DescPos;
    InvParts(k);
    InvSems(k);
    if GoodPid(k, p) && k.procs[p].state == SUSP {
      MakeReadyOk(k, true, p);
      SemsKept(k, MakeReady(k, p));
      MakeAlmost(MakeReady(k, p), true);
      ReschedOk(MakeReady(k, p), true);
    }
  }

  lemma CreateOk(k: K, sizeOk: bool, prio: int, stackOk: bool)
    requires Inv(k) && prio < 0x8000
    ensures Tables(k) && Inv(CreateCall(k, sizeOk, prio, stackOk).0)
  {
    StructTables(k, true);
    var t, p := CreateCall(k, sizeOk, prio, stackOk).0, FreePid(k.procs, k.nextpid, NPROC).0;
    if sizeOk && prio > 0 && p >= 0 && stackOk {
      NoListMembership(k, t, p);
      hide Membership, Descending;
    }
  }

  lemma KillOk(k: K, p: nat)
    requires Inv(k) && Enabled(k, Kill(p))
    ensures Tables(k) && -1 <= Home(k.procs[p]) < NLISTS && Inv(KillCall(k, p))
  {
    hide Inv, Struct, Almost, SemsOk, Resched, Drop, DropSleeper;
    InvParts(k);
    InvSems(k);
    InvCurr(k, p);
    StructHome(k, p);
    match k.procs[p].state
    case CURR =>
      StopOk(k, FREE);
      SemsKept(k, SetState(k, p, FREE));
      MakeAlmost(SetState(k, p, FREE), false);
      ReschedOk(SetState(k, p, FREE), false);
    case SLEEP => KillSleeperOk(k, p);
    case RECTIM => KillSleeperOk(k, p);
    case WAIT => KillWaiterOk(k, p);
    case _ => DropInv(k, p, FREE);
  }

  lemma KillSleeperOk(k: K, p: nat)
    requires Inv(k) && p < NPROC && k.procs[p].state in {SLEEP, RECTIM}
    ensures Tables(k) && Inv(DropSleeper(k, p, FREE))
  {
    hide Inv, Struct, SemsOk, Without, UnsleptKeys;
    InvParts(k);
    InvSems(k);
    InvCurr(k, p);
    DropSleeperOk(k, true, p, FREE);
    SemsKept(k, DropSleeper(k, p, FREE));
    PrioFewer(k, DropSleeper(k, p, FREE), p);
  }

  lemma WaiterFacts(k: K, p: nat)
    requires Inv(k) && p < NPROC && k.procs[p].state == WAIT
    ensures var s := k.procs[p].sem;
      && s < NSEM && k.sems[s].used && p in k.lists[s] && NoDup(k.lists[s])
      && k.sems[s].count < 0 && |k.lists[s]| == -k.sems[s].count
  {
    assert p in k.lists[k.procs[p].sem] && SemFine(k.sems[k.procs[p].sem], k.lists[k.procs[p].sem]);
  }

  /** A killed waiter gives its place in the count back. */
  lemma KillWaiterOk(k: K, p: nat)
    requires Inv(k) && p < NPROC && p != NULLPROC && k.procs[p].state == WAIT
    ensures Tables(k) && -1 <= Home(k.procs[p]) < NLISTS && Inv(KillCall(k, p))
    ensures var s := k.procs[p].sem; s < NSEM && k.sems[s].used && p in k.lists[s] && k.sems[s].count < 0
    ensures KillCall(k, p).lists[k.procs[p].sem] == Without(k.lists[k.procs[p].sem], p)
    ensures KillCall(k, p).sems == k.sems[k.procs[p].sem := Sem(true, k.sems[k.procs[p].sem].count + 1)]
  {
    hide Inv, Struct, SemsOk, Without, NoDup;
    InvParts(k);
    InvSems(k);
    InvCurr(k, p);
    WaiterFacts(k, p);
    var s := k.procs[p].sem;
    var k1 := SetCount(k, s, k.sems[s].count + 1);
    StructSame(k, k1, true);
    WithoutMembers(k.lists[s], p);
    DropOk(k1, true, p, FREE);
    var t := Drop(k1, p, FREE);
    SemsChanged(k, t, s);
    PrioFewer(k, t, p);
  }

  lemma SendOk(k: K, p: int, msg: int)
    requires Inv(k)
    ensures Tables(k) && Inv(SendCall(k, p, msg).0)
  {
    hide Inv, Struct, Almost, SemsOk, Resched, Without, UnsleptKeys, DescPos;
    InvParts(k);
    InvSems(k);
    if GoodPid(k, p) && !k.procs[p].hasmsg {
      var k1 := k.(procs := k.procs[p := k.procs[p].(msg := msg, hasmsg := true)]);
      StructMessages(k, k1, true);
      if k.procs[p].state == RECV {
        MakeReadyOk(k1, true, p);
        SemsKept(k, MakeReady(k1, p));
        MakeAlmost(MakeReady(k1, p), true);
        ReschedOk(MakeReady(k1, p), true);
      } else if k.procs[p].state == RECTIM {
        DropSleeperOk(k1, true, p, SUSP);
        var k2 := DropSleeper(k1, p, SUSP);
        MakeReadyOk(k2, true, p);
        SemsKept(k, MakeReady(k2, p));
        MakeAlmost(MakeReady(k2, p), true);
        ReschedOk(MakeReady(k2, p), true);
      } else {
        SemsKept(k, k1);
        MessagesInv(k, k1);
      }
    }
  }

  lemma MessagesInv(k: K, t: K)
    requires Inv(k) && Struct(t, true) && SemsOk(t) && t.(procs := k.procs) == k
    requires forall p | 0 <= p < NPROC :: t.procs[p].state == k.procs[p].state && t.procs[p].prio == k.procs[p].prio
    ensures Inv(t)
  {
  }

  lemma TakeOk(k: K)
    requires Inv(k)
    ensures Tables(k) && Inv(TakeMessage(k).0) && Inv(TakeOrTimeout(k).0)
  {
    StructTables(k, true);
    StructMessages(k, TakeMessage(k).0, true);
  }

  lemma ReceiveOk(k: K)
    requires Inv(k) && MayBlock(k)
    ensures Tables(k) && Inv(ReceiveBlock(k))
  {
    StructTables(k, true);
    StopOk(k, RECV);
    hide Struct;
    ReschedOk(SetState(k, k.curr, RECV), false);
  }

  lemma DelayOk(k: K, delay: int, st: PState)
    requires Inv(k) && MayBlock(k) && delay >= 0 && st in {SLEEP, RECTIM}
    ensures Tables(k) && Inv(Resched(Delayed(k, delay, st)))
  {
    StructTables(k, true);
    DelayedOk(k, delay, st);
    hide Struct;
    SemsKept(k, Delayed(k, delay, st));
    ReschedOk(Delayed(k, delay, st), false);
  }

  lemma RecvTimeOk(k: K, d: int)
    requires Inv(k) && Enabled(k, RecvTime(d))
    ensures Tables(k)
    ensures Inv(if d < 0 then k else if k.procs[k.curr].hasmsg then TakeMessage(k).0 else RecvTimeBlock(k, d))
  {
    hide Inv, Resched, Delayed;
    InvParts(k);
    if d >= 0 {
      if k.procs[k.curr].hasmsg { TakeOk(k); } else { DelayOk(k, d, RECTIM); }
    }
  }

  lemma SleepOk(k: K, d: nat)
    requires Inv(k) && Enabled(k, Sleep(d))
    ensures Tables(k) && Inv(SleepCall(k, d))
  {
    hide Inv, Resched, Delayed;
    InvParts(k);
    if d == 0 { YieldOk(k); } else { DelayOk(k, d, SLEEP); }
  }

  lemma QuantumOk(k: K)
    requires Inv(k)
    ensures Tables(k) && Inv(QuantumCall(k))
  {
    StructTables(k, true);
    StructSame(k, k.(preempt := QUANTUM), true);
    StructSame(k, k.(preempt := if k.preempt > 1 then k.preempt - 1 else 1), true);
    hide Struct;
    if k.preempt <= 1 { ReschedOk(k.(preempt := QUANTUM), true); }
  }

  lemma DeferOk(k: K)
    requires Inv(k)
    ensures Tables(k) && Inv(DeferStart(k)) && Inv(DeferStop(k).0)
  {
    StructTables(k, true);
    StructSame(k, DeferStart(k), true);
    if k.ndefers > 0 {
      var k1 := k.(ndefers := k.ndefers - 1);
      StructSame(k, k1, true);
      hide Struct;
      if k1.ndefers == 0 && k1.attempt { ReschedOk(k1, true); }
    }
  }

  lemma YieldOk(k: K)
    requires Inv(k)
    ensures Tables(k) && Inv(Resched(k))
  {
    StructTables(k, true);
    ReschedOk(k, true);
  }

  lemma SemStepInv(k: K, c: Call)
    requires Inv(k) && Enabled(k, c)
    requires c.Wait? || c.Signal? || c.Signaln? || c.SemCreate? || c.SemDelete? || c.SemReset?
    ensures Inv(Step(k, c))
  {
    hide Inv, Resched, WaitCall, SignalCall, SignalnCall, SemCreateCall, SemDeleteCall, SemResetCall;
    InvParts(k);
    match c
    case Wait(s) => WaitOk(k, s);
    case Signal(s) => SignalOk(k, s);
    case Signaln(s, n) => SignalnOk(k, s, n);
    case SemCreate(c) => SemCreateOk(k, c);
    case SemDelete(s) => SemDeleteOk(k, s);
    case SemReset(s, c) => SemResetOk(k, s, c);
  }

  /** Every call keeps the invariant. */
  lemma StepInv(k: K, c: Call)
    requires Inv(k) && Enabled(k, c)
    ensures Inv(Step(k, c))
  {
    hide Inv, Resched, SuspendCall, ResumeCall,
      CreateCall, KillCall, SendCall, ReceiveBlock, RecvTimeBlock, TakeMessage, TakeOrTimeout,
      SleepCall, TickCall, QuantumCall, DeferStart, DeferStop;
    InvParts(k);
    match c
    case Suspend(p) => SuspendOk(k, p);
    case Resume(p) => ResumeOk(k, p);
    case Create(sizeOk, prio, stackOk) => CreateOk(k, sizeOk, prio, stackOk);
    case Kill(p) => KillOk(k, p);
    case Send(p, msg) => SendOk(k, p, msg);
    case Receive => if k.procs[k.curr].hasmsg { TakeOk(k); } else { ReceiveOk(k); }
    case ReceiveDone => TakeOk(k);
    case RecvTime(d) => RecvTimeOk(k, d);
    case RecvTimeDone => TakeOk(k);
    case Sleep(delay) => SleepOk(k, delay);
    case Yield => YieldOk(k);
    case Tick => TickOk(k);
    case Quantum => QuantumOk(k);
    case StartDefer => DeferOk(k);
    case StopDefer => DeferOk(k);
    case _ => SemStepInv(k, c);
  }
}
