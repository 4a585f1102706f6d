/** Sleeping processes over whole runs: who is woken, and on which tick. */
module KernelTime {
  import opened QueueModel
  import opened KernelModel
  import opened KernelCalls
  import opened KernelInv
  import opened KernelRuns

  predicate Asleep(k: K, p: nat)
    requires p < |k.procs|
  {
    k.procs[p].state == SLEEP || k.procs[p].state == RECTIM
  }

  /** The ticks left before p is due. */
  ghost function Left(k: K, p: nat): int
    requires Sizes(k) && Pids(k.lists[SLEEPQ])
  {
    Remaining(k.lists[SLEEPQ], k.keys, p)
  }

  // ----- the delta list under a tick -----

  /** What wakeup leaves of a delta list. */
  function Unexpired(l: seq<nat>, keys: seq<int>): (r: seq<nat>)
    requires |keys| == NPROC && Pids(l)
    ensures Pids(r) && |r| <= |l|
  {
    if l == [] || keys[l[0]] > 0 then l else Unexpired(l[1..], keys)
  }

  /** Without negative keys: the due members go, the others keep their time. */
  lemma {:induction false} DueGo(l: seq<nat>, keys: seq<int>, p: nat)
    requires |keys| == NPROC && Pids(l) && NoDup(l) && NonNegative(l, keys) && p in l
    ensures Remaining(l, keys, p) >= 0 && (p in Unexpired(l, keys) <==> Remaining(l, keys, p) > 0)
    ensures p in Unexpired(l, keys) ==> Remaining(Unexpired(l, keys), keys, p) == Remaining(l, keys, p)
    decreases l
  {
    hide Remaining, NoDup, Unexpired;
    PidsTail(l);
    var h, t := l[0], l[1..];
    assert l == [h] + t;
    RemainingCons(h, t, keys, p);
    UnexpiredCons(l, keys);
    NonNegativeTail(l, keys);
    if p != h {
      DueGo(t, keys, p);
    } else if keys[h] <= 0 {
      UnexpiredMembers(t, keys, h);
    }
  }

  lemma UnexpiredCons(l: seq<nat>, keys: seq<int>)
    requires |keys| == NPROC && Pids(l) && l != []
    ensures Pids(l[1..]) && Unexpired(l, keys) == if keys[l[0]] > 0 then l else Unexpired(l[1..], keys)
  {
  }

  lemma NonNegativeTail(l: seq<nat>, keys: seq<int>)
    requires |keys| == NPROC && Pids(l) && l != [] && NonNegative(l, keys)
    ensures Pids(l[1..]) && NonNegative(l[1..], keys) && keys[l[0]] >= 0
  {
  }

  lemma {:induction false} UnexpiredMembers(l: seq<nat>, keys: seq<int>, p: nat)
    requires |keys| == NPROC && Pids(l)
    ensures p in Unexpired(l, keys) ==> p in l
    ensures Unexpired(l, keys) != [] ==> keys[Unexpired(l, keys)[0]] > 0
    decreases l
  {
    if l != [] && keys[l[0]] <= 0 { UnexpiredMembers(l[1..], keys, p); }
  }

  /** The list and keys after a tick. */
  function TickedKeys(l: seq<nat>, keys: seq<int>): (r: seq<int>)
    requires |keys| == NPROC && Pids(l) && l != []
    ensures |r| == NPROC
  {
    keys[l[0] := Decremented(keys[l[0]])]
  }

  /** With the first key at least 1 a tick takes one from every member's time and
      releases those it brings to zero; with the first key 0 it only releases the
      members with no time left. */
  lemma TickList(l: seq<nat>, keys: seq<int>, p: nat)
    requires |keys| == NPROC && Pids(l) && NoDup(l) && NonNegative(l, keys) && p in l
    ensures var u, keys', was := Unexpired(l, TickedKeys(l, keys)), TickedKeys(l, keys), Remaining(l, keys, p);
      var left := if keys[l[0]] >= 1 then was - 1 else was;
      && left >= 0 && (p in u <==> left > 0) && (p in u ==> Remaining(u, keys', p) == left)
  {
    hide Remaining, NoDup, Unexpired;
    PidsTail(l);
    NonNegativeTail(l, keys);
    var h, t, keys' := l[0], l[1..], TickedKeys(l, keys);
    UnexpiredCons(l, keys');
    if keys[h] >= 1 {
      UnsleptHead(l, keys, -1, p);
      DueGo(l, keys', p);
    } else {
      assert l == [h] + t;
      RemainingCons(h, t, keys, p);
      KeptOff(t, keys, keys', h);
      UnexpiredKept(t, keys, keys');
      if p != h {
        DueGo(t, keys, p);
        RemainingKept(Unexpired(t, keys), keys, keys', p);
      } else {
        UnexpiredMembers(t, keys, h);
      }
    }
  }

  lemma KeptOff(t: seq<nat>, keys: seq<int>, keys': seq<int>, h: nat)
    requires |keys| == |keys'| == NPROC && Pids(t) && h < NPROC && h !in t && keys' == keys[h := keys[h] - 1]
    ensures forall i | 0 <= i < |t| :: keys'[t[i]] == keys[t[i]]
  {
  }

  lemma {:induction false} UnexpiredKept(t: seq<nat>, keys: seq<int>, keys': seq<int>)
    requires |keys| == |keys'| == NPROC && Pids(t) && forall i | 0 <= i < |t| :: keys'[t[i]] == keys[t[i]]
    ensures Unexpired(t, keys') == Unexpired(t, keys)
    ensures forall i | 0 <= i < |Unexpired(t, keys)| :: keys'[Unexpired(t, keys)[i]] == keys[Unexpired(t, keys)[i]]
    decreases t
  {
    if t != [] {
      assert keys'[t[0]] == keys[t[0]];
      if keys[t[0]] <= 0 { UnexpiredKept(t[1..], keys, keys'); }
    }
  }

  // ----- what each call does to the sleep list -----

  /** The sleep list of t is l, with these keys. */
  ghost predicate SleepIs(t: K, l: seq<nat>, keys: seq<int>) {
    && Tables(t) && |keys| == NPROC && Pids(l) && t.lists[SLEEPQ] == l
    && forall i | 0 <= i < |l| :: t.keys[l[i]] == keys[l[i]]
  }

  /** The sleep list and its keys after a call. */
  ghost function SleepAfter(k: K, c: Call): (r: (seq<nat>, seq<int>))
    requires Tables(k)
    ensures Pids(r.0) && |r.1| == NPROC
  {
    var l := k.lists[SLEEPQ];
    PidsChanged(l, k.curr);
    match c
    case Tick => if l == [] then (l, k.keys) else (Unexpired(l, TickedKeys(l, k.keys)), TickedKeys(l, k.keys))
    case Sleep(d) =>
      if d == 0 then (l, k.keys) else (DeltaList(l, k.keys, k.curr, d), DeltaKeys(l, k.keys, k.curr, d))
    case RecvTime(d) =>
      if d < 0 || k.procs[k.curr].hasmsg then (l, k.keys)
      else (DeltaList(l, k.keys, k.curr, d), DeltaKeys(l, k.keys, k.curr, d))
    case Kill(p) =>
      PidsChanged(l, p);
      if p < NPROC && Asleep(k, p) then (Without(l, p), UnsleptKeys(l, k.keys, p)) else (l, k.keys)
    case Send(p, _) =>
      if GoodPid(k, p) && !k.procs[p].hasmsg && k.procs[p].state == RECTIM
      then (PidsChanged(l, p); (Without(l, p), UnsleptKeys(l, k.keys, p))) else (l, k.keys)
    case _ => (l, k.keys)
  }

  /** Making a process ready that does not sleep. */
  lemma ReadySleep(k: K, p: nat, l: seq<nat>, keys: seq<int>)
    requires SleepIs(k, l, keys) && p < NPROC && p !in l
    ensures SleepIs(MakeReady(k, p), l, keys)
  {
    hide DescPos;
  }

  lemma ReschedSleep(k: K, l: seq<nat>, keys: seq<int>)
    requires SleepIs(k, l, keys) && (k.procs[k.curr].state == CURR ==> k.curr !in l)
    ensures SleepIs(Resched(k), l, keys)
  {
    hide DescPos;
  }

  lemma SleepStart(k: K)
    requires Inv(k)
    ensures SleepIs(k, k.lists[SLEEPQ], k.keys) && k.curr !in k.lists[SLEEPQ]
    ensures forall p | 0 <= p < NPROC :: p in k.lists[SLEEPQ] <==> Asleep(k, p)
    ensures NoDup(k.lists[SLEEPQ]) && NonNegative(k.lists[SLEEPQ], k.keys)
  {
    forall p | 0 <= p < NPROC ensures p in k.lists[SLEEPQ] <==> Asleep(k, p) {
      StateIsQueue(k, p, SLEEPQ);
    }
  }

  lemma ReleaseSleep(k: K, s: nat, l: seq<nat>, keys: seq<int>)
    requires Struct(k, true) && s < NSEM && k.lists[s] != [] && SleepIs(k, l, keys)
    ensures Tables(k) && SleepIs(ReleaseFirst(k, s), l, keys)
  {
    var p := k.lists[s][0];
    assert p in k.lists[s];
    assert p !in k.lists[SLEEPQ];
    PidsChanged(k.lists[s], 0);
    ReadySleep(k.(lists := k.lists[s := k.lists[s][1..]]), p, l, keys);
  }

  lemma SignalSleep(k: K, s: nat, l: seq<nat>, keys: seq<int>)
    requires Almost(k, true) && s < NSEM && SleepIs(k, l, keys)
    ensures Tables(k) && SleepIs(SignalOnce(k, s), l, keys)
  {
    var k1 := SetCount(k, s, k.sems[s].count + 1);
    StructSame(k, k1, true);
    if k.sems[s].count < 0 && k.lists[s] != [] { ReleaseSleep(k1, s, l, keys); }
  }

  lemma {:induction false} SignalTimesSleep(k: K, s: nat, n: nat, l: seq<nat>, keys: seq<int>)
    requires Almost(k, true) && s < NSEM && k.sems[s].used && SleepIs(k, l, keys)
    ensures Tables(k) && SleepIs(SignalTimes(k, s, n), l, keys)
    decreases n
  {
    hide Almost, SleepIs, SignalOnce;
    AlmostTables(k);
    if n > 0 {
      SignalTimesSleep(k, s, n - 1, l, keys);
      SignalTimesOk(k, s, n - 1);
      SignalSleep(SignalTimes(k, s, n - 1), s, l, keys);
    }
  }

  lemma {:induction false} ReleaseAllSleep(k: K, s: nat, l: seq<nat>, keys: seq<int>)
    requires Struct(k, true) && s < NSEM && SleepIs(k, l, keys)
    ensures Tables(k) && SleepIs(ReleaseAll(k, s), l, keys)
    decreases if s < |k.lists| then |k.lists[s]| else 0
  {
    StructTables(k, true);
    if k.lists[s] != [] {
      NullNotWaiting(k, true, s);
      hide Struct, SleepIs;
      ReleaseOk(k, s);
      ReleaseSleep(k, s, l, keys);
      ReleaseAllSleep(ReleaseFirst(k, s), s, l, keys);
    }
  }

  /** wakeup's loop leaves the unexpired part of the list, and what it removes is
      ready. */
  lemma {:induction false} WakeSleep(k: K)
    requires Expiring(k)
    ensures Tables(k) && SleepIs(WakeExpired(k), Unexpired(k.lists[SLEEPQ], k.keys), k.keys)
    ensures WakeExpired(k).curr == k.curr && |WakeExpired(k).procs| == NPROC
    ensures forall p | 0 <= p < NPROC :: WakeExpired(k).procs[p].state in {k.procs[p].state, READY}
    decreases |k.lists[SLEEPQ]|
  {
    assert Tables(k);
    var l := k.lists[SLEEPQ];
    if l != [] && FirstKey(k, SLEEPQ) <= 0 {
      WakeStep(k);
      WakeMoves(k);
      hide Expiring, ReleaseFirst;
      var k1 := ReleaseFirst(k, SLEEPQ);
      WakeSleep(k1);
      assert forall i | 0 <= i < |l[1..]| :: k1.keys[l[1..][i]] == k.keys[l[1..][i]];
      UnexpiredKept(l[1..], k.keys, k1.keys);
    }
  }

  lemma SemSleep(k: K, c: Call)
    requires Inv(k) && Enabled(k, c) && (c.Wait? || c.Signal? || c.Signaln? || c.SemDelete? || c.SemReset?)
    ensures SleepIs(Step(k, c), k.lists[SLEEPQ], k.keys)
  {
    hide SleepIs, Inv, Struct, Almost, SemsOk, Resched, ReleaseAll, SignalOnce;
    InvParts(k);
    InvSems(k);
    SleepStart(k);
    var l, keys := k.lists[SLEEPQ], k.keys;
    match c
    case Wait(s) => WaitSleep(k, s);
    case Signal(s) =>
      if GoodSem(k, s) {
        SignalSleep(k, s, l, keys);
        SignalOnceOk(k, s);
        ReschedRunning(SignalOnce(k, s), l, keys);
      }
    case Signaln(s, n) =>
      if GoodSem(k, s) && n >= 0 {
        SignalTimesSleep(k, s, n, l, keys);
        SignalTimesOk(k, s, n);
        ReschedRunning(SignalTimes(k, s, n), l, keys);
      }
    case SemDelete(s) => DeleteSleep(k, s);
    case SemReset(s, n) => ResetSleep(k, s, n);
  }

  /** Rescheduling with the current process running. */
  lemma ReschedRunning(k: K, l: seq<nat>, keys: seq<int>)
    requires Almost(k, true) && SleepIs(k, l, keys)
    ensures SleepIs(Resched(k), l, keys)
  {
    NotOnList(k, k.curr, SLEEPQ);
    ReschedSleep(k, l, keys);
  }

  lemma WaitSleep(k: K, s: int)
    requires Inv(k) && Enabled(k, Wait(s))
    ensures Tables(k) && SleepIs(WaitCall(k, s).0, k.lists[SLEEPQ], k.keys)
  {
    InvParts(k);
    hide Inv, Struct, Resched;
    if GoodSem(k, s) && k.sems[s].count <= 0 {
      ReschedSleep(Enqueued(SetCount(k, s, k.sems[s].count - 1), s), k.lists[SLEEPQ], k.keys);
    }
  }

  lemma DeleteSleep(k: K, s: int)
    requires Inv(k)
    ensures Tables(k) && SleepIs(SemDeleteCall(k, s).0, k.lists[SLEEPQ], k.keys)
  {
    hide SleepIs, Inv, Struct, SemsOk, Almost, ReleaseAll, Resched;
    InvParts(k);
    InvSems(k);
    SleepStart(k);
    if GoodSem(k, s) {
      var c := k.sems[s].count;
      var k1 := k.(sems := k.sems[s := Sem(false, (if c < 0 then 0 else c) + 1)]);
      StructSame(k, k1, true);
      SleepSems(k, k1.sems);
      assert SemFine(k.sems[s], k.lists[s]);
      if c < 0 {
        ReleaseAllOk(k1, s);
        ReleaseAllSleep(k1, s, k.lists[SLEEPQ], k.keys);
      }
      var t := if c < 0 then ReleaseAll(k1, s) else k1;
      ReleasedSems(k, s, t);
      MakeAlmost(t, true);
      ReschedRunning(t, k.lists[SLEEPQ], k.keys);
    }
  }

  lemma SleepSems(k: K, sems: seq<Sem>)
    requires Tables(k) && |sems| == NSEM
    ensures SleepIs(k.(sems := sems), k.lists[SLEEPQ], k.keys)
    ensures forall l, keys | SleepIs(k, l, keys) :: SleepIs(k.(sems := sems), l, keys)
  {
  }

  lemma ResetSleep(k: K, s: int, n: int)
    requires Inv(k)
    ensures Tables(k) && SleepIs(SemResetCall(k, s, n).0, k.lists[SLEEPQ], k.keys)
  {
    hide SleepIs, Inv, Struct, SemsOk, Almost, ReleaseAll, Resched;
    InvParts(k);
    InvSems(k);
    SleepStart(k);
    if GoodSem(k, s) && n >= 0 {
      ReleaseAllOk(k, s);
      ReleaseAllSleep(k, s, k.lists[SLEEPQ], k.keys);
      var t := SetCount(ReleaseAll(k, s), s, n);
      SleepSems(ReleaseAll(k, s), t.sems);
      StructSame(ReleaseAll(k, s), t, true);
      ReleasedSems(k, s, t);
      MakeAlmost(t, true);
      ReschedRunning(t, k.lists[SLEEPQ], k.keys);
    }
  }

  /** kill and send take a sleeping process off the list as unsleep does. */
  lemma KillSleep(k: K, p: nat)
    requires Inv(k) && Enabled(k, Kill(p))
    ensures Tables(k) && -1 <= Home(k.procs[p]) < NLISTS
    ensures SleepIs(KillCall(k, p), SleepAfter(k, Kill(p)).0, SleepAfter(k, Kill(p)).1)
  {
    hide Inv, Struct, Resched, Without, UnsleptKeys;
    InvParts(k);
    KillOk(k, p);
    SleepStart(k);
    if k.procs[p].state == CURR {
      ReschedSleep(SetState(k, p, FREE), k.lists[SLEEPQ], k.keys);
      StateIsQueue(k, p, SLEEPQ);
    }
  }

  lemma SendSleep(k: K, p: int, msg: int)
    requires Inv(k)
    ensures Tables(k) && SleepIs(SendCall(k, p, msg).0, SleepAfter(k, Send(p, msg)).0, SleepAfter(k, Send(p, msg)).1)
  {
    hide Inv, Struct, Resched, Without, UnsleptKeys, MakeReady;
    InvParts(k);
    SleepStart(k);
    if GoodPid(k, p) && !k.procs[p].hasmsg {
      var l := k.lists[SLEEPQ];
      var k1 := k.(procs := k.procs[p := k.procs[p].(msg := msg, hasmsg := true)]);
      CurrRuns(k, p);
      WithoutMembers(l, p);
      if k.procs[p].state == RECV {
        ReadySleep(k1, p, l, k.keys);
        ReadyCurr(k1, p);
        ReschedSleep(MakeReady(k1, p), l, k.keys);
      } else if k.procs[p].state == RECTIM {
        PidsChanged(l, p);
        ReadySleep(DropSleeper(k1, p, SUSP), p, Without(l, p), UnsleptKeys(l, k.keys, p));
        ReadyCurr(DropSleeper(k1, p, SUSP), p);
        ReschedSleep(MakeReady(DropSleeper(k1, p, SUSP), p), Without(l, p), UnsleptKeys(l, k.keys, p));
      }
    }
  }

  lemma CurrRuns(k: K, p: int)
    requires Inv(k) && GoodPid(k, p)
    ensures k.procs[p].state == CURR <==> p == k.curr
  {
  }

  lemma ReadyCurr(k: K, p: nat)
    requires Tables(k) && p < NPROC
    ensures MakeReady(k, p).curr == k.curr
  {
  }

  lemma DelaySleep(k: K, d: nat, st: PState)
    requires Inv(k) && st in {SLEEP, RECTIM}
    ensures Tables(k)
    ensures SleepIs(Resched(Delayed(k, d, st)), DeltaList(k.lists[SLEEPQ], k.keys, k.curr, d),
                    DeltaKeys(k.lists[SLEEPQ], k.keys, k.curr, d))
  {
    hide Inv, Resched, DeltaList, DeltaKeys;
    InvParts(k);
    PidsDelayed(k, d);
    var l := k.lists[SLEEPQ];
    ReschedSleep(Delayed(k, d, st), DeltaList(l, k.keys, k.curr, d), DeltaKeys(l, k.keys, k.curr, d));
  }

  lemma PidsDelayed(k: K, d: int)
    requires Tables(k)
    ensures Pids(DeltaList(k.lists[SLEEPQ], k.keys, k.curr, d))
  {
    PidsChanged(k.lists[SLEEPQ], k.curr);
  }

  lemma TickSleep(k: K)
    requires Inv(k)
    ensures Tables(k) && SleepIs(TickCall(k), SleepAfter(k, Tick).0, SleepAfter(k, Tick).1)
    ensures TickCall(k).curr < NPROC
    ensures forall p | 0 <= p < NPROC && Asleep(k, p) :: TickCall(k).procs[p].state in {k.procs[p].state, READY, CURR}
  {
    hide Inv, Struct, Resched, Expiring, WakeExpired, Unexpired;
    InvParts(k);
    var l := k.lists[SLEEPQ];
    if l != [] {
      var k1 := Ticked(k);
      TickedExpiring(k);
      UnexpiredCons(l, k1.keys);
      if FirstKey(k1, SLEEPQ) <= 0 {
        WakeSleep(k1);
        var t := WakeExpired(k1);
        CurrNotDue(k, k1);
        ReschedSleep(t, Unexpired(l, k1.keys), k1.keys);
        ReschedStates(t);
      }
    }
  }

  lemma CurrNotDue(k: K, k1: K)
    requires Inv(k) && Tables(k1) && k1.lists == k.lists && k1.curr == k.curr
    ensures k.curr !in Unexpired(k1.lists[SLEEPQ], k1.keys) && !Asleep(k, k.curr)
  {
    SleepStart(k);
    UnexpiredMembers(k1.lists[SLEEPQ], k1.keys, k.curr);
    CurrRuns(k, k.curr);
  }

  lemma ReschedStates(k: K)
    requires Tables(k)
    ensures forall p | 0 <= p < NPROC && p != k.curr :: Resched(k).procs[p].state in {k.procs[p].state, CURR}
  {
  }

  /** The sleep list after any call. */
  lemma SleepShape(k: K, c: Call)
    requires Inv(k) && Enabled(k, c)
    ensures Tables(k) && SleepIs(Step(k, c), SleepAfter(k, c).0, SleepAfter(k, c).1)
  {
    InvParts(k);
    SleepStart(k);
    hide Inv, Struct, SleepIs, WaitCall, SignalCall, SignalnCall, SemDeleteCall, SemResetCall, KillCall,
      SendCall, TickCall;
    match c
    case Tick => TickSleep(k);
    case Kill(p) => KillSleep(k, p);
    case Send(p, msg) => SendSleep(k, p, msg);
    case Sleep(d) => if d > 0 { DelaySleep(k, d, SLEEP); } else { ReschedRunning(k, k.lists[SLEEPQ], k.keys); }
    case RecvTime(d) => OwnSleep(k, c);
    case Wait(_) => SemSleep(k, c);
    case Signal(_) => SemSleep(k, c);
    case Signaln(_, _) => SemSleep(k, c);
    case SemDelete(_) => SemSleep(k, c);
    case SemReset(_, _) => SemSleep(k, c);
    case _ => OwnSleep(k, c);
  }

  lemma OwnSleep(k: K, c: Call)
    requires Inv(k) && Enabled(k, c) && !c.Tick? && !c.Kill? && !c.Send? && !c.Sleep?
    requires !c.Wait? && !c.Signal? && !c.Signaln? && !c.SemDelete? && !c.SemReset?
    ensures Tables(k) && SleepIs(Step(k, c), SleepAfter(k, c).0, SleepAfter(k, c).1)
  {
    hide Inv, Resched, MakeReady, Without, DeltaList, DeltaKeys;
    InvParts(k);
    SleepStart(k);
    var l := k.lists[SLEEPQ];
    match c
    case Suspend(p) =>
      if p == k.curr && p != NULLPROC { ReschedSleep(SetState(k, p, SUSP), l, k.keys); }
    case Resume(p) =>
      if GoodPid(k, p) && k.procs[p].state == SUSP {
        CurrRuns(k, p);
        ReadySleep(k, p, l, k.keys);
        ReadyCurr(k, p);
        ReschedSleep(MakeReady(k, p), l, k.keys);
      }
    case Receive => if !k.procs[k.curr].hasmsg { ReschedSleep(SetState(k, k.curr, RECV), l, k.keys); }
    case RecvTime(d) => if d >= 0 && !k.procs[k.curr].hasmsg { DelaySleep(k, d, RECTIM); }
    case Yield => ReschedSleep(k, l, k.keys);
    case Quantum => ReschedSleep(k.(preempt := QUANTUM), l, k.keys);
    case StopDefer => if k.ndefers > 0 { ReschedSleep(k.(ndefers := k.ndefers - 1), l, k.keys); }
    case _ =>
  }

  // ----- one call, one sleeping process -----

  /** The call ends p's sleep early. */
  ghost predicate Rouses(k: K, c: Call, p: nat)
    requires Sizes(k) && p < NPROC
  {
    || (c.Kill? && c.pid == p)
    || (c.Send? && c.p == p && k.procs[p].state == RECTIM && !k.procs[p].hasmsg)
  }

  /** Only a tick, a kill or a message changes the time a process has left. */
  lemma TimeKept(k: K, c: Call, p: nat)
    requires Inv(k) && Enabled(k, c) && p < NPROC && Asleep(k, p) && !c.Tick? && !Rouses(k, c, p)
    ensures Inv(Step(k, c)) && Asleep(Step(k, c), p) && Left(Step(k, c), p) == Left(k, p)
  {
    hide Inv, Step, Remaining, Without, UnsleptKeys, DeltaList, DeltaKeys, NoDup, NonNegative;
    StepInv(k, c);
    SleepShape(k, c);
    SleepStart(k);
    SleepStart(Step(k, c));
    InvParts(k);
    var l := k.lists[SLEEPQ];
    var (l', keys') := SleepAfter(k, c);
    RemainingKept(l', keys', Step(k, c).keys, p);
    match c
    case Sleep(d) => if d > 0 { DelayedTime(l, k.keys, k.curr, d, p); }
    case RecvTime(d) => if l' != l || keys' != k.keys { DelayedTime(l, k.keys, k.curr, d, p); }
    case Kill(q) => if Asleep(k, q) { RemovedTime(l, k.keys, q, p); }
    case Send(q, _) => if l' != l || keys' != k.keys { RemovedTime(l, k.keys, q, p); }
    case _ =>
  }

  lemma DelayedTime(l: seq<nat>, keys: seq<int>, q: nat, d: int, p: nat)
    requires |keys| == NPROC && Pids(l) && NoDup(l) && q < NPROC && q !in l && p in l
    ensures Pids(DeltaList(l, keys, q, d)) && p in DeltaList(l, keys, q, d)
    ensures Remaining(DeltaList(l, keys, q, d), DeltaKeys(l, keys, q, d), p) == Remaining(l, keys, p)
  {
    DeltaOthers(l, keys, q, d, p);
    InsertedMembers(l, DeltaPos(l, keys, d).0, q);
  }

  lemma RemovedTime(l: seq<nat>, keys: seq<int>, q: nat, p: nat)
    requires |keys| == NPROC && Pids(l) && NoDup(l) && q in l && p in l && p != q
    ensures Pids(Without(l, q)) && q < NPROC && p in Without(l, q)
    ensures Remaining(Without(l, q), UnsleptKeys(l, keys, q), p) == Remaining(l, keys, p)
  {
    Unslept(l, keys, q, p);
    WithoutMembers(l, q);
  }

  /** A tick takes one from everybody's time, or, with the first key 0, from
      nobody's; who has none left afterwards is made ready. */
  lemma TickLowers(k: K, p: nat)
    requires Inv(k) && p < NPROC && Asleep(k, p)
    ensures k.lists[SLEEPQ] != [] && Inv(Step(k, Tick))
    ensures var left := if FirstKey(k, SLEEPQ) >= 1 then Left(k, p) - 1 else Left(k, p);
      && left >= 0
      && (if left > 0 then Asleep(Step(k, Tick), p) && Left(Step(k, Tick), p) == left
          else Step(k, Tick).procs[p].state in {READY, CURR})
  {
    hide Inv, Step, Remaining, Unexpired, NoDup, NonNegative;
    StepInv(k, Tick);
    SleepShape(k, Tick);
    SleepStart(k);
    SleepStart(Step(k, Tick));
    InvParts(k);
    var l := k.lists[SLEEPQ];
    TickList(l, k.keys, p);
    var (l', keys') := SleepAfter(k, Tick);
    RemainingKept(l', keys', Step(k, Tick).keys, p);
    TickState(k, p);
  }

  lemma TickState(k: K, p: nat)
    requires Inv(k) && p < NPROC && Asleep(k, p)
    ensures Inv(Step(k, Tick)) && (Asleep(Step(k, Tick), p) || Step(k, Tick).procs[p].state in {READY, CURR})
  {
    hide Inv;
    StepInv(k, Tick);
    TickSleep(k);
  }

  // ----- when a tick is exact -----

  /** A tick that counts: it takes one from every sleeper's time and readies just
      those it brings to zero or finds there. */
  ghost predicate TickCounts(k: K)
    requires Inv(k)
  {
    StepInv(k, Tick);
    forall p | 0 <= p < NPROC && Asleep(k, p) ::
      if Left(k, p) <= 1 then !Asleep(Step(k, Tick), p)
      else Asleep(Step(k, Tick), p) && Left(Step(k, Tick), p) == Left(k, p) - 1
  }

  lemma {:induction false} TimeAtLeast(l: seq<nat>, keys: seq<int>, p: nat)
    requires |keys| == NPROC && Pids(l) && NonNegative(l, keys) && p in l
    ensures Remaining(l, keys, p) >= keys[p] && Remaining(l, keys, p) >= keys[l[0]]
    ensures (forall i | 0 <= i < |l| :: keys[l[i]] == 0) ==> Remaining(l, keys, p) == 0
    decreases l
  {
    if l[0] != p {
      assert l == [l[0]] + l[1..];
      NonNegativeTail(l, keys);
      TimeAtLeast(l[1..], keys, p);
      DueFirst(l[1..], keys, p);
    } else {
      assert keys[l[0]] >= 0;
    }
  }

  /** insertd puts a process behind those due before it or with it, and before those due
      later. */
  lemma {:induction false} DeltaPlace(l: seq<nat>, keys: seq<int>, p: nat, key: int, q: nat)
    requires |keys| == NPROC && Pids(l) && NonNegative(l, keys) && p < NPROC && p !in l && q in l
    ensures var r := DeltaList(l, keys, p, key);
      p in r && q in r && (IndexOf(r, q) < IndexOf(r, p) <==> Remaining(l, keys, q) <= key)
    decreases l
  {
    hide DeltaList, DeltaKeys, IndexOf, NonNegative;
    var r := DeltaList(l, keys, p, key);
    var h, t := l[0], l[1..];
    assert l == [h] + t;
    if keys[h] > key {
      DeltaFront(l, keys, p, key);
      TimeAtLeast(l, keys, q);
      HeadIndex(p, l);
      IndexCons(p, l, q);
    } else {
      DeltaCons(l, keys, p, key);
      HeadIndex(h, DeltaList(t, keys, p, key - keys[h]));
      IndexCons(h, DeltaList(t, keys, p, key - keys[h]), p);
      DeltaHolds(l, keys, p, key);
      if q != h {
        NonNegativeTail(l, keys);
        IndexCons(h, DeltaList(t, keys, p, key - keys[h]), q);
        DeltaPlace(t, keys, p, key - keys[h], q);
      }
    }
  }

  lemma HeadIndex(h: nat, t: seq<nat>)
    ensures IndexOf([h] + t, h) == 0
  {
  }

  lemma DeltaHolds(l: seq<nat>, keys: seq<int>, p: nat, key: int)
    requires |keys| == NPROC && Pids(l)
    ensures forall q :: q in DeltaList(l, keys, p, key) <==> q == p || q in l
  {
    InsertedMembers(l, DeltaPos(l, keys, key).0, p);
  }

  lemma DueFirst(l: seq<nat>, keys: seq<int>, p: nat)
    requires |keys| == NPROC && Pids(l) && NonNegative(l, keys) && p in l
    ensures keys[l[0]] >= 0
  {
  }

  /** Ticks count unless somebody waits with no time at all (recvtime(0)) ahead of
      somebody who has time left. */
  lemma TickCountsIff(k: K)
    requires Inv(k)
    ensures TickCounts(k) <==>
              var l := k.lists[SLEEPQ];
              l == [] || k.keys[l[0]] >= 1 || forall i | 0 <= i < |l| :: k.keys[l[i]] == 0
  {
    hide Inv, Step, Remaining, NoDup;
    InvParts(k);
    SleepStart(k);
    StepInv(k, Tick);
    var l := k.lists[SLEEPQ];
    forall p | 0 <= p < NPROC && Asleep(k, p)
      ensures Left(k, p) >= k.keys[p] && Left(k, p) >= FirstKey(k, SLEEPQ) >= 0
      ensures (forall i | 0 <= i < |l| :: k.keys[l[i]] == 0) ==> Left(k, p) == 0
      ensures var left := if FirstKey(k, SLEEPQ) >= 1 then Left(k, p) - 1 else Left(k, p);
        if left > 0 then Asleep(Step(k, Tick), p) && Left(Step(k, Tick), p) == left else !Asleep(Step(k, Tick), p)
    {
      TimeAtLeast(l, k.keys, p);
      DueFirst(l, k.keys, p);
      TickLowers(k, p);
    }
    if l != [] && k.keys[l[0]] < 1 && exists i | 0 <= i < |l| :: k.keys[l[i]] != 0 {
      var i :| 0 <= i < |l| && k.keys[l[i]] != 0;
      assert l[i] in l && Asleep(k, l[i]) && k.keys[l[i]] > 0;
    }
  }

  // ----- runs -----

  /** Nobody on the sleep list is without time. */
  ghost predicate Timely(k: K)
    requires Tables(k)
  {
    k.lists[SLEEPQ] == [] || k.keys[k.lists[SLEEPQ][0]] >= 1
  }

  ghost predicate ZeroWait(k: K, c: Call)
    requires Sizes(k)
  {
    c == RecvTime(0) && !k.procs[k.curr].hasmsg
  }

  /** Just recvtime(0) puts somebody without time on the list. */
  lemma TimelyStep(k: K, c: Call)
    requires Inv(k) && Enabled(k, c) && Tables(k) && Timely(k)
    ensures Tables(Step(k, c)) && (Timely(Step(k, c)) <==> !ZeroWait(k, c))
  {
    hide Inv, Step, Without, UnsleptKeys, DeltaList, DeltaKeys, NoDup, Unexpired;
    SleepShape(k, c);
    SleepStart(k);
    var l, keys := k.lists[SLEEPQ], k.keys;
    match c
    case Tick => if l != [] { UnexpiredMembers(l, TickedKeys(l, keys), 0); }
    case Sleep(d) => if d > 0 { TimelyDelayed(l, keys, k.curr, d); }
    case RecvTime(d) =>
      if d > 0 { TimelyDelayed(l, keys, k.curr, d); }
      if d == 0 { ZeroFront(l, keys, k.curr); }
    case Kill(p) => if Asleep(k, p) { TimelyRemoved(l, keys, p); }
    case Send(p, _) => if 0 <= p < NPROC && Asleep(k, p) { TimelyRemoved(l, keys, p); }
    case _ =>
  }

  lemma TimelyDelayed(l: seq<nat>, keys: seq<int>, p: nat, d: int)
    requires |keys| == NPROC && Pids(l) && p < NPROC && p !in l && d >= 1 && (l != [] ==> keys[l[0]] >= 1) && NoDup(l)
    ensures var r := DeltaList(l, keys, p, d); r != [] && r[0] < NPROC && DeltaKeys(l, keys, p, d)[r[0]] >= 1
  {
    if l == [] || keys[l[0]] > d {
    } else {
      DeltaCons(l, keys, p, d);
      PidsTail(l);
      DeltaHeadKept(l[1..], keys, p, d - keys[l[0]], l[0]);
    }
  }

  /** insertd puts a process without delay behind those without time and changes no
      other key. */
  lemma {:induction false} ZeroInserted(l: seq<nat>, keys: seq<int>, p: nat)
    requires |keys| == NPROC && Pids(l) && NonNegative(l, keys) && p < NPROC && p !in l
    ensures DeltaKeys(l, keys, p, 0) == keys[p := 0]
    ensures var r := DeltaList(l, keys, p, 0); r != [] && (r[0] == p || (r[0] < NPROC && keys[r[0]] == 0))
    decreases l
  {
    hide DeltaList, DeltaKeys;
    if l == [] || keys[l[0]] > 0 {
      ZeroFront(l, keys, p);
    } else {
      DeltaCons(l, keys, p, 0);
      NonNegativeTail(l, keys);
      ZeroInserted(l[1..], keys, p);
    }
  }

  lemma ZeroFront(l: seq<nat>, keys: seq<int>, p: nat)
    requires |keys| == NPROC && Pids(l) && p < NPROC && p !in l && (l != [] ==> keys[l[0]] > 0)
    ensures DeltaList(l, keys, p, 0) == [p] + l && DeltaKeys(l, keys, p, 0) == keys[p := 0]
  {
    if l != [] { DeltaFront(l, keys, p, 0); }
  }

  /** After recvtime(0) the next tick counts for the others just when none of them
      has time left. */
  lemma ZeroDelayCountsIff(k: K)
    requires Inv(k) && Tables(k) && MayBlock(k) && !k.procs[k.curr].hasmsg
    ensures Inv(Step(k, RecvTime(0)))
    ensures var l := k.lists[SLEEPQ];
      TickCounts(Step(k, RecvTime(0))) <==> forall i | 0 <= i < |l| :: k.keys[l[i]] == 0
  {
    hide Inv, Step, DeltaList, DeltaKeys, NoDup, NonNegative, TickCounts;
    StepInv(k, RecvTime(0));
    SleepShape(k, RecvTime(0));
    SleepStart(k);
    InvParts(k);
    var l, t := k.lists[SLEEPQ], Step(k, RecvTime(0));
    ZeroInserted(l, k.keys, k.curr);
    DelayedMembers(l, k.keys, k.curr, 0);
    TickCountsIff(t);
    var r := t.lists[SLEEPQ];
    assert t.keys[r[0]] == 0;
    forall i | 0 <= i < |l| ensures exists j :: 0 <= j < |r| && r[j] == l[i] && t.keys[r[j]] == k.keys[l[i]] {
      assert l[i] in l && l[i] in r;
      var j :| 0 <= j < |r| && r[j] == l[i];
    }
    forall j | 0 <= j < |r|
      ensures t.keys[r[j]] == 0 || exists i :: 0 <= i < |l| && l[i] == r[j] && t.keys[r[j]] == k.keys[l[i]]
    {
      assert r[j] in r;
      if r[j] != k.curr { var i :| 0 <= i < |l| && l[i] == r[j]; }
    }
  }

  lemma TimelyRemoved(l: seq<nat>, keys: seq<int>, p: nat)
    requires |keys| == NPROC && Pids(l) && NoDup(l) && p in l && keys[l[0]] >= 1 && NonNegative(l, keys)
    ensures var r := Without(l, p); r != [] ==> r[0] < NPROC && UnsleptKeys(l, keys, p)[r[0]] >= 1
  {
    hide Without, UnsleptKeys;
    PidsTail(l);
    if p == l[0] {
      UnsleptFirst(l, keys);
    } else {
      UnsleptCons(l, keys, p);
      UnsleptHeadKept(l[1..], keys, p, l[0]);
    }
  }

  function Ticks(cs: seq<Call>): nat {
    if cs == [] then 0 else (if cs[0].Tick? then 1 else 0) + Ticks(cs[1..])
  }

  /** Nothing in the run rouses p early and nobody calls recvtime(0). */
  ghost predicate Undisturbed(k: K, cs: seq<Call>, p: nat)
    requires Inv(k) && Legal(k, cs) && p < NPROC
    decreases |cs|
  {
    cs == [] || (
      && !Rouses(k, cs[0], p) && !ZeroWait(k, cs[0])
      && (StepInv(k, cs[0]); Undisturbed(Step(k, cs[0]), cs[1..], p)))
  }

  /** Over a run the time left goes down by one with every tick. */
  lemma {:induction false} TimePasses(k: K, cs: seq<Call>, p: nat)
    requires Inv(k) && Tables(k) && Timely(k) && Legal(k, cs) && p < NPROC && Asleep(k, p)
    requires Undisturbed(k, cs, p) && Ticks(cs) < Left(k, p)
    ensures var t := Run(k, cs); Asleep(t, p) && Left(t, p) == Left(k, p) - Ticks(cs) && Tables(t) && Timely(t)
    decreases |cs|
  {
    hide Inv, Step, Timely, Left, ZeroWait, Rouses;
    if cs != [] {
      StepInv(k, cs[0]);
      InvParts(Step(k, cs[0]));
      TimelyStep(k, cs[0]);
      if cs[0].Tick? { TimelyTick(k, p); } else { TimeKept(k, cs[0], p); }
      TimePasses(Step(k, cs[0]), cs[1..], p);
    }
  }

  lemma TimelyTick(k: K, p: nat)
    requires Inv(k) && Tables(k) && Timely(k) && p < NPROC && Asleep(k, p)
    ensures Inv(Step(k, Tick)) && Left(k, p) >= 1
    ensures Left(k, p) > 1 ==> Asleep(Step(k, Tick), p) && Left(Step(k, Tick), p) == Left(k, p) - 1
    ensures Left(k, p) == 1 ==> Step(k, Tick).procs[p].state in {READY, CURR}
  {
    TickLowers(k, p);
  }

  /** A process that sleeps d ticks stays asleep until the d-th tick, which makes it
      ready. */
  lemma SleepsExactly(k: K, d: nat, cs: seq<Call>)
    requires Inv(k) && Tables(k) && Timely(k) && Enabled(k, Sleep(d)) && d >= 1
    requires Inv(Step(k, Sleep(d))) && Legal(Step(k, Sleep(d)), cs) && Undisturbed(Step(k, Sleep(d)), cs, k.curr)
    ensures var t := Run(Step(k, Sleep(d)), cs);
      && (Ticks(cs) < d ==> Asleep(t, k.curr) && Left(t, k.curr) == d - Ticks(cs))
      && (Ticks(cs) == d - 1 ==> Inv(Step(t, Tick)) && Step(t, Tick).procs[k.curr].state in {READY, CURR})
  {
    hide Inv, Step, Timely, Left, DeltaList, DeltaKeys, Remaining;
    var k1, p := Step(k, Sleep(d)), k.curr;
    InvParts(k1);
    TimelyStep(k, Sleep(d));
    FallsAsleep(k, Sleep(d));
    if Ticks(cs) < d {
      TimePasses(k1, cs, p);
      if Ticks(cs) == d - 1 { TimelyTick(Run(k1, cs), p); }
    }
  }

  // ----- the same with recvtime(0) about -----

  /** A tick in state k would take one from everybody's time. */
  ghost predicate Lowers(k: K)
    requires Tables(k)
  {
    FirstKey(k, SLEEPQ) >= 1
  }

  /** The ticks of a run that find the first sleeper with time left. */
  ghost function TicksCounted(k: K, cs: seq<Call>): nat
    requires Inv(k) && Legal(k, cs)
    decreases |cs|
  {
    if cs == [] then 0 else
    StructTables(k, true);
    StepInv(k, cs[0]);
    (if cs[0].Tick? && Lowers(k) then 1 else 0) + TicksCounted(Step(k, cs[0]), cs[1..])
  }

  /** Nothing in the run rouses p early. */
  ghost predicate Unroused(k: K, cs: seq<Call>, p: nat)
    requires Inv(k) && Legal(k, cs) && p < NPROC
    decreases |cs|
  {
    cs == [] || (!Rouses(k, cs[0], p) && (StepInv(k, cs[0]); Unroused(Step(k, cs[0]), cs[1..], p)))
  }

  /** Over every run the time left goes down by one with every tick that counts. */
  lemma {:induction false} TimeLeft(k: K, cs: seq<Call>, p: nat)
    requires Inv(k) && Tables(k) && Legal(k, cs) && p < NPROC && Asleep(k, p)
    requires Unroused(k, cs, p) && TicksCounted(k, cs) < Left(k, p)
    ensures var t := Run(k, cs); Asleep(t, p) && Tables(t) && Left(t, p) == Left(k, p) - TicksCounted(k, cs)
    decreases |cs|
  {
    hide Inv, Step, Left, Rouses;
    if cs != [] {
      StepInv(k, cs[0]);
      InvParts(Step(k, cs[0]));
      if cs[0].Tick? { TickLowers(k, p); } else { TimeKept(k, cs[0], p); }
      TimeLeft(Step(k, cs[0]), cs[1..], p);
    }
  }

  /** In every run, whoever calls recvtime(0) meanwhile, a process that sleeps d ticks
      stays asleep until the d-th tick that counts, which makes it ready. */
  lemma SleepsCounted(k: K, d: nat, cs: seq<Call>)
    requires Inv(k) && Enabled(k, Sleep(d)) && d >= 1
    requires Inv(Step(k, Sleep(d))) && Legal(Step(k, Sleep(d)), cs) && Unroused(Step(k, Sleep(d)), cs, k.curr)
    ensures var k1 := Step(k, Sleep(d)); var n, t := TicksCounted(k1, cs), Run(k1, cs);
      && Tables(t)
      && (n < d ==> Asleep(t, k.curr) && Left(t, k.curr) == d - n)
      && (n == d - 1 && Lowers(t) ==> Inv(Step(t, Tick)) && Step(t, Tick).procs[k.curr].state in {READY, CURR})
  {
    hide Inv, Step, Left, Remaining;
    var k1, p := Step(k, Sleep(d)), k.curr;
    InvParts(k);
    InvParts(k1);
    InvParts(Run(k1, cs));
    FallsAsleep(k, Sleep(d));
    if TicksCounted(k1, cs) < d {
      TimeLeft(k1, cs, p);
      TickLowers(Run(k1, cs), p);
    }
  }

  /** sleepms and recvtime give the caller exactly its delay. */
  lemma FallsAsleep(k: K, c: Call)
    requires Inv(k) && Enabled(k, c)
    requires (c.Sleep? && c.delay >= 1) || (c.RecvTime? && c.maxwait >= 0 && !k.procs[k.curr].hasmsg)
    ensures Inv(Step(k, c)) && Asleep(Step(k, c), k.curr)
    ensures Left(Step(k, c), k.curr) == if c.Sleep? then c.delay else c.maxwait
  {
    hide Inv, Step, DeltaList, DeltaKeys, Remaining;
    StepInv(k, c);
    SleepShape(k, c);
    SleepStart(k);
    InvParts(k);
    SleepStart(Step(k, c));
    var l, p, d := k.lists[SLEEPQ], k.curr, if c.Sleep? then c.delay else c.maxwait;
    DeltaInserted(l, k.keys, p, d);
    RemainingKept(DeltaList(l, k.keys, p, d), DeltaKeys(l, k.keys, p, d), Step(k, c).keys, p);
    DelayedMembers(l, k.keys, p, d);
  }

  // ----- delays of 2^31 and more -----

  /** A delay from 2^31 on becomes a negative key.  Just then the invariant is lost,
      and with any delay above 2^31 the next tick wakes the caller.  With 2^31 itself
      the tick's decrement wraps around: the caller has the rest of its delay left,
      but stands first, so that nobody else wakes before it does. */
  lemma SleepLastsIff(k: K, d: nat)
    requires Inv(k) && MayBlock(k) && 2 <= d < 0x1_0000_0000
    ensures Tables(k) && (Inv(SleepCall(k, d)) <==> d < 0x8000_0000)
    ensures Asleep(TickCall(SleepCall(k, d)), k.curr) <==> d <= 0x8000_0000
    ensures d == 0x8000_0000 ==> var t := TickCall(SleepCall(k, d));
      t.lists[SLEEPQ] == [k.curr] + k.lists[SLEEPQ] && t.keys[k.curr] == d - 1
  {
    hide Inv, SleepCall, TickCall, Overdue;
    InvParts(k);
    if d < 0x8000_0000 {
      ShortSleepLasts(k, d);
    } else {
      LongSleepStarts(k, d);
      if d == 0x8000_0000 {
        LeastKeyLasts(SleepCall(k, d), k.curr);
      } else {
        LongSleepEnds(SleepCall(k, d), k.curr);
      }
    }
  }

  lemma ShortSleepLasts(k: K, d: nat)
    requires Inv(k) && MayBlock(k) && 2 <= d < 0x8000_0000
    ensures Tables(k) && Inv(SleepCall(k, d)) && Asleep(TickCall(SleepCall(k, d)), k.curr)
  {
    hide Inv, SleepCall, TickCall, Remaining;
    InvParts(k);
    FallsAsleep(k, Sleep(d));
    assert Step(k, Sleep(d)) == SleepCall(k, d);
    var t := SleepCall(k, d);
    InvParts(t);
    TickLowers(t, k.curr);
    assert Step(t, Tick) == TickCall(t);
  }

  /** The sleeper with the negative key is first, and the next one is not due. */
  ghost predicate Overdue(t: K, p: nat) {
    && Tables(t) && p < NPROC && t.ndefers == 0
    && var l := t.lists[SLEEPQ];
       && l != [] && l[0] == p && t.keys[p] < 0
       && (|l| > 1 ==> l[1] != p && t.keys[l[1]] > 0)
  }

  lemma LongSleepStarts(k: K, d: nat)
    requires Inv(k) && MayBlock(k) && 0x8000_0000 <= d < 0x1_0000_0000
    ensures Tables(k) && Overdue(SleepCall(k, d), k.curr) && !Inv(SleepCall(k, d))
    ensures SleepCall(k, d).lists[SLEEPQ] == [k.curr] + k.lists[SLEEPQ]
    ensures SleepCall(k, d).keys[k.curr] == Signed(d) && Asleep(SleepCall(k, d), k.curr)
  {
    InvParts(k);
    SleepStart(k);
    NotOnList(k, k.curr, READYQ);
    hide Inv, Struct;
    var l, p, key := k.lists[SLEEPQ], k.curr, Signed(d);
    if l != [] {
      assert k.keys[l[0]] >= 0;
      DeltaFront(l, k.keys, p, key);
    }
    var t := Delayed(k, key, SLEEP);
    assert t.lists[SLEEPQ] == [p] + l && t.keys[p] == key && (l != [] ==> t.keys[l[0]] == k.keys[l[0]] - key);
    hide DeltaList, DeltaKeys;
    PidsDelayed(k, key);
    ReschedSleep(t, [p] + l, t.keys);
    OverdueKey(SleepCall(k, d), p);
  }

  lemma OverdueKey(t: K, p: nat)
    requires Tables(t) && p < NPROC && t.lists[SLEEPQ] != [] && t.lists[SLEEPQ][0] == p && t.keys[p] < 0
    ensures !Inv(t)
  {
  }

  lemma LeastKeyLasts(t: K, p: nat)
    requires Overdue(t, p) && t.keys[p] == MINKEY
    ensures TickCall(t) == t.(keys := t.keys[p := MAXKEY])
  {
  }

  lemma LongSleepEnds(t: K, p: nat)
    requires Overdue(t, p) && t.keys[p] > MINKEY
    ensures TickCall(t).procs[p].state in {READY, CURR}
  {
    var k1 := Ticked(t);
    var k2 := ReleaseFirst(k1, SLEEPQ);
    assert k2.procs[p].state == READY && k2.lists[SLEEPQ] == t.lists[SLEEPQ][1..] && k2.ndefers == 0;
    assert WakeExpired(k1) == k2;
    hide DescPos;
  }

  lemma DelayedMembers(l: seq<nat>, keys: seq<int>, p: nat, d: int)
    requires |keys| == NPROC && Pids(l)
    ensures forall q :: q in DeltaList(l, keys, p, d) <==> q == p || q in l
  {
    InsertedMembers(l, DeltaPos(l, keys, d).0, p);
  }
}
