/** Receiving with a time limit over whole runs: the message or the timeout. */
module KernelTimeout {
  import opened QueueModel
  import opened KernelModel
  import opened KernelCalls
  import opened KernelInv
  import opened KernelRuns
  import opened KernelTime
  import opened KernelMail

  // ----- a process that does not run does not block -----

  /** Process p is in the state it was in, or in none that waits for anything but
      the processor or resume. */
  ghost predicate Looser(k: K, t: K, p: nat) {
    p < |k.procs| == |t.procs| && t.procs[p].state in {k.procs[p].state, READY, CURR, SUSP, FREE}
  }

  lemma ReschedLooser(k: K, p: nat)
    requires Tables(k) && p < NPROC
    ensures Looser(k, Resched(k), p)
  {
    hide DescPos;
  }

  lemma ReleaseLooser(k: K, n: nat, p: nat)
    requires Tables(k) && n < NLISTS && n != READYQ && k.lists[n] != [] && p < NPROC
    ensures Looser(k, ReleaseFirst(k, n), p)
  {
    hide DescPos;
  }

  lemma SignalLooser(k: K, s: nat, p: nat)
    requires Tables(k) && s < NSEM && p < NPROC
    ensures Looser(k, SignalOnce(k, s), p)
  {
    hide ReleaseFirst;
    if k.sems[s].count < 0 && k.lists[s] != [] { ReleaseLooser(SetCount(k, s, k.sems[s].count + 1), s, p); }
  }

  lemma {:induction false} SignalTimesLooser(k: K, s: nat, n: nat, p: nat)
    requires Tables(k) && s < NSEM && p < NPROC
    ensures Looser(k, SignalTimes(k, s, n), p)
    decreases n
  {
    hide SignalOnce;
    if n > 0 {
      SignalTimesLooser(k, s, n - 1, p);
      SignalLooser(SignalTimes(k, s, n - 1), s, p);
    }
  }

  lemma {:induction false} ReleaseAllLooser(k: K, n: nat, p: nat)
    requires Tables(k) && n < NLISTS && n != READYQ && p < NPROC
    ensures Looser(k, ReleaseAll(k, n), p)
    decreases |k.lists[n]|
  {
    hide ReleaseFirst;
    if k.lists[n] != [] {
      ReleaseLooser(k, n, p);
      ReleaseAllLooser(ReleaseFirst(k, n), n, p);
    }
  }

  lemma {:induction false} WakeLooser(k: K, p: nat)
    requires Tables(k) && p < NPROC
    ensures Looser(k, WakeExpired(k), p)
    decreases |k.lists[SLEEPQ]|
  {
    hide ReleaseFirst;
    if k.lists[SLEEPQ] != [] && FirstKey(k, SLEEPQ) <= 0 {
      ReleaseLooser(k, SLEEPQ, p);
      WakeLooser(ReleaseFirst(k, SLEEPQ), p);
    }
  }

  lemma SemLooser(k: K, c: Call, p: nat)
    requires Inv(k) && Enabled(k, c) && p < NPROC && p != k.curr
    requires c.Wait? || c.Signal? || c.Signaln? || c.SemCreate? || c.SemDelete? || c.SemReset?
    ensures Looser(k, Step(k, c), p)
  {
    hide Inv, Resched, SignalOnce, ReleaseAll, FreeSem;
    InvParts(k);
    match c
    case Wait(s) =>
      if GoodSem(k, s) { ReschedLooser(Enqueued(SetCount(k, s, k.sems[s].count - 1), s), p); }
    case Signal(s) =>
      if GoodSem(k, s) {
        SignalLooser(k, s, p);
        ReschedLooser(SignalOnce(k, s), p);
      }
    case Signaln(s, n) =>
      if GoodSem(k, s) && n >= 0 {
        SignalTimesLooser(k, s, n, p);
        ReschedLooser(SignalTimes(k, s, n), p);
      }
    case SemCreate(_) =>
    case SemDelete(s) =>
      if GoodSem(k, s) {
        var n := k.sems[s].count;
        var k1 := k.(sems := k.sems[s := Sem(false, (if n < 0 then 0 else n) + 1)]);
        ReleaseAllLooser(k1, s, p);
        ReschedLooser(if n < 0 then ReleaseAll(k1, s) else k1, p);
      }
    case SemReset(s, n) =>
      if GoodSem(k, s) && n >= 0 {
        ReleaseAllLooser(k, s, p);
        ReschedLooser(SetCount(ReleaseAll(k, s), s, n), p);
      }
  }

  lemma SendLooser(k: K, q: int, msg: int, p: nat)
    requires Tables(k) && p < NPROC
    ensures Looser(k, SendCall(k, q, msg).0, p)
    ensures q == p && !k.procs[p].hasmsg && k.procs[p].state == RECTIM ==> !Asleep(SendCall(k, q, msg).0, p)
  {
    hide Resched, DescPos, Without, UnsleptKeys;
    if GoodPid(k, q) && !k.procs[q].hasmsg {
      var k1 := k.(procs := k.procs[q := k.procs[q].(msg := msg, hasmsg := true)]);
      if k.procs[q].state == RECV {
        ReschedLooser(MakeReady(k1, q), p);
      } else if k.procs[q].state == RECTIM {
        ReschedLooser(MakeReady(DropSleeper(k1, q, SUSP), q), p);
      }
    }
  }

  lemma KillLooser(k: K, q: nat, p: nat)
    requires Inv(k) && Enabled(k, Kill(q)) && p < NPROC
    ensures Tables(k) && -1 <= Home(k.procs[q]) < NLISTS && Looser(k, KillCall(k, q), p)
  {
    hide Inv, Resched, Without, UnsleptKeys;
    InvParts(k);
    KillOk(k, q);
    if k.procs[q].state == CURR { ReschedLooser(SetState(k, q, FREE), p); }
  }

  lemma ProcLooser(k: K, c: Call, p: nat)
    requires Inv(k) && Enabled(k, c) && p < NPROC && (c.Suspend? || c.Resume? || c.Create?)
    ensures Looser(k, Step(k, c), p)
  {
    hide Inv, Resched, DescPos, Without, FreePid;
    InvParts(k);
    match c
    case Suspend(q) =>
      if GoodPid(k, q) && k.procs[q].state == CURR { ReschedLooser(SetState(k, q, SUSP), p); }
    case Resume(q) =>
      if GoodPid(k, q) && k.procs[q].state == SUSP { ReschedLooser(MakeReady(k, q), p); }
    case Create(_, _, _) =>
  }

  lemma TickLooser(k: K, p: nat)
    requires Tables(k) && p < NPROC
    ensures Looser(k, TickCall(k), p)
  {
    hide Resched, WakeExpired;
    if k.lists[SLEEPQ] != [] {
      WakeLooser(Ticked(k), p);
      ReschedLooser(WakeExpired(Ticked(k)), p);
    }
  }

  /** No call makes a process wait that is not the current one. */
  lemma AwayStep(k: K, c: Call, p: nat)
    requires Inv(k) && Enabled(k, c) && p < NPROC && p != k.curr
    ensures Looser(k, Step(k, c), p)
  {
    hide Inv, Resched, TickCall, SendCall, KillCall, Delayed;
    InvParts(k);
    match c
    case Tick => TickLooser(k, p);
    case Send(q, msg) => SendLooser(k, q, msg, p);
    case Kill(q) => KillLooser(k, q, p);
    case Suspend(_) => ProcLooser(k, c, p);
    case Resume(_) => ProcLooser(k, c, p);
    case Create(_, _, _) => ProcLooser(k, c, p);
    case Receive => ReschedLooser(SetState(k, k.curr, RECV), p);
    case ReceiveDone =>
    case RecvTime(d) => BlockedLooser(k, d, RECTIM, p);
    case RecvTimeDone =>
    case Sleep(d) => if d > 0 { BlockedLooser(k, Signed(d), SLEEP, p); } else { ReschedLooser(k, p); }
    case Yield => ReschedLooser(k, p);
    case Quantum => ReschedLooser(k.(preempt := QUANTUM), p);
    case StartDefer =>
    case StopDefer => if k.ndefers > 0 { ReschedLooser(k.(ndefers := k.ndefers - 1), p); }
    case _ => SemLooser(k, c, p);
  }

  lemma BlockedLooser(k: K, d: int, st: PState, p: nat)
    requires Tables(k) && p < NPROC && p != k.curr
    ensures Looser(k, Resched(Delayed(k, d, st)), p)
  {
    hide Resched, DeltaList, DeltaKeys;
    ReschedLooser(Delayed(k, d, st), p);
  }

  // ----- until the process runs again -----

  /** p is not current before any call of the run, and none kills it. */
  ghost predicate Away(k: K, cs: seq<Call>, p: nat)
    requires Inv(k) && Legal(k, cs)
    decreases |cs|
  {
    cs == [] || (
      && k.curr != p && !(cs[0].Kill? && cs[0].pid == p)
      && (StepInv(k, cs[0]); Away(Step(k, cs[0]), cs[1..], p)))
  }

  lemma {:induction false} AwayAlone(k: K, cs: seq<Call>, p: nat)
    requires Inv(k) && Legal(k, cs) && Away(k, cs, p)
    ensures LeftAlone(k, cs, p)
    decreases |cs|
  {
    hide Inv, Step;
    if cs != [] {
      StepInv(k, cs[0]);
      AwayAlone(Step(k, cs[0]), cs[1..], p);
    }
  }

  /** Once awake, it stays awake and gets the first message that comes. */
  lemma {:induction false} AwakeStays(k: K, cs: seq<Call>, p: nat)
    requires Inv(k) && Legal(k, cs) && p < NPROC && Away(k, cs, p)
    requires k.procs[p].state != FREE && !Asleep(k, p)
    ensures var t := Run(k, cs);
      && !Asleep(t, p)
      && (!k.procs[p].hasmsg ==> if FirstSent(cs, p) == [] then !t.procs[p].hasmsg
                                 else t.procs[p].hasmsg && t.procs[p].msg == FirstSent(cs, p)[0])
    decreases |cs|
  {
    hide Inv, Step;
    if cs != [] {
      var c, k1 := cs[0], Step(k, cs[0]);
      StepInv(k, c);
      MailStep(k, c, p);
      AwayStep(k, c, p);
      AwakeStays(k1, cs[1..], p);
      if c.Send? && c.p == p {
        AwayAlone(k1, cs[1..], p);
        MessageStays(k1, cs[1..], p);
      }
    }
  }

  /** A waiting time that the ticks of a run do not use up; with no time at all the
      next tick ends it. */
  ghost predicate Outlasts(k: K, cs: seq<Call>, left: int)
    requires Inv(k) && Legal(k, cs)
  {
    if left <= 0 then Ticks(cs) == 0 else TicksCounted(k, cs) < left
  }

  /** A process in recvtime waits until the first message or the end of its time,
      whichever is first. */
  lemma {:induction false} TimedWait(k: K, cs: seq<Call>, p: nat)
    requires Inv(k) && Tables(k) && Legal(k, cs) && p < NPROC && Away(k, cs, p)
    requires k.procs[p].state == RECTIM && !k.procs[p].hasmsg && Left(k, p) >= 0
    ensures var t := Run(k, cs);
      && (Asleep(t, p) <==> FirstSent(cs, p) == [] && Outlasts(k, cs, Left(k, p)))
      && (if FirstSent(cs, p) == [] then !t.procs[p].hasmsg
          else t.procs[p].hasmsg && t.procs[p].msg == FirstSent(cs, p)[0])
    decreases |cs|
  {
    hide Inv, Step, Left;
    if cs != [] {
      var c, k1, rest := cs[0], Step(k, cs[0]), cs[1..];
      StepInv(k, c);
      InvParts(k1);
      MailStep(k, c, p);
      AwayStep(k, c, p);
      if c.Send? && c.p == p {
        SendWakes(k, p, c.msg);
        AwakeStays(k1, rest, p);
        AwayAlone(k1, rest, p);
        MessageStays(k1, rest, p);
      } else if c.Tick? {
        TickLowers(k, p);
        if Asleep(k1, p) { TimedWait(k1, rest, p); } else { AwakeStays(k1, rest, p); }
      } else {
        TimeKept(k, c, p);
        TimedWait(k1, rest, p);
      }
    }
  }

  lemma SendWakes(k: K, p: nat, msg: int)
    requires Inv(k) && Enabled(k, Send(p, msg)) && p < NPROC && k.procs[p].state == RECTIM && !k.procs[p].hasmsg
    ensures Tables(k) && p < |Step(k, Send(p, msg)).procs| && !Asleep(Step(k, Send(p, msg)), p)
  {
    hide Inv, SendCall;
    InvParts(k);
    SendLooser(k, p, msg, p);
  }

  /** recvtime(d) without a message waiting: until the process runs again it waits as
      long as no message is sent to it and fewer than d ticks have counted.  When it
      runs, it returns the first message sent, or else the timeout. */
  lemma RecvTimeReturns(k: K, d: nat, cs: seq<Call>)
    requires Inv(k) && Enabled(k, RecvTime(d)) && !k.procs[k.curr].hasmsg
    requires Inv(Step(k, RecvTime(d))) && Legal(Step(k, RecvTime(d)), cs) && Away(Step(k, RecvTime(d)), cs, k.curr)
    ensures var k1, p := Step(k, RecvTime(d)), k.curr; var t, sent := Run(k1, cs), FirstSent(cs, p);
      && Tables(t)
      && (Asleep(t, p) <==> sent == [] && Outlasts(k1, cs, d))
      && (t.curr == p ==>
            && (sent != [] || !Outlasts(k1, cs, d))
            && TakeOrTimeout(t).1 == if sent == [] then TIMEOUT else sent[0])
  {
    hide Inv, Step, Left, Outlasts;
    var k1, p := Step(k, RecvTime(d)), k.curr;
    InvParts(k);
    InvParts(k1);
    FallsAsleep(k, RecvTime(d));
    WaitsTimed(k, d);
    TimedWait(k1, cs, p);
    var t := Run(k1, cs);
    InvParts(t);
    if t.curr == p { CurrRuns(t, p); }
  }

  lemma WaitsTimed(k: K, d: nat)
    requires Inv(k) && Enabled(k, RecvTime(d)) && !k.procs[k.curr].hasmsg
    ensures Tables(k) && Inv(Step(k, RecvTime(d))) && k.curr < |Step(k, RecvTime(d)).procs|
    ensures Step(k, RecvTime(d)).procs[k.curr].state == RECTIM && !Step(k, RecvTime(d)).procs[k.curr].hasmsg
  {
    StepInv(k, RecvTime(d));
    FallsAsleep(k, RecvTime(d));
    hide Inv, DeltaList, DeltaKeys, Step;
    InvParts(k);
    ReschedLooser(Delayed(k, d, RECTIM), k.curr);
    SameMail(Delayed(k, d, RECTIM), k.curr);
    StepIsBlock(k, d);
  }

  lemma StepIsBlock(k: K, d: nat)
    requires Inv(k) && Enabled(k, RecvTime(d)) && !k.procs[k.curr].hasmsg
    ensures Tables(k) && Step(k, RecvTime(d)) == Resched(Delayed(k, d, RECTIM))
  {
    hide Inv, Resched, Delayed;
    InvParts(k);
  }

  lemma SameMail(k: K, p: nat)
    requires Tables(k) && p < NPROC
    ensures Resched(k).procs[p].hasmsg == k.procs[p].hasmsg
  {
    hide DescPos;
  }
}
