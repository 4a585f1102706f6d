/** Messages over whole runs: receive returns a message, the first one sent. */
module KernelMail {
  import opened QueueModel
  import opened KernelModel
  import opened KernelCalls
  import opened KernelInv
  import opened KernelRuns
  import View = KernelView
  import KernelLives

  /** Process p lives and has this message, or none; if it is waiting for one it is
      on no list. */
  ghost predicate Mail(t: K, p: nat, waits: bool, has: bool, msg: int) {
    && Tables(t) && p < NPROC
    && t.procs[p].state != FREE && t.procs[p].hasmsg == has && t.procs[p].msg == msg
    && (waits ==> t.procs[p].state == RECV && forall n | 0 <= n < NLISTS :: p !in t.lists[n])
  }

  // ----- the building blocks leave the message alone -----

  lemma ReadyMail(k: K, q: nat, p: nat, waits: bool, has: bool, msg: int)
    requires Mail(k, p, waits, has, msg) && q < NPROC && (waits ==> q != p)
    ensures Mail(MakeReady(k, q), p, waits, has, msg)
  {
    var l := k.lists[READYQ];
    InsertedMembers(l, DescPos(l, k.keys, k.procs[q].prio), q);
  }

  lemma DispatchMail(k: K, p: nat, waits: bool, has: bool, msg: int)
    requires Mail(k, p, waits, has, msg) && k.lists[READYQ] != []
    ensures Mail(Dispatch(k), p, waits, has, msg)
  {
    var l := k.lists[READYQ];
    assert l[0] in l && forall q | q in l[1..] :: q in l;
  }

  lemma ReschedMail(k: K, p: nat, waits: bool, has: bool, msg: int)
    requires Mail(k, p, waits, has, msg)
    ensures Mail(Resched(k), p, waits, has, msg)
  {
    hide MakeReady, Dispatch;
    if k.ndefers == 0 {
      if k.procs[k.curr].state == CURR {
        ReadyMail(k, k.curr, p, waits, has, msg);
        DispatchMail(MakeReady(k, k.curr), p, waits, has, msg);
      } else if k.lists[READYQ] != [] {
        DispatchMail(k, p, waits, has, msg);
      }
    }
  }

  lemma ReleaseMail(k: K, n: nat, p: nat, waits: bool, has: bool, msg: int)
    requires Mail(k, p, waits, has, msg) && n < NLISTS && n != READYQ && k.lists[n] != []
    ensures Mail(ReleaseFirst(k, n), p, waits, has, msg)
  {
    hide MakeReady;
    var l := k.lists[n];
    assert l[0] in l && forall q | q in l[1..] :: q in l;
    PidsChanged(l, 0);
    ReadyMail(k.(lists := k.lists[n := l[1..]]), l[0], p, waits, has, msg);
  }

  lemma {:induction false} ReleaseAllMail(k: K, n: nat, p: nat, waits: bool, has: bool, msg: int)
    requires Mail(k, p, waits, has, msg) && n < NLISTS && n != READYQ
    ensures Mail(ReleaseAll(k, n), p, waits, has, msg)
    decreases |k.lists[n]|
  {
    hide ReleaseFirst;
    if k.lists[n] != [] {
      ReleaseMail(k, n, p, waits, has, msg);
      ReleaseAllMail(ReleaseFirst(k, n), n, p, waits, has, msg);
    }
  }

  lemma {:induction false} WakeMail(k: K, p: nat, waits: bool, has: bool, msg: int)
    requires Mail(k, p, waits, has, msg)
    ensures Mail(WakeExpired(k), p, waits, has, msg)
    decreases |k.lists[SLEEPQ]|
  {
    hide ReleaseFirst;
    if k.lists[SLEEPQ] != [] && FirstKey(k, SLEEPQ) <= 0 {
      ReleaseMail(k, SLEEPQ, p, waits, has, msg);
      WakeMail(ReleaseFirst(k, SLEEPQ), p, waits, has, msg);
    }
  }

  lemma SignalMail(k: K, s: nat, p: nat, waits: bool, has: bool, msg: int)
    requires Mail(k, p, waits, has, msg) && s < NSEM
    ensures Mail(SignalOnce(k, s), p, waits, has, msg)
  {
    hide ReleaseFirst;
    if k.sems[s].count < 0 && k.lists[s] != [] {
      ReleaseMail(SetCount(k, s, k.sems[s].count + 1), s, p, waits, has, msg);
    }
  }

  lemma {:induction false} SignalTimesMail(k: K, s: nat, n: nat, p: nat, waits: bool, has: bool, msg: int)
    requires Mail(k, p, waits, has, msg) && s < NSEM
    ensures Mail(SignalTimes(k, s, n), p, waits, has, msg)
    decreases n
  {
    hide SignalOnce;
    if n > 0 {
      SignalTimesMail(k, s, n - 1, p, waits, has, msg);
      SignalMail(SignalTimes(k, s, n - 1), s, p, waits, has, msg);
    }
  }

  /** Another process leaves its list. */
  lemma DropMail(k: K, q: nat, st: PState, p: nat, waits: bool, has: bool, msg: int)
    requires Mail(k, p, waits, has, msg) && q < NPROC && -1 <= Home(k.procs[q]) < NLISTS && q != p
    requires 0 <= Home(k.procs[q]) ==> NoDup(k.lists[Home(k.procs[q])])
    ensures Mail(Drop(k, q, st), p, waits, has, msg)
  {
    if Home(k.procs[q]) >= 0 { WithoutMembers(k.lists[Home(k.procs[q])], q); }
  }

  lemma DropSleeperMail(k: K, q: nat, st: PState, p: nat, waits: bool, has: bool, msg: int)
    requires Mail(k, p, waits, has, msg) && q < NPROC && NoDup(k.lists[SLEEPQ])
    requires q == p ==> !waits && st != FREE
    ensures Mail(DropSleeper(k, q, st), p, waits, has, msg)
  {
    WithoutMembers(k.lists[SLEEPQ], q);
  }

  lemma DelayedMail(k: K, d: int, st: PState, p: nat, waits: bool, has: bool, msg: int)
    requires Mail(k, p, waits, has, msg) && st != FREE && (waits ==> k.curr != p)
    ensures Mail(Delayed(k, d, st), p, waits, has, msg)
  {
    var l := k.lists[SLEEPQ];
    InsertedMembers(l, DeltaPos(l, k.keys, d).0, k.curr);
  }

  lemma MailStart(k: K, p: nat)
    requires Inv(k) && p < NPROC && k.procs[p].state != FREE
    ensures Mail(k, p, k.procs[p].state == RECV, k.procs[p].hasmsg, k.procs[p].msg)
    ensures k.procs[p].state == RECV ==> p != k.curr
    ensures forall n | 0 <= n < NLISTS :: NoDup(k.lists[n])
  {
    if k.procs[p].state == RECV {
      forall n | 0 <= n < NLISTS ensures p !in k.lists[n] {
        StateIsQueue(k, p, n);
        assert p in k.lists[n] <==> Home(k.procs[p]) == n;
      }
    }
  }

  // ----- any call -----

  /** The call takes p's message: only p itself does that. */
  ghost predicate Takes(k: K, c: Call, p: nat) {
    k.curr == p && (c.Receive? || c.ReceiveDone? || c.RecvTime? || c.RecvTimeDone?)
  }

  /** A waiting process stays so until a message comes, and a message stays until its
      receiver takes it. */
  lemma MailStep(k: K, c: Call, p: nat)
    requires Inv(k) && Enabled(k, c) && p < NPROC && k.procs[p].state != FREE
    requires !Takes(k, c, p) && !(c.Kill? && c.pid == p)
    ensures Tables(Step(k, c))
    ensures if c.Send? && c.p == p && !k.procs[p].hasmsg then Mail(Step(k, c), p, false, true, c.msg)
            else Mail(Step(k, c), p, k.procs[p].state == RECV, k.procs[p].hasmsg, k.procs[p].msg)
  {
    InvParts(k);
    MailStart(k, p);
    hide Inv, Struct, Almost, Mail, Resched, WaitCall, SignalCall, SignalnCall, SemDeleteCall, SemResetCall,
      KillCall, SendCall, SemCreateCall, SuspendCall, ResumeCall, CreateCall, Delayed, TickCall;
    var w, h, m := k.procs[p].state == RECV, k.procs[p].hasmsg, k.procs[p].msg;
    match c
    case Kill(q) => KillMail(k, q, p);
    case Send(q, msg) => SendMail(k, q, msg, p);
    case Sleep(d) =>
      if d == 0 { ReschedMail(k, p, w, h, m); }
      else { DelayedMail(k, d, SLEEP, p, w, h, m); ReschedMail(Delayed(k, d, SLEEP), p, w, h, m); }
    case RecvTime(d) =>
      if d >= 0 && !k.procs[k.curr].hasmsg {
        DelayedMail(k, d, RECTIM, p, w, h, m);
        ReschedMail(Delayed(k, d, RECTIM), p, w, h, m);
      } else { TakeMail(k, p, w, h, m); }
    case Tick => TickMail(k, p, w, h, m);
    case Yield => ReschedMail(k, p, w, h, m);
    case Receive => OwnMail(k, c, p);
    case ReceiveDone => TakeMail(k, p, w, h, m);
    case RecvTimeDone => TakeMail(k, p, w, h, m);
    case Quantum => OwnMail(k, c, p);
    case StartDefer => OwnMail(k, c, p);
    case StopDefer => OwnMail(k, c, p);
    case Suspend(_) => ProcMail(k, c, p);
    case Resume(_) => ProcMail(k, c, p);
    case Create(_, _, _) => ProcMail(k, c, p);
    case _ => SemMail(k, c, p);
  }

  lemma TakeMail(k: K, p: nat, w: bool, h: bool, m: int)
    requires Mail(k, p, w, h, m) && k.curr != p
    ensures Mail(TakeMessage(k).0, p, w, h, m) && Mail(TakeOrTimeout(k).0, p, w, h, m)
  {
  }

  lemma TickMail(k: K, p: nat, w: bool, h: bool, m: int)
    requires Mail(k, p, w, h, m)
    ensures Mail(TickCall(k), p, w, h, m)
  {
    hide Resched, WakeExpired;
    if k.lists[SLEEPQ] != [] {
      assert Mail(Ticked(k), p, w, h, m);
      WakeMail(Ticked(k), p, w, h, m);
      ReschedMail(WakeExpired(Ticked(k)), p, w, h, m);
    }
  }

  lemma KillMail(k: K, q: nat, p: nat)
    requires Inv(k) && Enabled(k, Kill(q)) && p < NPROC && q != p && k.procs[p].state != FREE
    ensures Tables(k) && -1 <= Home(k.procs[q]) < NLISTS
    ensures Mail(KillCall(k, q), p, k.procs[p].state == RECV, k.procs[p].hasmsg, k.procs[p].msg)
  {
    InvParts(k);
    MailStart(k, p);
    KillOk(k, q);
    hide Inv, Struct, Almost, Resched, Drop, DropSleeper;
    var w, h, m := k.procs[p].state == RECV, k.procs[p].hasmsg, k.procs[p].msg;
    match k.procs[q].state
    case CURR => ReschedMail(SetState(k, q, FREE), p, w, h, m);
    case SLEEP => DropSleeperMail(k, q, FREE, p, w, h, m);
    case RECTIM => DropSleeperMail(k, q, FREE, p, w, h, m);
    case WAIT =>
      if k.procs[q].sem < NSEM {
        DropMail(SetCount(k, k.procs[q].sem, k.sems[k.procs[q].sem].count + 1), q, FREE, p, w, h, m);
      }
    case _ => DropMail(k, q, FREE, p, w, h, m);
  }

  lemma SendMail(k: K, q: int, msg: int, p: nat)
    requires Inv(k) && p < NPROC && k.procs[p].state != FREE
    ensures Tables(k)
    ensures if q == p && !k.procs[p].hasmsg then Mail(SendCall(k, q, msg).0, p, false, true, msg)
            else Mail(SendCall(k, q, msg).0, p, k.procs[p].state == RECV, k.procs[p].hasmsg, k.procs[p].msg)
  {
    InvParts(k);
    MailStart(k, p);
    hide Inv, Struct, Almost, Resched, MakeReady, DropSleeper;
    if GoodPid(k, q) && !k.procs[q].hasmsg {
      var k1 := k.(procs := k.procs[q := k.procs[q].(msg := msg, hasmsg := true)]);
      var w, h := q != p && k.procs[p].state == RECV, q == p || k.procs[p].hasmsg;
      var m := if q == p then msg else k.procs[p].msg;
      assert Mail(k1, p, w, h, m);
      if k.procs[q].state == RECV {
        ReadyMail(k1, q, p, w, h, m);
        ReschedMail(MakeReady(k1, q), p, w, h, m);
      } else if k.procs[q].state == RECTIM {
        DropSleeperMail(k1, q, SUSP, p, w, h, m);
        ReadyMail(DropSleeper(k1, q, SUSP), q, p, w, h, m);
        ReschedMail(MakeReady(DropSleeper(k1, q, SUSP), q), p, w, h, m);
      }
    }
  }

  lemma OwnMail(k: K, c: Call, p: nat)
    requires Inv(k) && Enabled(k, c) && p < NPROC && k.procs[p].state != FREE && !Takes(k, c, p)
    requires c.Receive? || c.Quantum? || c.StartDefer? || c.StopDefer?
    ensures Mail(Step(k, c), p, k.procs[p].state == RECV, k.procs[p].hasmsg, k.procs[p].msg)
  {
    InvParts(k);
    MailStart(k, p);
    hide Inv, Struct, Almost, Resched;
    var w, h, m := k.procs[p].state == RECV, k.procs[p].hasmsg, k.procs[p].msg;
    match c
    case Receive =>
      if k.procs[k.curr].hasmsg {
        TakeMail(k, p, w, h, m);
      } else {
        ReschedMail(SetState(k, k.curr, RECV), p, w, h, m);
      }
    case Quantum => ReschedMail(k.(preempt := QUANTUM), p, w, h, m);
    case StopDefer => if k.ndefers > 0 { ReschedMail(k.(ndefers := k.ndefers - 1), p, w, h, m); }
    case _ =>
  }

  lemma SuspendMail(k: K, q: int, p: nat, w: bool, h: bool, m: int)
    requires Mail(k, p, w, h, m) && (w ==> p != k.curr)
    requires (0 <= q < NPROC ==> -1 <= Home(k.procs[q]) < NLISTS) && NoDup(k.lists[READYQ])
    requires 0 <= q < NPROC && k.procs[q].state == CURR ==> q == k.curr
    ensures Mail(SuspendCall(k, q).0, p, w, h, m)
  {
    hide Resched;
    if GoodPid(k, q) && q != NULLPROC {
      if k.procs[q].state == READY { WithoutMembers(k.lists[READYQ], q); }
      else if k.procs[q].state == CURR { ReschedMail(SetState(k, q, SUSP), p, w, h, m); }
    }
  }

  lemma ResumeMail(k: K, q: int, p: nat, w: bool, h: bool, m: int)
    requires Mail(k, p, w, h, m)
    ensures Mail(ResumeCall(k, q).0, p, w, h, m)
  {
    hide Resched, MakeReady;
    if GoodPid(k, q) && k.procs[q].state == SUSP {
      ReadyMail(k, q, p, w, h, m);
      ReschedMail(MakeReady(k, q), p, w, h, m);
    }
  }

  lemma CreateMail(k: K, sizeOk: bool, prio: int, stackOk: bool, p: nat, w: bool, h: bool, m: int)
    requires Mail(k, p, w, h, m)
    ensures Mail(CreateCall(k, sizeOk, prio, stackOk).0, p, w, h, m)
  {
    hide FreePid;
  }

  lemma ProcMail(k: K, c: Call, p: nat)
    requires Inv(k) && Enabled(k, c) && p < NPROC && k.procs[p].state != FREE
    requires c.Suspend? || c.Resume? || c.Create?
    ensures Mail(Step(k, c), p, k.procs[p].state == RECV, k.procs[p].hasmsg, k.procs[p].msg)
  {
    hide Inv, Struct, Mail, SuspendCall, ResumeCall, CreateCall;
    InvParts(k);
    MailStart(k, p);
    var w, h, m := k.procs[p].state == RECV, k.procs[p].hasmsg, k.procs[p].msg;
    match c
    case Suspend(q) =>
      if 0 <= q < NPROC {
        StructHome(k, q);
        InvCurr(k, q);
      }
      SuspendMail(k, q, p, w, h, m);
    case Resume(q) => ResumeMail(k, q, p, w, h, m);
    case Create(sizeOk, prio, stackOk) => CreateMail(k, sizeOk, prio, stackOk, p, w, h, m);
  }

  lemma WaitMail(k: K, s: int, p: nat, w: bool, h: bool, m: int)
    requires Mail(k, p, w, h, m) && (w ==> k.curr != p)
    ensures Mail(WaitCall(k, s).0, p, w, h, m)
  {
    hide Resched;
    if GoodSem(k, s) && k.sems[s].count <= 0 {
      var k1 := SetCount(k, s, k.sems[s].count - 1);
      assert Mail(Enqueued(k1, s), p, w, h, m);
      ReschedMail(Enqueued(k1, s), p, w, h, m);
    }
  }

  lemma DeleteMail(k: K, s: int, p: nat, w: bool, h: bool, m: int)
    requires Mail(k, p, w, h, m)
    ensures Mail(SemDeleteCall(k, s).0, p, w, h, m)
  {
    hide Resched, ReleaseAll;
    if GoodSem(k, s) {
      var n := k.sems[s].count;
      var k1 := k.(sems := k.sems[s := Sem(false, (if n < 0 then 0 else n) + 1)]);
      assert Mail(k1, p, w, h, m);
      ReleaseAllMail(k1, s, p, w, h, m);
      ReschedMail(if n < 0 then ReleaseAll(k1, s) else k1, p, w, h, m);
    }
  }

  lemma ResetMail(k: K, s: int, n: int, p: nat, w: bool, h: bool, m: int)
    requires Mail(k, p, w, h, m)
    ensures Mail(SemResetCall(k, s, n).0, p, w, h, m)
  {
    hide Resched, ReleaseAll;
    if GoodSem(k, s) && n >= 0 {
      ReleaseAllMail(k, s, p, w, h, m);
      assert Mail(SetCount(ReleaseAll(k, s), s, n), p, w, h, m);
      ReschedMail(SetCount(ReleaseAll(k, s), s, n), p, w, h, m);
    }
  }

  lemma CreateSemMail(k: K, n: int, p: nat, w: bool, h: bool, m: int)
    requires Mail(k, p, w, h, m) && k.nextsem < NSEM
    ensures Mail(SemCreateCall(k, n).0, p, w, h, m)
  {
  }

  lemma SemMail(k: K, c: Call, p: nat)
    requires Inv(k) && Enabled(k, c) && p < NPROC && k.procs[p].state != FREE
    requires c.Wait? || c.Signal? || c.Signaln? || c.SemCreate? || c.SemDelete? || c.SemReset?
    ensures Mail(Step(k, c), p, k.procs[p].state == RECV, k.procs[p].hasmsg, k.procs[p].msg)
  {
    hide Inv, Struct, Almost, Resched, Mail, WaitCall, SemCreateCall, SemDeleteCall, SemResetCall,
      SignalOnce, SignalTimes;
    InvParts(k);
    MailStart(k, p);
    var w, h, m := k.procs[p].state == RECV, k.procs[p].hasmsg, k.procs[p].msg;
    match c
    case Wait(s) => WaitMail(k, s, p, w, h, m);
    case Signal(s) => if GoodSem(k, s) { SignalMail(k, s, p, w, h, m); ReschedMail(SignalOnce(k, s), p, w, h, m); }
    case Signaln(s, n) =>
      if GoodSem(k, s) && n >= 0 {
        SignalTimesMail(k, s, n, p, w, h, m);
        ReschedMail(SignalTimes(k, s, n), p, w, h, m);
      }
    case SemCreate(n) => CreateSemMail(k, n, p, w, h, m);
    case SemDelete(s) => DeleteMail(k, s, p, w, h, m);
    case SemReset(s, n) => ResetMail(k, s, n, p, w, h, m);
  }

  // ----- runs -----

  /** p is neither killed nor takes a message in the run. */
  ghost predicate LeftAlone(k: K, cs: seq<Call>, p: nat)
    requires Inv(k) && Legal(k, cs)
    decreases |cs|
  {
    cs == [] || (
      && !Takes(k, cs[0], p) && !(cs[0].Kill? && cs[0].pid == p)
      && (StepInv(k, cs[0]); LeftAlone(Step(k, cs[0]), cs[1..], p)))
  }

  /** The first message sent to p in the run, if it has none yet. */
  ghost function FirstSent(cs: seq<Call>, p: nat): seq<int> {
    if cs == [] then []
    else if cs[0].Send? && cs[0].p == p then [cs[0].msg]
    else FirstSent(cs[1..], p)
  }

  /** A process begins to wait in receive by its own call only. */
  lemma NotReceiving(k: K, c: Call, p: nat)
    requires Inv(k) && Enabled(k, c) && p < NPROC && k.procs[p].state != RECV && !Takes(k, c, p)
    ensures Sizes(Step(k, c)) && Step(k, c).procs[p].state != RECV
  {
    hide Inv, Step, View.Due, View.NextFree, View.Among;
    InvParts(k);
    View.ProcessStep(k, c, p);
  }

  /** A process that waits in receive does not run again before a message has come;
      the first one sent wakes it, and that is what it then has. */
  lemma {:induction false} ReceiveWaits(k: K, cs: seq<Call>, p: nat)
    requires Inv(k) && Legal(k, cs) && p < NPROC && LeftAlone(k, cs, p)
    requires k.procs[p].state == RECV && !k.procs[p].hasmsg
    ensures var t := Run(k, cs);
      if FirstSent(cs, p) == [] then t.procs[p].state == RECV && t.curr != p
      else t.procs[p].hasmsg && t.procs[p].msg == FirstSent(cs, p)[0] && t.procs[p].state != RECV
    decreases |cs|
  {
    hide Inv, Step, Takes;
    if cs == [] {
      InvParts(k);
      NotRunning(k, p);
    } else {
      StepInv(k, cs[0]);
      MailStep(k, cs[0], p);
      if cs[0].Send? && cs[0].p == p {
        KernelLives.SendWakes(k, p, cs[0].msg);
        MessageStays(Step(k, cs[0]), cs[1..], p);
      } else {
        ReceiveWaits(Step(k, cs[0]), cs[1..], p);
      }
    }
  }

  lemma NotRunning(k: K, p: nat)
    requires Inv(k) && p < NPROC && k.procs[p].state == RECV
    ensures k.curr != p
  {
  }

  /** A message stays, unchanged, until its receiver takes it. */
  lemma {:induction false} MessageStays(k: K, cs: seq<Call>, p: nat)
    requires Inv(k) && Legal(k, cs) && p < NPROC && LeftAlone(k, cs, p) && k.procs[p].state != FREE && k.procs[p].hasmsg
    ensures Run(k, cs).procs[p].hasmsg && Run(k, cs).procs[p].msg == k.procs[p].msg
    ensures k.procs[p].state != RECV ==> Run(k, cs).procs[p].state != RECV
    decreases |cs|
  {
    hide Inv, Step, Takes;
    InvParts(k);
    if cs != [] {
      StepInv(k, cs[0]);
      MailStep(k, cs[0], p);
      if k.procs[p].state != RECV { NotReceiving(k, cs[0], p); }
      MessageStays(Step(k, cs[0]), cs[1..], p);
    }
  }
}
