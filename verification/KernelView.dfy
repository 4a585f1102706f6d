/** What each call does to every process, in the terms of the callers: who runs, who
    waits for what, and who has a message.  It is told from the state before and what
    was asked; how the tables get there is no part of it. */
module KernelView {
  import opened QueueModel
  import opened KernelModel
  import opened KernelCalls
  import opened KernelInv
  import opened KernelRuns
  import opened KernelTime
  import opened CircularSearch

  // ----- a process from outside -----

  /** Which of the processes that may run has the processor is the scheduler's matter. */
  datatype Doing = Runs | Held | Awaits(sem: nat) | Receives | Sleeps | ReceivesUntil

  datatype View = Nobody | View(doing: Doing, prio: int, parent: nat, mail: seq<int>)

  function Look(p: Proc): View {
    var mail := if p.hasmsg then [p.msg] else [];
    match p.state
    case FREE => Nobody
    case CURR => View(Runs, p.prio, p.parent, mail)
    case READY => View(Runs, p.prio, p.parent, mail)
    case SUSP => View(Held, p.prio, p.parent, mail)
    case WAIT => View(Awaits(p.sem), p.prio, p.parent, mail)
    case RECV => View(Receives, p.prio, p.parent, mail)
    case SLEEP => View(Sleeps, p.prio, p.parent, mail)
    case RECTIM => View(ReceivesUntil, p.prio, p.parent, mail)
  }

  function Now(v: View, d: Doing): View { if v.Nobody? then v else v.(doing := d) }

  function Mail(v: View, m: seq<int>): View { if v.Nobody? then v else v.(mail := m) }

  /** Semaphore s exists. */
  ghost predicate Exists(k: K, s: int)
    requires Sizes(k)
  {
    0 <= s < NSEM && k.sems[s].used
  }

  /** p is among the first n that wait on s. */
  ghost predicate Among(k: K, s: nat, n: int, p: nat)
    requires Sizes(k) && s < NSEM
  {
    exists i | 0 <= i < |k.lists[s]| :: i < n && k.lists[s][i] == p
  }

  /** p is the entry that a search from nextpid on comes to first. */
  ghost predicate NextFree(k: K, p: nat)
    requires Sizes(k) && p < NPROC
  {
    && k.procs[p].state == FREE
    && forall q | 0 <= q < NPROC && Ahead(k.nextpid % NPROC, q, NPROC) < Ahead(k.nextpid % NPROC, p, NPROC) ::
         k.procs[q].state != FREE
  }

  /** After the next tick p has no time left. */
  ghost predicate Due(k: K, p: nat)
    requires Tables(k) && p < NPROC
  {
    Asleep(k, p) && Left(k, p) <= if FirstKey(k, SLEEPQ) >= 1 then 1 else 0
  }

  /** What a call makes of process p. */
  ghost function After(k: K, c: Call, p: nat): View
    requires Tables(k) && p < NPROC
  {
    var was, me := Look(k.procs[p]), p == k.curr;
    match c
    case Wait(s) => if me && Exists(k, s) && k.sems[s].count <= 0 then Now(was, Awaits(s)) else was
    case Signal(s) => if Exists(k, s) && Among(k, s, 1, p) then Now(was, Runs) else was
    case Signaln(s, n) => if Exists(k, s) && Among(k, s, n, p) then Now(was, Runs) else was
    case SemCreate(_) => was
    case SemDelete(s) => if Exists(k, s) && p in k.lists[s] then Now(was, Runs) else was
    case SemReset(s, count) => if Exists(k, s) && count >= 0 && p in k.lists[s] then Now(was, Runs) else was
    case Suspend(q) => if p == q && p != NULLPROC && was.View? && was.doing == Runs then Now(was, Held) else was
    case Resume(q) => if p == q && was.View? && was.doing == Held then Now(was, Runs) else was
    case Create(sizeOk, prio, stackOk) =>
      if sizeOk && prio > 0 && stackOk && NextFree(k, p) then View(Held, prio, k.curr, []) else was
    case Kill(q) => if p == q then Nobody else was
    case Send(q, m) =>
      if p != q || was.Nobody? || was.mail != [] then was
      else if was.doing in {Receives, ReceivesUntil} then Now(Mail(was, [m]), Runs)
      else Mail(was, [m])
    case Receive => if !me then was else if k.procs[p].hasmsg then Mail(was, []) else Now(was, Receives)
    case ReceiveDone => if me then Mail(was, []) else was
    case RecvTime(d) =>
      if !me || d < 0 then was else if k.procs[p].hasmsg then Mail(was, []) else Now(was, ReceivesUntil)
    case RecvTimeDone => if me then Mail(was, []) else was
    case Sleep(d) => if me && d > 0 then Now(was, Sleeps) else was
    case Tick => if Due(k, p) then Now(was, Runs) else was
    case Yield => was
    case Quantum => was
    case StartDefer => was
    case StopDefer => was
  }

  // ----- the building blocks -----

  /** Only processes in use are on lists, and on the ready list only ready ones. */
  ghost predicate Fit(k: K) {
    && Tables(k)
    && (forall n, i | 0 <= n < NLISTS && 0 <= i < |k.lists[n]| :: k.procs[k.lists[n][i]].state != FREE)
    && (forall i | 0 <= i < |k.lists[READYQ]| :: k.procs[k.lists[READYQ][i]].state == READY)
  }

  /** From k to t just the processes of S were made ready. */
  ghost predicate Woken(k: K, t: K, S: set<nat>) {
    && |k.procs| == |t.procs| == NPROC
    && forall p | 0 <= p < NPROC :: Look(t.procs[p]) == if p in S then Now(Look(k.procs[p]), Runs) else Look(k.procs[p])
  }

  lemma InvFit(k: K)
    requires Inv(k)
    ensures Fit(k)
  {
    InvParts(k);
    forall n, i | 0 <= n < NLISTS && 0 <= i < |k.lists[n]|
      ensures k.procs[k.lists[n][i]].state != FREE && (n == READYQ ==> k.procs[k.lists[n][i]].state == READY)
    {
      assert k.lists[n][i] in k.lists[n] && Home(k.procs[k.lists[n][i]]) == n;
    }
  }

  lemma WokenMore(k: K, t: K, u: K, S: set<nat>, T: set<nat>)
    requires Woken(k, t, S) && Woken(t, u, T)
    ensures Woken(k, u, S + T)
  {
  }

  lemma ReadyWoken(k: K, p: nat)
    requires Fit(k) && p < NPROC && k.procs[p].state != FREE
    ensures Fit(MakeReady(k, p)) && Woken(k, MakeReady(k, p), {p})
  {
    hide DescPos;
    var l, i, t := k.lists[READYQ], DescPos(k.lists[READYQ], k.keys, k.procs[p].prio), MakeReady(k, p);
    InsertedMembers(l, i, p);
    forall j | 0 <= j < |t.lists[READYQ]| ensures t.procs[t.lists[READYQ][j]].state == READY {
      assert t.lists[READYQ][j] in t.lists[READYQ];
    }
  }

  /** Scheduling is not seen from outside. */
  lemma ReschedUnseen(k: K)
    requires Fit(k)
    ensures Woken(k, Resched(k), {})
  {
    hide MakeReady;
    if k.ndefers == 0 && k.procs[k.curr].state == CURR { ReadyWoken(k, k.curr); }
  }

  lemma ReleaseWoken(k: K, n: nat)
    requires Fit(k) && n < NLISTS && n != READYQ && k.lists[n] != []
    ensures Fit(ReleaseFirst(k, n)) && Woken(k, ReleaseFirst(k, n), {k.lists[n][0]})
  {
    hide MakeReady;
    var l := k.lists[n];
    PidsChanged(l, 0);
    var k1 := k.(lists := k.lists[n := l[1..]]);
    assert forall i | 0 <= i < |l| - 1 :: l[1..][i] == l[i + 1];
    ReadyWoken(k1, l[0]);
  }

  ghost function Firsts(l: seq<nat>, n: int): set<nat> { set i | 0 <= i < |l| && i < n :: l[i] }

  lemma FirstsNext(l: seq<nat>, n: int)
    requires l != [] && n > 0
    ensures Firsts(l, n) == {l[0]} + Firsts(l[1..], n - 1)
  {
    forall p | p in Firsts(l, n) ensures p in {l[0]} + Firsts(l[1..], n - 1) {
      var i :| 0 <= i < |l| && i < n && l[i] == p;
      if i > 0 { assert l[1..][i - 1] == p; }
    }
    forall p | p in Firsts(l[1..], n - 1) ensures p in Firsts(l, n) {
      var i :| 0 <= i < |l[1..]| && i < n - 1 && l[1..][i] == p;
      assert l[i + 1] == p;
    }
  }

  lemma {:induction false} ReleaseAllWoken(k: K, n: nat)
    requires Fit(k) && n < NLISTS && n != READYQ
    ensures Fit(ReleaseAll(k, n)) && Woken(k, ReleaseAll(k, n), Firsts(k.lists[n], |k.lists[n]|))
    decreases |k.lists[n]|
  {
    hide ReleaseFirst, Woken, Firsts, Fit;
    FitTables(k);
    if k.lists[n] != [] {
      var t := ReleaseFirst(k, n);
      ReleaseWoken(k, n);
      ReleaseAllWoken(t, n);
      WokenMore(k, t, ReleaseAll(t, n), {k.lists[n][0]}, Firsts(t.lists[n], |t.lists[n]|));
      FirstsNext(k.lists[n], |k.lists[n]|);
    } else {
      NoneWoken(k, k.lists[n], 0);
    }
  }

  lemma FitTables(k: K)
    requires Fit(k)
    ensures Tables(k)
  {
  }

  lemma NoneWoken(k: K, l: seq<nat>, n: nat)
    requires |k.procs| == NPROC && (l == [] || n == 0)
    ensures Woken(k, k, Firsts(l, n))
  {
  }

  lemma SignalWoken(k: K, s: nat)
    requires Fit(k) && Almost(k, true) && s < NSEM && k.sems[s].used
    ensures Fit(SignalOnce(k, s)) && Woken(k, SignalOnce(k, s), Firsts(k.lists[s], 1))
  {
    hide Almost, ReleaseFirst, Woken, Firsts;
    SignalOnceOk(k, s);
    var l, k1 := k.lists[s], SetCount(k, s, k.sems[s].count + 1);
    SameProcs(k, k1);
    if k.sems[s].count < 0 {
      FitSame(k, k1);
      ReleaseWoken(k1, s);
      WokenMore(k, k1, ReleaseFirst(k1, s), {}, {l[0]});
      FirstsNext(l, 1);
      NoFirsts(l[1..], 0);
      assert {} + {l[0]} == Firsts(l, 1);
    } else {
      FitSame(k, k1);
      QueueEmpty(k, s);
      NoFirsts(l, 1);
    }
  }

  lemma QueueEmpty(k: K, s: nat)
    requires Almost(k, true) && s < NSEM && k.sems[s].used && k.sems[s].count >= 0
    ensures k.lists[s] == []
  {
    assert SemFine(k.sems[s], k.lists[s]);
  }

  lemma NoFirsts(l: seq<nat>, n: int)
    requires l == [] || n <= 0
    ensures Firsts(l, n) == {}
  {
  }

  lemma FitSame(k: K, t: K)
    requires Fit(k) && Sizes(t) && t.procs == k.procs && t.lists == k.lists
    ensures Fit(t)
  {
  }

  lemma SameProcs(k: K, t: K)
    requires t.procs == k.procs && |k.procs| == NPROC
    ensures Woken(k, t, {})
  {
  }

  lemma {:induction false} SignalTimesWoken(k: K, s: nat, n: nat)
    requires Fit(k) && Almost(k, true) && s < NSEM && k.sems[s].used
    ensures Fit(SignalTimes(k, s, n)) && Woken(k, SignalTimes(k, s, n), Firsts(k.lists[s], n))
    decreases n
  {
    hide Almost, SignalOnce, Fit, Woken, Firsts, Rest;
    AlmostTables(k);
    var l := k.lists[s];
    if n == 0 {
      NoneWoken(k, l, 0);
    } else {
      SignalTimesWoken(k, s, n - 1);
      SignalTimesOk(k, s, n - 1);
      SignalTimesQueue(k, s, n - 1);
      var t := SignalTimes(k, s, n - 1);
      SignalWoken(t, s);
      WokenMore(k, t, SignalOnce(t, s), Firsts(l, n - 1), Firsts(t.lists[s], 1));
      FirstsGrow(l, n - 1);
    }
  }

  lemma FirstsGrow(l: seq<nat>, n: nat)
    ensures Firsts(l, n) + Firsts(Rest(l, if n < |l| then n else |l|), 1) == Firsts(l, n + 1)
  {
    var r := Rest(l, if n < |l| then n else |l|);
    if n < |l| { assert r[0] == l[n]; }
  }

  // ----- the calls -----

  /** t shows every process as the call makes it. */
  ghost predicate Tells(k: K, c: Call, t: K)
    requires Tables(k)
  {
    |t.procs| == NPROC && forall p | 0 <= p < NPROC :: Look(t.procs[p]) == After(k, c, p)
  }

  lemma RescheduledTells(k: K, c: Call, m: K)
    requires Tables(k) && Fit(m) && Tells(k, c, m)
    ensures Tells(k, c, Resched(m))
  {
    hide After, Resched, Fit;
    ReschedUnseen(m);
  }

  /** What the processes on a list were woken from. */
  lemma WokenTells(k: K, c: Call, t: K, S: set<nat>)
    requires Tables(k) && Woken(k, t, S)
    requires forall p | 0 <= p < NPROC ::
      After(k, c, p) == (if p in S then Now(Look(k.procs[p]), Runs) else Look(k.procs[p]))
    ensures Tells(k, c, t)
  {
    hide After;
  }

  lemma CurrOffLists(k: K)
    requires Inv(k)
    ensures Fit(k) && k.procs[k.curr].state == CURR
    ensures forall n | 0 <= n < NLISTS :: k.curr !in k.lists[n] && NoDup(k.lists[n])
  {
    InvFit(k);
    forall n | 0 <= n < NLISTS ensures k.curr !in k.lists[n] {
      assert Home(k.procs[k.curr]) == -1;
    }
  }

  /** The current process leaves the processor, perhaps for a queue. */
  lemma StoppedTells(k: K, c: Call, m: K, n: nat)
    requires Inv(k) && Tables(k) && Tables(m) && n < NLISTS && n != READYQ
    requires forall p | 0 <= p < NPROC && p != k.curr :: m.procs[p] == k.procs[p]
    requires forall q | 0 <= q < NLISTS && q != n :: m.lists[q] == k.lists[q]
    requires forall q | q in m.lists[n] :: q in k.lists[n] || (q == k.curr && m.procs[k.curr].state != FREE)
    requires Tells(k, c, m)
    ensures Tells(k, c, Resched(m))
  {
    hide After, Resched, Inv, Tells;
    CurrOffLists(k);
    forall q, i | 0 <= q < NLISTS && 0 <= i < |m.lists[q]|
      ensures m.procs[m.lists[q][i]].state != FREE && (q == READYQ ==> m.procs[m.lists[q][i]].state == READY)
    {
      assert m.lists[q][i] in m.lists[q];
      if m.lists[q][i] != k.curr { OnListInUse(k, q, m.lists[q][i]); }
    }
    RescheduledTells(k, c, m);
  }

  lemma OnListInUse(k: K, n: nat, p: nat)
    requires Fit(k) && n < NLISTS && p in k.lists[n]
    ensures p < NPROC && k.procs[p].state != FREE && (n == READYQ ==> k.procs[p].state == READY)
  {
    var i :| 0 <= i < |k.lists[n]| && k.lists[n][i] == p;
  }

  lemma WaitTells(k: K, s: int)
    requires Inv(k) && Enabled(k, Wait(s))
    ensures Tables(k) && Tells(k, Wait(s), WaitCall(k, s).0)
  {
    hide Inv, Resched;
    InvParts(k);
    CurrOffLists(k);
    if Exists(k, s) && k.sems[s].count <= 0 {
      StoppedTells(k, Wait(s), Enqueued(SetCount(k, s, k.sems[s].count - 1), s), s);
    }
  }

  lemma SignalTells(k: K, s: int)
    requires Inv(k)
    ensures Tables(k) && Tells(k, Signal(s), SignalCall(k, s).0)
  {
    hide Inv, Almost, Resched, SignalOnce, Fit, Woken, Firsts, Tells;
    InvParts(k);
    InvFit(k);
    if Exists(k, s) {
      SignalWoken(k, s);
      AmongFirsts(k, s, 1);
      WokenTells(k, Signal(s), SignalOnce(k, s), Firsts(k.lists[s], 1));
      RescheduledTells(k, Signal(s), SignalOnce(k, s));
    } else {
      NothingTold(k, Signal(s));
    }
  }

  lemma AmongFirsts(k: K, s: nat, n: int)
    requires Sizes(k) && s < NSEM
    ensures forall p :: Among(k, s, n, p) <==> p in Firsts(k.lists[s], n)
  {
  }

  lemma NothingTold(k: K, c: Call)
    requires Tables(k) && forall p | 0 <= p < NPROC :: After(k, c, p) == Look(k.procs[p])
    ensures Tells(k, c, k)
  {
  }

  lemma SignalnTells(k: K, s: int, n: int)
    requires Inv(k)
    ensures Tables(k) && Tells(k, Signaln(s, n), SignalnCall(k, s, n).0)
  {
    hide Inv, Almost, Resched, SignalTimes, Fit, Woken, Firsts, Tells;
    InvParts(k);
    InvFit(k);
    if Exists(k, s) && n >= 0 {
      SignalTimesWoken(k, s, n);
      AmongFirsts(k, s, n);
      WokenTells(k, Signaln(s, n), SignalTimes(k, s, n), Firsts(k.lists[s], n));
      RescheduledTells(k, Signaln(s, n), SignalTimes(k, s, n));
    } else {
      NothingTold(k, Signaln(s, n));
    }
  }

  lemma AllFirsts(l: seq<nat>)
    ensures forall p :: p in Firsts(l, |l|) <==> p in l
  {
  }

  lemma DeleteTells(k: K, s: int)
    requires Inv(k)
    ensures Tables(k) && Tells(k, SemDelete(s), SemDeleteCall(k, s).0)
  {
    hide Inv, Almost, Resched, ReleaseAll, Fit, Woken, Firsts, Tells;
    InvParts(k);
    InvFit(k);
    if Exists(k, s) {
      var n, l := k.sems[s].count, k.lists[s];
      var k1 := k.(sems := k.sems[s := Sem(false, (if n < 0 then 0 else n) + 1)]);
      AllFirsts(l);
      SameProcs(k, k1);
      FitSame(k, k1);
      ReleaseAllWoken(k1, s);
      WokenMore(k, k1, ReleaseAll(k1, s), {}, Firsts(l, |l|));
      if n < 0 {
        WokenTells(k, SemDelete(s), ReleaseAll(k1, s), {} + Firsts(l, |l|));
        RescheduledTells(k, SemDelete(s), ReleaseAll(k1, s));
      } else {
        QueueEmpty(k, s);
        WokenTells(k, SemDelete(s), k1, {});
        RescheduledTells(k, SemDelete(s), k1);
      }
    } else {
      NothingTold(k, SemDelete(s));
    }
  }

  lemma ResetTells(k: K, s: int, c: int)
    requires Inv(k)
    ensures Tables(k) && Tells(k, SemReset(s, c), SemResetCall(k, s, c).0)
  {
    hide Inv, Almost, Resched, ReleaseAll, Fit, Woken, Firsts, Tells;
    InvParts(k);
    InvFit(k);
    if Exists(k, s) && c >= 0 {
      var l, t := k.lists[s], SetCount(ReleaseAll(k, s), s, c);
      AllFirsts(l);
      ReleaseAllWoken(k, s);
      FitTables(ReleaseAll(k, s));
      FitSame(ReleaseAll(k, s), t);
      WokenSame(k, ReleaseAll(k, s), t, Firsts(l, |l|));
      WokenTells(k, SemReset(s, c), t, Firsts(l, |l|));
      RescheduledTells(k, SemReset(s, c), t);
    } else {
      NothingTold(k, SemReset(s, c));
    }
  }

  lemma WokenSame(k: K, t: K, u: K, S: set<nat>)
    requires Woken(k, t, S) && u.procs == t.procs
    ensures Woken(k, u, S)
  {
  }

  /** A process that is on no list, or taken off the one it is on. */
  ghost predicate OffList(k: K, m: K, p: nat)
    requires Tables(k) && Tables(m)
  {
    && (forall q | 0 <= q < NPROC && q != p :: m.procs[q] == k.procs[q])
    && (forall n, q | 0 <= n < NLISTS && q in m.lists[n] :: q in k.lists[n] && q != p)
  }

  lemma OffFit(k: K, m: K, p: nat)
    requires Fit(k) && Tables(m) && OffList(k, m, p)
    ensures Fit(m)
  {
    forall n, i | 0 <= n < NLISTS && 0 <= i < |m.lists[n]|
      ensures m.procs[m.lists[n][i]].state != FREE && (n == READYQ ==> m.procs[m.lists[n][i]].state == READY)
    {
      assert m.lists[n][i] in m.lists[n];
      OnListInUse(k, n, m.lists[n][i]);
    }
  }

  lemma ProcHome(k: K, p: nat)
    requires Inv(k) && p < NPROC
    ensures -1 <= Home(k.procs[p]) < NLISTS
    ensures forall n | 0 <= n < NLISTS :: NoDup(k.lists[n]) && (p in k.lists[n] <==> Home(k.procs[p]) == n)
  {
    forall n | 0 <= n < NLISTS ensures NoDup(k.lists[n]) && (p in k.lists[n] <==> Home(k.procs[p]) == n) {
    }
  }

  lemma DropOff(k: K, p: nat, st: PState)
    requires Inv(k) && Tables(k) && p < NPROC
    ensures -1 <= Home(k.procs[p]) < NLISTS && OffList(k, Drop(k, p, st), p)
    ensures Drop(k, p, st).procs == k.procs[p := k.procs[p].(state := st)]
  {
    hide Inv, Without;
    ProcHome(k, p);
    var n := Home(k.procs[p]);
    if n >= 0 { WithoutMembers(k.lists[n], p); }
  }

  lemma SleeperOff(k: K, p: nat, st: PState)
    requires Inv(k) && Tables(k) && p < NPROC && Asleep(k, p)
    ensures OffList(k, DropSleeper(k, p, st), p)
  {
    hide Inv, Without, UnsleptKeys;
    ProcHome(k, p);
    WithoutMembers(k.lists[SLEEPQ], p);
  }

  lemma SuspendTells(k: K, p: int)
    requires Inv(k) && Enabled(k, Suspend(p))
    ensures Tables(k) && (0 <= p < NPROC ==> -1 <= Home(k.procs[p]) < NLISTS)
    ensures Tells(k, Suspend(p), SuspendCall(k, p).0)
  {
    hide Inv, Resched, Drop, Fit;
    InvParts(k);
    if 0 <= p < NPROC {
      InvCurr(k, p);
      DropOff(k, p, SUSP);
      if p != NULLPROC && k.procs[p].state == CURR { StoppedTells(k, Suspend(p), SetState(k, p, SUSP), SLEEPQ); }
    }
  }

  lemma ResumeTells(k: K, p: int)
    requires Inv(k)
    ensures Tables(k) && Tells(k, Resume(p), ResumeCall(k, p).0)
  {
    hide Inv, Resched, MakeReady, Fit;
    InvParts(k);
    InvFit(k);
    if GoodPid(k, p) && k.procs[p].state == SUSP {
      ReadyWoken(k, p);
      WokenTells(k, Resume(p), MakeReady(k, p), {p});
      RescheduledTells(k, Resume(p), MakeReady(k, p));
    }
  }

  lemma FoundFree(k: K, n: nat)
    requires Sizes(k) && n == NPROC
    ensures var p := FreePid(k.procs, k.nextpid, n).0;
      if p < 0 then forall q | 0 <= q < NPROC :: k.procs[q].state != FREE
      else forall q | 0 <= q < NPROC :: NextFree(k, q) <==> q == p
  {
    hide FreePid, Ahead;
    FreePidFinds(k.procs, k.nextpid, n);
    forall q | 0 <= q < NPROC ensures 0 <= Ahead(k.nextpid % NPROC, q, NPROC) < NPROC {
      AheadNext(k.nextpid % NPROC, q, NPROC);
    }
    var p := FreePid(k.procs, k.nextpid, n).0;
    if p >= 0 {
      forall q | 0 <= q < NPROC && q != p
        ensures Ahead(k.nextpid % NPROC, q, NPROC) != Ahead(k.nextpid % NPROC, p, NPROC)
      {
        AheadDiffers(k.nextpid % NPROC, p, q);
      }
    }
  }

  lemma AheadDiffers(start: nat, p: nat, q: nat)
    requires start < NPROC && p < NPROC && q < NPROC && p != q
    ensures Ahead(start, p, NPROC) != Ahead(start, q, NPROC)
  {
  }

  lemma CreateTells(k: K, sizeOk: bool, prio: int, stackOk: bool)
    requires Inv(k)
    ensures Tables(k) && Tells(k, Create(sizeOk, prio, stackOk), CreateCall(k, sizeOk, prio, stackOk).0)
  {
    hide Inv, FreePid, NextFree;
    InvParts(k);
    FoundFree(k, NPROC);
    NotNextFree(k);
  }

  lemma NotNextFree(k: K)
    requires Sizes(k)
    ensures forall p | 0 <= p < NPROC && NextFree(k, p) :: k.procs[p].state == FREE
  {
  }

  lemma KillTells(k: K, p: nat)
    requires Inv(k) && Enabled(k, Kill(p))
    ensures Tables(k) && -1 <= Home(k.procs[p]) < NLISTS && Tells(k, Kill(p), KillCall(k, p))
  {
    hide Inv, Resched, UnsleptKeys, Without;
    InvParts(k);
    InvCurr(k, p);
    DropOff(k, p, FREE);
    match k.procs[p].state
    case CURR => CurrOffLists(k); StoppedTells(k, Kill(p), SetState(k, p, FREE), SLEEPQ);
    case WAIT => WaiterFacts(k, p);
    case _ =>
  }

  lemma SendTells(k: K, p: int, m: int)
    requires Inv(k)
    ensures Tables(k) && Tells(k, Send(p, m), SendCall(k, p, m).0)
  {
    hide Inv, Resched, MakeReady, Fit, DropSleeper, OffList;
    InvParts(k);
    InvFit(k);
    if GoodPid(k, p) && !k.procs[p].hasmsg {
      var k1 := k.(procs := k.procs[p := k.procs[p].(msg := m, hasmsg := true)]);
      FitMessage(k, k1, p);
      if k.procs[p].state == RECV {
        SentReady(k, k1, p, m);
      } else if k.procs[p].state == RECTIM {
        MessageOff(k, k1, p);
        OffFit(k, DropSleeper(k1, p, SUSP), p);
        SentReady(k, DropSleeper(k1, p, SUSP), p, m);
      }
    }
  }

  /** The receiver has its message and is made ready. */
  lemma SentReady(k: K, t: K, p: nat, m: int)
    requires Tables(k) && Fit(t) && p < NPROC && k.procs[p].state in {RECV, RECTIM} && !k.procs[p].hasmsg
    requires t.procs == k.procs[p := k.procs[p].(msg := m, hasmsg := true, state := t.procs[p].state)]
    requires t.procs[p].state in {RECV, SUSP}
    ensures Tells(k, Send(p, m), Resched(MakeReady(t, p)))
  {
    hide Resched, MakeReady, Fit;
    FitTables(t);
    ReadyWoken(t, p);
    RescheduledTells(k, Send(p, m), MakeReady(t, p));
  }

  lemma MessageOff(k: K, k1: K, p: nat)
    requires Inv(k) && Tables(k) && p < NPROC && Asleep(k, p) && Tables(k1) && k1.lists == k.lists
    requires k1.procs == k.procs[p := k1.procs[p]]
    ensures OffList(k, DropSleeper(k1, p, SUSP), p)
    ensures DropSleeper(k1, p, SUSP).procs == k.procs[p := k1.procs[p].(state := SUSP)]
  {
    hide Inv, Without, UnsleptKeys;
    SleeperOff(k, p, SUSP);
  }

  lemma FitMessage(k: K, t: K, p: nat)
    requires Fit(k) && Sizes(t) && p < NPROC && t.lists == k.lists
    requires forall q | 0 <= q < NPROC :: t.procs[q].state == k.procs[q].state
    ensures Fit(t)
  {
  }

  lemma DelayTells(k: K, c: Call, d: int, st: PState)
    requires Inv(k) && Tables(k) && st in {SLEEP, RECTIM}
    requires forall p | 0 <= p < NPROC ::
      After(k, c, p) == (var v := Look(k.procs[p]);
        if p == k.curr then Now(v, if st == SLEEP then Sleeps else ReceivesUntil) else v)
    ensures Tells(k, c, Resched(Delayed(k, d, st)))
  {
    hide Inv, Resched, After, DeltaPos, DeltaKeys;
    CurrOffLists(k);
    var l := k.lists[SLEEPQ];
    InsertedMembers(l, DeltaPos(l, k.keys, d).0, k.curr);
    StoppedTells(k, c, Delayed(k, d, st), SLEEPQ);
  }

  lemma OwnTells(k: K, c: Call)
    requires Inv(k) && Enabled(k, c)
    requires c.Receive? || c.ReceiveDone? || c.RecvTime? || c.RecvTimeDone? || c.Sleep?
    ensures Tables(k) && Tells(k, c, Step(k, c))
  {
    hide Inv, Resched, Delayed;
    InvParts(k);
    CurrOffLists(k);
    match c
    case Receive =>
      if !k.procs[k.curr].hasmsg { StoppedTells(k, c, SetState(k, k.curr, RECV), SLEEPQ); }
    case ReceiveDone =>
    case RecvTime(d) => if d >= 0 && !k.procs[k.curr].hasmsg { DelayTells(k, c, d, RECTIM); }
    case RecvTimeDone =>
    case Sleep(d) => if d > 0 { DelayTells(k, c, Signed(d), SLEEP); } else { RescheduledTells(k, c, k); }
  }

  // ----- the tick -----

  /** Some of the sleepers were made ready and nobody else. */
  ghost predicate SomeWoken(k: K, t: K, l: seq<nat>) {
    && |k.procs| == |t.procs| == NPROC
    && forall p | 0 <= p < NPROC ::
         Look(t.procs[p]) == Look(k.procs[p]) || (p in l && Look(t.procs[p]) == Now(Look(k.procs[p]), Runs))
  }

  lemma {:induction false} WakeTells(k: K)
    requires Fit(k)
    ensures Fit(WakeExpired(k)) && SomeWoken(k, WakeExpired(k), k.lists[SLEEPQ])
    decreases |k.lists[SLEEPQ]|
  {
    hide ReleaseFirst, Fit;
    FitTables(k);
    if k.lists[SLEEPQ] != [] && FirstKey(k, SLEEPQ) <= 0 {
      ReleaseWoken(k, SLEEPQ);
      WakeTells(ReleaseFirst(k, SLEEPQ));
    }
  }

  lemma TickTells(k: K)
    requires Inv(k)
    ensures Tables(k) && Tells(k, Tick, TickCall(k))
  {
    hide Inv, TickCall, After;
    InvParts(k);
    TickWakesSome(k);
    forall p | 0 <= p < NPROC ensures Look(TickCall(k).procs[p]) == After(k, Tick, p) {
      TickProcess(k, TickCall(k), p);
    }
  }

  lemma TickWakesSome(k: K)
    requires Inv(k)
    ensures Tables(k) && SomeWoken(k, TickCall(k), k.lists[SLEEPQ])
  {
    hide Inv, Resched, WakeExpired, Fit;
    InvParts(k);
    InvFit(k);
    if k.lists[SLEEPQ] != [] {
      FitMessage(k, Ticked(k), 0);
      WakeTells(Ticked(k));
      ReschedUnseen(WakeExpired(Ticked(k)));
    }
  }

  lemma TickProcess(k: K, t: K, p: nat)
    requires Inv(k) && Tables(k) && t == Step(k, Tick) && SomeWoken(k, t, k.lists[SLEEPQ]) && p < NPROC
    ensures Look(t.procs[p]) == After(k, Tick, p)
  {
    hide Inv, Left, Step;
    StateIsQueue(k, p, SLEEPQ);
    if Asleep(k, p) {
      TickLowers(k, p);
      assert t.procs[p].state in {READY, CURR} <==> Due(k, p);
      assert t.procs[p].state !in {READY, CURR} ==> Look(t.procs[p]) == Look(k.procs[p]);
    }
  }

  /** Every call does to every process what After says. */
  lemma ProcessStep(k: K, c: Call, p: nat)
    requires Inv(k) && Enabled(k, c) && p < NPROC
    ensures Tables(k) && Look(Step(k, c).procs[p]) == After(k, c, p)
  {
    hide Inv, After, Resched, WaitCall, SignalCall, SignalnCall, SemCreateCall, SemDeleteCall, SemResetCall,
      SuspendCall, ResumeCall, CreateCall, KillCall, SendCall, ReceiveBlock, RecvTimeBlock, TakeMessage,
      TakeOrTimeout, SleepCall, TickCall, Fit;
    InvParts(k);
    match c
    case Wait(s) => WaitTells(k, s);
    case Signal(s) => SignalTells(k, s);
    case Signaln(s, n) => SignalnTells(k, s, n);
    case SemDelete(s) => DeleteTells(k, s);
    case SemReset(s, n) => ResetTells(k, s, n);
    case Suspend(q) => SuspendTells(k, q);
    case Resume(q) => ResumeTells(k, q);
    case Create(sizeOk, prio, stackOk) => CreateTells(k, sizeOk, prio, stackOk);
    case Kill(q) => KillTells(k, q);
    case Send(q, m) => SendTells(k, q, m);
    case Tick => TickTells(k);
    case _ => RestTells(k, c);
  }

  lemma RestTells(k: K, c: Call)
    requires Inv(k) && Enabled(k, c)
    requires c.SemCreate? || c.Receive? || c.ReceiveDone? || c.RecvTime? || c.RecvTimeDone? || c.Sleep?
      || c.Yield? || c.Quantum? || c.StartDefer? || c.StopDefer?
    ensures Tables(k) && Tells(k, c, Step(k, c))
  {
    hide Inv, Resched, FreeSem, Fit;
    InvParts(k);
    InvFit(k);
    match c
    case SemCreate(_) =>
    case Yield => RescheduledTells(k, c, k);
    case Quantum =>
      FitSame(k, k.(preempt := QUANTUM));
      RescheduledTells(k, c, k.(preempt := QUANTUM));
    case StartDefer =>
    case StopDefer =>
      if k.ndefers > 0 {
        FitSame(k, k.(ndefers := k.ndefers - 1));
        RescheduledTells(k, c, k.(ndefers := k.ndefers - 1));
      }
    case _ => OwnTells(k, c);
  }

  // ----- semaphores -----

  datatype SemView = NoSem | SemView(count: int, waiting: seq<nat>)

  function LookSem(k: K, s: nat): SemView
    requires s < |k.sems| && s < |k.lists|
  {
    if k.sems[s].used then SemView(k.sems[s].count, k.lists[s]) else NoSem
  }

  /** s is the entry that a search from nextsem on comes to first. */
  ghost predicate NextUnused(k: K, s: nat)
    requires Sizes(k) && s < NSEM && k.nextsem < NSEM
  {
    && !k.sems[s].used
    && forall q | 0 <= q < NSEM && Ahead(k.nextsem, q, NSEM) < Ahead(k.nextsem, s, NSEM) :: k.sems[q].used
  }

  function Minus(l: seq<nat>, p: nat): seq<nat> {
    if l == [] then [] else if l[0] == p then l[1..] else [l[0]] + Minus(l[1..], p)
  }

  /** What a call makes of semaphore s. */
  ghost function AfterSem(k: K, c: Call, s: nat): SemView
    requires Sizes(k) && s < NSEM && k.nextsem < NSEM
  {
    var was := LookSem(k, s);
    match c
    case SemCreate(n) => if n >= 0 && NextUnused(k, s) then SemView(n, []) else was
    case Wait(x) =>
      if was.NoSem? || x != s then was
      else SemView(was.count - 1, if was.count > 0 then was.waiting else was.waiting + [k.curr])
    case Signal(x) =>
      if was.NoSem? || x != s then was
      else SemView(was.count + 1, if was.waiting == [] then [] else was.waiting[1..])
    case Signaln(x, n) =>
      if was.NoSem? || x != s || n < 0 then was
      else SemView(was.count + n, if n < |was.waiting| then Rest(was.waiting, n) else [])
    case SemDelete(x) => if x == s then NoSem else was
    case SemReset(x, n) => if was.NoSem? || x != s || n < 0 then was else SemView(n, [])
    case Kill(p) =>
      if was.SemView? && p in was.waiting then SemView(was.count + 1, Minus(was.waiting, p)) else was
    case _ => was
  }

  lemma {:induction false} MinusWithout(l: seq<nat>, p: nat)
    requires p in l
    ensures Without(l, p) == Minus(l, p)
  {
    if l[0] == p {
      FirstWithout(l);
    } else {
      assert l == [l[0]] + l[1..];
      IndexCons(l[0], l[1..], p);
      RemovedCons(l[0], l[1..], IndexOf(l[1..], p));
      MinusWithout(l[1..], p);
    }
  }

  lemma FoundUnused(k: K)
    requires Sizes(k) && k.nextsem < NSEM
    ensures var s := FreeSem(k.sems, k.nextsem, NSEM).0;
      if s < 0 then forall q | 0 <= q < NSEM :: k.sems[q].used
      else forall q | 0 <= q < NSEM :: NextUnused(k, q) <==> q == s
  {
    hide FreeSem, Ahead;
    FreeSemFinds(k.sems, k.nextsem, NSEM);
    forall q | 0 <= q < NSEM ensures 0 <= Ahead(k.nextsem, q, NSEM) < NSEM {
      AheadNext(k.nextsem, q, NSEM);
    }
    var s := FreeSem(k.sems, k.nextsem, NSEM).0;
    if s >= 0 {
      forall q | 0 <= q < NSEM && q != s ensures Ahead(k.nextsem, q, NSEM) != Ahead(k.nextsem, s, NSEM) {
        SemDiffers(k.nextsem, s, q);
      }
    }
  }

  lemma SemDiffers(start: nat, p: nat, q: nat)
    requires start < NSEM && p < NSEM && q < NSEM && p != q
    ensures Ahead(start, p, NSEM) != Ahead(start, q, NSEM)
  {
  }

  lemma CreatedSem(k: K, n: int, s: nat)
    requires Inv(k) && s < NSEM
    ensures Tables(k) && LookSem(SemCreateCall(k, n).0, s) == AfterSem(k, SemCreate(n), s)
  {
    hide Inv, SemCreateCall, FreeSem;
    InvParts(k);
    CreateQueue(k, n, s);
    QueueFine(k, s);
    FoundUnused(k);
  }

  /** A queue is empty unless the count is negative, and then as long as that. */
  lemma QueueLength(k: K, s: nat)
    requires Inv(k) && s < NSEM
    ensures Tables(k) && k.nextsem < NSEM
    ensures if k.sems[s].used && k.sems[s].count < 0 then |k.lists[s]| == -k.sems[s].count else k.lists[s] == []
  {
    InvParts(k);
    QueueFine(k, s);
  }

  lemma KilledSem(k: K, p: nat, s: nat)
    requires Inv(k) && Enabled(k, Kill(p)) && s < NSEM
    ensures Tables(k) && k.nextsem < NSEM && -1 <= Home(k.procs[p]) < NLISTS
    ensures LookSem(KillCall(k, p), s) == AfterSem(k, Kill(p), s)
  {
    hide Inv, KillCall, Without;
    InvParts(k);
    KillQueue(k, p, s);
    QueueFine(k, s);
    StateIsQueue(k, p, s);
    if p in k.lists[s] {
      MinusWithout(k.lists[s], p);
      WaiterFacts(k, p);
    }
  }

  lemma SignalledSem(k: K, c: Call, s: nat)
    requires Inv(k) && s < NSEM && (c.Signal? || c.Signaln?)
    ensures Tables(k) && k.nextsem < NSEM && LookSem(Step(k, c), s) == AfterSem(k, c, s)
  {
    hide Inv, SignalCall, SignalnCall, Rest;
    QueueLength(k, s);
    RestEnds(k.lists[s]);
    match c
    case Signal(x) => SignalQueue(k, x, s);
    case Signaln(x, n) => SignalnQueue(k, x, n, s);
  }

  lemma ReleasedSem(k: K, c: Call, s: nat)
    requires Inv(k) && s < NSEM && (c.SemDelete? || c.SemReset?)
    ensures Tables(k) && k.nextsem < NSEM && LookSem(Step(k, c), s) == AfterSem(k, c, s)
  {
    hide Inv, SemDeleteCall, SemResetCall, Rest;
    QueueLength(k, s);
    RestEnds(k.lists[s]);
    match c
    case SemDelete(x) => DeleteQueue(k, x, s);
    case SemReset(x, n) => ResetQueue(k, x, n, s);
  }

  /** Every call does to every semaphore what AfterSem says. */
  lemma SemaphoreStep(k: K, c: Call, s: nat)
    requires Inv(k) && Enabled(k, c) && s < NSEM
    ensures Tables(k) && k.nextsem < NSEM && LookSem(Step(k, c), s) == AfterSem(k, c, s)
  {
    hide Inv, WaitCall, SignalCall, SignalnCall, SemCreateCall, SemDeleteCall, SemResetCall, KillCall, SendCall,
      Resched, Creates, Fit, Rest;
    QueueLength(k, s);
    match c
    case Wait(x) => WaitQueue(k, x, s);
    case Signal(_) => SignalledSem(k, c, s);
    case Signaln(_, _) => SignalledSem(k, c, s);
    case SemCreate(n) => CreatedSem(k, n, s);
    case SemDelete(_) => ReleasedSem(k, c, s);
    case SemReset(_, _) => ReleasedSem(k, c, s);
    case Kill(p) => KilledSem(k, p, s);
    case Send(p, msg) => SendQueue(k, p, msg, s);
    case _ => OtherQueue(k, c, s);
  }

  // ----- answers -----

  /** Process p exists, may run, and is not the null process. */
  ghost predicate Running(k: K, p: int)
    requires Sizes(k)
  {
    0 <= p < NPROC && p != NULLPROC && k.procs[p].state != FREE && Look(k.procs[p]).doing == Runs
  }

  ghost predicate Alive(k: K, p: int)
    requires Sizes(k)
  {
    0 <= p < NPROC && k.procs[p].state != FREE
  }

  function Code(ok: bool): Answer { Answer(if ok then OK else SYSERR) }

  /** r is what the call has to return. */
  ghost predicate Answers(k: K, c: Call, r: Answer)
    requires Tables(k) && k.nextsem < NSEM
  {
    var me := k.procs[k.curr];
    match c
    case Wait(s) => r == Code(Exists(k, s))
    case Signal(s) => r == Code(Exists(k, s))
    case Signaln(s, n) => r == Code(Exists(k, s) && n >= 0)
    case SemCreate(n) =>
      if n < 0 || forall s | 0 <= s < NSEM :: k.sems[s].used then r == Code(false)
      else r.Answer? && 0 <= r.code < NSEM && NextUnused(k, r.code)
    case SemDelete(s) => r == Code(Exists(k, s))
    case SemReset(s, n) => r == Code(Exists(k, s) && n >= 0)
    case Suspend(p) => r == Answer(if Running(k, p) then k.procs[p].prio else SYSERR)
    case Resume(p) => r == Answer(if Alive(k, p) && Look(k.procs[p]).doing == Held then k.procs[p].prio else SYSERR)
    case Create(sizeOk, prio, stackOk) =>
      if !sizeOk || prio <= 0 || !stackOk || forall p | 0 <= p < NPROC :: k.procs[p].state != FREE
      then r == Code(false)
      else r.Answer? && 0 <= r.code < NPROC && NextFree(k, r.code)
    case Kill(_) => r == Code(true)
    case Send(p, _) => r == Code(Alive(k, p) && !k.procs[p].hasmsg)
    case Receive => r == if me.hasmsg then Answer(me.msg) else Pending
    case ReceiveDone => me.hasmsg ==> r == Answer(me.msg)
    case RecvTime(d) => r == if d < 0 then Code(false) else if me.hasmsg then Answer(me.msg) else Pending
    case RecvTimeDone => r == Answer(if me.hasmsg then me.msg else TIMEOUT)
    case StopDefer => r == Code(k.ndefers > 0)
    case _ => r == Code(true)
  }

  lemma SemAnswers(k: K, c: Call)
    requires Inv(k) && Enabled(k, c)
    requires c.Wait? || c.Signal? || c.Signaln? || c.SemCreate? || c.SemDelete? || c.SemReset?
    ensures Tables(k) && k.nextsem < NSEM && Answers(k, c, Reply(k, c))
  {
    hide Inv, FreeSem, NextUnused, Resched, SignalOnce, SignalTimes, ReleaseAll;
    InvParts(k);
    if c.SemCreate? {
      FoundUnused(k);
      UnusedOnes(k);
    }
  }

  lemma ProcAnswers(k: K, c: Call)
    requires Inv(k) && Enabled(k, c) && (c.Suspend? || c.Resume? || c.Create?)
    ensures Tables(k) && k.nextsem < NSEM && Answers(k, c, Reply(k, c))
  {
    hide Inv, FreePid, NextFree, Resched, MakeReady, Drop;
    InvParts(k);
    match c
    case Create(_, _, _) => FoundFree(k, NPROC); NotNextFree(k);
    case Suspend(p) => if 0 <= p < NPROC { ProcHome(k, p); }
    case _ =>
  }

  /** Every call returns what Answers says. */
  lemma ReplyAnswers(k: K, c: Call)
    requires Inv(k) && Enabled(k, c)
    ensures Tables(k) && k.nextsem < NSEM && Answers(k, c, Reply(k, c))
  {
    InvParts(k);
    if c.Wait? || c.Signal? || c.Signaln? || c.SemCreate? || c.SemDelete? || c.SemReset? {
      SemAnswers(k, c);
    } else if c.Suspend? || c.Resume? || c.Create? {
      ProcAnswers(k, c);
    } else {
      OtherAnswers(k, c);
    }
  }

  lemma OtherAnswers(k: K, c: Call)
    requires Inv(k) && Enabled(k, c) && !c.Suspend? && !c.Resume? && !c.Create?
    requires !c.Wait? && !c.Signal? && !c.Signaln? && !c.SemCreate? && !c.SemDelete? && !c.SemReset?
    ensures Tables(k) && k.nextsem < NSEM && Answers(k, c, Reply(k, c))
  {
    hide Inv, Resched, MakeReady, DropSleeper;
    InvParts(k);
  }

  lemma UnusedOnes(k: K)
    requires Sizes(k) && k.nextsem < NSEM
    ensures forall s | 0 <= s < NSEM && NextUnused(k, s) :: !k.sems[s].used
  {
  }
}
