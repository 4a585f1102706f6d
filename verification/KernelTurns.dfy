/** Whose turn it is: the order of the ready list after any call, when the processor
    changes hands, how long a time slice is, and what deferral puts off. */
module KernelTurns {
  import opened QueueModel
  import opened KernelModel
  import opened KernelCalls
  import opened KernelInv
  import opened KernelRuns

  // ----- the order of arrival -----

  /** Who was ready comes first, then who a call makes ready, then who gives up the
      processor. */
  ghost function Class(k: K, p: nat): nat
    requires Sizes(k)
  {
    if p in k.lists[READYQ] then 0 else if p == k.curr then 2 else 1
  }

  /** Among those already ready, and among those who wait on one queue, their order. */
  ghost function Place(k: K, p: nat): nat
    requires Sizes(k) && p < NPROC
  {
    if p in k.lists[READYQ] then IndexOf(k.lists[READYQ], p)
    else if 0 <= Home(k.procs[p]) < NLISTS then IndexOf(k.lists[Home(k.procs[p])], p)
    else 0
  }

  ghost predicate Earlier(k: K, p: nat, q: nat)
    requires Sizes(k) && p < NPROC && q < NPROC
  {
    Class(k, p) < Class(k, q) || (Class(k, p) == Class(k, q) && Place(k, p) < Place(k, q))
  }

  /** l goes by priority, and among equals by arrival. */
  ghost predicate InOrder(k: K, l: seq<nat>)
    requires Sizes(k)
  {
    && Pids(l)
    && forall i, j | 0 <= i < j < |l| ::
         || k.procs[l[i]].prio > k.procs[l[j]].prio
         || (k.procs[l[i]].prio == k.procs[l[j]].prio && Earlier(k, l[i], l[j]))
  }

  /** Those who run next: the ready list, after the process that has just been given the
      processor, if it changed hands. */
  ghost function Line(k: K, t: K): seq<nat>
    requires Sizes(t)
  {
    if t.curr != k.curr then [t.curr] + t.lists[READYQ] else t.lists[READYQ]
  }

  /** A state on the way from k, with its ready list in order. */
  ghost predicate Lined(k: K, m: K) {
    && Tables(k) && Tables(m) && m.curr == k.curr && m.procs[k.curr].prio == k.procs[k.curr].prio
    && InOrder(k, m.lists[READYQ])
    && (forall i | 0 <= i < |m.lists[READYQ]| ::
          m.keys[m.lists[READYQ][i]] == k.procs[m.lists[READYQ][i]].prio && m.lists[READYQ][i] != k.curr)
  }

  lemma StartLined(k: K)
    requires Inv(k)
    ensures Lined(k, k)
  {
    hide Inv, Earlier;
    InvParts(k);
    var l := k.lists[READYQ];
    forall i, j | 0 <= i <= j < |l|
      ensures l[j] < NPROC && k.keys[l[j]] == k.procs[l[j]].prio && l[j] != k.curr
      ensures i < j ==> k.procs[l[i]].prio > k.procs[l[j]].prio
                        || (k.procs[l[i]].prio == k.procs[l[j]].prio && Earlier(k, l[i], l[j]))
    {
      ReadyPair(k, i, j);
    }
  }

  lemma ReadyPair(k: K, i: nat, j: nat)
    requires Inv(k) && i <= j < |k.lists[READYQ]|
    ensures var p, q := k.lists[READYQ][i], k.lists[READYQ][j];
      && p < NPROC && q < NPROC && k.keys[q] == k.procs[q].prio && q != k.curr && k.procs[p].prio >= k.procs[q].prio
      && (i < j ==> Earlier(k, p, q))
  {
    var l := k.lists[READYQ];
    ReadyMembers(k);
    assert l[i] in l && l[j] in l && IndexOf(l, l[i]) == i && IndexOf(l, l[j]) == j;
    if i < j { assert k.keys[l[i]] >= k.keys[l[j]]; }
  }

  lemma InsertedPlace(l: seq<nat>, i: nat, p: nat, j: nat)
    requires i <= |l| && j <= |l|
    ensures |InsertedAt(l, i, p)| == |l| + 1
    ensures InsertedAt(l, i, p)[j] == if j < i then l[j] else if j == i then p else l[j - 1]
  {
  }

  /** Making ready the latest arrival keeps the order. */
  lemma ReadyLined(k: K, m: K, p: nat)
    requires Lined(k, m) && p < NPROC && m.procs[p].prio == k.procs[p].prio
    requires forall j | 0 <= j < |m.lists[READYQ]| :: Earlier(k, m.lists[READYQ][j], p) && m.lists[READYQ][j] != p
    ensures var l := MakeReady(m, p).lists[READYQ];
      && InOrder(k, l) && (forall j | 0 <= j < |l| :: MakeReady(m, p).keys[l[j]] == k.procs[l[j]].prio)
    ensures p != k.curr ==> Lined(k, MakeReady(m, p))
  {
    hide Earlier;
    var l, prio, t := m.lists[READYQ], m.procs[p].prio, MakeReady(m, p);
    var i := DescPos(l, m.keys, prio);
    var r := t.lists[READYQ];
    assert r == InsertedAt(l, i, p) && t.keys == m.keys[p := prio];
    forall j | 0 <= j < |l| ensures if j < i then k.procs[l[j]].prio >= prio else k.procs[l[j]].prio < prio {
      assert j < i || j == i || k.procs[l[i]].prio >= k.procs[l[j]].prio;
    }
    hide DescPos, InsertedAt, MakeReady;
    InsertedPlace(l, i, p, 0);
    forall j | 0 <= j < |r|
      ensures r[j] < NPROC && t.keys[r[j]] == k.procs[r[j]].prio && (p != k.curr ==> r[j] != k.curr)
    {
      InsertedPlace(l, i, p, j);
    }
    forall a, b | 0 <= a < b < |r|
      ensures k.procs[r[a]].prio > k.procs[r[b]].prio
              || (k.procs[r[a]].prio == k.procs[r[b]].prio && Earlier(k, r[a], r[b]))
    {
      InsertedPlace(l, i, p, a);
      InsertedPlace(l, i, p, b);
    }
  }

  lemma ReschedLined(k: K, m: K)
    requires Lined(k, m) && -0x8000 <= k.procs[k.curr].prio && k.curr !in k.lists[READYQ]
    requires m.procs[k.curr].state == CURR || m.ndefers > 0 || m.lists[READYQ] != []
    requires forall j | 0 <= j < |m.lists[READYQ]| :: Class(k, m.lists[READYQ][j]) < 2
    ensures var t := Resched(m);
      && InOrder(k, Line(k, t)) && t.ndefers == m.ndefers && t.nextsem == m.nextsem && t.nextpid == m.nextpid
      && t.attempt == (m.attempt || m.ndefers > 0)
      && (t.curr != k.curr ==> m.ndefers == 0 && t.preempt == QUANTUM)
      && (t.curr == k.curr ==> t.preempt == m.preempt)
      && (m.ndefers == 0 && t.curr == k.curr ==>
            m.procs[k.curr].state == CURR
            && forall j | 0 <= j < |t.lists[READYQ]| :: k.procs[t.lists[READYQ][j]].prio < k.procs[k.curr].prio)
  {
    hide Class, Place;
    var c, l, t := k.curr, m.lists[READYQ], Resched(m);
    if m.ndefers > 0 {
    } else if m.procs[c].state == CURR {
      if m.procs[c].prio > FirstKey(m, READYQ) {
        forall j | 0 <= j < |l| ensures k.procs[l[j]].prio < k.procs[c].prio {
          assert j == 0 || k.procs[l[0]].prio >= k.procs[l[j]].prio;
        }
      } else {
        CurrLast(k, m);
        ReadyLined(k, m, c);
        AheadOf(m, c);
        HandedOver(k, MakeReady(m, c));
      }
    } else {
      HandedOver(k, m);
    }
  }

  lemma CurrLast(k: K, m: K)
    requires Lined(k, m) && forall j | 0 <= j < |m.lists[READYQ]| :: Class(k, m.lists[READYQ][j]) < 2
    ensures k.curr !in k.lists[READYQ] ==>
      forall j | 0 <= j < |m.lists[READYQ]| :: Earlier(k, m.lists[READYQ][j], k.curr)
  {
  }

  /** A process that is no better than the first goes behind it. */
  lemma AheadOf(m: K, c: nat)
    requires Tables(m) && c < NPROC && m.lists[READYQ] != [] && m.procs[c].prio <= m.keys[m.lists[READYQ][0]]
    ensures MakeReady(m, c).lists[READYQ][0] == m.lists[READYQ][0]
  {
    var l, i := m.lists[READYQ], DescPos(m.lists[READYQ], m.keys, m.procs[c].prio);
    assert i > 0;
    hide DescPos;
    InsertedPlace(l, i, c, 0);
  }

  lemma HandedOver(k: K, m: K)
    requires Tables(k) && Tables(m) && InOrder(k, m.lists[READYQ]) && m.lists[READYQ] != []
    requires m.lists[READYQ][0] != k.curr
    ensures Line(k, Dispatch(m)) == m.lists[READYQ] && Dispatch(m).curr != k.curr
  {
    var l := m.lists[READYQ];
    assert l == [l[0]] + l[1..];
  }

  // ----- releasing a queue in order -----

  /** The first j of list n have been released, and nobody else. */
  ghost predicate Upto(k: K, m: K, n: nat, j: nat) {
    && Lined(k, m) && n < NLISTS && n != READYQ && j <= |k.lists[n]| && m.lists[n] == Rest(k.lists[n], j)
    && (forall p | 0 <= p < NPROC :: m.procs[p].prio == k.procs[p].prio)
    && (forall i | 0 <= i < |m.lists[READYQ]| :: Settled(k, n, j, m.lists[READYQ][i]))
  }

  /** q was ready, or is among the first j of list n. */
  ghost predicate Settled(k: K, n: nat, j: nat, q: nat)
    requires Sizes(k) && n < NLISTS
  {
    q in k.lists[READYQ] || exists i | 0 <= i < |k.lists[n]| :: i < j && k.lists[n][i] == q
  }

  lemma Member(k: K, n: nat, i: nat)
    requires Inv(k) && n < NLISTS && i < |k.lists[n]|
    ensures k.lists[n][i] < NPROC && Home(k.procs[k.lists[n][i]]) == n && k.lists[n][i] != k.curr
    ensures n != READYQ ==> k.lists[n][i] !in k.lists[READYQ] && Class(k, k.lists[n][i]) == 1
    ensures n == READYQ ==> k.procs[k.lists[n][i]].state == READY
    ensures IndexOf(k.lists[n], k.lists[n][i]) == i && Place(k, k.lists[n][i]) == i
  {
    var p := k.lists[n][i];
    assert p in k.lists[n];
    assert p in k.lists[READYQ] <==> Home(k.procs[p]) == READYQ;
  }

  lemma SettledEarlier(k: K, n: nat, j: nat, q: nat)
    requires Inv(k) && n < NLISTS && n != READYQ && j < |k.lists[n]| && q < NPROC && Settled(k, n, j, q)
    ensures k.lists[n][j] < NPROC && Earlier(k, q, k.lists[n][j]) && Class(k, q) < 2 && q != k.lists[n][j]
  {
    hide Inv;
    InvParts(k);
    Member(k, n, j);
    if q !in k.lists[READYQ] {
      var i :| 0 <= i < |k.lists[n]| && i < j && k.lists[n][i] == q;
      Member(k, n, i);
    }
  }

  lemma RestNext(l: seq<nat>, j: nat)
    requires j < |l|
    ensures Rest(l, j) != [] && Rest(l, j)[0] == l[j] && Rest(l, j)[1..] == Rest(l, j + 1)
  {
  }

  lemma ReleaseUpto(k: K, m: K, n: nat, j: nat)
    requires Inv(k) && Upto(k, m, n, j) && j < |k.lists[n]|
    ensures m.lists[n] != [] && Upto(k, ReleaseFirst(m, n), n, j + 1)
  {
    hide Inv, Rest, Settled, Class, Place, InOrder, MakeReady;
    RestNext(k.lists[n], j);
    var p, l := k.lists[n][j], m.lists[READYQ];
    PidsChanged(m.lists[n], 0);
    var m1 := m.(lists := m.lists[n := m.lists[n][1..]]);
    forall i | 0 <= i < |l| ensures Earlier(k, l[i], p) && l[i] != p {
      SettledEarlier(k, n, j, l[i]);
    }
    Member(k, n, j);
    ReadyLined(k, m1, p);
    ReadyFacts(m1, p);
    var r := MakeReady(m1, p).lists[READYQ];
    forall i | 0 <= i < |r| ensures Settled(k, n, j + 1, r[i]) {
      assert r[i] in r;
      if r[i] != p {
        var h :| 0 <= h < |l| && l[h] == r[i];
        SettledMore(k, n, j, r[i]);
      } else {
        SettledLast(k, n, j);
      }
    }
  }

  lemma ReadyFacts(m: K, p: nat)
    requires Tables(m) && p < NPROC
    ensures forall q :: q in MakeReady(m, p).lists[READYQ] <==> q == p || q in m.lists[READYQ]
    ensures forall n | 0 <= n < NLISTS && n != READYQ :: MakeReady(m, p).lists[n] == m.lists[n]
    ensures forall q | 0 <= q < NPROC :: MakeReady(m, p).procs[q].(state := FREE) == m.procs[q].(state := FREE)
    ensures MakeReady(m, p).curr == m.curr
  {
    hide DescPos;
    InsertedMembers(m.lists[READYQ], DescPos(m.lists[READYQ], m.keys, m.procs[p].prio), p);
  }

  lemma SettledMore(k: K, n: nat, j: nat, q: nat)
    requires Sizes(k) && n < NLISTS && Settled(k, n, j, q)
    ensures Settled(k, n, j + 1, q)
  {
  }

  lemma SettledLast(k: K, n: nat, j: nat)
    requires Sizes(k) && n < NLISTS && j < |k.lists[n]|
    ensures Settled(k, n, j + 1, k.lists[n][j])
  {
  }

  lemma StartUpto(k: K, m: K, n: nat)
    requires Inv(k) && n < NLISTS && n != READYQ && Tables(m) && m.lists == k.lists && m.procs == k.procs
    requires m.curr == k.curr
    requires forall i | 0 <= i < |k.lists[READYQ]| :: m.keys[k.lists[READYQ][i]] == k.keys[k.lists[READYQ][i]]
    ensures Upto(k, m, n, 0)
  {
    hide Inv, InOrder;
    StartLined(k);
    RestEnds(k.lists[n]);
    forall i | 0 <= i < |k.lists[READYQ]| ensures Settled(k, n, 0, k.lists[READYQ][i]) {
    }
  }

  lemma UptoLined(k: K, m: K, n: nat, j: nat)
    requires Inv(k) && Upto(k, m, n, j)
    ensures Lined(k, m) && forall i | 0 <= i < |m.lists[READYQ]| :: Class(k, m.lists[READYQ][i]) < 2
  {
    hide Inv, InOrder, Rest;
    forall i | 0 <= i < |m.lists[READYQ]| ensures Class(k, m.lists[READYQ][i]) < 2 {
      assert Settled(k, n, j, m.lists[READYQ][i]);
    }
  }

  lemma {:induction false} ReleaseAllUpto(k: K, m: K, n: nat, j: nat)
    requires Inv(k) && Upto(k, m, n, j)
    ensures Upto(k, ReleaseAll(m, n), n, |k.lists[n]|)
    decreases |k.lists[n]| - j
  {
    hide Inv, Lined, Settled, ReleaseFirst, Rest;
    UptoTables(k, m, n, j);
    if j < |k.lists[n]| {
      ReleaseUpto(k, m, n, j);
      ReleaseAllUpto(k, ReleaseFirst(m, n), n, j + 1);
    } else {
      RestEnds(k.lists[n]);
    }
  }

  lemma UptoTables(k: K, m: K, n: nat, j: nat)
    requires Upto(k, m, n, j)
    ensures Tables(k) && Tables(m)
  {
  }

  lemma {:induction false} WakeUpto(k: K, m: K, j: nat) returns (i: nat)
    requires Inv(k) && Upto(k, m, SLEEPQ, j)
    ensures Upto(k, WakeExpired(m), SLEEPQ, i)
    decreases |k.lists[SLEEPQ]| - j
  {
    hide Inv, Lined, Settled, ReleaseFirst, Rest;
    UptoTables(k, m, SLEEPQ, j);
    i := j;
    if m.lists[SLEEPQ] != [] && FirstKey(m, SLEEPQ) <= 0 {
      if j == |k.lists[SLEEPQ]| { RestEnds(k.lists[SLEEPQ]); }
      ReleaseUpto(k, m, SLEEPQ, j);
      i := WakeUpto(k, ReleaseFirst(m, SLEEPQ), j + 1);
    }
  }

  lemma SignalUpto(k: K, m: K, s: nat, j: nat)
    requires Inv(k) && Upto(k, m, s, j) && Almost(m, true) && s < NSEM && m.sems[s].used
    ensures Tables(m) && Upto(k, SignalOnce(m, s), s, if j < |k.lists[s]| then j + 1 else j)
  {
    hide Inv, Almost, Lined, Settled, ReleaseFirst, Rest;
    UptoTables(k, m, s, j);
    SignalOnceOk(m, s);
    var m1 := SetCount(m, s, m.sems[s].count + 1);
    UptoSame(k, m, m1, s, j);
    if j < |k.lists[s]| {
      RestNext(k.lists[s], j);
      NonEmptyNegative(m, s);
      ReleaseUpto(k, m1, s, j);
    } else {
      RestEnds(k.lists[s]);
    }
  }

  lemma UptoSame(k: K, m: K, t: K, n: nat, j: nat)
    requires Upto(k, m, n, j) && Sizes(t)
    requires t.lists == m.lists && t.procs == m.procs && t.keys == m.keys && t.curr == m.curr
    ensures Upto(k, t, n, j)
  {
    hide InOrder, Settled, Rest;
  }

  lemma NonEmptyNegative(m: K, s: nat)
    requires Almost(m, true) && s < NSEM && m.lists[s] != []
    ensures m.sems[s].count < 0
  {
    assert SemFine(m.sems[s], m.lists[s]);
  }

  lemma {:induction false} SignalTimesUpto(k: K, s: nat, n: nat)
    requires Inv(k) && s < NSEM && k.sems[s].used
    ensures Tables(k) && Upto(k, SignalTimes(k, s, n), s, if n < |k.lists[s]| then n else |k.lists[s]|)
    decreases n
  {
    hide Inv, Almost, Upto, SignalOnce;
    InvParts(k);
    if n == 0 {
      StartUpto(k, k, s);
    } else {
      SignalTimesUpto(k, s, n - 1);
      SignalTimesOk(k, s, n - 1);
      SignalUpto(k, SignalTimes(k, s, n - 1), s, if n - 1 < |k.lists[s]| then n - 1 else |k.lists[s]|);
    }
  }

  // ----- what a call does before the reschedule, if it asks for one -----

  /** The call asks for a reschedule. */
  ghost predicate Asks(k: K, c: Call)
    requires Tables(k)
  {
    match c
    case Wait(s) => GoodSem(k, s) && k.sems[s].count <= 0
    case Signal(s) => GoodSem(k, s) && k.lists[s] != []
    case Signaln(s, n) => GoodSem(k, s) && n >= 0
    case SemDelete(s) => GoodSem(k, s)
    case SemReset(s, n) => GoodSem(k, s) && n >= 0
    case Suspend(p) => p == k.curr && p != NULLPROC
    case Resume(p) => GoodPid(k, p) && k.procs[p].state == SUSP
    case Kill(p) => p == k.curr
    case Send(p, _) => GoodPid(k, p) && !k.procs[p].hasmsg && k.procs[p].state in {RECV, RECTIM}
    case Receive => !k.procs[k.curr].hasmsg
    case RecvTime(d) => d >= 0 && !k.procs[k.curr].hasmsg
    case Sleep(_) => true
    case Yield => true
    case Tick => k.lists[SLEEPQ] != [] && FirstKey(k, SLEEPQ) <= 1
    case Quantum => k.preempt <= 1
    case StopDefer => k.ndefers == 1 && k.attempt
    case _ => false
  }

  /** m, with its ready list in order, is what the call has made of k when it comes to
      the reschedule, or to its end. */
  ghost predicate Comes(k: K, c: Call, m: K) {
    && Lined(k, m) && (forall i | 0 <= i < |m.lists[READYQ]| :: Class(k, m.lists[READYQ][i]) < 2)
    && (Asks(k, c) ==> m.procs[k.curr].state == CURR || m.ndefers > 0 || m.lists[READYQ] != [])
    && m.ndefers == (if c.StartDefer? then k.ndefers + 1
                     else if c.StopDefer? && k.ndefers > 0 then k.ndefers - 1 else k.ndefers)
    && m.attempt == (k.attempt && !(c.StartDefer? && k.ndefers == 0))
    && m.preempt == (if !c.Quantum? then k.preempt else if k.preempt <= 1 then QUANTUM else k.preempt - 1)
    && (c.SemCreate? || m.nextsem == k.nextsem) && (c.Create? || m.nextpid == k.nextpid)
  }

  /** t is what the call makes of k in the end. */
  ghost predicate Goes(k: K, c: Call, t: K)
    requires Tables(k)
  {
    exists m :: Comes(k, c, m) && t == if Asks(k, c) then Resched(m) else m
  }

  /** Calls that leave the ready list alone until the reschedule. */
  lemma SameList(k: K, c: Call, m: K)
    requires Inv(k) && Enabled(k, c) && Tables(k) && Tables(m)
    requires m.curr == k.curr && m.lists[READYQ] == k.lists[READYQ]
    requires m.procs[k.curr].prio == k.procs[k.curr].prio
    requires m.procs[k.curr].state == CURR || k.curr != NULLPROC
    requires forall p | 0 <= p < NPROC && k.procs[p].state == READY :: m.keys[p] == k.keys[p]
    requires m.ndefers == k.ndefers && m.attempt == k.attempt && m.preempt == k.preempt
    requires (c.SemCreate? || m.nextsem == k.nextsem) && (c.Create? || m.nextpid == k.nextpid)
    requires !c.StartDefer? && !c.StopDefer? && !c.Quantum?
    ensures Comes(k, c, m)
  {
    hide Inv, InOrder, Asks;
    StartLined(k);
    NeverIdle(k);
    forall i | 0 <= i < |k.lists[READYQ]|
      ensures Class(k, k.lists[READYQ][i]) < 2 && k.procs[k.lists[READYQ][i]].state == READY
    {
      Member(k, READYQ, i);
    }
  }

  lemma CurrFree(k: K)
    requires Inv(k)
    ensures Tables(k) && k.procs[k.curr].state == CURR && k.curr !in k.lists[READYQ] && -0x8000 <= k.procs[k.curr].prio
    ensures forall n | 0 <= n < NLISTS :: NoDup(k.lists[n])
    ensures k.curr == NULLPROC || k.lists[READYQ] != []
  {
    InvParts(k);
    NeverIdle(k);
    assert k.curr in k.lists[READYQ] <==> Home(k.procs[k.curr]) == READYQ;
  }

  lemma WaitComes(k: K, s: int)
    requires Inv(k) && Enabled(k, Wait(s))
    ensures Tables(k)
    ensures Goes(k, Wait(s), WaitCall(k, s).0)
  {
    hide Inv, Resched, Comes;
    CurrFree(k);
    if GoodSem(k, s) {
      var k1 := SetCount(k, s, k.sems[s].count - 1);
      var m := if k.sems[s].count <= 0 then Enqueued(k1, s) else k1;
      SameList(k, Wait(s), m);
    } else {
      SameList(k, Wait(s), k);
    }
  }

  lemma SignalComes(k: K, s: int)
    requires Inv(k)
    ensures Tables(k)
    ensures Goes(k, Signal(s), SignalCall(k, s).0)
  {
    hide Inv, Resched, SignalOnce, Upto, Lined, Almost;
    InvParts(k);
    CurrFree(k);
    if GoodSem(k, s) {
      StartUpto(k, k, s);
      SignalUpto(k, k, s, 0);
      SignalOnceOk(k, s);
      UptoLined(k, SignalOnce(k, s), s, if 0 < |k.lists[s]| then 1 else 0);
      SignalKeeps(k, s);
      if k.lists[s] != [] { NonEmptyNegative(k, s); }
      assert Comes(k, Signal(s), SignalOnce(k, s));
    } else {
      SameList(k, Signal(s), k);
    }
  }

  /** The current process goes on. */
  lemma SignalKeeps(k: K, s: nat)
    requires Inv(k) && s < NSEM && k.sems[s].used
    ensures Tables(k) && SignalOnce(k, s).procs[k.curr].state == CURR
  {
    hide Inv, DescPos;
    InvParts(k);
    if k.lists[s] != [] { Member(k, s, 0); }
    CurrFree(k);
  }

  /** What comes of an orderly release, once counts have been set. */
  lemma ReleasedComes(k: K, c: Call, m: K, n: nat, j: nat)
    requires Inv(k) && Upto(k, m, n, j) && Frame(k.(sems := m.sems), m, {n})
    requires !c.StartDefer? && !c.StopDefer? && !c.Quantum?
    requires m.procs[k.curr].state == CURR
    ensures Tables(k) && Comes(k, c, m)
  {
    hide Inv, Upto, Lined, Asks;
    InvParts(k);
    UptoLined(k, m, n, j);
  }

  /** Making others ready leaves the current process current. */
  lemma StillCurrent(k: K, m: K)
    requires Struct(m, true) && m.curr == k.curr
    ensures m.procs[k.curr].state == CURR
  {
  }

  lemma AlmostStruct(m: K)
    requires Almost(m, true)
    ensures Struct(m, true)
  {
  }

  lemma SignalnComes(k: K, s: int, n: int)
    requires Inv(k)
    ensures Tables(k)
    ensures Goes(k, Signaln(s, n), SignalnCall(k, s, n).0)
  {
    hide Inv, Resched, SignalTimes, Upto, Almost, Comes, Struct, Frame;
    InvParts(k);
    CurrFree(k);
    if GoodSem(k, s) && n >= 0 {
      var m := SignalTimes(k, s, n);
      SignalTimesUpto(k, s, n);
      SignalTimesOk(k, s, n);
      AlmostStruct(m);
      FrameCurr(k.(sems := m.sems), m, {s});
      StillCurrent(k, m);
      ReleasedComes(k, Signaln(s, n), m, s, if n < |k.lists[s]| then n else |k.lists[s]|);
    } else {
      SameList(k, Signaln(s, n), k);
    }
  }

  lemma FrameCurr(k: K, t: K, S: set<nat>)
    requires Sizes(k) && Sizes(t) && Frame(k, t, S)
    ensures t.curr == k.curr
  {
  }

  lemma ReleaseComes(k: K, c: Call, m0: K, s: nat)
    requires Inv(k) && s < NSEM && m0 == k.(sems := m0.sems) && |m0.sems| == NSEM
    requires !c.StartDefer? && !c.StopDefer? && !c.Quantum?
    ensures Tables(k) && Tables(m0) && Comes(k, c, ReleaseAll(m0, s)) && Struct(ReleaseAll(m0, s), true)
  {
    hide Inv, Upto, Comes, Struct, Frame, ReleaseAll;
    InvParts(k);
    StructSame(k, m0, true);
    ReleaseAllOk(m0, s);
    StartUpto(k, m0, s);
    ReleaseAllUpto(k, m0, s, 0);
    var m := ReleaseAll(m0, s);
    FrameCurr(m0, m, {s});
    StillCurrent(k, m);
    FrameSame(k, m0, m, s);
    ReleasedComes(k, c, m, s, |k.lists[s]|);
  }

  lemma FrameSame(k: K, m0: K, m: K, s: nat)
    requires Sizes(k) && Sizes(m0) && Sizes(m) && m0 == k.(sems := m0.sems) && Frame(m0, m, {s})
    ensures Frame(k.(sems := m.sems), m, {s})
  {
  }

  lemma DeleteComes(k: K, s: int)
    requires Inv(k)
    ensures Tables(k)
    ensures Goes(k, SemDelete(s), SemDeleteCall(k, s).0)
  {
    hide Inv, Resched, ReleaseAll, Struct, Comes;
    CurrFree(k);
    if GoodSem(k, s) {
      var n := k.sems[s].count;
      var m := k.(sems := k.sems[s := Sem(false, (if n < 0 then 0 else n) + 1)]);
      if n < 0 { ReleaseComes(k, SemDelete(s), m, s); } else { SameList(k, SemDelete(s), m); }
    } else {
      SameList(k, SemDelete(s), k);
    }
  }

  lemma ResetComes(k: K, s: int, n: int)
    requires Inv(k)
    ensures Tables(k)
    ensures Goes(k, SemReset(s, n), SemResetCall(k, s, n).0)
  {
    hide Inv, Resched, ReleaseAll, Struct, Comes;
    CurrFree(k);
    if GoodSem(k, s) && n >= 0 {
      ReleaseComes(k, SemReset(s, n), k, s);
      CountUnseen(k, SemReset(s, n), ReleaseAll(k, s), SetCount(ReleaseAll(k, s), s, n));
    } else {
      SameList(k, SemReset(s, n), k);
    }
  }

  lemma CountUnseen(k: K, c: Call, m: K, t: K)
    requires Tables(k) && Comes(k, c, m) && t == m.(sems := t.sems) && |t.sems| == NSEM
    ensures Comes(k, c, t)
  {
    hide InOrder, Class, Asks;
  }

  lemma WithoutInOrder(k: K, l: seq<nat>, p: nat)
    requires Sizes(k) && InOrder(k, l)
    ensures InOrder(k, Without(l, p)) && forall i | 0 <= i < |Without(l, p)| :: Without(l, p)[i] in l
  {
    hide Earlier;
    var i, r := IndexOf(l, p), Without(l, p);
    if i < |l| { assert |r| == |l| - 1 && forall j | 0 <= j < |r| :: r[j] == l[if j < i then j else j + 1]; }
  }

  /** A process other than the current one is taken out. */
  lemma DropComes(k: K, c: Call, k1: K, p: nat, st: PState)
    requires Inv(k) && Enabled(k, c) && p < NPROC && p != k.curr && k1 == k.(sems := k1.sems) && |k1.sems| == NSEM
    requires !c.StartDefer? && !c.StopDefer? && !c.Quantum?
    ensures Tables(k) && -1 <= Home(k.procs[p]) < NLISTS && Comes(k, c, Drop(k1, p, st))
  {
    hide Inv, Asks, InOrder, Without, Class;
    CurrFree(k);
    StartLined(k);
    HomeOf(k, p);
    var l, m := k.lists[READYQ], Drop(k1, p, st);
    WithoutInOrder(k, l, p);
    forall i | 0 <= i < |m.lists[READYQ]|
      ensures Class(k, m.lists[READYQ][i]) < 2 && m.lists[READYQ][i] != k.curr
      ensures m.keys[m.lists[READYQ][i]] == k.procs[m.lists[READYQ][i]].prio
    {
      assert m.lists[READYQ][i] in l;
      var j :| 0 <= j < |l| && l[j] == m.lists[READYQ][i];
      ReadyClass(k, j);
    }
  }

  lemma ReadyClass(k: K, j: nat)
    requires Inv(k) && j < |k.lists[READYQ]|
    ensures Class(k, k.lists[READYQ][j]) == 0
  {
    var l := k.lists[READYQ];
    assert l[j] in l;
  }

  lemma HomeOf(k: K, p: nat)
    requires Inv(k) && p < NPROC
    ensures -1 <= Home(k.procs[p]) < NLISTS
  {
    InvParts(k);
    StructHome(k, p);
  }

  lemma SuspendComes(k: K, p: int)
    requires Inv(k) && Enabled(k, Suspend(p))
    ensures Tables(k) && (0 <= p < NPROC ==> -1 <= Home(k.procs[p]) < NLISTS)
    ensures Goes(k, Suspend(p), SuspendCall(k, p).0)
  {
    hide Inv, Resched, Drop, Comes;
    CurrFree(k);
    if 0 <= p < NPROC { HomeOf(k, p); InvCurr(k, p); }
    if GoodPid(k, p) && p != NULLPROC && k.procs[p].state == READY {
      DropComes(k, Suspend(p), k, p, SUSP);
    } else if GoodPid(k, p) && p != NULLPROC && k.procs[p].state == CURR {
      SameList(k, Suspend(p), SetState(k, p, SUSP));
    } else {
      SameList(k, Suspend(p), k);
    }
  }

  lemma ResumeComes(k: K, p: int)
    requires Inv(k)
    ensures Tables(k) && Goes(k, Resume(p), ResumeCall(k, p).0)
  {
    hide Inv, Resched, MakeReady, Lined, Class, Place;
    CurrFree(k);
    StartLined(k);
    if GoodPid(k, p) && k.procs[p].state == SUSP {
      OneMoreReady(k, k, Resume(p), p);
    } else {
      SameList(k, Resume(p), k);
    }
  }

  /** p, neither ready nor current, is made ready. */
  lemma OneMoreReady(k: K, m: K, c: Call, p: nat)
    requires Inv(k) && Tables(k) && Lined(k, m) && p < NPROC && p != k.curr && k.procs[p].state !in {READY, CURR}
    requires m.lists[READYQ] == k.lists[READYQ] && m.procs[p].prio == k.procs[p].prio
    requires m.procs[k.curr].state == CURR
    requires m.ndefers == k.ndefers && m.attempt == k.attempt && m.preempt == k.preempt
    requires m.nextsem == k.nextsem && m.nextpid == k.nextpid
    requires !c.StartDefer? && !c.StopDefer? && !c.Quantum?
    ensures Comes(k, c, MakeReady(m, p))
  {
    hide Inv, MakeReady, Asks, InOrder;
    var l := k.lists[READYQ];
    NotReadyListed(k, p);
    forall j | 0 <= j < |l| ensures Earlier(k, l[j], p) && l[j] != p && Class(k, l[j]) == 0 {
      ReadyClass(k, j);
      assert l[j] in l;
    }
    ReadyLined(k, m, p);
    ReadyFacts(m, p);
    ReadyRest(m, p);
    var r := MakeReady(m, p).lists[READYQ];
    forall i | 0 <= i < |r| ensures Class(k, r[i]) < 2 {
      assert r[i] in r;
      if r[i] != p { var j :| 0 <= j < |l| && l[j] == r[i]; }
    }
  }

  lemma NotReadyListed(k: K, p: nat)
    requires Inv(k) && p < NPROC && k.procs[p].state != READY
    ensures p !in k.lists[READYQ]
  {
    StateIsQueue(k, p, READYQ);
  }

  lemma ReadyRest(m: K, p: nat)
    requires Tables(m) && p < NPROC
    ensures var t := MakeReady(m, p);
      && t.ndefers == m.ndefers && t.attempt == m.attempt && t.preempt == m.preempt && t.curr == m.curr
      && t.nextsem == m.nextsem && t.nextpid == m.nextpid
      && forall q | 0 <= q < NPROC && q != p :: t.procs[q] == m.procs[q]
  {
    hide DescPos;
  }

  lemma CreateComes(k: K, sizeOk: bool, prio: int, stackOk: bool)
    requires Inv(k) && Enabled(k, Create(sizeOk, prio, stackOk))
    ensures Tables(k) && Goes(k, Create(sizeOk, prio, stackOk), CreateCall(k, sizeOk, prio, stackOk).0)
  {
    hide Inv, Comes, FreePid;
    CurrFree(k);
    SameList(k, Create(sizeOk, prio, stackOk), CreateCall(k, sizeOk, prio, stackOk).0);
  }

  lemma SemCreateComes(k: K, n: int)
    requires Inv(k)
    ensures Tables(k) && k.nextsem < NSEM && Goes(k, SemCreate(n), SemCreateCall(k, n).0)
  {
    hide Inv, Comes, FreeSem;
    CurrFree(k);
    InvParts(k);
    SameList(k, SemCreate(n), SemCreateCall(k, n).0);
  }

  lemma KillComes(k: K, p: nat)
    requires Inv(k) && Enabled(k, Kill(p))
    ensures Tables(k) && -1 <= Home(k.procs[p]) < NLISTS && Goes(k, Kill(p), KillCall(k, p))
  {
    hide Inv, Comes, Resched, Drop, DropSleeper;
    CurrFree(k);
    HomeOf(k, p);
    InvCurr(k, p);
    match k.procs[p].state
    case CURR => SameList(k, Kill(p), SetState(k, p, FREE));
    case SLEEP => SleeperComes(k, Kill(p), k, p, FREE);
    case RECTIM => SleeperComes(k, Kill(p), k, p, FREE);
    case WAIT =>
      WaiterFacts(k, p);
      DropComes(k, Kill(p), SetCount(k, k.procs[p].sem, k.sems[k.procs[p].sem].count + 1), p, FREE);
    case _ => DropComes(k, Kill(p), k, p, FREE);
  }

  /** A sleeper is taken off its list, which leaves the keys of ready processes alone. */
  lemma SleeperComes(k: K, c: Call, k1: K, p: nat, st: PState)
    requires Inv(k) && Enabled(k, c) && p < NPROC && k.procs[p].state in {SLEEP, RECTIM} && p != k.curr
    requires k1 == k.(procs := k1.procs) && |k1.procs| == NPROC
    requires forall q | 0 <= q < NPROC && q != p :: k1.procs[q] == k.procs[q]
    requires !c.StartDefer? && !c.StopDefer? && !c.Quantum?
    ensures Tables(k) && Tables(k1) && Comes(k, c, DropSleeper(k1, p, st))
    ensures DropSleeper(k1, p, st).lists[READYQ] == k.lists[READYQ]
  {
    hide Inv, Comes, Without, UnsleptKeys;
    CurrFree(k);
    InvParts(k);
    UnsleptOthers(k.lists[SLEEPQ], k.keys, p);
    AwakeReady(k);
    SameList(k, c, DropSleeper(k1, p, st));
  }

  lemma AwakeReady(k: K)
    requires Inv(k)
    ensures forall q | 0 <= q < NPROC && k.procs[q].state == READY :: q !in k.lists[SLEEPQ]
  {
    InvParts(k);
    hide Inv, Almost;
    ReadyAwake(k);
  }

  lemma SendComes(k: K, p: int, m: int)
    requires Inv(k)
    ensures Tables(k) && Goes(k, Send(p, m), SendCall(k, p, m).0)
  {
    hide Inv, Comes, Resched, MakeReady, DropSleeper;
    CurrFree(k);
    if GoodPid(k, p) && !k.procs[p].hasmsg {
      InvCurr(k, p);
      var k1 := k.(procs := k.procs[p := k.procs[p].(msg := m, hasmsg := true)]);
      SameList(k, Send(p, m), k1);
      if k.procs[p].state == RECV {
        ComesLined(k, Send(p, m), k1);
        OneMoreReady(k, k1, Send(p, m), p);
      } else if k.procs[p].state == RECTIM {
        SleeperComes(k, Send(p, m), k1, p, SUSP);
        ComesLined(k, Send(p, m), DropSleeper(k1, p, SUSP));
        SleeperRest(k1, p);
        OneMoreReady(k, DropSleeper(k1, p, SUSP), Send(p, m), p);
      }
    } else {
      SameList(k, Send(p, m), k);
    }
  }

  lemma ComesLined(k: K, c: Call, m: K)
    requires Tables(k) && Comes(k, c, m)
    ensures Lined(k, m)
  {
  }

  lemma SleeperRest(k: K, p: nat)
    requires Tables(k) && p < NPROC
    ensures DropSleeper(k, p, SUSP).procs == k.procs[p := k.procs[p].(state := SUSP)]
    ensures var t := DropSleeper(k, p, SUSP);
      && t.ndefers == k.ndefers && t.attempt == k.attempt && t.preempt == k.preempt && t.curr == k.curr
      && t.nextsem == k.nextsem && t.nextpid == k.nextpid
  {
  }

  lemma DelayComes(k: K, c: Call, d: int, st: PState)
    requires Inv(k) && Enabled(k, c) && MayBlock(k) && d >= 0 && st in {SLEEP, RECTIM}
    requires !c.StartDefer? && !c.StopDefer? && !c.Quantum?
    ensures Tables(k) && Comes(k, c, Delayed(k, d, st))
  {
    hide Inv, Comes, DeltaList, DeltaKeys;
    CurrFree(k);
    InvParts(k);
    SleepFacts(k);
    DeltaNonNegative(k.lists[SLEEPQ], k.keys, k.curr, d);
    AwakeReady(k);
    InvCurr(k, k.curr);
    SameList(k, c, Delayed(k, d, st));
  }

  lemma SleepFacts(k: K)
    requires Inv(k)
    ensures Pids(k.lists[SLEEPQ]) && NoDup(k.lists[SLEEPQ]) && k.curr !in k.lists[SLEEPQ]
    ensures NonNegative(k.lists[SLEEPQ], k.keys)
  {
    assert k.curr in k.lists[SLEEPQ] <==> Home(k.procs[k.curr]) == SLEEPQ;
  }

  lemma OwnComes(k: K, c: Call)
    requires Inv(k) && Enabled(k, c)
    requires c.Receive? || c.ReceiveDone? || c.RecvTime? || c.RecvTimeDone? || c.Sleep? || c.Yield?
    ensures Tables(k) && Goes(k, c, Step(k, c))
  {
    hide Inv, Comes, Resched, Delayed;
    CurrFree(k);
    match c
    case Receive =>
      SameList(k, c, if k.procs[k.curr].hasmsg then TakeMessage(k).0 else SetState(k, k.curr, RECV));
    case ReceiveDone => SameList(k, c, TakeMessage(k).0);
    case RecvTime(d) =>
      if d < 0 { SameList(k, c, k); }
      else if k.procs[k.curr].hasmsg { SameList(k, c, TakeMessage(k).0); }
      else { DelayComes(k, c, d, RECTIM); }
    case RecvTimeDone => SameList(k, c, TakeOrTimeout(k).0);
    case Sleep(d) => if d > 0 { DelayComes(k, c, Signed(d), SLEEP); } else { SameList(k, c, k); }
    case Yield => SameList(k, c, k);
  }

  lemma TickComes(k: K)
    requires Inv(k)
    ensures Tables(k) && Goes(k, Tick, TickCall(k))
  {
    hide Inv, Comes, Resched, WakeExpired, Upto, Struct, Frame;
    CurrFree(k);
    InvParts(k);
    var l := k.lists[SLEEPQ];
    if l == [] {
      SameList(k, Tick, k);
    } else {
      var k1 := Ticked(k);
      SleepFacts(k);
      AwakeReady(k);
      SameList(k, Tick, k1);
      assert FirstKey(k1, SLEEPQ) <= 0 <==> FirstKey(k, SLEEPQ) <= 1;
      if FirstKey(k1, SLEEPQ) <= 0 {
        TickedExpiring(k);
        WakeOk(k1);
        ReadyAwakeKeys(k, k1);
        StartUpto(k, k1, SLEEPQ);
        var j := WakeUpto(k, k1, 0);
        var m := WakeExpired(k1);
        FrameCurr(k1, m, {SLEEPQ});
        StillCurrent(k, m);
        FrameKeys(k, k1, m);
        ReleasedComes(k, Tick, m, SLEEPQ, j);
      }
    }
  }

  lemma ReadyAwakeKeys(k: K, k1: K)
    requires Inv(k) && Tables(k) && k.lists[SLEEPQ] != [] && k1 == Ticked(k)
    ensures forall i | 0 <= i < |k.lists[READYQ]| :: k1.keys[k.lists[READYQ][i]] == k.keys[k.lists[READYQ][i]]
  {
    hide Inv;
    forall i | 0 <= i < |k.lists[READYQ]| ensures k.lists[READYQ][i] != k.lists[SLEEPQ][0] {
      Member(k, READYQ, i);
      Member(k, SLEEPQ, 0);
    }
  }

  lemma FrameKeys(k: K, k1: K, m: K)
    requires Sizes(k) && Sizes(k1) && Sizes(m) && k1 == k.(keys := k1.keys) && Frame(k1, m, {SLEEPQ})
    ensures Frame(k.(sems := m.sems), m, {SLEEPQ})
  {
  }

  lemma DeferComes(k: K, c: Call)
    requires Inv(k) && (c.StartDefer? || c.StopDefer? || c.Quantum?)
    ensures Tables(k) && Goes(k, c, Step(k, c))
  {
    hide Inv, Resched, InOrder, Class;
    CurrFree(k);
    StartLined(k);
    ReadyClasses(k);
    match c
    case StartDefer => assert Comes(k, c, DeferStart(k));
    case StopDefer =>
      var m := if k.ndefers > 0 then k.(ndefers := k.ndefers - 1) else k;
      assert Comes(k, c, m);
    case Quantum => assert Comes(k, c, if k.preempt <= 1 then k.(preempt := QUANTUM) else k.(preempt := k.preempt - 1));
  }

  lemma ReadyClasses(k: K)
    requires Inv(k)
    ensures Sizes(k) && forall i | 0 <= i < |k.lists[READYQ]| :: Class(k, k.lists[READYQ][i]) == 0
  {
    InvParts(k);
    forall i | 0 <= i < |k.lists[READYQ]| ensures Class(k, k.lists[READYQ][i]) == 0 {
      ReadyClass(k, i);
    }
  }

  lemma StepGoes(k: K, c: Call)
    requires Inv(k) && Enabled(k, c)
    ensures Tables(k) && Goes(k, c, Step(k, c))
  {
    hide Inv, Goes, Resched, WaitCall, SignalCall, SignalnCall, SemCreateCall, SemDeleteCall, SemResetCall, SuspendCall,
      ResumeCall, CreateCall, KillCall, SendCall, TickCall;
    InvParts(k);
    match c
    case Wait(s) => WaitComes(k, s);
    case Signal(s) => SignalComes(k, s);
    case Signaln(s, n) => SignalnComes(k, s, n);
    case SemCreate(n) => SemCreateComes(k, n);
    case SemDelete(s) => DeleteComes(k, s);
    case SemReset(s, n) => ResetComes(k, s, n);
    case Suspend(q) => SuspendComes(k, q);
    case Resume(q) => ResumeComes(k, q);
    case Create(sizeOk, prio, stackOk) => CreateComes(k, sizeOk, prio, stackOk);
    case Kill(q) => KillComes(k, q);
    case Send(q, m) => SendComes(k, q, m);
    case Tick => TickComes(k);
    case StartDefer => DeferComes(k, c);
    case StopDefer => DeferComes(k, c);
    case Quantum => DeferComes(k, c);
    case _ => OwnComes(k, c);
  }

  // ----- whose turn it is -----

  /** After any call those who run next go by priority and, among equals, by arrival:
      first who was ready before, then who the call made ready, in the order of their
      queue, then who gave up the processor. */
  lemma ReadyInOrder(k: K, c: Call)
    requires Inv(k) && Enabled(k, c)
    ensures Sizes(k) && Sizes(Step(k, c)) && InOrder(k, Line(k, Step(k, c)))
  {
    hide Inv, Step, Resched, InOrder, Class, Asks;
    CurrFree(k);
    StepGoes(k, c);
    var m :| Comes(k, c, m) && Step(k, c) == if Asks(k, c) then Resched(m) else m;
    if Asks(k, c) { ReschedLined(k, m); }
  }

  /** The processor changes hands only when the call asks for it and rescheduling is not
      deferred; if it does not change hands then, everybody ready has a lower priority.
      A change of hands, and the end of a time slice, starts a whole slice; deferral only
      notes that a reschedule is due. */
  lemma TurnStep(k: K, c: Call)
    requires Inv(k) && Enabled(k, c)
    ensures Tables(k) && Tables(Step(k, c))
    ensures var t := Step(k, c);
      && (t.curr != k.curr ==> Asks(k, c) && t.ndefers == 0)
      && (Asks(k, c) && t.ndefers == 0 && t.curr == k.curr ==>
            forall j | 0 <= j < |t.lists[READYQ]| :: k.procs[t.lists[READYQ][j]].prio < k.procs[k.curr].prio)
      && t.preempt == (if t.curr != k.curr then QUANTUM
                       else if !c.Quantum? then k.preempt
                       else if k.preempt <= 1 then QUANTUM else k.preempt - 1)
      && t.ndefers == (if c.StartDefer? then k.ndefers + 1
                       else if c.StopDefer? && k.ndefers > 0 then k.ndefers - 1 else k.ndefers)
      && t.attempt == (if c.StartDefer? then k.attempt && k.ndefers > 0
                       else k.attempt || (Asks(k, c) && t.ndefers > 0))
  {
    hide Inv, Step, Resched, InOrder, Class, Asks;
    CurrFree(k);
    StepGoes(k, c);
    var m :| Comes(k, c, m) && Step(k, c) == if Asks(k, c) then Resched(m) else m;
    if Asks(k, c) {
      ReschedLined(k, m);
      AsksNoStart(k, c);
    }
  }

  lemma AsksNoStart(k: K, c: Call)
    requires Tables(k) && Asks(k, c)
    ensures !c.StartDefer?
  {
  }

  // ----- where the next search starts -----

  lemma {:induction false} SemSearchEnds(sems: seq<Sem>, next: nat, n: nat)
    requires |sems| == NSEM && next < NSEM && n <= NSEM
    ensures var r := FreeSem(sems, next, n);
      r.1 == if r.0 >= 0 then (r.0 + 1) % NSEM else (next + n) % NSEM
    decreases n
  {
    if n > 0 && sems[next].used { SemSearchEnds(sems, if next + 1 >= NSEM then 0 else next + 1, n - 1); }
  }

  lemma {:induction false} PidSearchEnds(procs: seq<Proc>, next: nat, n: nat)
    requires |procs| == NPROC
    ensures var r := FreePid(procs, next, n);
      r.1 % NPROC == if r.0 >= 0 then (r.0 + 1) % NPROC else (next + n) % NPROC
    decreases n
  {
    if n > 0 && procs[next % NPROC].state != FREE { PidSearchEnds(procs, next % NPROC + 1, n - 1); }
  }

  lemma SemSearchMoves(k: K, n: int)
    requires Inv(k)
    ensures Tables(k) && k.nextsem < NSEM
    ensures var (t, r) := SemCreateCall(k, n);
      t.nextpid == k.nextpid && t.nextsem == if r != SYSERR then (r + 1) % NSEM else k.nextsem
  {
    hide Inv, FreeSem;
    InvParts(k);
    SemSearchEnds(k.sems, k.nextsem, NSEM);
  }

  lemma PidSearchMoves(k: K, sizeOk: bool, prio: int, stackOk: bool)
    requires Inv(k)
    ensures Tables(k)
    ensures var (t, r) := CreateCall(k, sizeOk, prio, stackOk);
      t.nextsem == k.nextsem && (r != SYSERR ==> t.nextpid % NPROC == (r + 1) % NPROC)
  {
    hide Inv, FreePid;
    InvParts(k);
    PidSearchEnds(k.procs, k.nextpid, NPROC);
  }

  lemma SearchesStay(k: K, c: Call)
    requires Inv(k) && Enabled(k, c) && !c.SemCreate? && !c.Create?
    ensures Step(k, c).nextsem == k.nextsem && Step(k, c).nextpid == k.nextpid
  {
    hide Inv, Step, Resched, InOrder, Class, Asks;
    CurrFree(k);
    StepGoes(k, c);
    var m :| Comes(k, c, m) && Step(k, c) == if Asks(k, c) then Resched(m) else m;
    if Asks(k, c) { ReschedLined(k, m); }
  }

  /** A search goes on after the entry the last one found; no other call moves it. */
  lemma SearchMoves(k: K, c: Call)
    requires Inv(k) && Enabled(k, c)
    ensures var t, r := Step(k, c), Reply(k, c);
      && t.nextsem == (if c.SemCreate? && r.Answer? && r != Answer(SYSERR) then (r.code + 1) % NSEM else k.nextsem)
      && (!c.Create? ==> t.nextpid == k.nextpid)
      && (c.Create? && r.Answer? && r != Answer(SYSERR) ==> t.nextpid % NPROC == (r.code + 1) % NPROC)
  {
    hide Inv, SemCreateCall, CreateCall;
    match c
    case SemCreate(n) => SemSearchMoves(k, n);
    case Create(sizeOk, prio, stackOk) => PidSearchMoves(k, sizeOk, prio, stackOk);
    case _ => SearchesStay(k, c);
  }
}
