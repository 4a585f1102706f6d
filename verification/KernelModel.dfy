/** Processes, scheduler, semaphores, messages and the clock as one state machine:
    what each system call does to the tables, and the invariant of every run. */
module KernelModel {
  import opened QueueModel

  const NULLPROC := 0
  const QUANTUM := 2

  datatype PState = FREE | CURR | READY | RECV | SLEEP | SUSP | WAIT | RECTIM

  datatype Proc = Proc(state: PState, prio: int, sem: nat, hasmsg: bool, msg: int, parent: nat)
  datatype Sem = Sem(used: bool, count: int)

  /** The kernel's tables.  lists holds the members of every queue, keys the qkey of
      every process entry; keys order the ready list and are deltas on the sleep
      list. */
  datatype K = K(procs: seq<Proc>, sems: seq<Sem>, lists: seq<seq<nat>>, keys: seq<int>,
                 curr: nat, ndefers: nat, attempt: bool, preempt: nat, nextpid: nat, nextsem: nat)

  /** The list a process belongs on, by its state alone. */
  function Home(p: Proc): int {
    match p.state
    case READY => READYQ
    case WAIT => p.sem
    case SLEEP => SLEEPQ
    case RECTIM => SLEEPQ
    case _ => -1
  }

  ghost predicate Sizes(k: K) {
    |k.procs| == NPROC && |k.sems| == NSEM && |k.lists| == NLISTS && |k.keys| == NPROC && k.curr < NPROC
  }

  ghost predicate Membership(k: K)
    requires Sizes(k)
  {
    && (forall n | 0 <= n < NLISTS :: Pids(k.lists[n]) && NoDup(k.lists[n]))
    && (forall n, p | 0 <= n < NLISTS && 0 <= p < NPROC :: p in k.lists[n] <==> Home(k.procs[p]) == n)
    && (forall p | 0 <= p < NPROC :: k.procs[p].state == WAIT ==> k.procs[p].sem < NSEM)
  }

  /** The ready list is in descending order of the priorities of its members. */
  ghost predicate ReadyOk(k: K)
    requires Sizes(k) && Membership(k)
  {
    && Descending(k.lists[READYQ], k.keys)
    && (forall p | 0 <= p < NPROC && k.procs[p].state == READY :: k.keys[p] == k.procs[p].prio)
    && (forall p | 0 <= p < NPROC :: -0x8000 <= k.procs[p].prio < 0x8000)
  }

  /** With running, exactly one process is CURR and it is currpid; without, the
      process that was current has just left that state. */
  ghost predicate Struct(k: K, running: bool) {
    && Sizes(k) && Membership(k) && ReadyOk(k)
    && NonNegative(k.lists[SLEEPQ], k.keys)
    && (forall p | 0 <= p < NPROC :: k.procs[p].state == CURR <==> (running && p == k.curr))
    && k.procs[NULLPROC].state in {READY, CURR}
  }

  /** A negative count is minus the number of waiting processes. */
  ghost predicate SemFine(e: Sem, l: seq<nat>) {
    if e.used && e.count < 0 then |l| == -e.count else l == []
  }

  ghost predicate SemsOk(k: K)
    requires Sizes(k)
  {
    forall s | 0 <= s < NSEM :: SemFine(k.sems[s], k.lists[s])
  }

  /** No ready process has a higher priority than the current one, unless a
      reschedule was asked for while rescheduling is deferred. */
  ghost predicate PrioOk(k: K)
    requires Sizes(k)
  {
    (k.ndefers == 0 || !k.attempt) ==>
      forall p | 0 <= p < NPROC && k.procs[p].state == READY :: k.procs[k.curr].prio >= k.procs[p].prio
  }

  ghost predicate Inv(k: K) {
    Struct(k, true) && SemsOk(k) && PrioOk(k) && k.preempt >= 1 && k.nextsem < NSEM
  }

  // ----- building blocks of the system calls -----

  /** Enough for every table access to be in range. */
  ghost predicate Tables(k: K) {
    Sizes(k) && forall n | 0 <= n < NLISTS :: Pids(k.lists[n])
  }

  lemma PidsChanged(l: seq<nat>, p: nat)
    requires Pids(l)
    ensures Pids(Without(l, p)) && (l != [] ==> Pids(l[1..]))
    ensures p < NPROC ==> forall i | 0 <= i <= |l| :: Pids(InsertedAt(l, i, p))
  {
    var r := Without(l, p);
    forall i | 0 <= i < |r| ensures r[i] < NPROC {
      assert r[i] == l[i] || r[i] == l[i + 1];
    }
  }

  function SetState(k: K, p: nat, st: PState): (t: K)
    requires p < |k.procs|
    ensures Tables(k) ==> Tables(t)
  {
    k.(procs := k.procs[p := k.procs[p].(state := st)])
  }

  /** ready without rescheduling: the priority is the key, equal keys go last. */
  ghost function MakeReady(k: K, p: nat): (t: K)
    requires Tables(k) && p < NPROC
    ensures Tables(t) && t.lists[READYQ] != []
  {
    var prio := k.procs[p].prio;
    var l := k.lists[READYQ];
    PidsChanged(l, p);
    SetState(k, p, READY).(lists := k.lists[READYQ := InsertedAt(l, DescPos(l, k.keys, prio), p)],
                           keys := k.keys[p := prio])
  }

  /** The first ready process becomes current. */
  ghost function Dispatch(k: K): (t: K)
    requires Tables(k) && k.lists[READYQ] != []
    ensures Tables(t)
  {
    var p := k.lists[READYQ][0];
    PidsChanged(k.lists[READYQ], p);
    SetState(k, p, CURR).(lists := k.lists[READYQ := k.lists[READYQ][1..]], curr := p, preempt := QUANTUM)
  }

  function FirstKey(k: K, n: nat): int
    requires n < |k.lists| && |k.keys| == NPROC && Pids(k.lists[n])
  {
    if k.lists[n] == [] then MINKEY else k.keys[k.lists[n][0]]
  }

  ghost function Resched(k: K): (t: K)
    requires Tables(k)
    ensures Tables(t)
  {
    if k.ndefers > 0 then k.(attempt := true)
    else if k.procs[k.curr].state == CURR then
      if k.procs[k.curr].prio > FirstKey(k, READYQ) then k else Dispatch(MakeReady(k, k.curr))
    else if k.lists[READYQ] == [] then k
    else Dispatch(k)
  }

  /** getitem of a process that leaves the scheduler's lists for state st. */
  ghost function Drop(k: K, p: nat, st: PState): (t: K)
    requires Tables(k) && p < NPROC && -1 <= Home(k.procs[p]) < NLISTS
    ensures Tables(t)
  {
    var n := Home(k.procs[p]);
    if n < 0 then SetState(k, p, st) else
    PidsChanged(k.lists[n], p);
    SetState(k, p, st).(lists := k.lists[n := Without(k.lists[n], p)])
  }

  /** unsleep: the successor on the delta list inherits the delay. */
  ghost function DropSleeper(k: K, p: nat, st: PState): (t: K)
    requires Tables(k) && p < NPROC
    ensures Tables(t)
  {
    PidsChanged(k.lists[SLEEPQ], p);
    SetState(k, p, st).(lists := k.lists[SLEEPQ := Without(k.lists[SLEEPQ], p)],
                        keys := UnsleptKeys(k.lists[SLEEPQ], k.keys, p))
  }

  /** dequeue from list n and make the process ready. */
  ghost function ReleaseFirst(k: K, n: nat): (t: K)
    requires Tables(k) && n < NLISTS && n != READYQ && k.lists[n] != []
    ensures Tables(t) && t.lists[n] == k.lists[n][1..]
  {
    PidsChanged(k.lists[n], 0);
    MakeReady(k.(lists := k.lists[n := k.lists[n][1..]]), k.lists[n][0])
  }

  /** The current process goes to the tail of a semaphore's queue. */
  ghost function Enqueued(k: K, s: nat): (t: K)
    requires Tables(k) && s < NSEM
    ensures Tables(t)
  {
    k.(procs := k.procs[k.curr := k.procs[k.curr].(state := WAIT, sem := s)],
       lists := k.lists[s := k.lists[s] + [k.curr]])
  }

  /** The current process goes on the delta list. */
  ghost function Delayed(k: K, delay: int, st: PState): (t: K)
    requires Tables(k)
    ensures Tables(t)
  {
    var l := k.lists[SLEEPQ];
    PidsChanged(l, k.curr);
    SetState(k, k.curr, st).(lists := k.lists[SLEEPQ := DeltaList(l, k.keys, k.curr, delay)],
                             keys := DeltaKeys(l, k.keys, k.curr, delay))
  }

  // ----- what the building blocks keep -----

  /** The lists other than READYQ, the semaphores and the keys of processes that
      are not ready are untouched by scheduling. */
  ghost predicate OnlyScheduled(k: K, t: K)
    requires Sizes(k) && Sizes(t)
  {
    && t.sems == k.sems && t.nextpid == k.nextpid && t.nextsem == k.nextsem && t.ndefers == k.ndefers
    && (forall n | 0 <= n < NLISTS && n != READYQ :: t.lists[n] == k.lists[n])
    && (forall p | 0 <= p < NPROC :: t.procs[p].(state := FREE) == k.procs[p].(state := FREE))
    && (forall p | 0 <= p < NPROC && t.procs[p].state != k.procs[p].state ::
          t.procs[p].state in {READY, CURR} && k.procs[p].state in {READY, CURR})
    && (forall p | 0 <= p < NPROC && k.procs[p].state !in {READY, CURR} :: t.keys[p] == k.keys[p])
  }

  lemma StructTables(k: K, running: bool)
    requires Struct(k, running)
    ensures Tables(k)
  {
  }

  /** Only process p changed, and only list n, by gaining or losing p. */
  ghost predicate Moved(k: K, t: K, p: nat, n: nat)
    requires Sizes(k) && Sizes(t) && p < NPROC && n < NLISTS
  {
    && (forall q | 0 <= q < NPROC && q != p :: t.procs[q] == k.procs[q])
    && (forall m | 0 <= m < NLISTS && m != n :: t.lists[m] == k.lists[m])
    && Pids(t.lists[n]) && NoDup(t.lists[n])
    && (forall q :: q in t.lists[n] <==> if q == p then Home(t.procs[p]) == n else q in k.lists[n])
  }

  lemma MovedMembership(k: K, t: K, p: nat, n: nat)
    requires Sizes(k) && Sizes(t) && Membership(k) && p < NPROC && n < NLISTS && Moved(k, t, p, n)
    requires Home(k.procs[p]) == -1 || Home(k.procs[p]) == n
    requires Home(t.procs[p]) == -1 || Home(t.procs[p]) == n
    requires t.procs[p].state == WAIT ==> t.procs[p].sem < NSEM
    ensures Membership(t)
  {
    hide NoDup, Pids;
    forall m, q | 0 <= m < NLISTS && 0 <= q < NPROC ensures q in t.lists[m] <==> Home(t.procs[q]) == m {
      assert q in k.lists[m] <==> Home(k.procs[q]) == m;
    }
  }

  lemma MakeReadyOk(k: K, running: bool, p: nat)
    requires Struct(k, running) && p < NPROC && Home(k.procs[p]) == -1 && k.procs[p].state != CURR
    ensures Struct(MakeReady(k, p), running)
  {
    StructReadyable(k, running, p);
    MakeReadyBasic(k, p);
    var t := MakeReady(k, p);
    hide Membership, ReadyOk, Descending;
    assert t.lists[SLEEPQ] == k.lists[SLEEPQ] && forall q | 0 <= q < NPROC && q != p :: t.keys[q] == k.keys[q];
    NotOnList(k, p, SLEEPQ);
  }

  lemma NotOnList(k: K, p: nat, n: nat)
    requires Sizes(k) && Membership(k) && p < NPROC && n < NLISTS && Home(k.procs[p]) != n
    ensures p !in k.lists[n] && forall i | 0 <= i < |k.lists[n]| :: k.lists[n][i] != p
  {
    assert p in k.lists[n] <==> Home(k.procs[p]) == n;
  }

  lemma StructReadyable(k: K, running: bool, p: nat)
    requires Struct(k, running) && p < NPROC && Home(k.procs[p]) == -1
    ensures p !in k.lists[READYQ]
  {
    NotOnList(k, p, READYQ);
  }

  lemma MakeReadyMoved(k: K, p: nat)
    requires Tables(k) && Membership(k) && p < NPROC && Home(k.procs[p]) == -1
    ensures Sizes(MakeReady(k, p)) && Moved(k, MakeReady(k, p), p, READYQ)
  {
    hide DescPos;
    var l, prio := k.lists[READYQ], k.procs[p].prio;
    NotOnList(k, p, READYQ);
    InsertedMembers(l, DescPos(l, k.keys, prio), p);
  }

  lemma MakeReadyOrder(k: K, p: nat)
    requires Tables(k) && Membership(k) && ReadyOk(k)
    requires p < NPROC && Home(k.procs[p]) == -1 && Membership(MakeReady(k, p))
    ensures ReadyOk(MakeReady(k, p))
  {
    var l, prio, t := k.lists[READYQ], k.procs[p].prio, MakeReady(k, p);
    NotOnList(k, p, READYQ);
    InsertedDescending(l, k.keys, p, prio);
    hide Membership, DescPos, NoDup, Descending;
    assert forall q | 0 <= q < NPROC && q != p :: t.procs[q] == k.procs[q] && t.keys[q] == k.keys[q];
  }

  /** Readying a process that is on no list keeps lists and order right. */
  lemma MakeReadyBasic(k: K, p: nat)
    requires Sizes(k) && Membership(k) && ReadyOk(k) && p < NPROC && Home(k.procs[p]) == -1
    ensures Sizes(MakeReady(k, p)) && Membership(MakeReady(k, p)) && ReadyOk(MakeReady(k, p))
  {
    hide Membership, ReadyOk, MakeReady, Moved;
    MembershipTables(k);
    MakeReadyMoved(k, p);
    MakeReadyState(k, p);
    MovedMembership(k, MakeReady(k, p), p, READYQ);
    MakeReadyOrder(k, p);
  }

  lemma MembershipTables(k: K)
    requires Sizes(k) && Membership(k)
    ensures Tables(k)
  {
  }

  lemma MakeReadyState(k: K, p: nat)
    requires Tables(k) && p < NPROC
    ensures p < |MakeReady(k, p).procs| && MakeReady(k, p).procs[p].state == READY
  {
  }

  /** Lists and homes that agree give every process a list or none. */
  lemma HomeRange(k: K, p: nat)
    requires Sizes(k) && Membership(k) && p < NPROC
    ensures -1 <= Home(k.procs[p]) < NLISTS && (k.procs[p].state == WAIT ==> k.procs[p].sem < NSEM)
  {
  }

  /** The ready list and its keys do not depend on processes that are not ready. */
  lemma ReadyOkSame(k: K, t: K)
    requires Sizes(k) && Membership(k) && ReadyOk(k) && Sizes(t) && Membership(t)
    requires t.lists[READYQ] == k.lists[READYQ]
    requires forall p | 0 <= p < NPROC :: t.procs[p].prio == k.procs[p].prio
    requires forall p | 0 <= p < NPROC && t.procs[p].state == READY ::
               k.procs[p].state == READY && t.keys[p] == k.keys[p]
    ensures ReadyOk(t)
  {
    ReadyMembers(k);
    ReadyMembers(t);
    DescendingKept(k.lists[READYQ], k.keys, t.keys);
  }

  /** A process that is not current leaves its list. */
  lemma DropOk(k: K, running: bool, p: nat, st: PState)
    requires Struct(k, running) && p < NPROC && p != NULLPROC && k.procs[p].state !in {CURR, SLEEP, RECTIM}
    requires st !in {CURR, READY, WAIT, SLEEP, RECTIM}
    ensures -1 <= Home(k.procs[p]) < NLISTS && Struct(Drop(k, p, st), running)
  {
    hide Membership, ReadyOk, NonNegative, Without;
    StructTables(k, running);
    HomeRange(k, p);
    var n, t := Home(k.procs[p]), Drop(k, p, st);
    if n >= 0 {
      DropListed(k, p, st);
    } else {
      NoListMembership(k, t, p);
      ReadyOkSame(k, t);
    }
    assert t.lists[SLEEPQ] == k.lists[SLEEPQ] && t.keys == k.keys;
  }

  lemma DropListed(k: K, p: nat, st: PState)
    requires Sizes(k) && Membership(k) && ReadyOk(k) && p < NPROC && 0 <= Home(k.procs[p]) < NLISTS
    requires st !in {CURR, READY, WAIT, SLEEP, RECTIM}
    ensures var t := Drop(k, p, st); Sizes(t) && Membership(t) && ReadyOk(t)
  {
    var n, t := Home(k.procs[p]), Drop(k, p, st);
    WithoutMembers(k.lists[n], p);
    WithoutPids(k.lists[n], p);
    assert Membership(t) by { MovedMembership(k, t, p, n); }
    if n == READYQ { WithoutDescending(k.lists[n], k.keys, p); }
    hide Membership, Without, NoDup, Pids;
    assert forall q | 0 <= q < NPROC && q != p :: t.procs[q] == k.procs[q];
  }

  /** A process changes between states without a list. */
  lemma NoListMembership(k: K, t: K, p: nat)
    requires Sizes(k) && Sizes(t) && Membership(k) && p < NPROC
    requires t.lists == k.lists && Home(k.procs[p]) == -1 == Home(t.procs[p])
    requires forall q | 0 <= q < NPROC && q != p :: t.procs[q] == k.procs[q]
    ensures Membership(t)
  {
    forall m, q | 0 <= m < NLISTS && 0 <= q < NPROC ensures q in t.lists[m] <==> Home(t.procs[q]) == m {
      assert q in k.lists[m] <==> Home(k.procs[q]) == m;
    }
  }

  lemma WithoutDescending(l: seq<nat>, keys: seq<int>, p: nat)
    requires |keys| == NPROC && Pids(l) && Descending(l, keys) && Pids(Without(l, p))
    ensures Descending(Without(l, p), keys)
  {
    var i, r := IndexOf(l, p), Without(l, p);
    if i < |l| {
      assert forall j | 0 <= j < |r| :: r[j] == l[if j < i then j else j + 1];
    }
  }

  lemma DropSleeperOk(k: K, running: bool, p: nat, st: PState)
    requires Struct(k, running) && p < NPROC && k.procs[p].state in {SLEEP, RECTIM}
    requires st !in {CURR, READY, WAIT, SLEEP, RECTIM}
    ensures Struct(DropSleeper(k, p, st), running)
  {
    hide Membership, ReadyOk, NonNegative, Without, UnsleptKeys, NoDup;
    StructTables(k, running);
    var l, t := k.lists[SLEEPQ], DropSleeper(k, p, st);
    SleeperListed(k, p);
    UnsleptNonNegative(l, k.keys, p);
    UnsleptOthers(l, k.keys, p);
    DropSleeperMoved(k, p, st);
    MovedMembership(k, t, p, SLEEPQ);
    ReadyAwake(k);
    ReadyOkSame(k, t);
  }

  lemma SleeperListed(k: K, p: nat)
    requires Sizes(k) && Membership(k) && p < NPROC && k.procs[p].state in {SLEEP, RECTIM}
    ensures p in k.lists[SLEEPQ] && Pids(k.lists[SLEEPQ]) && NoDup(k.lists[SLEEPQ])
  {
  }

  lemma DropSleeperMoved(k: K, p: nat, st: PState)
    requires Sizes(k) && Membership(k) && p < NPROC && k.procs[p].state in {SLEEP, RECTIM}
    requires st !in {READY, WAIT, SLEEP, RECTIM}
    ensures Sizes(DropSleeper(k, p, st)) && Moved(k, DropSleeper(k, p, st), p, SLEEPQ)
  {
    hide Without, UnsleptKeys;
    WithoutMembers(k.lists[SLEEPQ], p);
    WithoutPids(k.lists[SLEEPQ], p);
  }

  lemma ReadyAwake(k: K)
    requires Sizes(k) && Membership(k)
    ensures forall q | 0 <= q < NPROC && k.procs[q].state == READY :: q !in k.lists[SLEEPQ]
  {
  }

  lemma ReadyMembers(k: K)
    requires Sizes(k) && Membership(k)
    ensures forall i | 0 <= i < |k.lists[READYQ]| ::
              k.lists[READYQ][i] < NPROC && k.procs[k.lists[READYQ][i]].state == READY
  {
    var l := k.lists[READYQ];
    forall i | 0 <= i < |l| ensures l[i] < NPROC && k.procs[l[i]].state == READY {
      assert l[i] in l;
      assert Home(k.procs[l[i]]) == READYQ;
    }
  }

  lemma UnsleptOthers(l: seq<nat>, keys: seq<int>, p: nat)
    requires |keys| == NPROC && Pids(l) && p < NPROC
    ensures forall r | 0 <= r < NPROC && r !in l :: UnsleptKeys(l, keys, p)[r] == keys[r]
  {
  }

  lemma DescendingKept(l: seq<nat>, keys: seq<int>, keys': seq<int>)
    requires |keys| == |keys'| == NPROC && Pids(l) && Descending(l, keys)
    requires forall i | 0 <= i < |l| :: keys'[l[i]] == keys[l[i]]
    ensures Descending(l, keys')
  {
  }

  /** The current process stops running for a state without a list. */
  lemma StopOk(k: K, st: PState)
    requires Struct(k, true) && k.curr != NULLPROC && st !in {CURR, READY, WAIT, SLEEP, RECTIM}
    ensures Struct(SetState(k, k.curr, st), false)
  {
    NoListMembership(k, SetState(k, k.curr, st), k.curr);
    hide Membership, Descending;
  }

  lemma EnqueuedOk(k: K, s: nat)
    requires Struct(k, true) && k.curr != NULLPROC && s < NSEM
    ensures Struct(Enqueued(k, s), false)
  {
    var p, l := k.curr, k.lists[s];
    InsertedMembers(l, |l|, p);
    assert InsertedAt(l, |l|, p) == l + [p];
    var t := Enqueued(k, s);
    NotOnList(k, p, s);
    assert Membership(t) by { MovedMembership(k, t, p, s); }
    hide Membership, Descending;
  }

  lemma DelayedOk(k: K, delay: int, st: PState)
    requires Struct(k, true) && k.curr != NULLPROC && delay >= 0 && st in {SLEEP, RECTIM}
    ensures Struct(Delayed(k, delay, st), false)
  {
    hide Membership, ReadyOk, NonNegative, DeltaList, DeltaKeys, NoDup;
    StructTables(k, true);
    var p, l, t := k.curr, k.lists[SLEEPQ], Delayed(k, delay, st);
    NotOnList(k, p, SLEEPQ);
    SleepShaped(k);
    DeltaNonNegative(l, k.keys, p, delay);
    DelayedMoved(k, delay, st);
    MovedMembership(k, t, p, SLEEPQ);
    ReadyAwake(k);
    ReadyOkSame(k, t);
  }

  lemma SleepShaped(k: K)
    requires Sizes(k) && Membership(k)
    ensures Pids(k.lists[SLEEPQ]) && NoDup(k.lists[SLEEPQ])
  {
  }

  lemma DelayedMoved(k: K, delay: int, st: PState)
    requires Sizes(k) && Membership(k) && Home(k.procs[k.curr]) == -1 && st in {SLEEP, RECTIM}
    ensures Tables(k) && Sizes(Delayed(k, delay, st)) && Moved(k, Delayed(k, delay, st), k.curr, SLEEPQ)
  {
    hide DeltaKeys, DeltaPos;
    NotOnList(k, k.curr, SLEEPQ);
    InsertedMembers(k.lists[SLEEPQ], DeltaPos(k.lists[SLEEPQ], k.keys, delay).0, k.curr);
  }

  /** Dispatching gives the processor to a process of the highest priority. */
  lemma DispatchOk(k: K)
    requires Struct(k, false)
    ensures k.lists[READYQ] != [] && k.lists[READYQ][0] < NPROC && Struct(Dispatch(k), true)
    ensures forall p | 0 <= p < NPROC && Dispatch(k).procs[p].state == READY ::
              Dispatch(k).procs[Dispatch(k).curr].prio >= Dispatch(k).procs[p].prio
    ensures OnlyScheduled(k, Dispatch(k)) && Dispatch(k).keys == k.keys
  {
    hide Membership, ReadyOk, NonNegative, NoDup;
    NullReady(k);
    var l, t := k.lists[READYQ], Dispatch(k);
    ReadyMembers(k);
    HeadHighest(k);
    DispatchMoved(k);
    MovedMembership(k, t, l[0], READYQ);
    DispatchReady(k);
    assert forall q | 0 <= q < NPROC && q != l[0] :: t.procs[q] == k.procs[q];
  }

  lemma NullReady(k: K)
    requires Struct(k, false)
    ensures k.lists[READYQ] != [] && Tables(k)
  {
    assert NULLPROC in k.lists[READYQ];
  }

  lemma DispatchMoved(k: K)
    requires Sizes(k) && Membership(k) && Tables(k) && k.lists[READYQ] != []
    ensures k.lists[READYQ][0] < NPROC && Sizes(Dispatch(k)) && Moved(k, Dispatch(k), k.lists[READYQ][0], READYQ)
  {
    hide Without;
    var l := k.lists[READYQ];
    FirstWithout(l);
    WithoutMembers(l, l[0]);
    WithoutPids(l, l[0]);
  }

  lemma DispatchReady(k: K)
    requires Sizes(k) && Membership(k) && ReadyOk(k) && Tables(k) && k.lists[READYQ] != [] && Membership(Dispatch(k))
    ensures ReadyOk(Dispatch(k))
  {
    hide NoDup;
    var l := k.lists[READYQ];
    FirstWithout(l);
    WithoutDescending(l, k.keys, l[0]);
    hide Without;
  }

  lemma HeadHighest(k: K)
    requires Sizes(k) && Membership(k) && ReadyOk(k) && k.lists[READYQ] != []
    ensures forall q | 0 <= q < NPROC && k.procs[q].state == READY ::
              k.procs[k.lists[READYQ][0]].prio >= k.procs[q].prio
  {
    var l := k.lists[READYQ];
    ReadyMembers(k);
    forall q | 0 <= q < NPROC && k.procs[q].state == READY ensures k.procs[l[0]].prio >= k.procs[q].prio {
      assert q in l;
      var i := IndexOf(l, q);
      assert k.keys[l[0]] >= k.keys[l[i]];
    }
  }
}
