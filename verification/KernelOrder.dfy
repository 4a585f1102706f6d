/** Semaphore accounts, first-come order and round robin over whole runs. */
module KernelOrder {
  import opened QueueModel
  import opened KernelModel
  import opened KernelCalls
  import opened KernelInv
  import opened KernelRuns

  // ----- the account of a semaphore -----

  /** The count a run should leave, from what was asked of semaphore s: the last
      reset or creation, plus signals, minus waits, plus killed waiters. */
  ghost function Account(k: K, cs: seq<Call>, s: nat, count: int): int
    requires Inv(k) && Legal(k, cs) && s < NSEM
    decreases |cs|
  {
    if cs == [] then count else
    StepInv(k, cs[0]);
    Account(Step(k, cs[0]), cs[1..], s, Counted(k, cs[0], s, count))
  }

  /** In every run the count of a semaphore in use is its account, the number of
      processes waiting is what a negative count says, and entries not in use have
      nobody waiting. */
  lemma {:induction false} CountIsAccount(k: K, cs: seq<Call>, s: nat, count: int)
    requires Inv(k) && Legal(k, cs) && s < NSEM
    requires k.sems[s].used ==> count == k.sems[s].count
    ensures var e, l := Run(k, cs).sems[s], Run(k, cs).lists[s];
      && (e.used ==> e.count == Account(k, cs, s, count) && |l| == (if e.count < 0 then -e.count else 0))
      && (!e.used ==> l == [])
    decreases |cs|
  {
    hide Step, Counted, Leaves, Joins, Survivors;
    InvParts(k);
    if cs != [] {
      StepInv(k, cs[0]);
      QueueStep(k, cs[0], s);
      if k.sems[s].used || Creates(k, cs[0], s) { CountedCreated(k, cs[0], s, count, k.sems[s].count); }
      CountIsAccount(Step(k, cs[0]), cs[1..], s, Counted(k, cs[0], s, count));
    } else {
      assert SemFine(k.sems[s], k.lists[s]);
    }
  }

  lemma CountedCreated(k: K, c: Call, s: nat, x: int, y: int)
    requires Sizes(k) && s < NSEM && k.nextsem < NSEM && (Creates(k, c, s) || x == y)
    ensures Counted(k, c, s, x) == Counted(k, c, s, y)
  {
  }

  // ----- waiters leave in the order they came -----

  /** The processes released from s, in order. */
  ghost function Released(k: K, cs: seq<Call>, s: nat): seq<nat>
    requires Inv(k) && Legal(k, cs) && s < NSEM
    decreases |cs|
  {
    if cs == [] then [] else
    StepInv(k, cs[0]);
    k.lists[s][..Leaves(k, cs[0], s)] + Released(Step(k, cs[0]), cs[1..], s)
  }

  /** The processes that had to wait on s, in order. */
  ghost function Arrived(k: K, cs: seq<Call>, s: nat): seq<nat>
    requires Inv(k) && Legal(k, cs) && s < NSEM
    decreases |cs|
  {
    if cs == [] then [] else
    StepInv(k, cs[0]);
    Joins(k, cs[0], s) + Arrived(Step(k, cs[0]), cs[1..], s)
  }

  /** a is b with some elements left out. */
  predicate Within(a: seq<nat>, b: seq<nat>) {
    if a == [] then true
    else if b == [] then false
    else if a[0] == b[0] then Within(a[1..], b[1..])
    else Within(a, b[1..])
  }

  lemma {:induction false} WithinRest(a: seq<nat>, b: seq<nat>)
    requires Within(a, b) && a != []
    ensures Within(a[1..], b)
    decreases |b|
  {
    if a[0] == b[0] {
      if |a| > 1 {
        WithinRest(a[1..], b[1..]);
        if a[1] != b[0] { assert Within(a[1..], b[1..]); }
      }
    } else {
      WithinRest(a, b[1..]);
      if |a| > 1 && a[1] == b[0] { WithinRest(a[1..], b[1..]); }
    }
  }

  lemma {:induction false} WithinMore(a: seq<nat>, u: seq<nat>, v: seq<nat>, p: nat)
    requires Within(a, u + v)
    ensures Within(a, u + [p] + v)
    decreases |u|
  {
    var b := u + [p] + v;
    if a == [] {
    } else if u == [] {
      assert b == [p] + v && u + v == v && b[1..] == v;
      if a[0] == p { WithinRest(a, v); }
    } else {
      assert (u + v)[0] == u[0] && (u + v)[1..] == u[1..] + v;
      assert b[0] == u[0] && b[1..] == u[1..] + [p] + v;
      WithinMore(if a[0] == u[0] then a[1..] else a, u[1..], v, p);
    }
  }

  lemma {:induction false} WithinPrefix(c: seq<nat>, a: seq<nat>, b: seq<nat>)
    requires Within(a, b)
    ensures Within(c + a, c + b)
    decreases |c|
  {
    if c == [] {
      assert c + a == a && c + b == b;
    } else {
      assert (c + a)[1..] == c[1..] + a && (c + b)[1..] == c[1..] + b;
      WithinPrefix(c[1..], a, b);
    }
  }

  lemma {:induction false} WithinSelf(a: seq<nat>)
    ensures Within(a, a)
  {
    if a != [] { WithinSelf(a[1..]); }
  }

  lemma {:induction false} WithinShorter(a: seq<nat>, b: seq<nat>)
    requires Within(a, b)
    ensures |a| <= |b| && (|a| == |b| ==> a == b)
    decreases |b|
  {
    if a != [] {
      if a[0] == b[0] {
        WithinShorter(a[1..], b[1..]);
        assert a == [a[0]] + a[1..] && b == [b[0]] + b[1..];
      } else {
        WithinShorter(a, b[1..]);
      }
    }
  }

  /** The processes killed while they waited on s. */
  ghost function Killed(k: K, cs: seq<Call>, s: nat): seq<nat>
    requires Inv(k) && Legal(k, cs) && s < NSEM
    decreases |cs|
  {
    if cs == [] then [] else
    StepInv(k, cs[0]);
    Slain(k, cs[0], s) + Killed(Step(k, cs[0]), cs[1..], s)
  }

  /** Whoever waits on s is released in the order of arrival: what was released, then
      what still waits, is what waited at the start and then arrived, in that order,
      less just the processes killed while waiting. */
  lemma FirstComeFirstServed(k: K, cs: seq<Call>, s: nat)
    requires Inv(k) && Legal(k, cs) && s < NSEM
    ensures Within(Released(k, cs, s) + Run(k, cs).lists[s], k.lists[s] + Arrived(k, cs, s))
    ensures multiset(Released(k, cs, s)) + multiset(Run(k, cs).lists[s]) + multiset(Killed(k, cs, s))
         == multiset(k.lists[s]) + multiset(Arrived(k, cs, s))
    ensures Killed(k, cs, s) == [] ==> Released(k, cs, s) + Run(k, cs).lists[s] == k.lists[s] + Arrived(k, cs, s)
  {
    hide Inv, Step, Run, Released, Arrived, Killed, Within, Legal;
    InvParts(k);
    InvParts(Run(k, cs));
    InOrder(k, cs, s);
    AllAccounted(k, cs, s);
    var out, all := Released(k, cs, s) + Run(k, cs).lists[s], k.lists[s] + Arrived(k, cs, s);
    WithinShorter(out, all);
    if Killed(k, cs, s) == [] {
      assert multiset(out) == multiset(all);
      assert |out| == |multiset(out)| == |multiset(all)| == |all|;
    }
  }

  /** Nobody who waited or arrived is lost. */
  lemma {:induction false} AllAccounted(k: K, cs: seq<Call>, s: nat)
    requires Inv(k) && Legal(k, cs) && s < NSEM
    ensures multiset(Released(k, cs, s)) + multiset(Run(k, cs).lists[s]) + multiset(Killed(k, cs, s))
         == multiset(k.lists[s]) + multiset(Arrived(k, cs, s))
    decreases |cs|
  {
    hide Inv, Step, Leaves, Joins, Survivors, Slain;
    InvParts(k);
    if cs != [] {
      var c, n, l := cs[0], Leaves(k, cs[0], s), k.lists[s];
      StepInv(k, c);
      QueueStep(k, c, s);
      SlainMissing(k, c, s);
      var k1 := Step(k, c);
      InvParts(k1);
      InvParts(Run(k1, cs[1..]));
      AllAccounted(k1, cs[1..], s);
      AccountStep(l, n, Survivors(k, c, s, Rest(l, n)), Slain(k, c, s), Joins(k, c, s), Released(k1, cs[1..], s),
        Run(k1, cs[1..]).lists[s], Killed(k1, cs[1..], s), Arrived(k1, cs[1..], s));
    }
  }

  lemma AccountStep(l: seq<nat>, n: nat, surv: seq<nat>, slain: seq<nat>, joins: seq<nat>,
                    rel: seq<nat>, fin: seq<nat>, killed: seq<nat>, more: seq<nat>)
    requires n <= |l| && multiset(Rest(l, n)) == multiset(surv) + multiset(slain)
    requires multiset(rel) + multiset(fin) + multiset(killed) == multiset(surv + joins) + multiset(more)
    ensures multiset(l[..n] + rel) + multiset(fin) + multiset(slain + killed) == multiset(l) + multiset(joins + more)
  {
    assert l == l[..n] + l[n..];
    assert multiset(l) == multiset(l[..n]) + multiset(l[n..]);
    assert multiset(surv + joins) == multiset(surv) + multiset(joins);
    assert multiset(l[..n] + rel) == multiset(l[..n]) + multiset(rel);
    assert multiset(slain + killed) == multiset(slain) + multiset(killed);
    assert multiset(joins + more) == multiset(joins) + multiset(more);
    forall p ensures (multiset(l[..n] + rel) + multiset(fin) + multiset(slain + killed))[p]
                  == (multiset(l) + multiset(joins + more))[p]
    {
      assert (multiset(rel) + multiset(fin) + multiset(killed))[p] == (multiset(surv + joins) + multiset(more))[p];
    }
  }

  lemma {:induction false} InOrder(k: K, cs: seq<Call>, s: nat)
    requires Inv(k) && Legal(k, cs) && s < NSEM
    ensures Within(Released(k, cs, s) + Run(k, cs).lists[s], k.lists[s] + Arrived(k, cs, s))
    decreases |cs|
  {
    hide Step, Leaves, Joins, Survivors, Within;
    InvParts(k);
    var l := k.lists[s];
    if cs == [] {
      WithinSelf(l);
      assert [] + l == l && l + [] == l;
    } else {
      var c, n := cs[0], Leaves(k, cs[0], s);
      StepInv(k, c);
      QueueStep(k, c, s);
      var k1 := Step(k, c);
      InOrder(k1, cs[1..], s);
      var rel, fin, more := Released(k1, cs[1..], s), Run(k1, cs[1..]).lists[s], Arrived(k1, cs[1..], s);
      var joins, surv := Joins(k, c, s), Survivors(k, c, s, Rest(l, n));
      OneStep(l, n, surv, joins, rel, fin, more);
      SurvivorsWithin(k, c, s, n, joins + more, l[..n] + rel + fin);
    }
  }

  /** Lists around one step: n processes leave l, surv is what stays of the rest. */
  lemma OneStep(l: seq<nat>, n: nat, surv: seq<nat>, joins: seq<nat>, rel: seq<nat>, fin: seq<nat>, more: seq<nat>)
    requires n <= |l| && Within(rel + fin, surv + joins + more)
    ensures Within(l[..n] + rel + fin, l[..n] + surv + (joins + more))
  {
    hide Within;
    WithinPrefix(l[..n], rel + fin, surv + joins + more);
    assert l[..n] + (rel + fin) == l[..n] + rel + fin;
    assert l[..n] + (surv + joins + more) == l[..n] + surv + (joins + more);
    assert l == l[..n] + l[n..];
  }

  lemma Regroup(u: seq<nat>, a: seq<nat>, m: seq<nat>, b: seq<nat>, v: seq<nat>)
    ensures u + (a + m + b) + v == (u + a) + m + (b + v) && u + (a + b) + v == (u + a) + (b + v)
  {
  }

  /** Putting a killed process back only adds to a list. */
  lemma KilledWithin(out: seq<nat>, u: seq<nat>, r: seq<nat>, v: seq<nat>, p: nat)
    requires Within(out, u + Without(r, p) + v)
    ensures Within(out, u + r + v)
  {
    hide Within;
    if p in r {
      var i := IndexOf(r, p);
      var a, b := r[..i], r[i + 1..];
      assert r == a + [p] + b && Without(r, p) == a + b;
      Regroup(u, a, [p], b, v);
      WithinMore(out, u + a, b + v, p);
    }
  }

  lemma SurvivorsWithin(k: K, c: Call, s: nat, n: nat, more: seq<nat>, out: seq<nat>)
    requires Sizes(k) && s < NSEM && n <= |k.lists[s]|
    requires Within(out, k.lists[s][..n] + Survivors(k, c, s, k.lists[s][n..]) + more)
    ensures Within(out, k.lists[s] + more)
  {
    hide Within, Without;
    var l := k.lists[s];
    assert l == l[..n] + l[n..];
    if Survivors(k, c, s, l[n..]) != l[n..] {
      KilledWithin(out, l[..n], l[n..], more, c.pid);
    }
  }

  // ----- round robin -----

  /** The first m ready processes have the priority of the current one. */
  ghost predicate Peers(k: K, m: nat) {
    && Inv(k) && k.ndefers == 0 && m <= |k.lists[READYQ]|
    && forall i | 0 <= i < m :: k.lists[READYQ][i] < NPROC && k.procs[k.lists[READYQ][i]].prio == k.procs[k.curr].prio
  }

  ghost function Turns(k: K, j: nat): (t: K)
    requires Inv(k)
    ensures Inv(t)
    decreases j
  {
    if j == 0 then k else
    StepInv(k, Yield);
    Turns(Step(k, Yield), j - 1)
  }

  /** One reschedule: the first of the peers runs and the rest move up. */
  lemma NextTurn(k: K, m: nat)
    requires Peers(k, m) && m > 0
    ensures Inv(Step(k, Yield)) && Peers(Step(k, Yield), m - 1)
    ensures Step(k, Yield).curr == k.lists[READYQ][0]
    ensures m <= |Step(k, Yield).lists[READYQ]|
    ensures forall i | 0 <= i < m - 1 :: Step(k, Yield).lists[READYQ][i] == k.lists[READYQ][i + 1]
  {
    StepInv(k, Yield);
    StructTables(k, true);
    var l, c := k.lists[READYQ], k.curr;
    var prio := k.procs[c].prio;
    ReadyMembers(k);
    PeersKeys(k, m);
    NotOnList(k, c, READYQ);
    var i := DescPos(l, k.keys, prio);
    assert i >= m;
    var k1 := MakeReady(k, c);
    assert k1.lists[READYQ] == InsertedAt(l, i, c);
    assert FirstKey(k, READYQ) == prio;
    var t := Dispatch(k1);
    assert Step(k, Yield) == t;
    hide Inv, DescPos;
    assert k1.lists[READYQ][0] == l[0];
    forall j | 0 <= j < m - 1 ensures t.lists[READYQ][j] == l[j + 1] {
    }
    forall p | 0 <= p < NPROC ensures t.procs[p].prio == k.procs[p].prio {
    }
  }

  lemma PeersKeys(k: K, m: nat)
    requires Peers(k, m)
    ensures Tables(k) && forall i | 0 <= i < m :: k.keys[k.lists[READYQ][i]] == k.procs[k.curr].prio
  {
    ReadyMembers(k);
  }

  /** With m peers ahead of it at the front of the ready list, a process of the same
      priority runs after as many reschedules as its place, if nothing else happens. */
  lemma {:induction false} RoundRobin(k: K, m: nat, j: nat)
    requires Peers(k, m) && 1 <= j <= m
    ensures Turns(k, j).curr == k.lists[READYQ][j - 1]
    decreases j
  {
    hide Inv, Step, Peers;
    PeersInv(k, m);
    NextTurn(k, m);
    if j > 1 {
      RoundRobin(Step(k, Yield), m - 1, j - 1);
    }
  }

  lemma PeersInv(k: K, m: nat)
    requires Peers(k, m)
    ensures Inv(k) && Sizes(k) && m <= |k.lists[READYQ]|
  {
  }

  // ----- time slices -----

  function Quanta(n: nat): seq<Call> { if n == 0 then [] else [Quantum] + Quanta(n - 1) }

  lemma TwoQuanta(n: nat)
    ensures var cs := Quanta(n + 2);
      cs[0] == Quantum && cs[1..] != [] && cs[1..][0] == Quantum && cs[1..][1..] == Quanta(n)
  {
    assert Quanta(n + 2) == [Quantum] + ([Quantum] + Quanta(n));
  }

  /** The clock interrupts of one whole slice come to a reschedule. */
  lemma WholeSlice(k: K)
    requires Inv(k) && k.preempt == QUANTUM
    ensures Inv(Step(k, Quantum)) && Step(Step(k, Quantum), Quantum) == Step(k, Yield)
  {
    StepInv(k, Quantum);
    hide Inv, Resched;
    InvParts(k);
    assert Step(k, Quantum) == k.(preempt := 1);
  }

  lemma FreshSlice(k: K, m: nat)
    requires Peers(k, m) && m > 0
    ensures Inv(Step(k, Yield)) && Step(k, Yield).preempt == QUANTUM
  {
    NextTurn(k, m);
    hide Inv, Peers, DescPos;
    PeersInv(k, m);
    InvParts(k);
    CurrNotFirst(k);
  }

  lemma CurrNotFirst(k: K)
    requires Inv(k) && k.lists[READYQ] != []
    ensures k.curr != k.lists[READYQ][0]
  {
    assert k.lists[READYQ][0] in k.lists[READYQ];
    assert k.curr in k.lists[READYQ] <==> Home(k.procs[k.curr]) == READYQ;
  }

  /** With the current process at the start of its slice, its peers get the processor in
      turn, each after as many whole slices as its place. */
  lemma {:induction false} TimeSlices(k: K, m: nat, j: nat)
    requires Peers(k, m) && 1 <= j <= m && k.preempt == QUANTUM
    ensures Legal(k, Quanta(QUANTUM * j)) && Run(k, Quanta(QUANTUM * j)).curr == k.lists[READYQ][j - 1]
    decreases j
  {
    hide Inv, Step, Peers;
    PeersInv(k, m);
    NextTurn(k, m);
    WholeSlice(k);
    FreshSlice(k, m);
    var cs := Quanta(QUANTUM * j);
    var k1, k2 := Step(k, Quantum), Step(k, Yield);
    TwoQuanta(QUANTUM * (j - 1));
    if j == 1 {
      assert Legal(k2, []) && Run(k2, []) == k2;
    } else {
      TimeSlices(k2, m - 1, j - 1);
    }
    assert Legal(k1, cs[1..]) && Run(k1, cs[1..]) == Run(k2, cs[1..][1..]);
  }
}
