/** Ports over whole runs: every interleaving, from ptinit on. */
module PortsRuns {
  import opened PortsModel
  import opened PortsInv
  import opened PortsSteps
  import opened CircularSearch

  // ----- clearing -----

  lemma ClearStartInv(t: Ports, p: int, keep: bool)
    requires Inv(t)
    ensures Inv(ClearStart(t, p, keep).0)
  {
    hide Inv, Admitted;
    InvSizes(t);
    if !IsBadPort(p) && t.ports[p].state == ALLOC {
      PortAt(t, p);
      var port := t.ports[p].(state := LIMBO(0, keep), epoch := t.ports[p].epoch + 1);
      assert t.inflight + [] == t.inflight;
      assert PortOk(port, p, t.inflight);
      SemaphoreStep(t, p, port, []);
    }
  }

  lemma NodesFreed(t: Ports, p: nat)
    requires NodesOk(t) && AtStage(t, p, 0)
    ensures NodesOk(ClearNodes(t, p))
  {
    var nodes, t' := t.ports[p].nodes, ClearNodes(t, p);
    forall m | 0 <= m < |t.home| ensures m in t'.free <==> t'.home[m] == -1 {
      assert m in t.free <==> t.home[m] == -1;
      assert m in t'.free <==> m in nodes || m in t.free;
    }
    forall m, q | 0 <= m < |t.home| && 0 <= q < NPORTS ensures m in t'.ports[q].nodes <==> t'.home[m] == q {
      assert m in t.ports[q].nodes <==> t.home[m] == q;
      assert m in nodes <==> t.home[m] == p;
    }
    forall i, j | 0 <= i < j < |t'.free| ensures t'.free[i] != t'.free[j] {
      if i < |nodes| <= j {
        assert t'.free[i] in nodes && t.home[t'.free[i]] == p;
        assert t'.free[j] == t.free[j - |nodes|] && t'.free[j] in t.free && t.home[t'.free[j]] == -1;
      }
    }
  }

  lemma ClearNodesInv(t: Ports, p: nat)
    requires Inv(t) && AtStage(t, p, 0)
    ensures Inv(ClearNodes(t, p))
  {
    hide Inv, NodesOk, AllPorts, Admitted;
    InvSizes(t);
    PortAt(t, p);
    NodesFreed(t, p);
    NodesRange(ClearNodes(t, p));
    var port := t.ports[p].(state := LIMBO(1, t.ports[p].state.keep), nodes := []);
    assert t.inflight + [] == t.inflight;
    assert PortOk(port, p, t.inflight);
    PortChanged(t, p, port, []);
    SamePorts(SetPort(t, p, port, []), ClearNodes(t, p));
    MakeInv(ClearNodes(t, p));
  }

  lemma SamePorts(t: Ports, t': Ports)
    requires Sizes(t) && AllPorts(t) && t'.ports == t.ports && t'.inflight == t.inflight
    ensures AllPorts(t')
  {
  }

  lemma ClearSendersInv(t: Ports, p: nat)
    requires Inv(t) && AtStage(t, p, 1)
    ensures Inv(ClearSenders(t, p))
  {
    hide Inv, Admitted;
    InvSizes(t);
    PortAt(t, p);
    var port := t.ports[p];
    var (sem, extra) := if port.state.keep then SemReset(port.ssem, port.maxcnt) else SemDelete(port.ssem);
    BoundMore(t.inflight, extra, p, port);
    SemaphoreStep(t, p, port.(state := LIMBO(2, port.state.keep), ssem := sem), extra);
  }

  lemma ClearReceiversInv(t: Ports, p: nat)
    requires Inv(t) && AtStage(t, p, 2)
    ensures Inv(ClearReceivers(t, p))
  {
    hide Inv, Admitted;
    InvSizes(t);
    PortAt(t, p);
    var port := t.ports[p];
    var (sem, extra) := if port.state.keep then SemReset(port.rsem, 0) else SemDelete(port.rsem);
    BoundMore(t.inflight, extra, p, port);
    SemaphoreStep(t, p, port.(state := LIMBO(3, port.state.keep), rsem := sem), extra);
  }

  /** A port whose parties are all of earlier epochs has a clean account. */
  lemma FreshTokens(port: Port, p: nat, l: seq<Party>)
    requires (forall i | 0 <= i < |l| && l[i].port == p :: l[i].epoch < port.epoch) && port.nodes == []
    requires port.ssem.PSem? ==> port.ssem.count == port.cap
    requires port.rsem.PSem? ==> port.rsem.count == 0
    ensures Tokens(port, p, l)
  {
    AdmittedNone(l, p, port.epoch, true);
    AdmittedNone(l, p, port.epoch, false);
  }

  lemma ClearEndInv(t: Ports, p: nat)
    requires Inv(t) && AtStage(t, p, 3)
    ensures Inv(ClearEnd(t, p))
  {
    hide Inv, Admitted, NodesOk, AllPorts;
    InvSizes(t);
    PortAt(t, p);
    var was := t.ports[p];
    var port := was.(state := if was.state.keep then ALLOC else FREE, cap := was.maxcnt, sent := [], got := []);
    assert t.inflight + [] == t.inflight;
    FreshTokens(port, p, t.inflight);
    assert PortOk(port, p, t.inflight);
    PortChanged(t, p, port, []);
    SamePorts(SetPort(t, p, port, []), ClearEnd(t, p));
    NodesSame(t, ClearEnd(t, p));
    NodesRange(ClearEnd(t, p));
    MakeInv(ClearEnd(t, p));
  }

  lemma NodesSame(t: Ports, t': Ports)
    requires NodesOk(t) && Sizes(t') && t'.free == t.free && t'.home == t.home && t'.msgs == t.msgs
    requires forall q | 0 <= q < NPORTS :: t'.ports[q].nodes == t.ports[q].nodes
    requires t'.inflight == t.inflight
    ensures NodesOk(t')
  {
  }

  lemma CreateInv(t: Ports, count: int, sOk: bool, rOk: bool)
    requires Inv(t)
    ensures Inv(Create(t, count, sOk, rOk).0)
  {
    hide Inv, Admitted, NodesOk, AllPorts;
    InvSizes(t);
    var (t', p) := Create(t, count, sOk, rOk);
    if p >= 0 {
      PortAt(t, p);
      var port := t'.ports[p];
      assert t.inflight + [] == t.inflight;
      FreshTokens(port, p, t.inflight);
      assert PortOk(port, p, t.inflight);
      PortChanged(t, p, port, []);
      SamePorts(SetPort(t, p, port, []), t');
      NodesSame(t, t');
      NodesRange(t');
      MakeInv(t');
    } else {
      PortAt(t, 0);
      SamePorts(t, t');
      NodesSame(t, t');
      NodesRange(t');
      MakeInv(t');
    }
  }

  /** A killed waiter gives its place in the count back. */
  lemma WaiterKilled(s: PSem, i: nat, p: nat, sending: bool, port: Port)
    requires Queued(s, p, sending, port) && s.PSem? && i < |s.waiting|
    ensures var s' := PSem(s.count + 1, Dropped(s.waiting, i));
      Queued(s', p, sending, port) && Positive(s') == Positive(s) && s.waiting != []
  {
    var w := Dropped(s.waiting, i);
    assert forall j | 0 <= j < |w| :: w[j] == s.waiting[if j < i then j else j + 1];
  }

  lemma WaiterKilledPort(port: Port, p: nat, l: seq<Party>, sending: bool, i: nat)
    requires PortOk(port, p, l)
    requires var s := if sending then port.ssem else port.rsem; s.PSem? && i < |s.waiting|
    ensures var s := if sending then port.ssem else port.rsem;
      var s' := PSem(s.count + 1, Dropped(s.waiting, i));
      PortOk(if sending then port.(ssem := s') else port.(rsem := s'), p, l)
  {
    hide Admitted, Positive, Dropped;
    var s := if sending then port.ssem else port.rsem;
    WaiterKilled(s, i, p, sending, port);
  }

  lemma KillWaitingInv(t: Ports, p: nat, sending: bool, i: nat)
    requires Inv(t) && p < NPORTS
    ensures Inv(KillWaiting(t, p, sending, i))
  {
    hide Inv, PortOk, Dropped;
    InvSizes(t);
    PortAt(t, p);
    var port := t.ports[p];
    var s := if sending then port.ssem else port.rsem;
    if s.PSem? && i < |s.waiting| {
      assert t.inflight + [] == t.inflight;
      WaiterKilledPort(port, p, t.inflight, sending, i);
      var s' := PSem(s.count + 1, Dropped(s.waiting, i));
      SemaphoreStep(t, p, if sending then port.(ssem := s') else port.(rsem := s'), []);
    }
  }

  /** ptcreate's circular search fails only when no port is free, and otherwise takes
      the first free one from ptnextid on. */
  lemma {:induction false} FreePortFinds(ports: seq<Port>, next: nat, n: nat)
    requires |ports| == NPORTS && next < NPORTS && n <= NPORTS
    ensures var p := FreePort(ports, next, n).0;
      if p < 0 then forall q | 0 <= q < NPORTS && Ahead(next, q, NPORTS) < n :: ports[q].state != FREE
      else ports[p].state == FREE && Ahead(next, p, NPORTS) < n
           && forall q | 0 <= q < NPORTS && Ahead(next, q, NPORTS) < Ahead(next, p, NPORTS) :: ports[q].state != FREE
    decreases n
  {
    hide Ahead;
    forall q | 0 <= q < NPORTS
      ensures q != next ==> Ahead(if next + 1 >= NPORTS then 0 else next + 1, q, NPORTS) == Ahead(next, q, NPORTS) - 1
      ensures Ahead(next, next, NPORTS) == 0 && 0 <= Ahead(next, q, NPORTS)
    {
      AheadNext(next, q, NPORTS);
    }
    if n > 0 && ports[next].state != FREE {
      FreePortFinds(ports, if next + 1 >= NPORTS then 0 else next + 1, n - 1);
    }
  }

  // ----- any step -----

  lemma FinishInv(t: Ports, i: nat)
    requires Inv(t) && i < |t.inflight|
    ensures Finish(t, i).1 == Panic <==>
              var q := t.inflight[i];
              q.sending && t.ports[q.port].state == ALLOC && t.ports[q.port].epoch == q.epoch && t.free == []
    ensures Finish(t, i).1 != Panic ==> Inv(Finish(t, i).0)
  {
    hide Inv, PortOk;
    InvSizes(t);
    var q := t.inflight[i];
    if t.ports[q.port].state != ALLOC || t.ports[q.port].epoch != q.epoch {
      StaleDropped(t, i);
    } else if q.sending {
      if t.free != [] { FinishSendInv(t, i); }
    } else {
      PortAt(t, q.port);
      ReceivedOk(t.ports[q.port], q.port, t.inflight, i, 0);
      FinishRecvInv(t, i);
    }
  }

  /** Every step keeps the invariant; the only panic is a current sender finding no
      free node. */
  lemma ApplyInv(t: Ports, e: Event)
    requires Inv(t) && Enabled(t, e)
    ensures Apply(t, e).1 == Panic ==> e.DoFinish? && t.inflight[e.i].sending && t.free == []
    ensures Apply(t, e).1 != Panic ==> Inv(Apply(t, e).0)
  {
    InvSizes(t);
    hide Inv, Create, BeginSend, BeginRecv, Finish, ClearStart, ClearNodes, ClearSenders, ClearReceivers,
      ClearEnd, KillWaiting;
    match e
    case DoCreate(count, sOk, rOk) => CreateInv(t, count, sOk, rOk);
    case DoSend(p, msg) => BeginSendInv(t, p, msg); SendOutcome(t, p, msg);
    case DoRecv(p) => BeginRecvInv(t, p); RecvOutcome(t, p);
    case DoFinish(i) => FinishInv(t, i);
    case DoClear(p, keep) => ClearStartInv(t, p, keep); ClearOutcome(t, p, keep);
    case DoNodes(p) => ClearNodesInv(t, p);
    case DoSenders(p) => ClearSendersInv(t, p);
    case DoReceivers(p) => ClearReceiversInv(t, p);
    case DoEnd(p) => ClearEndInv(t, p);
    case DoKill(p, sending, i) => KillWaitingInv(t, p, sending, i);
  }

  lemma SendOutcome(t: Ports, p: int, msg: int)
    requires Sizes(t)
    ensures BeginSend(t, p, msg).1 in {Syserr, Waits, Enters}
  {
  }

  lemma RecvOutcome(t: Ports, p: int)
    requires Sizes(t)
    ensures BeginRecv(t, p).1 in {Syserr, Waits, Enters}
  {
  }

  lemma ClearOutcome(t: Ports, p: int, keep: bool)
    requires Sizes(t)
    ensures ClearStart(t, p, keep).1 in {Syserr, Ok}
  {
  }

  // ----- runs -----

  /** ptinit: all ports free, all n nodes on the free list in order. */
  function Start(n: nat): Ports {
    Ports(seq(NPORTS, _ => Port(FREE, 0, 0, 0, NoSem, NoSem, [], [], [])),
          seq(n, i => i), seq(n, _ => -1), seq(n, _ => 0), [], 0)
  }

  lemma StartInv(n: nat)
    ensures Inv(Start(n))
  {
    var t := Start(n);
    forall m | 0 <= m < n ensures m in t.free {
      assert t.free[m] == m;
    }
  }

  ghost predicate Legal(t: Ports, es: seq<Event>)
    requires Inv(t)
    decreases |es|
  {
    es == [] || (
      && Enabled(t, es[0]) && Apply(t, es[0]).1 != Panic
      && (ApplyInv(t, es[0]); Legal(Apply(t, es[0]).0, es[1..])))
  }

  /** The state after a run; every state of every run satisfies the invariant. */
  ghost function Run(t: Ports, es: seq<Event>): (r: Ports)
    requires Inv(t) && Legal(t, es)
    ensures Inv(r) && Sizes(r)
    decreases |es|
  {
    if es == [] then t else
    ApplyInv(t, es[0]);
    Run(Apply(t, es[0]).0, es[1..])
  }

  /** In every run from ptinit on: a port holds at most its capacity, messages leave
      it in the order they came, and every node is either free or in exactly one
      port. */
  lemma EveryRun(n: nat, es: seq<Event>, p: nat, m: nat)
    requires Inv(Start(n)) && Legal(Start(n), es) && p < NPORTS && m < |Run(Start(n), es).home|
    ensures var t := Run(Start(n), es);
      && (t.ports[p].state == ALLOC ==>
            && |t.ports[p].nodes| <= t.ports[p].cap
            && (forall i | 0 <= i < |t.ports[p].nodes| :: t.ports[p].nodes[i] < |t.msgs|)
            && t.ports[p].got + Messages(t.ports[p].nodes, t.msgs) == t.ports[p].sent)
      && (m in t.free || exists q :: 0 <= q < NPORTS && m in t.ports[q].nodes)
      && (m in t.free ==> m !in t.ports[p].nodes)
      && (forall q | 0 <= q < NPORTS && m in t.ports[p].nodes && m in t.ports[q].nodes :: q == p)
  {
    var t := Run(Start(n), es);
    hide Run, Legal, Start, PortOk, AllPorts;
    if t.ports[p].state == ALLOC { Bounded(t, p, 0); }
    if t.home[m] >= 0 { assert m in t.ports[t.home[m]].nodes; }
    assert forall q | 0 <= q < NPORTS :: m in t.ports[q].nodes <==> t.home[m] == q;
  }

  lemma EpochStep(t: Ports, e: Event, p: nat)
    requires Inv(t) && Enabled(t, e) && p < NPORTS
    ensures Apply(t, e).0.ports[p].epoch >= t.ports[p].epoch
  {
    hide Inv;
    InvSizes(t);
  }

  lemma {:induction false} EpochRun(t: Ports, es: seq<Event>, p: nat)
    requires Inv(t) && Legal(t, es) && p < NPORTS
    ensures Run(t, es).ports[p].epoch >= t.ports[p].epoch
    decreases |es|
  {
    hide Inv, Apply;
    if es != [] {
      InvSizes(t);
      ApplyInv(t, es[0]);
      EpochStep(t, es[0], p);
      EpochRun(Apply(t, es[0]).0, es[1..], p);
    }
  }

  /** A party that began before a reset or delete gets SYSERR, however much later it
      completes, and takes nothing with it. */
  lemma BeforeReset(t: Ports, p: nat, keep: bool, es: seq<Event>, i: nat)
    requires Inv(t) && p < NPORTS && t.ports[p].state == ALLOC
    requires Inv(ClearStart(t, p, keep).0) && Legal(ClearStart(t, p, keep).0, es)
    requires i < |Run(ClearStart(t, p, keep).0, es).inflight|
    requires Run(ClearStart(t, p, keep).0, es).inflight[i].port == p
    requires Run(ClearStart(t, p, keep).0, es).inflight[i].epoch <= t.ports[p].epoch
    ensures var t' := Run(ClearStart(t, p, keep).0, es);
      Finish(t', i) == (t'.(inflight := Dropped(t'.inflight, i)), Syserr)
  {
    hide Inv, Run, Legal;
    InvSizes(t);
    EpochRun(ClearStart(t, p, keep).0, es, p);
  }

  // ----- the 16-bit limit -----

  /** A count that the 16-bit limit keeps, or of which it keeps enough: with n nodes
      in the system no port can hold more than n messages. */
  predicate LimitSafe(n: nat, count: int) {
    count < 0x1_0000 || n <= count % 0x1_0000
  }

  /** The limit kept in a port is the capacity of its semaphore, or out of reach. */
  ghost predicate Exact(t: Ports)
    requires Sizes(t)
  {
    forall p | 0 <= p < NPORTS && t.ports[p].state == ALLOC ::
      t.ports[p].cap == t.ports[p].maxcnt || |t.home| <= t.ports[p].maxcnt
  }

  lemma ExactStep(t: Ports, e: Event)
    requires Inv(t) && Enabled(t, e) && Exact(t)
    requires e.DoCreate? ==> LimitSafe(|t.home|, e.count)
    ensures Sizes(Apply(t, e).0) && Exact(Apply(t, e).0) && |Apply(t, e).0.home| == |t.home|
  {
    hide Inv;
    InvSizes(t);
  }

  ghost predicate WithinLimit(t: Ports, p: nat)
    requires Sizes(t) && p < NPORTS
  {
    t.ports[p].state == ALLOC ==> |t.ports[p].nodes| <= t.ports[p].maxcnt
  }

  /** When all ports are created with such counts, no port ever holds more messages
      than its limit says. */
  lemma {:induction false} LimitHolds(t: Ports, es: seq<Event>, p: nat)
    requires Inv(t) && Legal(t, es) && Exact(t) && p < NPORTS
    requires forall i | 0 <= i < |es| :: es[i].DoCreate? ==> LimitSafe(|t.home|, es[i].count)
    ensures WithinLimit(Run(t, es), p)
    decreases |es|
  {
    hide Inv, Apply, Exact, LimitSafe;
    if es == [] {
      InvSizes(t);
      ExactAt(t, p);
      NodesFew(t, p);
      if t.ports[p].state == ALLOC { Bounded(t, p, 0); }
    } else {
      InvSizes(t);
      ApplyInv(t, es[0]);
      ExactStep(t, es[0]);
      LimitHolds(Apply(t, es[0]).0, es[1..], p);
    }
  }

  lemma ExactAt(t: Ports, p: nat)
    requires Sizes(t) && Exact(t) && p < NPORTS
    ensures t.ports[p].state == ALLOC ==> t.ports[p].cap == t.ports[p].maxcnt || |t.home| <= t.ports[p].maxcnt
  {
  }

  /** A port holds no more nodes than there are. */
  lemma NodesFew(t: Ports, p: nat)
    requires Inv(t) && p < NPORTS
    ensures |t.ports[p].nodes| <= |t.home|
  {
    hide AllPorts, Fifo;
    FewBelow(t.ports[p].nodes, |t.home|);
  }

  lemma {:induction false} FewBelow(l: seq<nat>, n: nat)
    requires NoDup(l) && forall i | 0 <= i < |l| :: l[i] < n
    ensures |l| <= n
    decreases n
  {
    if l != [] {
      assert l[0] < n;
      if k :| 0 <= k < |l| && l[k] == n - 1 {
        FewBelow(l[..k] + l[k + 1..], n - 1);
      } else {
        FewBelow(l, n - 1);
      }
    }
  }

  /** n messages sent to port p with nobody else about. */
  function Sends(p: nat, n: nat): (es: seq<Event>)
    ensures |es| == 2 * n
  {
    if n == 0 then [] else [DoSend(p, 0), DoFinish(0)] + Sends(p, n - 1)
  }

  /** Port p is quiet and has room for n more messages. */
  ghost predicate Room(t: Ports, p: nat, n: nat) {
    && Inv(t) && p < NPORTS && t.inflight == [] && |t.free| >= n
    && t.ports[p].state == ALLOC && t.ports[p].ssem.PSem? && t.ports[p].ssem.count >= n
    && (t.ports[p].rsem.PSem? ==> t.ports[p].rsem.count >= 0)
  }

  lemma SendStep(t: Ports, p: nat, n: nat)
    requires Room(t, p, n) && n > 0
    ensures InRange(t) && t.nextid < NPORTS
    ensures var t1 := BeginSend(t, p, 0).0;
      && Inv(t1) && Enabled(t1, DoFinish(0)) && Apply(t1, DoFinish(0)).1 == Ok
      && Room(Apply(t1, DoFinish(0)).0, p, n - 1)
      && |Apply(t1, DoFinish(0)).0.ports[p].nodes| == |t.ports[p].nodes| + 1
      && Apply(t1, DoFinish(0)).0.ports[p].maxcnt == t.ports[p].maxcnt
  {
    hide Inv;
    InvSizes(t);
    BeginSendInv(t, p, 0);
    var t1 := BeginSend(t, p, 0).0;
    assert t1.inflight == [Party(p, t.ports[p].epoch, true, 0)];
    assert Dropped(t1.inflight, 0) == [];
    InvSizes(t1);
    FinishInv(t1, 0);
  }

  lemma {:induction false} Fill(t: Ports, p: nat, n: nat)
    requires Room(t, p, n)
    ensures Legal(t, Sends(p, n))
    ensures |Run(t, Sends(p, n)).ports[p].nodes| == |t.ports[p].nodes| + n
    ensures Run(t, Sends(p, n)).ports[p].maxcnt == t.ports[p].maxcnt
    decreases n
  {
    hide Room, Inv, Finish, BeginSend;
    RoomInv(t, p, n);
    if n > 0 {
      SendStep(t, p, n);
      var t1 := BeginSend(t, p, 0).0;
      InvSizes(t1);
      var t2 := Apply(t1, DoFinish(0)).0;
      SendOutcome(t, p, 0);
      RoomInv(t2, p, n - 1);
      Fill(t2, p, n - 1);
      var es := Sends(p, n);
      assert es[0] == DoSend(p, 0) && es[1..][0] == DoFinish(0) && es[1..][1..] == Sends(p, n - 1);
      assert Legal(t1, es[1..]);
      assert Run(t1, es[1..]) == Run(t2, Sends(p, n - 1));
    }
  }

  lemma RoomInv(t: Ports, p: nat, n: nat)
    requires Room(t, p, n)
    ensures Inv(t) && p < NPORTS && InRange(t) && t.nextid < NPORTS
  {
  }

  /** n sends to port p take it past its limit. */
  ghost predicate Overfills(t: Ports, p: nat, n: nat) {
    && p < NPORTS && Inv(t) && Legal(t, Sends(p, n))
    && |Run(t, Sends(p, n)).ports[p].nodes| == n > Run(t, Sends(p, n)).ports[p].maxcnt
  }

  /** A larger count is not kept: ptmaxcnt holds its low 16 bits only, while the
      semaphore admits the full count, so the port comes to hold more messages than
      its limit. */
  lemma LimitFails(t: Ports, count: int)
    requires Inv(t) && t.inflight == [] && count >= 0x1_0000 && |t.free| > count % 0x1_0000
    requires Create(t, count, true, true).1 >= 0
    ensures var (t1, p) := Create(t, count, true, true); Overfills(t1, p, count % 0x1_0000 + 1)
  {
    hide Inv;
    InvSizes(t);
    CreateInv(t, count, true, true);
    var (t1, p) := Create(t, count, true, true);
    Fill(t1, p, count % 0x1_0000 + 1);
  }

  /** Ports are created with this count or with one that fits 16 bits. */
  ghost predicate Counts(es: seq<Event>, count: int) {
    forall i | 0 <= i < |es| :: es[i].DoCreate? ==> es[i].count == count || es[i].count < 0x1_0000
  }

  /** With n message nodes, every port keeps its limit in every run that uses this
      count just when the count fits 16 bits or its low 16 bits reach n. */
  lemma LimitIff(n: nat, count: int)
    requires count >= 0
    ensures Inv(Start(n))
    ensures LimitSafe(n, count) <==>
      forall es, p | Legal(Start(n), es) && Counts(es, count) && 0 <= p < NPORTS :: WithinLimit(Run(Start(n), es), p)
  {
    StartInv(n);
    if LimitSafe(n, count) {
      forall es, p | Legal(Start(n), es) && Counts(es, count) && 0 <= p < NPORTS
        ensures WithinLimit(Run(Start(n), es), p)
      {
        LimitHolds(Start(n), es, p);
      }
    } else {
      var m := count % 0x1_0000 + 1;
      var es := [DoCreate(count, true, true)] + Sends(0, m);
      LimitBroken(n, count, m, es);
    }
  }

  lemma LimitBroken(n: nat, count: int, m: nat, es: seq<Event>)
    requires count >= 0 && !LimitSafe(n, count) && m == count % 0x1_0000 + 1
    requires Inv(Start(n)) && es == [DoCreate(count, true, true)] + Sends(0, m)
    ensures Legal(Start(n), es) && Counts(es, count) && !WithinLimit(Run(Start(n), es), 0)
  {
    hide Inv;
    var t := Start(n);
    InvSizes(t);
    ApplyInv(t, es[0]);
    var t1 := Apply(t, es[0]).0;
    assert es[1..] == Sends(0, m) && es[0] == DoCreate(count, true, true);
    assert Create(t, count, true, true) == (t1, 0);
    LimitFails(t, count);
    StaysAllocated(t1, 0, m);
    SendsOnly(0, m);
  }

  lemma {:induction false} SendsOnly(p: nat, n: nat)
    ensures forall i | 0 <= i < |Sends(p, n)| :: !Sends(p, n)[i].DoCreate?
  {
    if n > 0 {
      SendsOnly(p, n - 1);
      var es, m := Sends(p, n), Sends(p, n - 1);
      assert forall i | 0 <= i < |es| ::
        es[i] == if i == 0 then DoSend(p, 0) else if i == 1 then DoFinish(0) else m[i - 2];
    }
  }

  lemma {:induction false} StaysAllocated(t: Ports, p: nat, n: nat)
    requires p < NPORTS && Inv(t) && t.ports[p].state == ALLOC && Legal(t, Sends(p, n))
    ensures Run(t, Sends(p, n)).ports[p].state == ALLOC
    decreases n
  {
    hide Inv, Finish, BeginSend;
    if n > 0 {
      InvSizes(t);
      var es := Sends(p, n);
      assert es[0] == DoSend(p, 0) && es[1..][0] == DoFinish(0) && es[1..][1..] == Sends(p, n - 1);
      ApplyInv(t, es[0]);
      SendState(t, p);
      var t1 := Apply(t, es[0]).0;
      InvSizes(t1);
      ApplyInv(t1, es[1..][0]);
      FinishState(t1, p);
      StaysAllocated(Apply(t1, DoFinish(0)).0, p, n - 1);
    }
  }

  lemma SendState(t: Ports, p: nat)
    requires Sizes(t) && p < NPORTS && t.ports[p].state == ALLOC
    ensures Sizes(BeginSend(t, p, 0).0) && BeginSend(t, p, 0).0.ports[p].state == ALLOC
  {
  }

  lemma FinishState(t: Ports, p: nat)
    requires InRange(t) && p < NPORTS && t.ports[p].state == ALLOC && |t.inflight| > 0
    ensures Sizes(Finish(t, 0).0) && Finish(t, 0).0.ports[p].state == ALLOC
  {
  }
}
