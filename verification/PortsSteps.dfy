/** Each step of the port system keeps the invariant. */
module PortsSteps {
  import opened PortsModel
  import opened PortsInv

  /** All of these parties belong to port p. */
  ghost predicate OfPort(l: seq<Party>, p: nat) {
    forall i | 0 <= i < |l| :: l[i].port == p
  }

  // ----- other ports -----

  lemma OthersAdmitted(l: seq<Party>, extra: seq<Party>, p: nat, q: nat, port: Port)
    requires OfPort(extra, p) && q != p && PortOk(port, q, l)
    ensures PortOk(port, q, l + extra)
  {
    AdmittedMore(l, extra, q, port.epoch, true);
    AdmittedMore(l, extra, q, port.epoch, false);
    AdmittedNone(extra, q, port.epoch, true);
    AdmittedNone(extra, q, port.epoch, false);
    hide Admitted, Queued;
    assert Bound(l + extra, q, port);
  }

  lemma OthersDropped(l: seq<Party>, i: nat, q: nat, port: Port)
    requires i < |l| && l[i].port != q && PortOk(port, q, l)
    ensures PortOk(port, q, Dropped(l, i))
  {
    AdmittedDropped(l, i, q, port.epoch, true);
    AdmittedDropped(l, i, q, port.epoch, false);
    hide Admitted, Queued;
    BoundDropped(l, i, q, port);
  }

  lemma BoundDropped(l: seq<Party>, i: nat, q: nat, port: Port)
    requires i < |l| && Bound(l, q, port)
    ensures Bound(Dropped(l, i), q, port)
  {
    var r := Dropped(l, i);
    assert forall j | 0 <= j < |r| :: r[j] == l[if j < i then j else j + 1];
  }

  lemma BoundMore(l: seq<Party>, m: seq<Party>, q: nat, port: Port)
    requires Bound(l, q, port) && Bound(m, q, port)
    ensures Bound(l + m, q, port)
  {
  }

  /** Only port p and the parties in flight change. */
  lemma PortChanged(t: Ports, p: nat, port: Port, extra: seq<Party>)
    requires Sizes(t) && AllPorts(t) && p < NPORTS && OfPort(extra, p) && PortOk(port, p, t.inflight + extra)
    ensures AllPorts(SetPort(t, p, port, extra))
  {
    hide PortOk;
    forall q | 0 <= q < NPORTS ensures PortOk(SetPort(t, p, port, extra).ports[q], q, t.inflight + extra) {
      if q != p { OthersAdmitted(t.inflight, extra, p, q, t.ports[q]); }
    }
  }

  lemma PortAt(t: Ports, p: nat)
    requires Inv(t) && p < NPORTS
    ensures PortOk(t.ports[p], p, t.inflight) && Sizes(t) && AllPorts(t) && InRange(t) && NodesOk(t) && Fifo(t)
    ensures forall i | 0 <= i < |t.ports[p].nodes| :: t.ports[p].nodes[i] < |t.msgs|
  {
  }

  /** Steps that touch no node and no history. */
  lemma SemaphoreStep(t: Ports, p: nat, port: Port, extra: seq<Party>)
    requires Inv(t) && p < NPORTS && OfPort(extra, p) && PortOk(port, p, t.inflight + extra)
    requires port.nodes == t.ports[p].nodes
    requires port.state == ALLOC ==>
               t.ports[p].state == ALLOC && port.sent == t.ports[p].sent && port.got == t.ports[p].got
    ensures Inv(SetPort(t, p, port, extra))
  {
    PortChanged(t, p, port, extra);
    hide PortOk, AllPorts;
    var t' := SetPort(t, p, port, extra);
    assert forall q | 0 <= q < NPORTS :: t'.ports[q].nodes == t.ports[q].nodes;
    assert NodesOk(t');
  }

  // ----- admission -----

  lemma SendAdmitted(port: Port, p: nat, l: seq<Party>, q: Party)
    requires PortOk(port, p, l) && port.state == ALLOC && port.ssem.PSem? && q == Party(p, port.epoch, true, q.msg)
    ensures var (s, extra) := SemWait(port.ssem, q);
      OfPort(extra, p) && PortOk(port.(ssem := s), p, l + extra)
  {
    hide Admitted;
    var (s, extra) := SemWait(port.ssem, q);
    AdmittedMore(l, extra, p, port.epoch, true);
    AdmittedMore(l, extra, p, port.epoch, false);
    if port.ssem.count > 0 {
      AdmittedOne(q, p, port.epoch, true);
      AdmittedOne(q, p, port.epoch, false);
    } else {
      AdmittedNone([], p, port.epoch, true);
      AdmittedNone([], p, port.epoch, false);
    }
    BoundMore(l, extra, p, port);
  }

  lemma RecvAdmitted(port: Port, p: nat, l: seq<Party>, q: Party)
    requires PortOk(port, p, l) && port.state == ALLOC && port.rsem.PSem? && q == Party(p, port.epoch, false, q.msg)
    ensures var (s, extra) := SemWait(port.rsem, q);
      OfPort(extra, p) && PortOk(port.(rsem := s), p, l + extra)
  {
    hide Admitted;
    var (s, extra) := SemWait(port.rsem, q);
    AdmittedMore(l, extra, p, port.epoch, true);
    AdmittedMore(l, extra, p, port.epoch, false);
    if port.rsem.count > 0 {
      AdmittedOne(q, p, port.epoch, true);
      AdmittedOne(q, p, port.epoch, false);
    } else {
      AdmittedNone([], p, port.epoch, true);
      AdmittedNone([], p, port.epoch, false);
    }
    BoundMore(l, extra, p, port);
  }

  lemma BeginSendInv(t: Ports, p: int, msg: int)
    requires Inv(t)
    ensures Inv(BeginSend(t, p, msg).0)
  {
    hide Inv, PortOk, SemWait;
    InvSizes(t);
    if !IsBadPort(p) {
      PortAt(t, p);
      var port := t.ports[p];
      if port.state == ALLOC && port.ssem.PSem? {
        var q := Party(p, port.epoch, true, msg);
        SendAdmitted(port, p, t.inflight, q);
        SemaphoreStep(t, p, port.(ssem := SemWait(port.ssem, q).0), SemWait(port.ssem, q).1);
      }
    }
  }

  lemma BeginRecvInv(t: Ports, p: int)
    requires Inv(t)
    ensures Inv(BeginRecv(t, p).0)
  {
    hide Inv, PortOk, SemWait;
    InvSizes(t);
    if !IsBadPort(p) {
      PortAt(t, p);
      var port := t.ports[p];
      if port.state == ALLOC && port.rsem.PSem? {
        var q := Party(p, port.epoch, false, 0);
        RecvAdmitted(port, p, t.inflight, q);
        SemaphoreStep(t, p, port.(rsem := SemWait(port.rsem, q).0), SemWait(port.rsem, q).1);
      }
    }
  }

  lemma InvSizes(t: Ports)
    requires Inv(t)
    ensures Sizes(t) && InRange(t) && t.nextid < NPORTS
  {
  }

  // ----- completion -----

  lemma SignalOk(s: PSem)
    requires SemOk(s)
    ensures var (s', extra) := SemSignal(s);
      && SemOk(s') && (s'.PSem? <==> s.PSem?)
      && (s.PSem? ==> if s.count < 0
                      then Positive(s') == 0 && extra == [s.waiting[0]] && s'.waiting == s.waiting[1..]
                      else Positive(s') == Positive(s) + 1 && extra == [] && s'.waiting == [])
      && (s.NoSem? ==> extra == [])
  {
  }

  /** Counts after party i leaves and the parties of extra, all alike, come. */
  lemma AdmittedSwap(l: seq<Party>, i: nat, extra: seq<Party>, p: nat, epoch: int, sending: bool)
    requires i < |l| && (extra == [] || |extra| == 1)
    ensures Admitted(Dropped(l, i) + extra, p, epoch, sending)
         == Admitted(l, p, epoch, sending) - One(l[i], p, epoch, sending)
            + (if extra == [] then 0 else One(extra[0], p, epoch, sending))
  {
    AdmittedDropped(l, i, p, epoch, sending);
    AdmittedMore(Dropped(l, i), extra, p, epoch, sending);
    if extra != [] {
      AdmittedOne(extra[0], p, epoch, sending);
      assert extra == [extra[0]];
    }
  }

  lemma SentOk(port: Port, p: nat, l: seq<Party>, i: nat, n: nat)
    requires PortOk(port, p, l) && port.state == ALLOC && i < |l| && l[i] == Party(p, port.epoch, true, l[i].msg)
    ensures var (s, extra) := SemSignal(port.rsem);
      && OfPort(extra, p)
      && PortOk(port.(rsem := s, nodes := port.nodes + [n], sent := port.sent + [l[i].msg]), p, Dropped(l, i) + extra)
  {
    hide Admitted, SemSignal, Dropped;
    SignalOk(port.rsem);
    var (s, extra) := SemSignal(port.rsem);
    AdmittedSwap(l, i, extra, p, port.epoch, true);
    AdmittedSwap(l, i, extra, p, port.epoch, false);
    BoundDropped(l, i, p, port);
    BoundMore(Dropped(l, i), extra, p, port);
  }

  lemma ReceivedOk(port: Port, p: nat, l: seq<Party>, i: nat, m: int)
    requires PortOk(port, p, l) && port.state == ALLOC && i < |l| && l[i] == Party(p, port.epoch, false, l[i].msg)
    ensures port.nodes != []
    ensures var (s, extra) := SemSignal(port.ssem);
      && OfPort(extra, p)
      && PortOk(port.(ssem := s, nodes := port.nodes[1..], got := port.got + [m]), p, Dropped(l, i) + extra)
  {
    hide Admitted, SemSignal, Dropped;
    SignalOk(port.ssem);
    var (s, extra) := SemSignal(port.ssem);
    AdmittedSwap(l, i, extra, p, port.epoch, true);
    AdmittedSwap(l, i, extra, p, port.epoch, false);
    BoundDropped(l, i, p, port);
    BoundMore(Dropped(l, i), extra, p, port);
  }

  /** A party of an earlier epoch is no part of any account. */
  lemma StaleDropped(t: Ports, i: nat)
    requires Inv(t) && i < |t.inflight|
    requires var q := t.inflight[i]; t.ports[q.port].state != ALLOC || t.ports[q.port].epoch != q.epoch
    ensures Inv(t.(inflight := Dropped(t.inflight, i)))
  {
    hide Queued, Cleared, Admitted;
    var l, q := t.inflight, t.inflight[i];
    var t' := t.(inflight := Dropped(l, i));
    forall p | 0 <= p < NPORTS ensures PortOk(t'.ports[p], p, t'.inflight) {
      var port := t.ports[p];
      assert PortOk(port, p, l);
      if p != q.port {
        OthersDropped(l, i, p, port);
      } else {
        AdmittedDropped(l, i, p, port.epoch, true);
        AdmittedDropped(l, i, p, port.epoch, false);
        BoundDropped(l, i, p, port);
      }
    }
    InRangeDropped(t, i);
  }

  lemma InRangeDropped(t: Ports, i: nat)
    requires InRange(t) && i < |t.inflight|
    ensures InRange(t.(inflight := Dropped(t.inflight, i)))
  {
    var r := Dropped(t.inflight, i);
    assert forall j | 0 <= j < |r| :: r[j] == t.inflight[if j < i then j else j + 1];
  }

  /** Port p and the parties in flight change, one party of p having left. */
  lemma PortFinished(t: Ports, i: nat, port: Port, extra: seq<Party>, t': Ports)
    requires Sizes(t) && AllPorts(t)
    requires i < |t.inflight| && t.inflight[i].port < NPORTS && OfPort(extra, t.inflight[i].port)
    requires PortOk(port, t.inflight[i].port, Dropped(t.inflight, i) + extra)
    requires t'.ports == t.ports[t.inflight[i].port := port] && t'.inflight == Dropped(t.inflight, i) + extra
    ensures AllPorts(t')
  {
    hide PortOk;
    var p := t.inflight[i].port;
    forall q | 0 <= q < NPORTS ensures PortOk(t'.ports[q], q, t'.inflight) {
      if q != p {
        OthersDropped(t.inflight, i, q, t.ports[q]);
        OthersAdmitted(Dropped(t.inflight, i), extra, p, q, t.ports[q]);
      }
    }
  }

  /** The first free node goes to port p. */
  lemma NodeTaken(t: Ports, p: nat, t': Ports)
    requires NodesOk(t) && p < NPORTS && t.free != []
    requires var n := t.free[0];
      && Sizes(t') && |t'.msgs| == |t.msgs| && t'.free == t.free[1..] && t'.home == t.home[n := p]
      && t'.ports[p].nodes == t.ports[p].nodes + [n]
    requires forall q | 0 <= q < NPORTS && q != p :: t'.ports[q].nodes == t.ports[q].nodes
    requires forall j | 0 <= j < |t'.inflight| :: t'.inflight[j].port < NPORTS
    ensures NodesOk(t')
  {
    var n := t.free[0];
    assert t.free == [n] + t.free[1..];
    forall m | 0 <= m < |t.home| ensures m in t'.free <==> t'.home[m] == -1 {
      assert m in t.free <==> t.home[m] == -1;
    }
    forall m, q | 0 <= m < |t.home| && 0 <= q < NPORTS ensures m in t'.ports[q].nodes <==> t'.home[m] == q {
      assert m in t.ports[q].nodes <==> t.home[m] == q;
      if q == p { assert m in t'.ports[q].nodes <==> m in t.ports[q].nodes || m == n; }
    }
    assert n in t.free && t.home[n] == -1 && n !in t.ports[p].nodes;
  }

  /** The first node of port p is freed. */
  lemma NodeReturned(t: Ports, p: nat, t': Ports)
    requires NodesOk(t) && p < NPORTS && t.ports[p].nodes != []
    requires var n := t.ports[p].nodes[0];
      && Sizes(t') && |t'.msgs| == |t.msgs| && t'.free == [n] + t.free && n < |t.home| && t'.home == t.home[n := -1]
      && t'.ports[p].nodes == t.ports[p].nodes[1..]
    requires forall q | 0 <= q < NPORTS && q != p :: t'.ports[q].nodes == t.ports[q].nodes
    requires forall j | 0 <= j < |t'.inflight| :: t'.inflight[j].port < NPORTS
    ensures NodesOk(t')
  {
    var n := t.ports[p].nodes[0];
    assert t.ports[p].nodes == [n] + t.ports[p].nodes[1..];
    assert n in t.ports[p].nodes && t.home[n] == p && n !in t.free;
    forall m | 0 <= m < |t.home| ensures m in t'.free <==> t'.home[m] == -1 {
      assert m in t.free <==> t.home[m] == -1;
    }
    forall m, q | 0 <= m < |t.home| && 0 <= q < NPORTS ensures m in t'.ports[q].nodes <==> t'.home[m] == q {
      assert m in t.ports[q].nodes <==> t.home[m] == q;
      if q == p { assert m in t.ports[q].nodes <==> m in t'.ports[q].nodes || m == n; }
    }
  }

  lemma MessagesKept(nodes: seq<nat>, msgs: seq<int>, n: nat, m: int)
    requires (forall i | 0 <= i < |nodes| :: nodes[i] < |msgs|) && n < |msgs| && n !in nodes
    ensures Messages(nodes, msgs[n := m]) == Messages(nodes, msgs)
    ensures Messages(nodes + [n], msgs[n := m]) == Messages(nodes, msgs) + [m]
  {
  }

  lemma FifoSent(t: Ports, p: nat, n: nat, m: int, t': Ports)
    requires NodesOk(t) && Fifo(t) && p < NPORTS && n < |t.msgs| && t.home[n] == -1 && InRange(t')
    requires t'.msgs == t.msgs[n := m] && t.ports[p].state == ALLOC
    requires t'.ports[p].nodes == t.ports[p].nodes + [n]
    requires t'.ports[p].got == t.ports[p].got && t'.ports[p].sent == t.ports[p].sent + [m]
    requires forall q | 0 <= q < NPORTS && q != p :: t'.ports[q] == t.ports[q]
    ensures Fifo(t')
  {
    forall q | 0 <= q < NPORTS && t'.ports[q].state == ALLOC
      ensures t'.ports[q].got + Messages(t'.ports[q].nodes, t'.msgs) == t'.ports[q].sent
    {
      assert n !in t.ports[q].nodes;
      MessagesKept(t.ports[q].nodes, t.msgs, n, m);
      if q == p {
        assert t.ports[p].got + (Messages(t.ports[p].nodes, t.msgs) + [m])
            == (t.ports[p].got + Messages(t.ports[p].nodes, t.msgs)) + [m];
      }
    }
  }

  lemma FifoReceived(t: Ports, p: nat, t': Ports)
    requires InRange(t) && Fifo(t) && p < NPORTS && InRange(t') && t'.msgs == t.msgs && t.ports[p].state == ALLOC
    requires t.ports[p].nodes != [] && t'.ports[p].nodes == t.ports[p].nodes[1..] && t'.ports[p].sent == t.ports[p].sent
    requires t'.ports[p].got == t.ports[p].got + [t.msgs[t.ports[p].nodes[0]]]
    requires forall q | 0 <= q < NPORTS && q != p :: t'.ports[q] == t.ports[q]
    ensures Fifo(t')
  {
    hide Messages;
    forall q | 0 <= q < NPORTS && t'.ports[q].state == ALLOC
      ensures t'.ports[q].got + Messages(t'.ports[q].nodes, t'.msgs) == t'.ports[q].sent
    {
      if q == p {
        var nodes, got := t.ports[p].nodes, t.ports[p].got;
        MessagesFirst(nodes, t.msgs);
        assert got + ([t.msgs[nodes[0]]] + Messages(nodes[1..], t.msgs))
            == got + [t.msgs[nodes[0]]] + Messages(nodes[1..], t.msgs);
      }
    }
  }

  lemma MessagesFirst(nodes: seq<nat>, msgs: seq<int>)
    requires nodes != [] && forall i | 0 <= i < |nodes| :: nodes[i] < |msgs|
    ensures Messages(nodes, msgs) == [msgs[nodes[0]]] + Messages(nodes[1..], msgs)
  {
    hide Messages;
  }

  lemma FinishSendInv(t: Ports, i: nat)
    requires Inv(t) && i < |t.inflight| && t.inflight[i].sending && Finish(t, i).1 == Ok
    ensures Inv(Finish(t, i).0)
  {
    hide PortOk, Admitted, SemSignal, Fifo, NodesOk, Inv, Dropped;
    InvSizes(t);
    var q := t.inflight[i];
    PortAt(t, q.port);
    var port, n, t' := t.ports[q.port], t.free[0], Finish(t, i).0;
    FreeFirst(t);
    SentOk(port, q.port, t.inflight, i, n);
    var (s, extra) := SemSignal(port.rsem);
    PortFinished(t, i, t'.ports[q.port], extra, t');
    InRangeDropped(t, i);
    NodeTaken(t, q.port, t');
    NodesRange(t');
    FifoSent(t, q.port, n, q.msg, t');
    MakeInv(t');
  }

  lemma FreeFirst(t: Ports)
    requires NodesOk(t) && t.free != []
    ensures t.free[0] < |t.home| == |t.msgs| && t.home[t.free[0]] == -1
  {
    assert t.free[0] in t.free;
  }

  lemma NodesRange(t: Ports)
    requires NodesOk(t)
    ensures InRange(t)
  {
  }

  lemma MakeInv(t: Ports)
    requires NodesOk(t) && AllPorts(t) && Fifo(t) && t.nextid < NPORTS
    ensures Inv(t)
  {
  }

  lemma FinishRecvInv(t: Ports, i: nat)
    requires Inv(t) && i < |t.inflight| && !t.inflight[i].sending && Finish(t, i).1.Got?
    ensures Inv(Finish(t, i).0)
  {
    hide PortOk, Admitted, SemSignal, Fifo, NodesOk, Inv, Dropped;
    InvSizes(t);
    var q := t.inflight[i];
    PortAt(t, q.port);
    var port, t' := t.ports[q.port], Finish(t, i).0;
    ReceivedOk(port, q.port, t.inflight, i, t.msgs[port.nodes[0]]);
    var (s, extra) := SemSignal(port.ssem);
    PortFinished(t, i, t'.ports[q.port], extra, t');
    InRangeDropped(t, i);
    NodeReturned(t, q.port, t');
    NodesRange(t');
    FifoReceived(t, q.port, t');
    MakeInv(t');
  }
}
