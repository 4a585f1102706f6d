/** What every interleaving of senders, receivers, resets and deletes keeps. */
module PortsInv {
  import opened PortsModel

  // ----- counting admitted parties -----

  /** How many of l are senders (or receivers) of port p admitted in this epoch. */
  function Admitted(l: seq<Party>, p: nat, epoch: int, sending: bool): nat {
    if l == [] then 0
    else (if l[0].port == p && l[0].epoch == epoch && l[0].sending == sending then 1 else 0)
         + Admitted(l[1..], p, epoch, sending)
  }

  lemma {:induction false} AdmittedMore(l: seq<Party>, m: seq<Party>, p: nat, epoch: int, sending: bool)
    ensures Admitted(l + m, p, epoch, sending) == Admitted(l, p, epoch, sending) + Admitted(m, p, epoch, sending)
  {
    if l == [] {
      assert l + m == m;
    } else {
      assert (l + m)[1..] == l[1..] + m;
      AdmittedMore(l[1..], m, p, epoch, sending);
    }
  }

  function One(q: Party, p: nat, epoch: int, sending: bool): nat {
    if q.port == p && q.epoch == epoch && q.sending == sending then 1 else 0
  }

  lemma AdmittedOne(q: Party, p: nat, epoch: int, sending: bool)
    ensures Admitted([q], p, epoch, sending) == One(q, p, epoch, sending)
  {
  }

  lemma AdmittedDropped(l: seq<Party>, i: nat, p: nat, epoch: int, sending: bool)
    requires i < |l|
    ensures Admitted(Dropped(l, i), p, epoch, sending) == Admitted(l, p, epoch, sending) - One(l[i], p, epoch, sending)
  {
    assert l == l[..i] + ([l[i]] + l[i + 1..]);
    AdmittedMore(l[..i], [l[i]] + l[i + 1..], p, epoch, sending);
    AdmittedMore([l[i]], l[i + 1..], p, epoch, sending);
    AdmittedMore(l[..i], l[i + 1..], p, epoch, sending);
    AdmittedOne(l[i], p, epoch, sending);
  }

  lemma {:induction false} AdmittedNone(l: seq<Party>, p: nat, epoch: int, sending: bool)
    requires forall i | 0 <= i < |l| :: l[i].port != p || l[i].epoch != epoch
    ensures Admitted(l, p, epoch, sending) == 0
  {
    if l != [] { AdmittedNone(l[1..], p, epoch, sending); }
  }

  // ----- the invariant -----

  /** No party is ahead of its port, and none is current unless it is allocated. */
  ghost predicate Bound(l: seq<Party>, p: nat, port: Port) {
    forall i | 0 <= i < |l| && l[i].port == p ::
      l[i].epoch <= port.epoch && (port.state != ALLOC ==> l[i].epoch < port.epoch)
  }

  /** The parties waiting on a semaphore of port p came in the current epoch, or,
      while the port is cleared, in an earlier one. */
  ghost predicate Queued(s: PSem, p: nat, sending: bool, port: Port) {
    && SemOk(s)
    && (s.PSem? ==> forall i | 0 <= i < |s.waiting| ::
          && s.waiting[i].port == p && s.waiting[i].sending == sending
          && (if port.state == ALLOC then s.waiting[i].epoch == port.epoch else s.waiting[i].epoch < port.epoch))
  }

  /** Room for senders: free places, admitted senders and messages make up the
      capacity.  Messages: those signalled and those promised to admitted receivers. */
  ghost predicate Tokens(port: Port, p: nat, l: seq<Party>) {
    && (if port.ssem.NoSem? then Admitted(l, p, port.epoch, true) == 0 && port.nodes == []
        else Positive(port.ssem) + Admitted(l, p, port.epoch, true) + |port.nodes| == port.cap)
    && (if port.rsem.NoSem? then Admitted(l, p, port.epoch, false) == 0
        else Positive(port.rsem) + Admitted(l, p, port.epoch, false) == |port.nodes|)
  }

  ghost predicate Cleared(port: Port) {
    match port.state
    case ALLOC => true
    case FREE => port.nodes == [] && port.ssem.NoSem? && port.rsem.NoSem?
    case LIMBO(stage, keep) =>
      && stage <= 3 && (stage >= 1 ==> port.nodes == [])
      && (stage >= 2 ==> port.ssem.NoSem? || (keep && port.ssem == PSem(port.maxcnt, [])))
      && (stage >= 3 ==> port.rsem.NoSem? || (keep && port.rsem == PSem(0, [])))
  }

  ghost predicate PortOk(port: Port, p: nat, l: seq<Party>) {
    && Bound(l, p, port) && Queued(port.ssem, p, true, port) && Queued(port.rsem, p, false, port)
    && Cleared(port) && (port.state == ALLOC ==> Tokens(port, p, l))
  }

  ghost predicate NoDup(l: seq<nat>) {
    forall i, j | 0 <= i < j < |l| :: l[i] != l[j]
  }

  /** Every node is on the free list or in exactly one port. */
  ghost predicate NodesOk(t: Ports) {
    && InRange(t)
    && NoDup(t.free) && (forall p | 0 <= p < NPORTS :: NoDup(t.ports[p].nodes))
    && (forall n | 0 <= n < |t.home| :: -1 <= t.home[n] < NPORTS)
    && (forall n | 0 <= n < |t.home| :: n in t.free <==> t.home[n] == -1)
    && (forall n, p | 0 <= n < |t.home| && 0 <= p < NPORTS :: n in t.ports[p].nodes <==> t.home[n] == p)
  }

  function Messages(nodes: seq<nat>, msgs: seq<int>): (r: seq<int>)
    requires forall i | 0 <= i < |nodes| :: nodes[i] < |msgs|
    ensures |r| == |nodes| && forall i | 0 <= i < |nodes| :: r[i] == msgs[nodes[i]]
  {
    seq(|nodes|, i requires 0 <= i < |nodes| => msgs[nodes[i]])
  }

  /** First in, first out: what was dequeued, then what is queued, is what was
      enqueued. */
  ghost predicate Fifo(t: Ports)
    requires InRange(t)
  {
    forall p | 0 <= p < NPORTS && t.ports[p].state == ALLOC ::
      t.ports[p].got + Messages(t.ports[p].nodes, t.msgs) == t.ports[p].sent
  }

  ghost predicate AllPorts(t: Ports)
    requires Sizes(t)
  {
    forall p | 0 <= p < NPORTS :: PortOk(t.ports[p], p, t.inflight)
  }

  ghost predicate Inv(t: Ports) {
    NodesOk(t) && AllPorts(t) && Fifo(t) && t.nextid < NPORTS
  }

  // ----- what the invariant says -----

  /** A port never holds more than its capacity, and no admitted receiver finds it
      empty. */
  lemma Bounded(t: Ports, p: nat, i: nat)
    requires Inv(t) && p < NPORTS && t.ports[p].state == ALLOC
    ensures |t.ports[p].nodes| <= t.ports[p].cap
    ensures i < |t.inflight| && t.inflight[i] == Party(p, t.ports[p].epoch, false, t.inflight[i].msg) ==>
              t.ports[p].nodes != []
  {
    assert PortOk(t.ports[p], p, t.inflight);
    if i < |t.inflight| && t.inflight[i] == Party(p, t.ports[p].epoch, false, t.inflight[i].msg) {
      AdmittedDropped(t.inflight, i, p, t.ports[p].epoch, false);
    }
  }
}
