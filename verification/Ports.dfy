/** The port functions on the nodes and the port table themselves. */
module PortTables {
  import opened PortsModel
  import opened PortsInv
  import opened PortsSteps
  import opened PortsMessages
  import opened PortsRuns

  const NULL := -1

  /** A table entry as it is stored: head and tail point at nodes. */
  datatype Entry = Entry(state: State, epoch: int, maxcnt: nat, ssem: PSem, rsem: PSem, head: int, tail: int)

  function First(l: seq<nat>): int { if l == [] then NULL else l[0] }
  function Last(l: seq<nat>): int { if l == [] then NULL else l[|l| - 1] }

  function Succ(l: seq<nat>, i: nat): int
    requires i < |l|
  {
    if i + 1 < |l| then l[i + 1] else NULL
  }

  /** The nodes of l are linked in order and the last one ends the list. */
  ghost predicate Chain(next: seq<int>, l: seq<nat>) {
    forall i | 0 <= i < |l| :: l[i] < |next| && next[l[i]] == Succ(l, i)
  }

  /** While a port is allocated, until its nodes are freed, and after a reset its
      pointers describe its list; ptdelete leaves them dangling. */
  predicate Linked(s: State) { s.ALLOC? || (s.LIMBO? && (s.stage == 0 || s.keep)) }

  ghost predicate Matches(e: Entry, port: Port, next: seq<int>) {
    && e.state == port.state && e.epoch == port.epoch && e.maxcnt == port.maxcnt
    && e.ssem == port.ssem && e.rsem == port.rsem
    && (Linked(e.state) ==> Chain(next, port.nodes) && e.head == First(port.nodes) && e.tail == Last(port.nodes))
  }

  ghost predicate AllMatch(entries: seq<Entry>, t: Ports, next: seq<int>) {
    && |entries| == NPORTS && Sizes(t)
    && forall p | 0 <= p < NPORTS :: Matches(entries[p], t.ports[p], next)
  }

  // ----- chains -----

  lemma ChainTail(next: seq<int>, l: seq<nat>)
    requires Chain(next, l) && l != []
    ensures Chain(next, l[1..]) && l[0] < |next| && next[l[0]] == First(l[1..])
    ensures First(l) == Last(l) <==> (|l| == 1 || l[0] == l[|l| - 1])
  {
    assert forall i | 0 <= i < |l[1..]| :: l[1..][i] == l[i + 1] && Succ(l[1..], i) == Succ(l, i + 1);
    assert next[l[0]] == Succ(l, 0);
  }

  lemma ChainOther(next: seq<int>, l: seq<nat>, n: nat, v: int)
    requires Chain(next, l) && n < |next| && n !in l
    ensures Chain(next[n := v], l)
  {
  }

  lemma ChainPush(next: seq<int>, l: seq<nat>, n: nat)
    requires Chain(next, l) && n < |next| && n !in l
    ensures Chain(next[n := First(l)], [n] + l)
  {
    var r, next' := [n] + l, next[n := First(l)];
    forall i | 0 <= i < |r| ensures r[i] < |next'| && next'[r[i]] == Succ(r, i) {
      if i > 0 { assert r[i] == l[i - 1] && next[l[i - 1]] == Succ(l, i - 1); }
    }
  }

  lemma ChainAppend(next: seq<int>, l: seq<nat>, n: nat)
    requires Chain(next, l) && NoDup(l) && n < |next| && n !in l
    ensures Chain(if l == [] then next[n := NULL] else next[n := NULL][Last(l) := n], l + [n])
  {
    var r := l + [n];
    var next' := if l == [] then next[n := NULL] else next[n := NULL][Last(l) := n];
    forall i | 0 <= i < |r| ensures r[i] < |next'| && next'[r[i]] == Succ(r, i) {
      if i < |l| {
        assert r[i] == l[i] && next[l[i]] == Succ(l, i);
      }
    }
  }

  lemma ChainJoin(next: seq<int>, a: seq<nat>, b: seq<nat>)
    requires Chain(next, a) && Chain(next, b) && a != [] && NoDup(a) && forall n | n in a :: n !in b
    ensures Last(a) < |next| && Chain(next[Last(a) := First(b)], a + b)
  {
    var r, next' := a + b, next[Last(a) := First(b)];
    forall i | 0 <= i < |r| ensures r[i] < |next'| && next'[r[i]] == Succ(r, i) {
      if i < |a| {
        assert r[i] == a[i] && next[a[i]] == Succ(a, i);
      } else {
        assert r[i] == b[i - |a|] && next[b[i - |a|]] == Succ(b, i - |a|);
        assert b[i - |a|] in b;
      }
    }
  }

  /** Pointers of nodes outside a port do not matter to it. */
  lemma OtherPort(entries: seq<Entry>, t: Ports, next: seq<int>, q: nat, n: nat, v: int)
    requires NodesOk(t) && AllMatch(entries, t, next) && |next| == |t.home|
    requires q < NPORTS && n < |next| && t.home[n] != q
    ensures Matches(entries[q], t.ports[q], next[n := v])
  {
    assert n !in t.ports[q].nodes;
    if Linked(entries[q].state) { ChainOther(next, t.ports[q].nodes, n, v); }
  }

  lemma OtherPorts(entries: seq<Entry>, t: Ports, next: seq<int>, p: int, n: nat, v: int)
    requires NodesOk(t) && AllMatch(entries, t, next) && |next| == |t.home| && n < |next|
    requires t.home[n] == p || t.home[n] == -1
    ensures forall q | 0 <= q < NPORTS && q != p :: Matches(entries[q], t.ports[q], next[n := v])
  {
    forall q | 0 <= q < NPORTS && q != p ensures Matches(entries[q], t.ports[q], next[n := v]) {
      OtherPort(entries, t, next, q, n, v);
    }
  }

  /** The pointers after ptsend. */
  function SentNext(next: seq<int>, n: nat, tail: int): seq<int>
    requires n < |next| && tail < |next|
  {
    if tail < 0 then next[n := NULL] else next[n := NULL][tail := n]
  }

  lemma SentNextIs(next: seq<int>, n: nat, tail: int)
    requires n < |next| && tail < |next|
    ensures SentNext(next, n, tail) == if tail < 0 then next[n := NULL] else next[n := NULL][tail := n]
  {
  }

  lemma SendLinks(entries: seq<Entry>, t: Ports, next: seq<int>, p: nat)
    requires NodesOk(t) && AllMatch(entries, t, next) && |next| == |t.home| && Chain(next, t.free) && t.free != []
    requires p < NPORTS && entries[p].state == ALLOC
    ensures var n, tail := t.free[0], entries[p].tail;
      && n < |next| && tail < |next| && (tail >= 0 <==> t.ports[p].nodes != []) && (tail < 0 ==> tail == NULL)
      && next[n] == First(t.free[1..])
      && Chain(SentNext(next, n, tail), t.free[1..]) && Chain(SentNext(next, n, tail), t.ports[p].nodes + [n])
      && forall q | 0 <= q < NPORTS && q != p :: Matches(entries[q], t.ports[q], SentNext(next, n, tail))
  {
    var n, tail, nodes := t.free[0], entries[p].tail, t.ports[p].nodes;
    FreeFirst(t);
    assert Matches(entries[p], t.ports[p], next);
    assert n !in nodes && t.free == [n] + t.free[1..];
    ChainTail(next, t.free);
    ChainAppend(next, nodes, n);
    ChainOther(next, t.free[1..], n, NULL);
    OtherPorts(entries, t, next, -1, n, NULL);
    if nodes != [] {
      assert tail in nodes && t.home[tail] == p && tail !in t.free[1..];
      ChainOther(next[n := NULL], t.free[1..], tail, n);
      forall q | 0 <= q < NPORTS && q != p ensures Matches(entries[q], t.ports[q], SentNext(next, n, tail)) {
        assert tail !in t.ports[q].nodes;
        if Linked(entries[q].state) { ChainOther(next[n := NULL], t.ports[q].nodes, tail, n); }
      }
    }
  }

  /** The pointers after ptrecv. */
  lemma RecvLinks(entries: seq<Entry>, t: Ports, next: seq<int>, p: nat)
    requires NodesOk(t) && AllMatch(entries, t, next) && |next| == |t.home| && Chain(next, t.free)
    requires p < NPORTS && entries[p].state == ALLOC && t.ports[p].nodes != []
    ensures var n, nodes := t.ports[p].nodes[0], t.ports[p].nodes;
      && n < |next| && entries[p].head == n && next[n] == First(nodes[1..])
      && (entries[p].head == entries[p].tail <==> nodes[1..] == [])
      && (nodes[1..] != [] ==> Last(nodes[1..]) == entries[p].tail)
      && Chain(next[n := First(t.free)], [n] + t.free) && Chain(next[n := First(t.free)], nodes[1..])
      && forall q | 0 <= q < NPORTS && q != p :: Matches(entries[q], t.ports[q], next[n := First(t.free)])
  {
    var nodes := t.ports[p].nodes;
    var n := nodes[0];
    assert Matches(entries[p], t.ports[p], next);
    assert n in nodes && t.home[n] == p && n !in t.free && nodes == [n] + nodes[1..];
    ChainTail(next, nodes);
    ChainPush(next, t.free, n);
    ChainOther(next, nodes[1..], n, First(t.free));
    OtherPorts(entries, t, next, p, n, First(t.free));
    if |nodes| > 1 { assert nodes[0] != nodes[|nodes| - 1]; }
  }

  /** The pointers after _ptclear has moved a port's nodes. */
  lemma ClearLinks(entries: seq<Entry>, t: Ports, next: seq<int>, p: nat)
    requires NodesOk(t) && AllMatch(entries, t, next) && |next| == |t.home| && Chain(next, t.free)
    requires p < NPORTS && AtStage(t, p, 0) && t.ports[p].nodes != []
    ensures var tail, nodes := entries[p].tail, t.ports[p].nodes;
      && 0 <= tail < |next| && entries[p].head == nodes[0]
      && Chain(next[tail := First(t.free)], nodes + t.free)
      && forall q | 0 <= q < NPORTS && q != p :: Matches(entries[q], t.ports[q], next[tail := First(t.free)])
  {
    var nodes := t.ports[p].nodes;
    assert Matches(entries[p], t.ports[p], next);
    assert Last(nodes) in nodes && t.home[Last(nodes)] == p;
    forall n | n in nodes ensures n !in t.free {
      assert t.home[n] == p;
    }
    ChainJoin(next, nodes, t.free);
    OtherPorts(entries, t, next, p, Last(nodes), First(t.free));
  }

  lemma FreePortStep(ports: seq<Port>, next: nat, n: nat)
    requires |ports| == NPORTS && next < NPORTS
    ensures var next' := if next + 1 >= NPORTS then 0 else next + 1;
      FreePort(ports, next, n) == if n == 0 then (-1, next)
                                  else if ports[next].state == FREE then (next, next')
                                  else FreePort(ports, next', n - 1)
  {
  }

  /** An admitted receiver of the current epoch finds a message. */
  lemma NotEmpty(t: Ports, i: nat)
    requires Inv(t) && i < |t.inflight| && !t.inflight[i].sending
    requires t.ports[t.inflight[i].port].state == ALLOC && t.ports[t.inflight[i].port].epoch == t.inflight[i].epoch
    ensures t.ports[t.inflight[i].port].nodes != []
  {
    Bounded(t, t.inflight[i].port, i);
  }

  lemma AtNode(next: seq<int>, l: seq<nat>, i: nat)
    requires Chain(next, l) && i < |l|
    ensures l[i] < |next| && next[l[i]] == (if i + 1 < |l| then l[i + 1] else NULL)
  {
    assert next[l[i]] == Succ(l, i);
  }

  lemma NoChain(next: seq<int>)
    ensures Chain(next, [])
  {
  }

  class PortTable {
    const ptmsg: array<int>
    const ptnext: array<int>
    const porttab: array<Entry>
    var ptfree: int
    var ptnextid: nat
    var inflight: seq<Party>
    ghost var t: Ports

    ghost predicate Rep()
      reads this, ptmsg, ptnext, porttab
    {
      && ptmsg != ptnext && ptmsg.Length == ptnext.Length == |t.home| && porttab.Length == NPORTS
      && Inv(t) && t.msgs == ptmsg[..] && t.inflight == inflight && t.nextid == ptnextid
      && Chain(ptnext[..], t.free) && ptfree == First(t.free)
      && AllMatch(porttab[..], t, ptnext[..])
    }

    /** ptinit: the nodes are linked into the free list; all ports are free. */
    constructor (maxmsgs: nat)
      requires maxmsgs > 0
      ensures Rep() && t == Start(maxmsgs) && fresh(ptmsg) && fresh(ptnext) && fresh(porttab)
    {
      ptmsg := new int[maxmsgs](_ => 0);
      ptnext := new int[maxmsgs](_ => 0);
      porttab := new Entry[NPORTS](_ => Entry(ALLOC, 0, 0, NoSem, NoSem, NULL, NULL));
      ptfree, ptnextid, inflight := 0, 0, [];
      t := Start(maxmsgs);
      new;
      hide Inv;
      var i := 0;
      while i < NPORTS
        invariant 0 <= i <= NPORTS && (ptfree, ptnextid, inflight) == (0, 0, []) && t == Start(maxmsgs)
        invariant ptmsg[..] == t.msgs
        invariant forall j | 0 <= j < i :: porttab[j] == Entry(FREE, 0, 0, NoSem, NoSem, NULL, NULL)
      {
        porttab[i] := Entry(FREE, 0, 0, NoSem, NoSem, NULL, NULL);
        i := i + 1;
      }
      var next, prev, left := ptfree, ptfree, maxmsgs - 1;
      while left > 0
        invariant (ptfree, ptnextid, inflight) == (0, 0, []) && t == Start(maxmsgs) && ptmsg[..] == t.msgs
        invariant forall j | 0 <= j < NPORTS :: porttab[j] == Entry(FREE, 0, 0, NoSem, NoSem, NULL, NULL)
        invariant 0 <= left < maxmsgs && prev == next == maxmsgs - 1 - left
        invariant forall j | 0 <= j < prev :: ptnext[j] == j + 1
      {
        next := next + 1;
        ptnext[prev] := next;
        prev := next;
        left := left - 1;
      }
      ptnext[prev] := NULL;
      StartInv(maxmsgs);
      assert forall j | 0 <= j < maxmsgs :: t.free[j] == j;
    }

    /** The tables the ghost state says. */
    lemma Facts()
      requires Rep()
      ensures InRange(t) && Sizes(t) && t.nextid < NPORTS && NodesOk(t)
      ensures forall p | 0 <= p < NPORTS :: Matches(porttab[p], t.ports[p], ptnext[..]) && NoDup(t.ports[p].nodes)
      ensures NoDup(t.free)
    {
    }

    method PtCreate(count: int, sOk: bool, rOk: bool) returns (r: int)
      requires Rep()
      modifies this, porttab
      ensures Rep() && (t, r) == Create(old(t), count, sOk, rOk)
    {
      hide Inv, Chain, NodesOk, FreePort;
      Facts();
      CreateInv(t, count, sOk, rOk);
      if count < 0 { return -1; }
      ghost var t0, next := t, ptnextid;
      var i := 0;
      while i < NPORTS
        invariant 0 <= i <= NPORTS && ptnextid < NPORTS
        invariant porttab[..] == old(porttab[..]) && inflight == t0.inflight && t == t0 && ptfree == First(t.free)
        invariant FreePort(t0.ports, ptnextid, NPORTS - i) == FreePort(t0.ports, next, NPORTS)
      {
        FreePortStep(t0.ports, ptnextid, NPORTS - i);
        var ptnum := ptnextid;
        ptnextid := if ptnextid + 1 >= NPORTS then 0 else ptnextid + 1;
        if porttab[ptnum].state == FREE {
          var ptseq := porttab[ptnum].epoch + 1;
          porttab[ptnum] := Entry(ALLOC, ptseq, count % 0x1_0000, if sOk then PSem(count, []) else NoSem,
                                  if rOk then PSem(0, []) else NoSem, NULL, NULL);
          t := Create(t0, count, sOk, rOk).0;
          NoChain(ptnext[..]);
          return ptnum;
        }
        i := i + 1;
      }
      FreePortStep(t0.ports, ptnextid, 0);
      t := Create(t0, count, sOk, rOk).0;
      return -1;
    }

    /** ptsend up to and including its wait. */
    method PtSendBegin(portid: int, msg: int) returns (r: Outcome)
      requires Rep()
      modifies this, porttab
      ensures Rep() && (t, r) == BeginSend(old(t), portid, msg)
    {
      hide Inv, Chain, NodesOk;
      Facts();
      BeginSendInv(t, portid, msg);
      if IsBadPort(portid) || porttab[portid].state != ALLOC { return Syserr; }
      var e := porttab[portid];
      if e.ssem.NoSem? { return Syserr; }
      var (sem, admitted) := SemWait(e.ssem, Party(portid, e.epoch, true, msg));
      porttab[portid] := e.(ssem := sem);
      inflight := inflight + admitted;
      t := BeginSend(t, portid, msg).0;
      return if admitted == [] then Waits else Enters;
    }

    /** ptrecv up to and including its wait. */
    method PtRecvBegin(portid: int) returns (r: Outcome)
      requires Rep()
      modifies this, porttab
      ensures Rep() && (t, r) == BeginRecv(old(t), portid)
    {
      hide Inv, Chain, NodesOk;
      Facts();
      BeginRecvInv(t, portid);
      if IsBadPort(portid) || porttab[portid].state != ALLOC { return Syserr; }
      var e := porttab[portid];
      if e.rsem.NoSem? { return Syserr; }
      var (sem, admitted) := SemWait(e.rsem, Party(portid, e.epoch, false, 0));
      porttab[portid] := e.(rsem := sem);
      inflight := inflight + admitted;
      t := BeginRecv(t, portid).0;
      return if admitted == [] then Waits else Enters;
    }

    /** The rest of ptsend, for admitted party i. */
    method PtSendEnd(i: nat) returns (r: Outcome)
      requires Rep() && i < |inflight| && inflight[i].sending
      modifies this, ptmsg, ptnext, porttab
      ensures r == Finish(old(t), i).1
      ensures r != Panic ==> Rep() && t == Finish(old(t), i).0
    {
      hide Inv, Chain, NodesOk, SentNext, SemSignal, Dropped;
      Facts();
      FinishInv(t, i);
      ghost var t0 := t;
      var q := inflight[i];
      inflight := Dropped(inflight, i);
      var e := porttab[q.port];
      if e.state != ALLOC || e.epoch != q.epoch {
        t := Finish(t0, i).0;
        return Syserr;
      }
      if ptfree == NULL { return Panic; }
      SendLinks(porttab[..], t0, ptnext[..], q.port);
      ghost var next := ptnext[..];
      var msgnode := ptfree;
      ptfree := ptnext[msgnode];
      ptnext[msgnode] := NULL;
      ptmsg[msgnode] := q.msg;
      var (sem, admitted) := SemSignal(e.rsem);
      if e.tail == NULL {
        porttab[q.port] := e.(head := msgnode, tail := msgnode, rsem := sem);
      } else {
        ptnext[e.tail] := msgnode;
        porttab[q.port] := e.(tail := msgnode, rsem := sem);
      }
      assert ptnext[..] == SentNext(next, msgnode, e.tail) by { SentNextIs(next, msgnode, e.tail); }
      inflight := inflight + admitted;
      t := Finish(t0, i).0;
      return Ok;
    }

    /** The rest of ptrecv, for admitted party i. */
    method PtRecvEnd(i: nat) returns (r: Outcome)
      requires Rep() && i < |inflight| && !inflight[i].sending
      modifies this, ptnext, porttab
      ensures Rep() && (t, r) == Finish(old(t), i)
    {
      hide Inv, Chain, NodesOk, SemSignal, Dropped;
      Facts();
      FinishInv(t, i);
      ghost var t0 := t;
      var q := inflight[i];
      inflight := Dropped(inflight, i);
      var e := porttab[q.port];
      if e.state != ALLOC || e.epoch != q.epoch {
        t := Finish(t0, i).0;
        return Syserr;
      }
      NotEmpty(t0, i);
      RecvLinks(porttab[..], t0, ptnext[..], q.port);
      var msgnode := e.head;
      var msg := ptmsg[msgnode];
      var (sem, admitted) := SemSignal(e.ssem);
      if e.head == e.tail {
        porttab[q.port] := e.(head := NULL, tail := NULL, ssem := sem);
      } else {
        porttab[q.port] := e.(head := ptnext[msgnode], ssem := sem);
      }
      ptnext[msgnode] := ptfree;
      ptfree := msgnode;
      inflight := inflight + admitted;
      t := Finish(t0, i).0;
      return Outcome.Got(msg);
    }

    // ----- reset and delete -----

    /** ptreset and ptdelete, and _ptclear up to its walk. */
    method PtClearStart(portid: int, keep: bool) returns (r: Outcome)
      requires Rep()
      modifies this, porttab
      ensures Rep() && (t, r) == ClearStart(old(t), portid, keep)
    {
      hide Inv, Chain, NodesOk;
      Facts();
      ClearStartInv(t, portid, keep);
      if IsBadPort(portid) || porttab[portid].state != ALLOC { return Syserr; }
      var e := porttab[portid];
      porttab[portid] := e.(state := LIMBO(0, keep), epoch := e.epoch + 1);
      t := ClearStart(t, portid, keep).0;
      return Ok;
    }

    /** The walk, which disposes of every message in order, and the move of all the
        nodes to the free list at once. */
    method PtClearNodes(p: nat) returns (disposed: seq<int>)
      requires Rep() && AtStage(t, p, 0)
      modifies this, ptnext, porttab
      ensures Rep() && t == ClearNodes(old(t), p)
      ensures forall i | 0 <= i < |old(t).ports[p].nodes| :: old(t).ports[p].nodes[i] < |old(t).msgs|
      ensures disposed == Messages(old(t).ports[p].nodes, old(t).msgs)
    {
      hide Inv, NodesOk, Chain;
      Facts();
      ClearNodesInv(t, p);
      ghost var t0, nodes, n := t, t.ports[p].nodes, 0;
      var e := porttab[p];
      var walk := e.head;
      disposed := [];
      while walk != NULL
        invariant Rep() && t == t0 && porttab[..] == old(porttab[..]) && ptnext[..] == old(ptnext[..])
        invariant n <= |nodes| && walk == (if n < |nodes| then nodes[n] else NULL)
        invariant disposed == Messages(nodes, t0.msgs)[..n]
        decreases |nodes| - n
      {
        AtNode(ptnext[..], nodes, n);
        disposed := disposed + [ptmsg[walk]];
        walk := ptnext[walk];
        n := n + 1;
      }
      if e.head != NULL {
        ClearLinks(porttab[..], t0, ptnext[..], p);
        ptnext[e.tail] := ptfree;
        ptfree := e.head;
      } else {
        assert nodes + t0.free == t0.free;
      }
      NoChain(ptnext[..]);
      if e.state.keep {
        porttab[p] := e.(state := LIMBO(1, e.state.keep), head := NULL, tail := NULL);
      } else {
        porttab[p] := e.(state := LIMBO(1, e.state.keep));
      }
      t := ClearNodes(t0, p);
    }

    /** semreset or semdelete of the sender semaphore. */
    method PtClearSenders(p: nat)
      requires Rep() && AtStage(t, p, 1)
      modifies this, porttab
      ensures Rep() && t == ClearSenders(old(t), p)
    {
      hide Inv, Chain, NodesOk;
      Facts();
      ClearSendersInv(t, p);
      var e := porttab[p];
      var (sem, admitted) := if e.state.keep then SemReset(e.ssem, e.maxcnt) else SemDelete(e.ssem);
      porttab[p] := e.(state := LIMBO(2, e.state.keep), ssem := sem);
      inflight := inflight + admitted;
      t := ClearSenders(t, p);
    }

    /** semreset or semdelete of the receiver semaphore. */
    method PtClearReceivers(p: nat)
      requires Rep() && AtStage(t, p, 2)
      modifies this, porttab
      ensures Rep() && t == ClearReceivers(old(t), p)
    {
      hide Inv, Chain, NodesOk;
      Facts();
      ClearReceiversInv(t, p);
      var e := porttab[p];
      var (sem, admitted) := if e.state.keep then SemReset(e.rsem, 0) else SemDelete(e.rsem);
      porttab[p] := e.(state := LIMBO(3, e.state.keep), rsem := sem);
      inflight := inflight + admitted;
      t := ClearReceivers(t, p);
    }

    /** The new state; after a delete the port is the next one to try. */
    method PtClearEnd(p: nat)
      requires Rep() && AtStage(t, p, 3)
      modifies this, porttab
      ensures Rep() && t == ClearEnd(old(t), p)
    {
      hide Inv, Chain, NodesOk;
      Facts();
      ClearEndInv(t, p);
      var e := porttab[p];
      porttab[p] := e.(state := if e.state.keep then ALLOC else FREE);
      if !e.state.keep { ptnextid := p; }
      t := ClearEnd(t, p);
    }

    /** What a kill does to a process waiting on one of the port's semaphores. */
    method WaiterKilled(p: nat, sending: bool, i: nat)
      requires Rep() && p < NPORTS
      modifies this, porttab
      ensures Rep() && t == KillWaiting(old(t), p, sending, i)
    {
      hide Inv, Chain, NodesOk, Dropped;
      Facts();
      KillWaitingInv(t, p, sending, i);
      var e := porttab[p];
      var s := if sending then e.ssem else e.rsem;
      if s.PSem? && i < |s.waiting| {
        var s' := PSem(s.count + 1, Dropped(s.waiting, i));
        porttab[p] := if sending then e.(ssem := s') else e.(rsem := s');
        assert inflight + [] == inflight;
      }
      t := KillWaiting(t, p, sending, i);
    }

    // ----- runs -----

    /** One step of the model, done by the code. */
    method Do(e: Event) returns (r: Outcome)
      requires Rep() && InRange(t) && t.nextid < NPORTS && PortsModel.Enabled(t, e) && Apply(t, e).1 != Panic
      modifies this, ptmsg, ptnext, porttab
      ensures Rep() && (t, r) == Apply(old(t), e)
    {
      hide Inv, Chain, NodesOk, Create, BeginSend, BeginRecv, Finish, ClearStart, ClearNodes, ClearSenders,
        ClearReceivers, ClearEnd, KillWaiting;
      r := Ok;
      match e
      case DoCreate(count, sOk, rOk) =>
        var p := PtCreate(count, sOk, rOk);
        r := if p < 0 then Syserr else Made(p);
      case DoSend(p, msg) => r := PtSendBegin(p, msg);
      case DoRecv(p) => r := PtRecvBegin(p);
      case DoFinish(i) =>
        if inflight[i].sending { r := PtSendEnd(i); } else { r := PtRecvEnd(i); }
      case DoClear(p, keep) => r := PtClearStart(p, keep);
      case DoNodes(p) => var _ := PtClearNodes(p);
      case DoSenders(p) => PtClearSenders(p);
      case DoReceivers(p) => PtClearReceivers(p);
      case DoEnd(p) => PtClearEnd(p);
      case DoKill(p, sending, i) => WaiterKilled(p, sending, i);
    }

    /** Any interleaving leaves the tables, and returns, what the model says. */
    method DoAll(es: seq<Event>) returns (os: seq<Outcome>)
      requires Rep() && Legal(t, es)
      modifies this, ptmsg, ptnext, porttab
      ensures Rep() && t == Run(old(t), es) && os == Outcomes(old(t), es)
    {
      hide Inv, Chain, NodesOk, Apply;
      ghost var t0 := t;
      var i := 0;
      os := [];
      assert es[0..] == es;
      while i < |es|
        invariant 0 <= i <= |es| && Rep() && Legal(t, es[i..]) && Run(t, es[i..]) == Run(t0, es)
        invariant os + Outcomes(t, es[i..]) == Outcomes(t0, es)
      {
        assert es[i..][0] == es[i] && es[i..][1..] == es[i + 1..];
        Facts();
        ApplyInv(t, es[i]);
        var o := Do(es[i]);
        assert os + ([o] + Outcomes(t, es[i + 1..])) == os + [o] + Outcomes(t, es[i + 1..]);
        os := os + [o];
        i := i + 1;
      }
    }
  }
}
