/** What each call at a port answers, and when: room for senders and messages for
    receivers decide, not the semaphores that count them. */
module PortsCalls {
  import opened CircularSearch
  import opened PortsModel
  import opened PortsInv
  import opened PortsSteps
  import opened PortsRuns

  /** Places of port p neither taken by a message nor promised to a sender. */
  ghost function Places(t: Ports, p: nat): int
    requires Sizes(t) && p < NPORTS
  {
    t.ports[p].cap - |t.ports[p].nodes| - Admitted(t.inflight, p, t.ports[p].epoch, true)
  }

  /** Messages of port p not promised to a receiver. */
  ghost function Ready(t: Ports, p: nat): int
    requires Sizes(t) && p < NPORTS
  {
    |t.ports[p].nodes| - Admitted(t.inflight, p, t.ports[p].epoch, false)
  }

  /** ptsend is refused at a port that is not allocated, or never got its semaphore;
      it goes in at once just when there is a place. */
  lemma SendAnswer(t: Ports, p: int, m: int)
    requires Inv(t)
    ensures Sizes(t)
    ensures var o := Apply(t, DoSend(p, m)).1;
      if p < 0 || p >= NPORTS || t.ports[p].state != ALLOC || t.ports[p].ssem.NoSem? then
        o == Syserr && Apply(t, DoSend(p, m)).0 == t
      else o == if Places(t, p) > 0 then Enters else Waits
  {
    hide Admitted;
    InvSizes(t);
    if 0 <= p < NPORTS { PortAt(t, p); }
  }

  /** So is ptrecv, which goes in at once just when there is a message for it. */
  lemma ReceiveAnswer(t: Ports, p: int)
    requires Inv(t)
    ensures Sizes(t)
    ensures var o := Apply(t, DoRecv(p)).1;
      if p < 0 || p >= NPORTS || t.ports[p].state != ALLOC || t.ports[p].rsem.NoSem? then
        o == Syserr && Apply(t, DoRecv(p)).0 == t
      else o == if Ready(t, p) > 0 then Enters else Waits
  {
    hide Admitted;
    InvSizes(t);
    if 0 <= p < NPORTS { PortAt(t, p); }
  }

  /** A party completes with SYSERR just when its port was cleared since it came;
      otherwise a receiver gets the message at the head. */
  lemma FinishAnswer(t: Ports, i: nat)
    requires Inv(t) && i < |t.inflight|
    ensures var q := t.inflight[i];
      && q.port < NPORTS == |t.ports|
      && var port := t.ports[q.port]; var o := Apply(t, DoFinish(i)).1;
         if port.state != ALLOC || port.epoch != q.epoch then o == Syserr
         else if q.sending then o == if t.free == [] then Panic else Ok
         else port.nodes != [] && port.nodes[0] < |t.msgs| && o == Got(t.msgs[port.nodes[0]])
  {
    hide PortOk, Inv;
    InvSizes(t);
    FinishInv(t, i);
    var q := t.inflight[i];
    PortAt(t, q.port);
    if t.ports[q.port].state == ALLOC && t.ports[q.port].epoch == q.epoch && !q.sending {
      ReceivedOk(t.ports[q.port], q.port, t.inflight, i, 0);
    }
  }

  /** ptcreate takes the first free port from ptnextid on, and makes it empty, under a new
      sequence number, with room for as many messages as it was asked for; other ports
      stay as they are.  It fails just when the count is negative or no port is free. */
  lemma CreateAnswer(t: Ports, count: int, sOk: bool, rOk: bool)
    requires Inv(t)
    ensures InRange(t) && t.nextid < NPORTS
    ensures var (t', o) := Apply(t, DoCreate(count, sOk, rOk));
      && (o == Syserr <==> count < 0 || forall q | 0 <= q < NPORTS :: t.ports[q].state != FREE)
      && (o == Syserr ==> t'.ports == t.ports)
      && (o != Syserr ==>
            && o.Made? && o.port < NPORTS && t.ports[o.port].state == FREE
            && (forall q | 0 <= q < NPORTS && Ahead(t.nextid, q, NPORTS) < Ahead(t.nextid, o.port, NPORTS) ::
                  t.ports[q].state != FREE)
            && t'.ports == t.ports[o.port := t'.ports[o.port]] && Sizes(t')
            && var port := t'.ports[o.port];
               && port.state == ALLOC && port.epoch == t.ports[o.port].epoch + 1
               && port.cap == count && port.maxcnt == count % 0x1_0000 && port.nodes == []
               && port.ssem.PSem? == sOk && port.rsem.PSem? == rOk)
      && (o != Syserr && sOk ==> Places(t', o.port) == count)
      && (o != Syserr ==> Ready(t', o.port) == 0)
  {
    hide FreePort, PortOk, Inv, Admitted, Ahead;
    InvSizes(t);
    FreePortFinds(t.ports, t.nextid, NPORTS);
    forall q | 0 <= q < NPORTS ensures 0 <= Ahead(t.nextid, q, NPORTS) < NPORTS {
      AheadNext(t.nextid, q, NPORTS);
    }
    var t', o := Apply(t, DoCreate(count, sOk, rOk)).0, Apply(t, DoCreate(count, sOk, rOk)).1;
    if o.Made? {
      CreateInv(t, count, sOk, rOk);
      PortAt(t, o.port);
      NobodyNew(t, o.port);
    }
  }

  lemma NobodyNew(t: Ports, p: nat)
    requires Inv(t) && p < NPORTS && t.ports[p].state == FREE
    ensures Admitted(t.inflight, p, t.ports[p].epoch + 1, true) == 0
    ensures Admitted(t.inflight, p, t.ports[p].epoch + 1, false) == 0
  {
    assert PortOk(t.ports[p], p, t.inflight);
    AdmittedNone(t.inflight, p, t.ports[p].epoch + 1, true);
    AdmittedNone(t.inflight, p, t.ports[p].epoch + 1, false);
  }

  /** A reset or delete is refused at a port that is not allocated.  When it has run to
      its end a reset port is allocated and empty, with room for its limit, and a deleted
      one is free and the next to be tried. */
  lemma ClearAnswer(t: Ports, p: int, keep: bool)
    requires Inv(t)
    ensures Sizes(t)
    ensures var (t', o) := Apply(t, DoClear(p, keep));
      if p < 0 || p >= NPORTS || t.ports[p].state != ALLOC then o == Syserr && t' == t
      else && o == Ok && Sizes(t') && t'.ports[p].state == LIMBO(0, keep)
           && t'.ports[p].epoch == t.ports[p].epoch + 1 && t'.inflight == t.inflight
  {
    hide Inv;
    InvSizes(t);
  }

  lemma ClearEnds(t: Ports, p: nat)
    requires Inv(t) && AtStage(t, p, 3)
    ensures Sizes(t)
    ensures var t' := Apply(t, DoEnd(p)).0;
      && Sizes(t') && t'.ports == t.ports[p := t'.ports[p]] && t'.ports[p].epoch == t.ports[p].epoch
      && (if t.ports[p].state.keep then
            && t'.ports[p].state == ALLOC && Ready(t', p) == 0 && t'.nextid == t.nextid
            && (t'.ports[p].ssem.PSem? ==> Places(t', p) == t.ports[p].maxcnt)
          else t'.ports[p].state == FREE && t'.nextid == p)
  {
    hide Admitted, Inv;
    InvSizes(t);
    PortAt(t, p);
    assert t.inflight + [] == t.inflight;
    AdmittedNone(t.inflight, p, t.ports[p].epoch, true);
    AdmittedNone(t.inflight, p, t.ports[p].epoch, false);
  }
}
