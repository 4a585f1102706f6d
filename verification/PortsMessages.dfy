/** The messages of a port as its callers see them: what ptrecv returns is what ptsend
    was given, told by the calls and their outcomes alone. */
module PortsMessages {
  import opened PortsModel
  import opened PortsInv
  import opened PortsSteps
  import opened PortsRuns

  // ----- the callers' own books -----

  /** The ptsend and ptrecv calls that wait at each port, in order, and those let in and
      not completed, in order; and, since a port was last created or reset, the
      messages of the ptsend calls that came to an end there and what the ptrecv
      calls returned. */
  datatype Ledger = Ledger(senders: seq<seq<Event>>, receivers: seq<seq<Event>>, inside: seq<Event>,
                           sent: seq<seq<int>>, received: seq<seq<int>>)

  predicate Shaped(l: Ledger) {
    |l.senders| == |l.receivers| == |l.sent| == |l.received| == NPORTS
  }

  function Blank(): (l: Ledger)
    ensures Shaped(l)
  {
    Ledger(seq(NPORTS, _ => []), seq(NPORTS, _ => []), [], seq(NPORTS, _ => []), seq(NPORTS, _ => []))
  }

  /** A sender joins those waiting, or goes in. */
  function Comes(l: Ledger, e: Event, p: int, sending: bool, o: Outcome): (r: Ledger)
    requires Shaped(l)
    ensures Shaped(r)
  {
    if IsBadPort(p) then l
    else if o == Enters then l.(inside := l.inside + [e])
    else if o != Waits then l
    else if sending then l.(senders := l.senders[p := l.senders[p] + [e]])
    else l.(receivers := l.receivers[p := l.receivers[p] + [e]])
  }

  /** The first that waits, if any, is let in. */
  function LetIn(l: Ledger, p: nat, sending: bool): (r: Ledger)
    requires Shaped(l) && p < NPORTS
    ensures Shaped(r)
  {
    var w := if sending then l.senders[p] else l.receivers[p];
    if w == [] then l
    else if sending then l.(inside := l.inside + [w[0]], senders := l.senders[p := w[1..]])
    else l.(inside := l.inside + [w[0]], receivers := l.receivers[p := w[1..]])
  }

  /** Call i of those inside completes: a message sent is noted and a receiver let in,
      a message received is noted and a sender let in. */
  function Leaves(l: Ledger, i: nat, o: Outcome): (r: Ledger)
    requires Shaped(l)
    ensures Shaped(r)
  {
    if i >= |l.inside| then l else
    var e, r := l.inside[i], l.(inside := Dropped(l.inside, i));
    match e
    case DoSend(p, m) =>
      if IsBadPort(p) || o != Ok then r
      else LetIn(r.(sent := r.sent[p := r.sent[p] + [m]]), p, false)
    case DoRecv(p) =>
      if IsBadPort(p) || !o.Got? then r
      else LetIn(r.(received := r.received[p := r.received[p] + [o.msg]]), p, true)
    case _ => r
  }

  function Fresh(l: Ledger, p: nat): (r: Ledger)
    requires Shaped(l)
    ensures Shaped(r)
  {
    if p >= NPORTS then l else l.(sent := l.sent[p := []], received := l.received[p := []])
  }

  /** Everybody waiting is let in: the port is being cleared. */
  function AllIn(l: Ledger, p: nat, sending: bool): (r: Ledger)
    requires Shaped(l)
    ensures Shaped(r)
  {
    if p >= NPORTS then l
    else if sending then l.(inside := l.inside + l.senders[p], senders := l.senders[p := []])
    else l.(inside := l.inside + l.receivers[p], receivers := l.receivers[p := []])
  }

  function Gone(l: Ledger, p: nat, sending: bool, i: nat): (r: Ledger)
    requires Shaped(l)
    ensures Shaped(r)
  {
    if p >= NPORTS then l
    else if sending then
      if i < |l.senders[p]| then l.(senders := l.senders[p := Dropped(l.senders[p], i)]) else l
    else
      if i < |l.receivers[p]| then l.(receivers := l.receivers[p := Dropped(l.receivers[p], i)]) else l
  }

  function Entered(l: Ledger, e: Event, o: Outcome): (r: Ledger)
    requires Shaped(l)
    ensures Shaped(r)
  {
    match e
    case DoCreate(_, _, _) => if o.Made? then Fresh(l, o.port) else l
    case DoSend(p, _) => Comes(l, e, p, true, o)
    case DoRecv(p) => Comes(l, e, p, false, o)
    case DoFinish(i) => Leaves(l, i, o)
    case DoSenders(p) => AllIn(l, p, true)
    case DoReceivers(p) => AllIn(l, p, false)
    case DoEnd(p) => Fresh(l, p)
    case DoKill(p, sending, i) => Gone(l, p, sending, i)
    case _ => l
  }

  function Book(l: Ledger, es: seq<Event>, os: seq<Outcome>): (r: Ledger)
    requires Shaped(l) && |es| == |os|
    ensures Shaped(r)
    decreases |es|
  {
    if es == [] then l else Book(Entered(l, es[0], os[0]), es[1..], os[1..])
  }

  /** The outcomes of a run. */
  ghost function Outcomes(t: Ports, es: seq<Event>): (os: seq<Outcome>)
    requires Inv(t) && Legal(t, es)
    ensures |os| == |es|
    decreases |es|
  {
    if es == [] then [] else
    ApplyInv(t, es[0]);
    [Apply(t, es[0]).1] + Outcomes(Apply(t, es[0]).0, es[1..])
  }

  // ----- the books agree with the tables -----

  ghost predicate Same(e: Event, q: Party) {
    match e
    case DoSend(p, m) => q.sending && q.port == p && q.msg == m
    case DoRecv(p) => !q.sending && q.port == p
    case _ => false
  }

  ghost predicate AllSame(l: seq<Event>, qs: seq<Party>) {
    |l| == |qs| && forall i | 0 <= i < |l| :: Same(l[i], qs[i])
  }

  function Line(s: PSem): seq<Party> { if s.NoSem? then [] else s.waiting }

  ghost predicate Agrees(l: Ledger, t: Ports) {
    && Shaped(l) && Sizes(t) && AllSame(l.inside, t.inflight)
    && forall p | 0 <= p < NPORTS :: PortAgrees(l, t.ports[p], p)
  }

  ghost predicate PortAgrees(l: Ledger, port: Port, p: nat)
    requires Shaped(l) && p < NPORTS
  {
    && AllSame(l.senders[p], Line(port.ssem)) && AllSame(l.receivers[p], Line(port.rsem))
    && l.sent[p] == port.sent && l.received[p] == port.got
  }

  lemma SameMore(l: seq<Event>, qs: seq<Party>, m: seq<Event>, rs: seq<Party>)
    requires AllSame(l, qs) && AllSame(m, rs)
    ensures AllSame(l + m, qs + rs)
  {
  }

  lemma SameFewer(l: seq<Event>, qs: seq<Party>, i: nat)
    requires AllSame(l, qs) && i < |l|
    ensures AllSame(Dropped(l, i), Dropped(qs, i)) && AllSame([l[i]], [qs[i]]) && AllSame(l[1..], qs[1..])
  {
  }

  lemma BlankAgrees(n: nat)
    ensures Agrees(Blank(), Start(n))
  {
  }

  /** Only port p and those inside change. */
  lemma OthersAgree(l: Ledger, t: Ports, l': Ledger, t': Ports, p: nat)
    requires Agrees(l, t) && Shaped(l') && Sizes(t') && p < NPORTS && AllSame(l'.inside, t'.inflight)
    requires PortAgrees(l', t'.ports[p], p)
    requires forall q | 0 <= q < NPORTS && q != p ::
      && t'.ports[q] == t.ports[q] && l'.senders[q] == l.senders[q] && l'.receivers[q] == l.receivers[q]
      && l'.sent[q] == l.sent[q] && l'.received[q] == l.received[q]
    ensures Agrees(l', t')
  {
    hide AllSame;
    forall q | 0 <= q < NPORTS ensures PortAgrees(l', t'.ports[q], q) {
      assert PortAgrees(l, t.ports[q], q);
    }
  }

  lemma PortBooks(l: Ledger, t: Ports, p: nat)
    requires Agrees(l, t) && p < NPORTS
    ensures Shaped(l) && PortAgrees(l, t.ports[p], p) && AllSame(l.inside, t.inflight)
  {
  }

  lemma SameOne(e: Event, q: Party)
    requires Same(e, q)
    ensures AllSame([e], [q]) && AllSame([], [])
  {
  }

  lemma SendAgrees(l: Ledger, t: Ports, p: int, m: int)
    requires Inv(t) && Agrees(l, t)
    ensures Sizes(t) && Agrees(Comes(l, DoSend(p, m), p, true, BeginSend(t, p, m).1), BeginSend(t, p, m).0)
  {
    hide Inv, Agrees, AllSame;
    InvSizes(t);
    if !IsBadPort(p) && t.ports[p].state == ALLOC && t.ports[p].ssem.PSem? {
      PortBooks(l, t, p);
      var q, w := Party(p, t.ports[p].epoch, true, m), t.ports[p].ssem.waiting;
      SameOne(DoSend(p, m), q);
      SameMore(l.inside, t.inflight, [DoSend(p, m)], [q]);
      SameMore(l.senders[p], w, [DoSend(p, m)], [q]);
      assert t.inflight + [] == t.inflight;
      OthersAgree(l, t, Comes(l, DoSend(p, m), p, true, BeginSend(t, p, m).1), BeginSend(t, p, m).0, p);
    }
  }

  lemma RecvAgrees(l: Ledger, t: Ports, p: int)
    requires Inv(t) && Agrees(l, t)
    ensures Sizes(t) && Agrees(Comes(l, DoRecv(p), p, false, BeginRecv(t, p).1), BeginRecv(t, p).0)
  {
    hide Inv, Agrees, AllSame;
    InvSizes(t);
    if !IsBadPort(p) && t.ports[p].state == ALLOC && t.ports[p].rsem.PSem? {
      PortBooks(l, t, p);
      var q, w := Party(p, t.ports[p].epoch, false, 0), t.ports[p].rsem.waiting;
      SameOne(DoRecv(p), q);
      SameMore(l.inside, t.inflight, [DoRecv(p)], [q]);
      SameMore(l.receivers[p], w, [DoRecv(p)], [q]);
      assert t.inflight + [] == t.inflight;
      OthersAgree(l, t, Comes(l, DoRecv(p), p, false, BeginRecv(t, p).1), BeginRecv(t, p).0, p);
    }
  }

  /** A signal lets in the first of the queue. */
  lemma SignalAgrees(w: seq<Event>, s: PSem)
    requires SemOk(s) && AllSame(w, Line(s))
    ensures var (s', extra) := SemSignal(s);
      && (w == [] ==> extra == [] && Line(s') == [])
      && (w != [] ==> |extra| == 1 && AllSame([w[0]], extra) && AllSame(w[1..], Line(s')))
  {
    SignalOk(s);
  }

  lemma FinishAgrees(l: Ledger, t: Ports, i: nat)
    requires Inv(t) && Agrees(l, t) && i < |t.inflight| && Finish(t, i).1 != Panic
    ensures InRange(t) && Agrees(Leaves(l, i, Finish(t, i).1), Finish(t, i).0)
  {
    hide Inv, Agrees, AllSame, SemSignal, PortOk, Dropped;
    InvSizes(t);
    var q, t', o := t.inflight[i], Finish(t, i).0, Finish(t, i).1;
    PortBooks(l, t, q.port);
    PortAt(t, q.port);
    CallAt(l.inside, t.inflight, i);
    SameFewer(l.inside, t.inflight, i);
    var l1 := l.(inside := Dropped(l.inside, i));
    var port := t.ports[q.port];
    PortSems(port, q.port, t.inflight);
    if port.state != ALLOC || port.epoch != q.epoch {
      OthersAgree(l, t, l1, t', q.port);
    } else if q.sending {
      SignalAgrees(l.receivers[q.port], port.rsem);
      LetInAgrees(l1, Dropped(t.inflight, i), SemSignal(port.rsem).1, q.port, false, SemSignal(port.rsem).0);
      OthersAgree(l, t, Leaves(l, i, o), t', q.port);
    } else {
      SignalAgrees(l.senders[q.port], port.ssem);
      LetInAgrees(l1, Dropped(t.inflight, i), SemSignal(port.ssem).1, q.port, true, SemSignal(port.ssem).0);
      OthersAgree(l, t, Leaves(l, i, o), t', q.port);
    }
  }

  lemma CallAt(l: seq<Event>, qs: seq<Party>, i: nat)
    requires AllSame(l, qs) && i < |qs|
    ensures |l| == |qs| && Same(l[i], qs[i])
  {
  }

  lemma PortSems(port: Port, p: nat, l: seq<Party>)
    requires PortOk(port, p, l)
    ensures SemOk(port.ssem) && SemOk(port.rsem)
  {
  }

  lemma LetInAgrees(l: Ledger, qs: seq<Party>, extra: seq<Party>, p: nat, sending: bool, s: PSem)
    requires Shaped(l) && p < NPORTS && AllSame(l.inside, qs)
    requires var w := if sending then l.senders[p] else l.receivers[p];
      && (w == [] ==> extra == [] && Line(s) == [])
      && (w != [] ==> |extra| == 1 && AllSame([w[0]], extra) && AllSame(w[1..], Line(s)))
    ensures AllSame(LetIn(l, p, sending).inside, qs + extra)
    ensures AllSame(if sending then LetIn(l, p, sending).senders[p] else LetIn(l, p, sending).receivers[p], Line(s))
  {
    var w := if sending then l.senders[p] else l.receivers[p];
    if w == [] {
      assert qs + extra == qs;
    } else {
      SameMore(l.inside, qs, [w[0]], extra);
    }
  }

  lemma ClearAgrees(l: Ledger, t: Ports, e: Event)
    requires Inv(t) && Agrees(l, t) && Enabled(t, e)
    requires e.DoClear? || e.DoNodes? || e.DoSenders? || e.DoReceivers? || e.DoEnd?
    ensures InRange(t) && t.nextid < NPORTS && Agrees(Entered(l, e, Apply(t, e).1), Apply(t, e).0)
  {
    hide Inv, Agrees, AllSame;
    InvSizes(t);
    BooksShaped(l, t);
    assert t.inflight + [] == t.inflight;
    var l', t' := Entered(l, e, Apply(t, e).1), Apply(t, e).0;
    match e
    case DoClear(p, keep) =>
      if !IsBadPort(p) {
        PortBooks(l, t, p);
        OthersAgree(l, t, l', t', p);
      }
    case DoNodes(p) => PortBooks(l, t, p); OthersAgree(l, t, l', t', p);
    case DoSenders(p) =>
      PortBooks(l, t, p);
      NoneSame();
      SameMore(l.inside, t.inflight, l.senders[p], Line(t.ports[p].ssem));
      OthersAgree(l, t, l', t', p);
    case DoReceivers(p) =>
      PortBooks(l, t, p);
      NoneSame();
      SameMore(l.inside, t.inflight, l.receivers[p], Line(t.ports[p].rsem));
      OthersAgree(l, t, l', t', p);
    case DoEnd(p) => PortBooks(l, t, p); OthersAgree(l, t, l', t', p);
  }

  lemma NoneSame()
    ensures AllSame([], [])
  {
  }

  lemma CreateAgrees(l: Ledger, t: Ports, e: Event)
    requires Inv(t) && Agrees(l, t) && e.DoCreate?
    ensures InRange(t) && t.nextid < NPORTS && Agrees(Entered(l, e, Apply(t, e).1), Apply(t, e).0)
  {
    hide Inv, Agrees, AllSame, FreePort, PortOk;
    InvSizes(t);
    BooksShaped(l, t);
    var l', t', o := Entered(l, e, Apply(t, e).1), Apply(t, e).0, Apply(t, e).1;
    PortBooks(l, t, 0);
    OnlyTable(l, t, t.(nextid := t'.nextid));
    if o.Made? {
      PortBooks(l, t, o.port);
      PortAt(t, o.port);
      NoneWaiting(t.ports[o.port], o.port, t.inflight);
      NoneBooked(l.senders[o.port], l.receivers[o.port]);
      OthersAgree(l, t, l', t', o.port);
    }
  }

  lemma OnlyTable(l: Ledger, t: Ports, t': Ports)
    requires Agrees(l, t) && t'.ports == t.ports && t'.inflight == t.inflight
    ensures Agrees(l, t')
  {
  }

  lemma NoneWaiting(port: Port, p: nat, l: seq<Party>)
    requires PortOk(port, p, l) && port.state == FREE
    ensures Line(port.ssem) == [] && Line(port.rsem) == []
  {
  }

  lemma NoneBooked(a: seq<Event>, b: seq<Event>)
    ensures AllSame(a, []) ==> a == []
    ensures AllSame(b, []) ==> b == []
  {
  }

  lemma KillAgrees(l: Ledger, t: Ports, p: nat, sending: bool, i: nat)
    requires Inv(t) && Agrees(l, t) && p < NPORTS
    ensures Sizes(t) && Agrees(Gone(l, p, sending, i), KillWaiting(t, p, sending, i))
  {
    hide Inv, Agrees, AllSame, Dropped;
    InvSizes(t);
    PortBooks(l, t, p);
    assert t.inflight + [] == t.inflight;
    var s := if sending then t.ports[p].ssem else t.ports[p].rsem;
    var w := if sending then l.senders[p] else l.receivers[p];
    SameLength(w, Line(s));
    if s.PSem? && i < |s.waiting| {
      SameFewer(w, s.waiting, i);
      OthersAgree(l, t, Gone(l, p, sending, i), KillWaiting(t, p, sending, i), p);
    }
  }

  lemma SameLength(l: seq<Event>, qs: seq<Party>)
    requires AllSame(l, qs)
    ensures |l| == |qs|
  {
  }

  lemma EnteredAgrees(l: Ledger, t: Ports, e: Event)
    requires Inv(t) && Agrees(l, t) && Enabled(t, e) && Apply(t, e).1 != Panic
    ensures Agrees(Entered(l, e, Apply(t, e).1), Apply(t, e).0)
  {
    InvSizes(t);
    hide Inv, Agrees, Create, BeginSend, BeginRecv, Finish, ClearStart, ClearNodes, ClearSenders, ClearReceivers,
      ClearEnd, KillWaiting, Comes, Leaves, Fresh, AllIn, Gone;
    match e
    case DoCreate(_, _, _) => CreateAgrees(l, t, e);
    case DoSend(p, m) => SendAgrees(l, t, p, m);
    case DoRecv(p) => RecvAgrees(l, t, p);
    case DoFinish(i) => FinishAgrees(l, t, i);
    case DoKill(p, sending, i) => KillAgrees(l, t, p, sending, i);
    case _ => ClearAgrees(l, t, e);
  }

  // ----- runs -----

  lemma {:induction false} BookAgrees(l: Ledger, t: Ports, es: seq<Event>)
    requires Inv(t) && Agrees(l, t) && Legal(t, es)
    ensures Agrees(Book(l, es, Outcomes(t, es)), Run(t, es))
    decreases |es|
  {
    hide Inv, Agrees, Apply, Entered;
    BooksShaped(l, t);
    if es != [] {
      InvSizes(t);
      ApplyInv(t, es[0]);
      EnteredAgrees(l, t, es[0]);
      BookAgrees(Entered(l, es[0], Apply(t, es[0]).1), Apply(t, es[0]).0, es[1..]);
    }
  }

  lemma BooksShaped(l: Ledger, t: Ports)
    requires Agrees(l, t)
    ensures Shaped(l)
  {
  }

  /** In every run from ptinit on, told by the calls and outcomes alone: what the ptrecv
      calls at a port have returned since it was created or reset, and then the
      messages in its queue, are the messages of the ptsend calls that completed there
      since, in that order. */
  lemma ReceivedAsSent(n: nat, es: seq<Event>, p: nat)
    requires Inv(Start(n)) && Legal(Start(n), es) && p < NPORTS
    ensures var t, l := Run(Start(n), es), Book(Blank(), es, Outcomes(Start(n), es));
      t.ports[p].state == ALLOC ==>
        && (forall i | 0 <= i < |t.ports[p].nodes| :: t.ports[p].nodes[i] < |t.msgs|)
        && l.received[p] + Messages(t.ports[p].nodes, t.msgs) == l.sent[p]
  {
    hide Legal, Run, Start, Book, Outcomes, Agrees, PortOk;
    var t, l := Run(Start(n), es), Book(Blank(), es, Outcomes(Start(n), es));
    BlankAgrees(n);
    BookAgrees(Blank(), Start(n), es);
    PortBooks(l, t, p);
    PortAt(t, p);
  }
}
