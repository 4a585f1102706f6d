/** Ports: bounded message queues on two semaphores, a shared pool of nodes and a
    sequence number that turns away parties from before a reset.  Senders, receivers
    and resets interleave: a party is first admitted by a semaphore and completes
    later. */
module PortsModel {

  const NPORTS := 30

  /** A process inside ptsend or ptrecv, with the sequence number it noted. */
  datatype Party = Party(port: nat, epoch: int, sending: bool, msg: int)

  /** NoSem is what a failed semcreate or a semdelete leaves. */
  datatype PSem = NoSem | PSem(count: int, waiting: seq<Party>)

  /** LIMBO is the time inside _ptclear, whose parts are separate steps because its
      semaphore calls reschedule: stage counts the parts done and keep says whether
      the port will be allocated (reset) or free (delete) afterwards. */
  datatype State = FREE | LIMBO(stage: nat, keep: bool) | ALLOC

  /** nodes are the message nodes from head to tail.  cap is what the sender semaphore
      was last set to, sent and got are the messages enqueued and dequeued since. */
  datatype Port = Port(state: State, epoch: int, maxcnt: nat, cap: nat, ssem: PSem, rsem: PSem,
                       nodes: seq<nat>, sent: seq<int>, got: seq<int>)

  /** The port table, the free nodes in order, where each node is (-1 if free), the
      messages in the nodes, and the admitted parties. */
  datatype Ports = Ports(ports: seq<Port>, free: seq<nat>, home: seq<int>, msgs: seq<int>,
                         inflight: seq<Party>, nextid: nat)

  /** What a call returns, or how far it came: a party waits, or enters at once. */
  datatype Outcome = Ok | Syserr | Waits | Enters | Got(msg: int) | Made(port: nat) | Panic

  // ----- semaphores -----

  ghost predicate SemOk(s: PSem) {
    s.PSem? ==> if s.count < 0 then |s.waiting| == -s.count else s.waiting == []
  }

  function Positive(s: PSem): nat {
    if s.PSem? && s.count > 0 then s.count else 0
  }

  /** wait: the semaphore afterwards and who is admitted. */
  function SemWait(s: PSem, q: Party): (PSem, seq<Party>)
    requires s.PSem?
  {
    if s.count > 0 then (s.(count := s.count - 1), [q]) else (PSem(s.count - 1, s.waiting + [q]), [])
  }

  function SemSignal(s: PSem): (PSem, seq<Party>) {
    if s.NoSem? then (s, [])
    else if s.count < 0 && s.waiting != [] then (PSem(s.count + 1, s.waiting[1..]), [s.waiting[0]])
    else (s.(count := s.count + 1), [])
  }

  /** semreset and semdelete: everybody waiting is admitted. */
  function SemReset(s: PSem, count: int): (PSem, seq<Party>) {
    if s.NoSem? then (s, []) else (PSem(count, []), s.waiting)
  }

  function SemDelete(s: PSem): (PSem, seq<Party>) {
    if s.NoSem? then (s, []) else (NoSem, s.waiting)
  }

  // ----- the steps -----

  predicate IsBadPort(p: int) { p < 0 || p >= NPORTS }

  predicate Sizes(t: Ports) { |t.ports| == NPORTS }

  function SetPort(t: Ports, p: nat, port: Port, admitted: seq<Party>): Ports
    requires p < |t.ports|
  {
    t.(ports := t.ports[p := port], inflight := t.inflight + admitted)
  }

  /** ptcreate's circular search. */
  function FreePort(ports: seq<Port>, next: nat, n: nat): (r: (int, nat))
    requires |ports| == NPORTS && next < NPORTS
    ensures -1 <= r.0 < NPORTS && r.1 < NPORTS && (r.0 >= 0 ==> ports[r.0].state == FREE)
    decreases n
  {
    if n == 0 then (-1, next) else
    var next' := if next + 1 >= NPORTS then 0 else next + 1;
    if ports[next].state == FREE then (next, next') else FreePort(ports, next', n - 1)
  }

  /** sOk and rOk say whether semcreate finds semaphores; ptmaxcnt is 16 bits wide. */
  function Create(t: Ports, count: int, sOk: bool, rOk: bool): (Ports, int)
    requires Sizes(t) && t.nextid < NPORTS
  {
    if count < 0 then (t, -1) else
    var (p, next) := FreePort(t.ports, t.nextid, NPORTS);
    if p < 0 then (t.(nextid := next), -1) else
    var port := Port(ALLOC, t.ports[p].epoch + 1, count % 0x1_0000, count,
                     if sOk then PSem(count, []) else NoSem, if rOk then PSem(0, []) else NoSem, [], [], []);
    (t.(ports := t.ports[p := port], nextid := next), p)
  }

  /** ptsend up to its wait. */
  function BeginSend(t: Ports, p: int, msg: int): (Ports, Outcome)
    requires Sizes(t)
  {
    if IsBadPort(p) || t.ports[p].state != ALLOC || t.ports[p].ssem.NoSem? then (t, Syserr) else
    var (sem, admitted) := SemWait(t.ports[p].ssem, Party(p, t.ports[p].epoch, true, msg));
    (SetPort(t, p, t.ports[p].(ssem := sem), admitted), if admitted == [] then Waits else Enters)
  }

  /** ptrecv up to its wait. */
  function BeginRecv(t: Ports, p: int): (Ports, Outcome)
    requires Sizes(t)
  {
    if IsBadPort(p) || t.ports[p].state != ALLOC || t.ports[p].rsem.NoSem? then (t, Syserr) else
    var (sem, admitted) := SemWait(t.ports[p].rsem, Party(p, t.ports[p].epoch, false, 0));
    (SetPort(t, p, t.ports[p].(rsem := sem), admitted), if admitted == [] then Waits else Enters)
  }

  function Dropped<T>(l: seq<T>, i: nat): seq<T>
    requires i < |l|
  {
    l[..i] + l[i + 1..]
  }

  /** The rest of ptsend: a free node takes the message to the tail of the queue. */
  function EndSend(t: Ports, q: Party): (Ports, Outcome)
    requires Sizes(t) && q.port < NPORTS && (forall i | 0 <= i < |t.free| :: t.free[i] < |t.home| == |t.msgs|)
  {
    var port := t.ports[q.port];
    if port.state != ALLOC || port.epoch != q.epoch then (t, Syserr)
    else if t.free == [] then (t, Panic)
    else
      var n := t.free[0];
      var (sem, admitted) := SemSignal(port.rsem);
      var t1 := t.(free := t.free[1..], home := t.home[n := q.port], msgs := t.msgs[n := q.msg]);
      (SetPort(t1, q.port, port.(rsem := sem, nodes := port.nodes + [n], sent := port.sent + [q.msg]), admitted), Ok)
  }

  /** The rest of ptrecv: the first message is taken and its node goes back. */
  function EndRecv(t: Ports, q: Party): (Ports, Outcome)
    requires Sizes(t) && q.port < NPORTS
    requires forall i | 0 <= i < |t.ports[q.port].nodes| :: t.ports[q.port].nodes[i] < |t.home| == |t.msgs|
  {
    var port := t.ports[q.port];
    if port.state != ALLOC || port.epoch != q.epoch then (t, Syserr)
    else if port.nodes == [] then (t, Panic)
    else
      var n := port.nodes[0];
      var (sem, admitted) := SemSignal(port.ssem);
      var t1 := t.(free := [n] + t.free, home := t.home[n := -1]);
      var port' := port.(ssem := sem, nodes := port.nodes[1..], got := port.got + [t.msgs[n]]);
      (SetPort(t1, q.port, port', admitted), Got(t.msgs[n]))
  }

  /** An admitted party completes. */
  function Finish(t: Ports, i: nat): (Ports, Outcome)
    requires InRange(t) && i < |t.inflight|
  {
    var q, t1 := t.inflight[i], t.(inflight := Dropped(t.inflight, i));
    if q.sending then EndSend(t1, q) else EndRecv(t1, q)
  }

  /** Every index in the tables is in range. */
  predicate InRange(t: Ports) {
    && Sizes(t) && |t.home| == |t.msgs|
    && (forall i | 0 <= i < |t.free| :: t.free[i] < |t.home|)
    && (forall p, i | 0 <= p < NPORTS && 0 <= i < |t.ports[p].nodes| :: t.ports[p].nodes[i] < |t.home|)
    && (forall i | 0 <= i < |t.inflight| :: t.inflight[i].port < NPORTS)
  }

  /** ptreset and ptdelete: the port goes into limbo under a new sequence number. */
  function ClearStart(t: Ports, p: int, keep: bool): (Ports, Outcome)
    requires Sizes(t)
  {
    if IsBadPort(p) || t.ports[p].state != ALLOC then (t, Syserr)
    else (SetPort(t, p, t.ports[p].(state := LIMBO(0, keep), epoch := t.ports[p].epoch + 1), []), Ok)
  }

  function AllHome(home: seq<int>, l: seq<nat>, v: int): (r: seq<int>)
    ensures |r| == |home| && forall n | 0 <= n < |home| :: r[n] == if n in l then v else home[n]
  {
    seq(|home|, n requires 0 <= n < |home| => if n in l then v else home[n])
  }

  /** The message nodes go to the front of the free list. */
  function ClearNodes(t: Ports, p: nat): Ports
    requires Sizes(t) && p < NPORTS && t.ports[p].state.LIMBO? && t.ports[p].state.stage == 0
  {
    var port := t.ports[p];
    t.(free := port.nodes + t.free, home := AllHome(t.home, port.nodes, -1),
       ports := t.ports[p := port.(state := LIMBO(1, port.state.keep), nodes := [])])
  }

  function ClearSenders(t: Ports, p: nat): Ports
    requires Sizes(t) && p < NPORTS && t.ports[p].state.LIMBO? && t.ports[p].state.stage == 1
  {
    var port := t.ports[p];
    var (sem, admitted) := if port.state.keep then SemReset(port.ssem, port.maxcnt) else SemDelete(port.ssem);
    SetPort(t, p, port.(state := LIMBO(2, port.state.keep), ssem := sem), admitted)
  }

  function ClearReceivers(t: Ports, p: nat): Ports
    requires Sizes(t) && p < NPORTS && t.ports[p].state.LIMBO? && t.ports[p].state.stage == 2
  {
    var port := t.ports[p];
    var (sem, admitted) := if port.state.keep then SemReset(port.rsem, 0) else SemDelete(port.rsem);
    SetPort(t, p, port.(state := LIMBO(3, port.state.keep), rsem := sem), admitted)
  }

  /** The port is allocated again, or free, and then the next one tried. */
  function ClearEnd(t: Ports, p: nat): Ports
    requires Sizes(t) && p < NPORTS && t.ports[p].state.LIMBO? && t.ports[p].state.stage == 3
  {
    var port := t.ports[p];
    var state := if port.state.keep then ALLOC else FREE;
    var t1 := SetPort(t, p, port.(state := state, cap := port.maxcnt, sent := [], got := []), []);
    if port.state.keep then t1 else t1.(nextid := p)
  }

  /** A process waiting on one of the semaphores is killed. */
  function KillWaiting(t: Ports, p: nat, sending: bool, i: nat): Ports
    requires Sizes(t) && p < NPORTS
  {
    var port := t.ports[p];
    var s := if sending then port.ssem else port.rsem;
    if s.NoSem? || i >= |s.waiting| then t else
    var s' := PSem(s.count + 1, Dropped(s.waiting, i));
    SetPort(t, p, if sending then port.(ssem := s') else port.(rsem := s'), [])
  }

  datatype Event =
    | DoCreate(count: int, sOk: bool, rOk: bool)
    | DoSend(p: int, msg: int) | DoRecv(p: int) | DoFinish(i: nat)
    | DoClear(p: int, keep: bool)
    | DoNodes(port: nat) | DoSenders(port: nat) | DoReceivers(port: nat) | DoEnd(port: nat)
    | DoKill(port: nat, sending: bool, i: nat)

  predicate AtStage(t: Ports, p: nat, stage: nat)
    requires Sizes(t)
  {
    p < NPORTS && t.ports[p].state.LIMBO? && t.ports[p].state.stage == stage
  }

  predicate Enabled(t: Ports, e: Event)
    requires Sizes(t)
  {
    match e
    case DoFinish(i) => i < |t.inflight|
    case DoNodes(p) => AtStage(t, p, 0)
    case DoSenders(p) => AtStage(t, p, 1)
    case DoReceivers(p) => AtStage(t, p, 2)
    case DoEnd(p) => AtStage(t, p, 3)
    case DoKill(p, _, _) => p < NPORTS
    case _ => true
  }

  function Apply(t: Ports, e: Event): (Ports, Outcome)
    requires InRange(t) && t.nextid < NPORTS && Enabled(t, e)
  {
    match e
    case DoCreate(count, sOk, rOk) =>
      var (t1, p) := Create(t, count, sOk, rOk);
      (t1, if p < 0 then Syserr else Made(p))
    case DoSend(p, msg) => BeginSend(t, p, msg)
    case DoRecv(p) => BeginRecv(t, p)
    case DoFinish(i) => Finish(t, i)
    case DoClear(p, keep) => ClearStart(t, p, keep)
    case DoNodes(p) => (ClearNodes(t, p), Ok)
    case DoSenders(p) => (ClearSenders(t, p), Ok)
    case DoReceivers(p) => (ClearReceivers(t, p), Ok)
    case DoEnd(p) => (ClearEnd(t, p), Ok)
    case DoKill(p, sending, i) => (KillWaiting(t, p, sending, i), Ok)
  }
}
