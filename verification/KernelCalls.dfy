/** The system calls and the clock interrupt, each as one step of the kernel's
    state machine, and the invariant they keep. */
module KernelCalls {
  import opened QueueModel
  import opened KernelModel

  const OK := 1
  const SYSERR := -1
  const TIMEOUT := -3

  predicate GoodPid(k: K, p: int)
    requires |k.procs| == NPROC
  {
    0 <= p < NPROC && k.procs[p].state != FREE
  }

  predicate GoodSem(k: K, s: int)
    requires |k.sems| == NSEM
  {
    0 <= s < NSEM && k.sems[s].used
  }

  function SetCount(k: K, s: nat, c: int): (t: K)
    requires s < |k.sems|
    ensures Tables(k) ==> Tables(t)
  {
    k.(sems := k.sems[s := k.sems[s].(count := c)])
  }

  // ----- semaphores -----

  ghost function WaitCall(k: K, s: int): (r: (K, int))
    requires Tables(k)
    ensures Tables(r.0)
  {
    if !GoodSem(k, s) then (k, SYSERR) else
    var k1 := SetCount(k, s, k.sems[s].count - 1);
    (if k1.sems[s].count < 0 then Resched(Enqueued(k1, s)) else k1, OK)
  }

  /** One signal without rescheduling. */
  ghost function SignalOnce(k: K, s: nat): (t: K)
    requires Tables(k) && s < NSEM
    ensures Tables(t)
  {
    var k1 := SetCount(k, s, k.sems[s].count + 1);
    if k.sems[s].count < 0 && k.lists[s] != [] then ReleaseFirst(k1, s) else k1
  }

  ghost function SignalCall(k: K, s: int): (r: (K, int))
    requires Tables(k)
    ensures Tables(r.0)
  {
    if !GoodSem(k, s) then (k, SYSERR)
    else (if k.sems[s].count < 0 && k.lists[s] != [] then Resched(SignalOnce(k, s)) else SignalOnce(k, s), OK)
  }

  ghost function SignalTimes(k: K, s: nat, n: nat): (t: K)
    requires Tables(k) && s < NSEM
    ensures Tables(t)
  {
    if n == 0 then k else SignalOnce(SignalTimes(k, s, n - 1), s)
  }

  ghost function SignalnCall(k: K, s: int, n: int): (r: (K, int))
    requires Tables(k)
    ensures Tables(r.0)
  {
    if !GoodSem(k, s) || n < 0 then (k, SYSERR) else (Resched(SignalTimes(k, s, n)), OK)
  }

  /** All members of list n are made ready, first to last. */
  ghost function ReleaseAll(k: K, n: nat): (t: K)
    requires Tables(k) && n < NLISTS && n != READYQ
    ensures Tables(t)
    decreases if n < |k.lists| then |k.lists[n]| else 0
  {
    if k.lists[n] == [] then k else ReleaseAll(ReleaseFirst(k, n), n)
  }

  ghost function SemDeleteCall(k: K, s: int): (r: (K, int))
    requires Tables(k)
    ensures Tables(r.0)
  {
    if !GoodSem(k, s) then (k, SYSERR) else
    var c := k.sems[s].count;
    var k1 := k.(sems := k.sems[s := Sem(false, (if c < 0 then 0 else c) + 1)]);
    (Resched(if c < 0 then ReleaseAll(k1, s) else k1), OK)
  }

  ghost function SemResetCall(k: K, s: int, c: int): (r: (K, int))
    requires Tables(k)
    ensures Tables(r.0)
  {
    if c < 0 || !GoodSem(k, s) then (k, SYSERR) else
    (Resched(SetCount(ReleaseAll(k, s), s, c)), OK)
  }

  /** The circular search of newsem: the entry found (or -1) and nextsem. */
  function FreeSem(sems: seq<Sem>, next: nat, n: nat): (r: (int, nat))
    requires |sems| == NSEM && next < NSEM
    ensures r.1 < NSEM && -1 <= r.0 < NSEM && (r.0 >= 0 ==> !sems[r.0].used)
    decreases n
  {
    if n == 0 then (-1, next) else
    var next' := if next + 1 >= NSEM then 0 else next + 1;
    if !sems[next].used then (next, next') else FreeSem(sems, next', n - 1)
  }

  ghost function SemCreateCall(k: K, c: int): (r: (K, int))
    requires Tables(k) && k.nextsem < NSEM
    ensures Tables(r.0)
  {
    if c < 0 then (k, SYSERR) else
    var (s, next) := FreeSem(k.sems, k.nextsem, NSEM);
    if s < 0 then (k.(nextsem := next), SYSERR)
    else (k.(nextsem := next, sems := k.sems[s := Sem(true, c)]), s)
  }

  // ----- processes -----

  ghost function SuspendCall(k: K, p: int): (r: (K, int))
    requires Tables(k) && (0 <= p < NPROC ==> -1 <= Home(k.procs[p]) < NLISTS)
    ensures Tables(r.0)
  {
    if !GoodPid(k, p) || p == NULLPROC then (k, SYSERR)
    else if k.procs[p].state == READY then (Drop(k, p, SUSP), k.procs[p].prio)
    else if k.procs[p].state == CURR then (Resched(SetState(k, p, SUSP)), k.procs[p].prio)
    else (k, SYSERR)
  }

  ghost function ResumeCall(k: K, p: int): (r: (K, int))
    requires Tables(k)
    ensures Tables(r.0)
  {
    if !GoodPid(k, p) || k.procs[p].state != SUSP then (k, SYSERR)
    else (Resched(MakeReady(k, p)), k.procs[p].prio)
  }

  /** The circular search of newpid: the entry found (or -1) and nextpid. */
  function FreePid(procs: seq<Proc>, next: nat, n: nat): (r: (int, nat))
    requires |procs| == NPROC
    ensures -1 <= r.0 < NPROC && (r.0 >= 0 ==> procs[r.0].state == FREE)
    decreases n
  {
    if n == 0 then (-1, next) else
    var p := next % NPROC;
    if procs[p].state == FREE then (p, p + 1) else FreePid(procs, p + 1, n - 1)
  }

  /** The table part of create; stackOk says whether getstk finds a stack. */
  ghost function CreateCall(k: K, sizeOk: bool, prio: int, stackOk: bool): (r: (K, int))
    requires Tables(k)
    ensures Tables(r.0)
  {
    if !sizeOk || prio <= 0 then (k, SYSERR) else
    var (p, next) := FreePid(k.procs, k.nextpid, NPROC);
    var k1 := k.(nextpid := next);
    if p < 0 || !stackOk then (k1, SYSERR)
    else (k1.(procs := k.procs[p := k.procs[p].(state := SUSP, prio := prio, parent := k.curr, hasmsg := false)]), p)
  }

  /** kill after its message to the parent: the process leaves its state. */
  ghost function KillCall(k: K, p: nat): (t: K)
    requires Tables(k) && p < NPROC && -1 <= Home(k.procs[p]) < NLISTS
    ensures Tables(t)
  {
    match k.procs[p].state
    case CURR => Resched(SetState(k, p, FREE))
    case SLEEP => DropSleeper(k, p, FREE)
    case RECTIM => DropSleeper(k, p, FREE)
    case WAIT => if k.procs[p].sem >= NSEM then k else
      Drop(SetCount(k, k.procs[p].sem, k.sems[k.procs[p].sem].count + 1), p, FREE)
    case _ => Drop(k, p, FREE)
  }

  // ----- messages -----

  ghost function SendCall(k: K, p: int, msg: int): (r: (K, int))
    requires Tables(k)
    ensures Tables(r.0)
  {
    if !GoodPid(k, p) || k.procs[p].hasmsg then (k, SYSERR) else
    var k1 := k.(procs := k.procs[p := k.procs[p].(msg := msg, hasmsg := true)]);
    (match k.procs[p].state
     case RECV => Resched(MakeReady(k1, p))
     case RECTIM => Resched(MakeReady(DropSleeper(k1, p, SUSP), p))
     case _ => k1, OK)
  }

  /** receive and recvtime, once the process runs again. */
  ghost function TakeMessage(k: K): (r: (K, int))
    requires Tables(k)
    ensures Tables(r.0)
  {
    (k.(procs := k.procs[k.curr := k.procs[k.curr].(hasmsg := false)]), k.procs[k.curr].msg)
  }

  ghost function TakeOrTimeout(k: K): (r: (K, int))
    requires Tables(k)
    ensures Tables(r.0)
  {
    if k.procs[k.curr].hasmsg then TakeMessage(k) else (k, TIMEOUT)
  }

  /** receive and recvtime up to the point where the process waits. */
  ghost function ReceiveBlock(k: K): (t: K)
    requires Tables(k)
    ensures Tables(t)
  {
    Resched(SetState(k, k.curr, RECV))
  }

  ghost function RecvTimeBlock(k: K, maxwait: int): (t: K)
    requires Tables(k)
    ensures Tables(t)
  {
    Resched(Delayed(k, maxwait, RECTIM))
  }

  /** An unsigned 32-bit number where a signed one is expected. */
  function Signed(n: nat): int {
    if n < 0x8000_0000 then n else n - 0x1_0000_0000
  }

  /** sleepms: its unsigned delay becomes the signed key of insertd. */
  ghost function SleepCall(k: K, delay: nat): (t: K)
    requires Tables(k)
    ensures Tables(t)
  {
    if delay == 0 then Resched(k) else Resched(Delayed(k, Signed(delay), SLEEP))
  }

  // ----- clock and deferral -----

  /** wakeup's loop. */
  ghost function WakeExpired(k: K): (t: K)
    requires Tables(k)
    ensures Tables(t)
    decreases if SLEEPQ < |k.lists| then |k.lists[SLEEPQ]| else 0
  {
    if k.lists[SLEEPQ] == [] || FirstKey(k, SLEEPQ) > 0 then k
    else WakeExpired(ReleaseFirst(k, SLEEPQ))
  }

  /** The first key of the delta list loses a tick. */
  ghost function Ticked(k: K): (t: K)
    requires Tables(k) && k.lists[SLEEPQ] != []
    ensures Tables(t)
  {
    var p := k.lists[SLEEPQ][0];
    k.(keys := k.keys[p := Decremented(k.keys[p])])
  }

  /** clkhandler up to and including wakeup. */
  ghost function TickCall(k: K): (t: K)
    requires Tables(k)
    ensures Tables(t)
  {
    if k.lists[SLEEPQ] == [] then k else
    var k1 := Ticked(k);
    if FirstKey(k1, SLEEPQ) <= 0 then Resched(WakeExpired(k1)) else k1
  }

  /** The rest of clkhandler, which a process switched away from inside wakeup
      only reaches when it runs again. */
  ghost function QuantumCall(k: K): (t: K)
    requires Tables(k)
    ensures Tables(t)
  {
    if k.preempt <= 1 then Resched(k.(preempt := QUANTUM)) else k.(preempt := k.preempt - 1)
  }

  ghost function DeferStart(k: K): (t: K)
    requires Tables(k)
    ensures Tables(t)
  {
    k.(ndefers := k.ndefers + 1, attempt := k.attempt && k.ndefers > 0)
  }

  ghost function DeferStop(k: K): (r: (K, int))
    requires Tables(k)
    ensures Tables(r.0)
  {
    if k.ndefers == 0 then (k, SYSERR) else
    var k1 := k.(ndefers := k.ndefers - 1);
    (if k1.ndefers == 0 && k1.attempt then Resched(k1) else k1, OK)
  }

  // ----- the state machine -----

  datatype Call =
    | Wait(s: int) | Signal(s: int) | Signaln(s: int, n: int)
    | SemCreate(c: int) | SemDelete(s: int) | SemReset(s: int, c: int)
    | Suspend(p: int) | Resume(p: int) | Create(sizeOk: bool, prio: int, stackOk: bool) | Kill(pid: nat)
    | Send(p: int, msg: int) | Receive | ReceiveDone | RecvTime(maxwait: int) | RecvTimeDone
    | Sleep(delay: nat) | Yield | Tick | Quantum | StartDefer | StopDefer

  /** The current process may block: it is not the null process and rescheduling
      is not deferred. */
  predicate MayBlock(k: K) { k.curr != NULLPROC && k.ndefers == 0 }

  /** When a call can be made: calls that block need a process that may block,
      delays are keys that insertd takes for what they are, and priorities fit
      their type.  (What sleepms does with longer delays is in KernelTime.) */
  ghost predicate Enabled(k: K, c: Call)
    requires Sizes(k)
  {
    match c
    case Wait(s) => GoodSem(k, s) && k.sems[s].count <= 0 ==> MayBlock(k)
    case Suspend(p) => p == k.curr && p != NULLPROC ==> k.ndefers == 0
    case Kill(p) => p < NPROC && p != NULLPROC && (p == k.curr ==> k.ndefers == 0)
    case Create(_, prio, _) => prio < 0x8000
    case Receive => k.procs[k.curr].hasmsg || MayBlock(k)
    case RecvTime(maxwait) => maxwait < 0 || k.procs[k.curr].hasmsg || MayBlock(k)
    case Sleep(delay) => delay == 0 || (MayBlock(k) && delay < 0x8000_0000)
    case _ => true
  }

  /** What a call returns, unless it comes back only later. */
  datatype Answer = Pending | Answer(code: int)

  ghost function Reply(k: K, c: Call): Answer
    requires Inv(k) && Enabled(k, c)
  {
    StructTables(k, true);
    match c
    case Wait(s) => Answer(WaitCall(k, s).1)
    case Signal(s) => Answer(SignalCall(k, s).1)
    case Signaln(s, n) => Answer(SignalnCall(k, s, n).1)
    case SemCreate(c) => Answer(SemCreateCall(k, c).1)
    case SemDelete(s) => Answer(SemDeleteCall(k, s).1)
    case SemReset(s, c) => Answer(SemResetCall(k, s, c).1)
    case Suspend(p) => Answer(SuspendCall(k, p).1)
    case Resume(p) => Answer(ResumeCall(k, p).1)
    case Create(sizeOk, prio, stackOk) => Answer(CreateCall(k, sizeOk, prio, stackOk).1)
    case Kill(p) => Answer(OK)
    case Send(p, msg) => Answer(SendCall(k, p, msg).1)
    case Receive => if k.procs[k.curr].hasmsg then Answer(TakeMessage(k).1) else Pending
    case ReceiveDone => Answer(TakeMessage(k).1)
    case RecvTime(d) =>
      if d < 0 then Answer(SYSERR) else if k.procs[k.curr].hasmsg then Answer(TakeMessage(k).1) else Pending
    case RecvTimeDone => Answer(TakeOrTimeout(k).1)
    case StopDefer => Answer(DeferStop(k).1)
    case _ => Answer(OK)
  }

  ghost function Step(k: K, c: Call): (t: K)
    requires Inv(k) && Enabled(k, c)
    ensures Tables(t)
  {
    StructTables(k, true);
    match c
    case Wait(s) => WaitCall(k, s).0
    case Signal(s) => SignalCall(k, s).0
    case Signaln(s, n) => SignalnCall(k, s, n).0
    case SemCreate(c) => SemCreateCall(k, c).0
    case SemDelete(s) => SemDeleteCall(k, s).0
    case SemReset(s, c) => SemResetCall(k, s, c).0
    case Suspend(p) => SuspendCall(k, p).0
    case Resume(p) => ResumeCall(k, p).0
    case Create(sizeOk, prio, stackOk) => CreateCall(k, sizeOk, prio, stackOk).0
    case Kill(p) => KillCall(k, p)
    case Send(p, msg) => SendCall(k, p, msg).0
    case Receive => if k.procs[k.curr].hasmsg then TakeMessage(k).0 else ReceiveBlock(k)
    case ReceiveDone => TakeMessage(k).0
    case RecvTime(d) => if d < 0 then k else if k.procs[k.curr].hasmsg then TakeMessage(k).0 else RecvTimeBlock(k, d)
    case RecvTimeDone => TakeOrTimeout(k).0
    case Sleep(delay) => SleepCall(k, delay)
    case Yield => Resched(k)
    case Tick => TickCall(k)
    case Quantum => QuantumCall(k)
    case StartDefer => DeferStart(k)
    case StopDefer => DeferStop(k).0
  }
}
