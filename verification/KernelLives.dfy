/** What the calls on processes, messages and semaphores are for, over whole runs: who
    exists, who is woken by a message, and what a caller gets. */
module KernelLives {
  import opened QueueModel
  import opened KernelModel
  import opened KernelCalls
  import opened KernelInv
  import opened KernelRuns
  import opened KernelView

  // ----- messages -----

  /** A message wakes the process that waits for one, with or without a time limit. */
  lemma SendWakes(k: K, p: nat, m: int)
    requires Inv(k) && p < NPROC && k.procs[p].state in {RECV, RECTIM} && !k.procs[p].hasmsg
    ensures Tables(k) && Reply(k, Send(p, m)) == Answer(OK)
    ensures var q := Step(k, Send(p, m)).procs[p]; q.state in {READY, CURR} && q.hasmsg && q.msg == m
  {
    hide Inv, Step, Reply;
    InvParts(k);
    ProcessStep(k, Send(p, m), p);
    ReplyAnswers(k, Send(p, m));
  }

  /** Nobody waits for a message that is there. */
  ghost predicate NoneInVain(k: K) {
    |k.procs| == NPROC && forall p | 0 <= p < NPROC && k.procs[p].state in {RECV, RECTIM} :: !k.procs[p].hasmsg
  }

  lemma NoneInVainStep(k: K, c: Call)
    requires Inv(k) && Enabled(k, c) && NoneInVain(k)
    ensures NoneInVain(Step(k, c))
  {
    hide Inv, Step, After;
    InvParts(k);
    forall p | 0 <= p < NPROC && Step(k, c).procs[p].state in {RECV, RECTIM} ensures !Step(k, c).procs[p].hasmsg {
      ProcessStep(k, c, p);
      WaitsEmpty(k, c, p);
    }
  }

  lemma WaitsEmpty(k: K, c: Call, p: nat)
    requires Tables(k) && p < NPROC && (k.procs[p].state in {RECV, RECTIM} ==> !k.procs[p].hasmsg)
    ensures After(k, c, p).View? && After(k, c, p).doing in {Receives, ReceivesUntil} ==> After(k, c, p).mail == []
  {
    hide NextFree, Due, Among;
  }

  /** In every reachable state a process that waits for a message has none. */
  lemma {:induction false} ReceiversEmpty(k: K, cs: seq<Call>)
    requires Inv(k) && Legal(k, cs) && NoneInVain(k)
    ensures NoneInVain(Run(k, cs))
    decreases |cs|
  {
    hide Inv, Step, NoneInVain;
    if cs != [] {
      StepInv(k, cs[0]);
      NoneInVainStep(k, cs[0]);
      ReceiversEmpty(Step(k, cs[0]), cs[1..]);
    }
  }

  lemma BootEmpty()
    ensures Inv(Boot()) && NoneInVain(Boot())
  {
    BootInv();
  }

  // ----- processes -----

  /** Whatever state a process is in, kill ends it: its entry is free and it is on no
      list, and nobody else ends. */
  lemma KillEnds(k: K, p: nat)
    requires Inv(k) && Enabled(k, Kill(p))
    ensures var t := Step(k, Kill(p));
      && Tables(t) && t.procs[p].state == FREE && (forall n | 0 <= n < NLISTS :: p !in t.lists[n])
      && forall q | 0 <= q < NPROC && q != p :: t.procs[q].state == FREE <==> k.procs[q].state == FREE
  {
    hide Inv, Step, After;
    InvParts(k);
    StepInv(k, Kill(p));
    var t := Step(k, Kill(p));
    ProcessStep(k, Kill(p), p);
    assert After(k, Kill(p), p) == Nobody by { KilledAfter(k, p, p); }
    InvParts(t);
    ProcHome(t, p);
    forall q | 0 <= q < NPROC && q != p ensures t.procs[q].state == FREE <==> k.procs[q].state == FREE {
      ProcessStep(k, Kill(p), q);
      KilledAfter(k, p, q);
    }
  }

  lemma KilledAfter(k: K, p: nat, q: nat)
    requires Tables(k) && q < NPROC
    ensures After(k, Kill(p), q) == if p == q then Nobody else Look(k.procs[q])
  {
  }

  /** Whether p exists after a run: it was created after it was last killed. */
  ghost function Lives(k: K, cs: seq<Call>, p: nat, lives: bool): bool
    requires Inv(k) && Legal(k, cs)
    decreases |cs|
  {
    if cs == [] then lives else
    StepInv(k, cs[0]);
    Lives(Step(k, cs[0]), cs[1..], p,
      if cs[0] == Kill(p) then false else if cs[0].Create? && Reply(k, cs[0]) == Answer(p) then true else lives)
  }

  lemma LivesStep(k: K, c: Call, p: nat)
    requires Inv(k) && Enabled(k, c) && p < NPROC
    ensures Tables(k) && Sizes(Step(k, c))
    ensures Step(k, c).procs[p].state != FREE <==>
      c != Kill(p) && ((c.Create? && Reply(k, c) == Answer(p)) || k.procs[p].state != FREE)
  {
    hide Inv, Step, Reply, After, Answers, NextFree;
    InvParts(k);
    ProcessStep(k, c, p);
    AfterLives(k, c, p);
    ReplyAnswers(k, c);
    if c.Create? { NewAnswers(k, c, Reply(k, c), p); }
  }

  /** The call takes a free entry, and that is p. */
  ghost predicate Takes(k: K, c: Call, p: nat)
    requires Sizes(k) && p < NPROC
  {
    c.Create? && c.sizeOk && c.prio > 0 && c.stackOk && NextFree(k, p)
  }

  lemma AfterLives(k: K, c: Call, p: nat)
    requires Tables(k) && p < NPROC
    ensures After(k, c, p).View? <==> c != Kill(p) && (Takes(k, c, p) || k.procs[p].state != FREE)
  {
    hide NextFree, Due, Among, Exists;
    NotNextFree(k);
  }

  lemma NewAnswers(k: K, c: Call, r: Answer, p: nat)
    requires Sizes(k) && Tables(k) && k.nextsem < NSEM && p < NPROC && c.Create? && Answers(k, c, r)
    ensures r == Answer(p) <==> Takes(k, c, p)
  {
    hide NextFree;
    FoundFree(k, NPROC);
    NotNextFree(k);
  }

  lemma {:induction false} ExistsIff(k: K, cs: seq<Call>, p: nat)
    requires Inv(k) && Legal(k, cs) && p < NPROC
    ensures Sizes(k) && (Run(k, cs).procs[p].state != FREE <==> Lives(k, cs, p, k.procs[p].state != FREE))
    decreases |cs|
  {
    hide Inv, Step, Reply;
    InvParts(k);
    if cs != [] {
      StepInv(k, cs[0]);
      LivesStep(k, cs[0], p);
      ExistsIff(Step(k, cs[0]), cs[1..], p);
    }
  }

  // ----- semaphores -----

  /** semcreate fails just when the count is negative or all entries are in use.
      Otherwise it returns an entry that was unused, and that one then has the count
      asked for and nobody waiting; no other semaphore changes. */
  lemma SemAllocated(k: K, n: int, s: nat)
    requires Inv(k) && s < NSEM
    ensures Tables(k)
    ensures var t, r := Step(k, SemCreate(n)), Reply(k, SemCreate(n));
      && Sizes(t)
      && (r == Answer(SYSERR) <==> n < 0 || forall q | 0 <= q < NSEM :: k.sems[q].used)
      && (r != Answer(SYSERR) ==> r.Answer? && 0 <= r.code < NSEM)
      && (r == Answer(s) ==> !k.sems[s].used)
      && LookSem(t, s) == if r == Answer(s) then SemView(n, []) else LookSem(k, s)
  {
    hide Inv, Step, Reply, NextUnused, Rest;
    InvParts(k);
    ReplyAnswers(k, SemCreate(n));
    UnusedOnes(k);
    FoundUnused(k);
    SemaphoreStep(k, SemCreate(n), s);
  }

  /** Whether s is in use after a run: it was created after it was last deleted. */
  ghost function InUse(k: K, cs: seq<Call>, s: nat, used: bool): bool
    requires Inv(k) && Legal(k, cs)
    decreases |cs|
  {
    if cs == [] then used else
    StepInv(k, cs[0]);
    InUse(Step(k, cs[0]), cs[1..], s,
      if cs[0] == SemDelete(s) then false else if cs[0].SemCreate? && Reply(k, cs[0]) == Answer(s) then true else used)
  }

  lemma UseStep(k: K, c: Call, s: nat)
    requires Inv(k) && Enabled(k, c) && s < NSEM
    ensures Tables(k) && Sizes(Step(k, c))
    ensures Step(k, c).sems[s].used <==>
      c != SemDelete(s) && ((c.SemCreate? && Reply(k, c) == Answer(s)) || k.sems[s].used)
  {
    hide Inv, Step, Reply, NextUnused, Rest;
    InvParts(k);
    SemaphoreStep(k, c, s);
    ReplyAnswers(k, c);
    FoundUnused(k);
    UnusedOnes(k);
  }

  lemma {:induction false} UsedIff(k: K, cs: seq<Call>, s: nat)
    requires Inv(k) && Legal(k, cs) && s < NSEM
    ensures Sizes(k) && (Run(k, cs).sems[s].used <==> InUse(k, cs, s, k.sems[s].used))
    decreases |cs|
  {
    hide Inv, Step, Reply;
    InvParts(k);
    if cs != [] {
      StepInv(k, cs[0]);
      UseStep(k, cs[0], s);
      UsedIff(Step(k, cs[0]), cs[1..], s);
    }
  }
}
