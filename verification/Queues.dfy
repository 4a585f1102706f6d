/** The queue functions on queuetab itself, pointer by pointer, each proved against
    the list it stands for. */
module Queues {
  import opened QueueModel
  import opened QueueTable

  const OK := 1
  const SYSERR := -1

  predicate IsBadQid(q: int) { q < 0 || q >= NQENT - 1 }
  predicate IsBadPid(p: int) { p < 0 || p >= NPROC }

  /** An offset that the test of newqueue lets through is one of an entry with a next
      one, except for these two. */
  lemma TestMisses(q: nat)
    ensures (q <= NQENT ==> q + 1 < NQENT) <==> q != NQENT - 1 && q != NQENT
  {
  }

  /** A queue ID handed out by newqueue: the index of a head entry. */
  predicate IsQueue(q: int) { NPROC <= q < NQENT && (q - NPROC) % 2 == 0 }

  function ListOf(q: int): (n: nat)
    requires IsQueue(q)
    ensures n < NLISTS && Head(n) == q && Tail(n) == q + 1
  {
    (q - NPROC) / 2
  }

  /** The keys of the process entries. */
  ghost function Keys(tab: seq<QEntry>): (r: seq<int>)
    requires |tab| == NQENT
    ensures |r| == NPROC && forall p | 0 <= p < NPROC :: r[p] == tab[p].qkey
  {
    seq(NPROC, p requires 0 <= p < NPROC => tab[p].qkey)
  }

  // ----- reading a well-formed table -----

  /** What is read at position i of list n; position 0 is the head. */
  lemma Walk(tab: seq<QEntry>, lists: seq<seq<nat>>, home: seq<int>, n: nat, i: nat)
    requires Table(tab, lists, home) && n < NLISTS && i <= |lists[n]|
    ensures var e, f := Ring(n, lists[n])[i], Ring(n, lists[n])[i + 1];
      && e < NQENT && f < NQENT && tab[e].qnext == f && tab[f].qprev == e
      && (i < |lists[n]| ==> f == lists[n][i] < NPROC && home[f] == n && Keys(tab)[f] == tab[f].qkey)
      && (i == |lists[n]| ==> f == Tail(n) >= NPROC && tab[f].qkey == MINKEY)
      && (i == 0 ==> e == Head(n))
  {
    var r := Ring(n, lists[n]);
    assert Linked(tab, n, lists[n]);
    assert tab[r[i]].qnext == r[i + 1] && tab[r[i + 1]].qprev == r[i];
    if i < |lists[n]| { assert lists[n][i] in lists[n]; }
  }

  /** What is read at the tail of list n. */
  lemma AtTail(tab: seq<QEntry>, lists: seq<seq<nat>>, home: seq<int>, n: nat)
    requires Table(tab, lists, home) && n < NLISTS
    ensures var l := lists[n];
      && 0 <= tab[Tail(n)].qprev < NQENT && tab[Tail(n)].qprev == Ring(n, l)[|l|]
      && (l != [] ==> tab[Tail(n)].qprev == l[|l| - 1] < NPROC && home[l[|l| - 1]] == n)
  {
    Walk(tab, lists, home, n, |lists[n]|);
    if lists[n] != [] { Walk(tab, lists, home, n, |lists[n]| - 1); }
  }

  lemma TablePids(tab: seq<QEntry>, lists: seq<seq<nat>>, home: seq<int>)
    requires Table(tab, lists, home)
    ensures |lists| == NLISTS && |home| == NPROC && forall n | 0 <= n < NLISTS :: Pids(lists[n]) && NoDup(lists[n])
    ensures forall p | 0 <= p < NPROC :: -1 <= home[p] < NLISTS
    ensures forall n, p | 0 <= n < NLISTS && 0 <= p < NPROC :: p in lists[n] <==> home[p] == n
  {
  }

  lemma ListPids(tab: seq<QEntry>, lists: seq<seq<nat>>, home: seq<int>, n: nat)
    requires Table(tab, lists, home) && n < NLISTS
    ensures |lists| == NLISTS && Pids(lists[n])
  {
  }

  /** What unsleep reads: the entry after pid, and whether it is a process. */
  lemma Successor(tab: seq<QEntry>, lists: seq<seq<nat>>, home: seq<int>, p: nat)
    requires Table(tab, lists, home) && p < NPROC && home[p] >= 0
    ensures home[p] < NLISTS && 0 <= tab[p].qnext < NQENT
    ensures UnsleptKeys(lists[home[p]], Keys(tab), p)
         == (if tab[p].qnext < NPROC then Keys(tab)[tab[p].qnext := tab[tab[p].qnext].qkey + tab[p].qkey]
             else Keys(tab))
  {
    hide Table, NoDup;
    TablePids(tab, lists, home);
    var l := lists[home[p]];
    assert p in l;
    var i := IndexOf(l, p);
    Walk(tab, lists, home, home[p], i);
    Walk(tab, lists, home, home[p], i + 1);
  }

  /** The outcome of insert's search once it has come to member i. */
  function PlaceFrom(l: seq<nat>, keys: seq<int>, i: nat, key: int): (r: nat)
    requires |keys| == NPROC && Pids(l) && i <= |l|
  {
    i + DescPos(l[i..], keys, key)
  }

  lemma PlacePasses(l: seq<nat>, keys: seq<int>, i: nat, key: int)
    requires |keys| == NPROC && Pids(l) && i <= |l|
    ensures PlaceFrom(l, keys, i, key) == if i == |l| || keys[l[i]] < key then i else PlaceFrom(l, keys, i + 1, key)
  {
    if i < |l| { assert l[i..][0] == l[i] && l[i..][1..] == l[i + 1..]; }
  }

  lemma PlaceStart(l: seq<nat>, keys: seq<int>, key: int)
    requires |keys| == NPROC && Pids(l)
    ensures PlaceFrom(l, keys, 0, key) == DescPos(l, keys, key)
  {
    assert l[0..] == l;
  }

  /** The outcome of insertd's search once it has come to member i. */
  function DelayFrom(l: seq<nat>, keys: seq<int>, i: nat, key: int): (r: (nat, int))
    requires |keys| == NPROC && Pids(l) && i <= |l|
  {
    (i + DeltaPos(l[i..], keys, key).0, DeltaPos(l[i..], keys, key).1)
  }

  lemma DelayPasses(l: seq<nat>, keys: seq<int>, i: nat, key: int)
    requires |keys| == NPROC && Pids(l) && i <= |l|
    ensures if i == |l| || keys[l[i]] > key then DelayFrom(l, keys, i, key) == (i, key)
      else DelayFrom(l, keys, i, key) == DelayFrom(l, keys, i + 1, key - keys[l[i]])
  {
    if i < |l| {
      assert l[i..][0] == l[i] && l[i..][1..] == l[i + 1..];
      assert DeltaPos(l[i..], keys, key) == if keys[l[i]] > key then (0, key)
        else (1 + DeltaPos(l[i + 1..], keys, key - keys[l[i]]).0, DeltaPos(l[i + 1..], keys, key - keys[l[i]]).1);
    }
  }

  lemma DelayStart(l: seq<nat>, keys: seq<int>, key: int)
    requires |keys| == NPROC && Pids(l)
    ensures DelayFrom(l, keys, 0, key) == DeltaPos(l, keys, key)
  {
    assert l[0..] == l;
  }

  // ----- the effect of linking and unlinking -----

  lemma Inserting(tab: seq<QEntry>, lists: seq<seq<nat>>, home: seq<int>, n: nat, i: nat, p: nat, key: int)
    requires Table(tab, lists, home) && n < NLISTS && i <= |lists[n]| && p < NPROC && home[p] == -1
    ensures var prev, next := Ring(n, lists[n])[i], Ring(n, lists[n])[i + 1];
      && prev < NQENT && next < NQENT && prev != p && next != p
      && Table(LinkIn(tab, p, key, prev, next), lists[n := InsertedAt(lists[n], i, p)], home[p := n])
      && Keys(LinkIn(tab, p, key, prev, next)) == Keys(tab)[p := key]
  {
    TableInsert(tab, lists, home, n, i, p, key);
    RingMembers(lists, home, n);
    hide Table, Ring;
    assert InRing(n, home, Ring(n, lists[n])[i]) && InRing(n, home, Ring(n, lists[n])[i + 1]);
    KeysLinkIn(tab, p, key, Ring(n, lists[n])[i], Ring(n, lists[n])[i + 1]);
  }

  lemma KeysLinkIn(tab: seq<QEntry>, p: nat, key: int, prev: nat, next: nat)
    requires |tab| == NQENT && p < NPROC && prev < NQENT && next < NQENT && prev != p && next != p
    ensures Keys(LinkIn(tab, p, key, prev, next)) == Keys(tab)[p := key]
  {
  }

  lemma Removing(tab: seq<QEntry>, lists: seq<seq<nat>>, home: seq<int>, p: nat)
    requires Table(tab, lists, home) && p < NPROC && home[p] >= 0
    ensures home[p] < NLISTS && p in lists[home[p]]
    ensures 0 <= tab[p].qprev < NQENT && 0 <= tab[p].qnext < NQENT
    ensures Table(LinkOut(tab, tab[p].qprev, tab[p].qnext), lists[home[p] := Without(lists[home[p]], p)], home[p := -1])
    ensures Keys(LinkOut(tab, tab[p].qprev, tab[p].qnext)) == Keys(tab)
  {
    TableRemove(tab, lists, home, home[p], p);
  }

  /** Queues 0 to m - 1 have been made and are empty. */
  ghost predicate Made(tab: seq<QEntry>, m: nat) {
    |tab| == NQENT && m <= NLISTS && forall n | 0 <= n < m :: Linked(tab, n, [])
  }

  function Nobody(): seq<seq<nat>> { seq(NLISTS, _ => []) }

  function Nowhere(): seq<int> { seq(NPROC, _ => -1) }

  lemma MadeTable(tab: seq<QEntry>)
    requires Made(tab, NLISTS)
    ensures Table(tab, Nobody(), Nowhere())
  {
  }

  lemma MakeOne(tab: seq<QEntry>, m: nat)
    requires Made(tab, m) && m < NLISTS
    ensures var tab' := tab[Head(m) := QEntry(MAXKEY, Tail(m), EMPTY)][Tail(m) := QEntry(MINKEY, EMPTY, Head(m))];
      Made(tab', m + 1) && Keys(tab') == Keys(tab)
  {
    var tab' := tab[Head(m) := QEntry(MAXKEY, Tail(m), EMPTY)][Tail(m) := QEntry(MINKEY, EMPTY, Head(m))];
    forall n | 0 <= n <= m ensures Linked(tab', n, []) {
      if n < m { assert Linked(tab, n, []); }
    }
  }

  class QueueTab {
    const queuetab: array<QEntry>
    var nextqid: nat
    ghost var lists: seq<seq<nat>>
    ghost var home: seq<int>

    /** sysinit's first loop: no entry is linked. */
    constructor ()
      ensures fresh(queuetab) && queuetab.Length == NQENT && nextqid == NPROC
      ensures Made(queuetab[..], 0) && lists == Nobody() && home == Nowhere()
      ensures forall p | 0 <= p < NPROC :: Keys(queuetab[..])[p] == MINKEY
    {
      queuetab := new QEntry[NQENT](_ => QEntry(0, 0, 0));
      nextqid := NPROC;
      lists := Nobody();
      home := Nowhere();
      new;
      for i := 0 to NQENT
        invariant nextqid == NPROC && lists == Nobody() && home == Nowhere()
        invariant forall j | 0 <= j < i :: queuetab[j].qkey == MINKEY
      {
        queuetab[i] := QEntry(MINKEY, EMPTY, EMPTY);
      }
    }

    /** Makes the next queue, unless nextqid is past the table.  Its test lets through
        two offsets with which it writes outside the table (TestMisses), and these are
        what the precondition leaves out. */
    method NewQueue() returns (q: int)
      requires queuetab.Length == NQENT && nextqid != NQENT - 1 && nextqid != NQENT
      modifies this`nextqid, queuetab
      ensures q == if old(nextqid) > NQENT then SYSERR else old(nextqid)
      ensures q == SYSERR ==> nextqid == old(nextqid) && queuetab[..] == old(queuetab[..])
      ensures q != SYSERR ==>
        && nextqid == q + 2 && q + 1 < NQENT
        && queuetab[..] == old(queuetab[..])[q := QEntry(MAXKEY, q + 1, EMPTY)][q + 1 := QEntry(MINKEY, EMPTY, q)]
      ensures IsQueue(old(nextqid)) && Made(old(queuetab[..]), ListOf(old(nextqid))) ==>
        q != SYSERR && Made(queuetab[..], ListOf(q) + 1) && Keys(queuetab[..]) == old(Keys(queuetab[..]))
    {
      hide Made;
      q := nextqid;
      ghost var tab := queuetab[..];
      if q > NQENT { return SYSERR; }
      nextqid := nextqid + 2;
      queuetab[q] := QEntry(MAXKEY, q + 1, EMPTY);
      queuetab[q + 1] := QEntry(MINKEY, EMPTY, q);
      assert queuetab[..] == tab[q := QEntry(MAXKEY, q + 1, EMPTY)][q + 1 := QEntry(MINKEY, EMPTY, q)];
      if IsQueue(q) && Made(tab, ListOf(q)) { MakeOne(tab, ListOf(q)); }
    }

    ghost predicate Valid()
      reads this, queuetab
    {
      queuetab.Length == NQENT && Table(queuetab[..], lists, home)
    }

    function FirstId(q: nat): int
      requires q < queuetab.Length
      reads queuetab
    {
      queuetab[q].qnext
    }

    predicate IsEmpty(q: nat)
      requires q < queuetab.Length
      reads queuetab
    {
      FirstId(q) >= NPROC
    }

    method GetItem(pid: nat) returns (r: int)
      requires Valid() && pid < NPROC && home[pid] >= 0
      modifies this, queuetab
      ensures Valid() && r == pid && old(home)[pid] < NLISTS
      ensures lists == old(lists)[old(home)[pid] := Without(old(lists)[old(home)[pid]], pid)]
      ensures home == old(home)[pid := -1] && Keys(queuetab[..]) == old(Keys(queuetab[..]))
    {
      hide Table, Without;
      TablePids(queuetab[..], lists, home);
      Removing(queuetab[..], lists, home, pid);
      var next := queuetab[pid].qnext;
      var prev := queuetab[pid].qprev;
      ghost var tab := queuetab[..];
      queuetab[prev] := queuetab[prev].(qnext := next);
      queuetab[next] := queuetab[next].(qprev := prev);
      assert queuetab[..] == LinkOut(tab, prev, next);
      lists := lists[home[pid] := Without(lists[home[pid]], pid)];
      home := home[pid := -1];
      return pid;
    }

    method GetFirst(q: nat) returns (r: int)
      requires Valid() && IsQueue(q)
      modifies this, queuetab
      ensures Valid() && Keys(queuetab[..]) == old(Keys(queuetab[..]))
      ensures var n := ListOf(q); var l := old(lists)[n];
        if l == [] then r == EMPTY && lists == old(lists) && home == old(home)
        else r == l[0] < NPROC && lists == old(lists)[n := l[1..]] && home == old(home)[r := -1] && old(home)[r] == n
    {
      hide Table, Without;
      ghost var n := ListOf(q);
      Walk(queuetab[..], lists, home, n, 0);
      TablePids(queuetab[..], lists, home);
      if IsEmpty(q) { return EMPTY; }
      FirstWithout(lists[n]);
      var head := q;
      r := GetItem(queuetab[head].qnext);
    }

    method GetLast(q: nat) returns (r: int)
      requires Valid() && IsQueue(q)
      modifies this, queuetab
      ensures Valid() && Keys(queuetab[..]) == old(Keys(queuetab[..]))
      ensures var n := ListOf(q); var l := old(lists)[n];
        if l == [] then r == EMPTY && lists == old(lists) && home == old(home)
        else r == l[|l| - 1] < NPROC && lists == old(lists)[n := l[..|l| - 1]] && home == old(home)[r := -1]
    {
      hide Table, Without;
      ghost var n := ListOf(q);
      Walk(queuetab[..], lists, home, n, 0);
      AtTail(queuetab[..], lists, home, n);
      TablePids(queuetab[..], lists, home);
      if IsEmpty(q) { return EMPTY; }
      LastWithout(lists[n]);
      var tail := q + 1;
      r := GetItem(queuetab[tail].qprev);
    }

    method Enqueue(pid: int, q: int) returns (r: int)
      requires Valid() && (IsBadQid(q) || IsQueue(q)) && (!IsBadPid(pid) ==> home[pid] == -1)
      modifies this, queuetab
      ensures Valid() && Keys(queuetab[..]) == old(Keys(queuetab[..]))
      ensures if IsBadQid(q) || IsBadPid(pid) then r == SYSERR && lists == old(lists) && home == old(home)
        else
          && r == pid && home == old(home)[pid := ListOf(q)]
          && lists == old(lists)[ListOf(q) := old(lists)[ListOf(q)] + [pid]]
    {
      hide Table;
      if IsBadQid(q) || IsBadPid(pid) { return SYSERR; }
      ghost var tab, n := queuetab[..], ListOf(q);
      TablePids(tab, lists, home);
      AtTail(tab, lists, home, n);
      Walk(tab, lists, home, n, |lists[n]|);
      Inserting(tab, lists, home, n, |lists[n]|, pid, tab[pid].qkey);
      assert InsertedAt(lists[n], |lists[n]|, pid) == lists[n] + [pid];
      var tail := q + 1;
      var prev := queuetab[tail].qprev;
      queuetab[pid] := queuetab[pid].(qnext := tail);
      queuetab[pid] := queuetab[pid].(qprev := prev);
      queuetab[prev] := queuetab[prev].(qnext := pid);
      queuetab[tail] := queuetab[tail].(qprev := pid);
      assert queuetab[..] == LinkIn(tab, pid, tab[pid].qkey, prev, tail);
      lists := lists[n := lists[n] + [pid]];
      home := home[pid := n];
      return pid;
    }

    method Dequeue(q: int) returns (r: int)
      requires Valid() && (IsBadQid(q) || IsQueue(q))
      modifies this, queuetab
      ensures Valid() && Keys(queuetab[..]) == old(Keys(queuetab[..]))
      ensures if IsBadQid(q) then r == SYSERR && lists == old(lists) && home == old(home)
        else var n := ListOf(q); var l := old(lists)[n];
          if l == [] then r == EMPTY && lists == old(lists) && home == old(home)
          else r == l[0] < NPROC && lists == old(lists)[n := l[1..]] && home == old(home)[r := -1] && old(home)[r] == n
    {
      hide Table;
      if IsBadQid(q) { return SYSERR; }
      TablePids(queuetab[..], lists, home);
      Walk(queuetab[..], lists, home, ListOf(q), 0);
      if IsEmpty(q) { return EMPTY; }
      r := GetFirst(q);
      ghost var tab := queuetab[..];
      TableIdle(tab, lists, home, r, tab[r].(qprev := EMPTY, qnext := EMPTY));
      queuetab[r] := queuetab[r].(qprev := EMPTY);
      queuetab[r] := queuetab[r].(qnext := EMPTY);
      assert queuetab[..] == tab[r := tab[r].(qprev := EMPTY, qnext := EMPTY)];
      assert Keys(queuetab[..]) == Keys(tab);
    }

    /** The pointer assignments at the end of insert and insertd: pid goes between
        neighbours prev and next, which are around place i of list n. */
    method Link(pid: nat, key: int, prev: int, next: int, ghost n: nat, ghost i: nat)
      requires Valid() && pid < NPROC && home[pid] == -1 && n < NLISTS && i <= |lists[n]|
      requires prev == Ring(n, lists[n])[i] && next == Ring(n, lists[n])[i + 1]
      modifies this, queuetab
      ensures Valid() && Keys(queuetab[..]) == old(Keys(queuetab[..]))[pid := key]
      ensures lists == old(lists)[n := InsertedAt(old(lists)[n], i, pid)] && home == old(home)[pid := n]
    {
      hide Table, InsertedAt;
      ghost var tab := queuetab[..];
      TablePids(tab, lists, home);
      Inserting(tab, lists, home, n, i, pid, key);
      queuetab[pid] := queuetab[pid].(qnext := next);
      queuetab[pid] := queuetab[pid].(qprev := prev);
      queuetab[pid] := queuetab[pid].(qkey := key);
      queuetab[prev] := queuetab[prev].(qnext := pid);
      queuetab[next] := queuetab[next].(qprev := pid);
      assert queuetab[..] == LinkIn(tab, pid, key, prev, next);
      lists := lists[n := InsertedAt(lists[n], i, pid)];
      home := home[pid := n];
    }

    /** insert's search: the first entry with a smaller key.  The tail's key stops
        it at the latest. */
    method FindPlace(q: int, key: int) returns (curr: int, ghost i: nat)
      requires Valid() && IsQueue(q) && key > MINKEY
      ensures Pids(lists[ListOf(q)]) && i == DescPos(lists[ListOf(q)], Keys(queuetab[..]), key) <= |lists[ListOf(q)]|
      ensures curr == Ring(ListOf(q), lists[ListOf(q)])[i + 1] && 0 <= curr < NQENT
      ensures queuetab[curr].qprev == Ring(ListOf(q), lists[ListOf(q)])[i]
    {
      hide Table, NoDup, Ring, DescPos, PlaceFrom;
      ghost var tab, n := queuetab[..], ListOf(q);
      ListPids(tab, lists, home, n);
      ghost var l, keys := lists[n], Keys(tab);
      Walk(tab, lists, home, n, 0);
      curr := FirstId(q);
      i := 0;
      PlaceStart(l, keys, key);
      while queuetab[curr].qkey >= key
        invariant i <= |l| && curr == Ring(n, l)[i + 1] && 0 <= curr < NQENT
        invariant PlaceFrom(l, keys, i, key) == DescPos(l, keys, key)
        decreases |l| - i
      {
        Walk(tab, lists, home, n, i);
        PlacePasses(l, keys, i, key);
        i := i + 1;
        Walk(tab, lists, home, n, i);
        curr := queuetab[curr].qnext;
      }
      Walk(tab, lists, home, n, i);
      PlacePasses(l, keys, i, key);
    }

    /** Puts pid before the first member with a smaller key. */
    method Insert(pid: int, q: int, key: int) returns (r: int)
      requires Valid() && (IsBadQid(q) || IsQueue(q)) && (!IsBadPid(pid) ==> home[pid] == -1) && key > MINKEY
      modifies this, queuetab
      ensures Valid()
      ensures if IsBadQid(q) || IsBadPid(pid) then r == SYSERR && lists == old(lists) && home == old(home)
          && Keys(queuetab[..]) == old(Keys(queuetab[..]))
        else (var n, keys := ListOf(q), old(Keys(queuetab[..]));
          && Pids(old(lists)[n]) && r == OK
          && lists == old(lists)[n := InsertedAt(old(lists)[n], DescPos(old(lists)[n], keys, key), pid)]
          && home == old(home)[pid := n] && Keys(queuetab[..]) == keys[pid := key])
    {
      hide Table, NoDup, InsertedAt, DescPos;
      if IsBadQid(q) || IsBadPid(pid) { return SYSERR; }
      TablePids(queuetab[..], lists, home);
      var curr, i := FindPlace(q, key);
      Link(pid, key, queuetab[curr].qprev, curr, ListOf(q), i);
      return OK;
    }

    /** insertd's search, which uses up the delay on the way. */
    method FindDelay(q: int, delay: int) returns (prev: int, next: int, key: int, ghost i: nat)
      requires Valid() && IsQueue(q)
      ensures Pids(lists[ListOf(q)]) && (i, key) == DeltaPos(lists[ListOf(q)], Keys(queuetab[..]), delay)
      ensures i <= |lists[ListOf(q)]|
      ensures prev == Ring(ListOf(q), lists[ListOf(q)])[i] && next == Ring(ListOf(q), lists[ListOf(q)])[i + 1]
      ensures if i < |lists[ListOf(q)]| then next == lists[ListOf(q)][i] < NPROC else next == q + 1
    {
      hide Table, NoDup, Ring, DeltaPos, DelayFrom;
      ghost var tab, n := queuetab[..], ListOf(q);
      ListPids(tab, lists, home, n);
      ghost var l, keys := lists[n], Keys(tab);
      Walk(tab, lists, home, n, 0);
      key, prev, i := delay, q, 0;
      next := queuetab[q].qnext;
      DelayStart(l, keys, key);
      while next != q + 1 && queuetab[next].qkey <= key
        invariant i <= |l| && prev == Ring(n, l)[i] && next == Ring(n, l)[i + 1] && 0 <= next < NQENT
        invariant DelayFrom(l, keys, i, key) == DeltaPos(l, keys, delay)
        decreases |l| - i
      {
        Walk(tab, lists, home, n, i);
        DelayPasses(l, keys, i, key);
        key := key - queuetab[next].qkey;
        prev := next;
        i := i + 1;
        Walk(tab, lists, home, n, i);
        next := queuetab[next].qnext;
      }
      Walk(tab, lists, home, n, i);
      DelayPasses(l, keys, i, key);
    }

    /** Puts pid on a delta list so that it is due after delay ticks. */
    method InsertD(pid: int, q: int, delay: int) returns (r: int)
      requires Valid() && (IsBadQid(q) || IsQueue(q)) && (!IsBadPid(pid) ==> home[pid] == -1)
      modifies this, queuetab
      ensures Valid()
      ensures if IsBadQid(q) || IsBadPid(pid) then r == SYSERR && lists == old(lists) && home == old(home)
          && Keys(queuetab[..]) == old(Keys(queuetab[..]))
        else (var n, keys := ListOf(q), old(Keys(queuetab[..]));
          && Pids(old(lists)[n]) && r == OK
          && lists == old(lists)[n := DeltaList(old(lists)[n], keys, pid, delay)]
          && home == old(home)[pid := n] && Keys(queuetab[..]) == DeltaKeys(old(lists)[n], keys, pid, delay))
    {
      hide Table, NoDup, InsertedAt, DeltaPos, Keys, Ring;
      if IsBadQid(q) || IsBadPid(pid) { return SYSERR; }
      TablePids(queuetab[..], lists, home);
      var prev, next, key, i := FindDelay(q, delay);
      assert next != pid by { if i < |lists[ListOf(q)]| { assert next in lists[ListOf(q)]; } }
      Link(pid, key, prev, next, ListOf(q), i);
      if next != q + 1 {
        ghost var tab1 := queuetab[..];
        TableKeys(tab1, lists, home, next, tab1[next].qkey - key);
        KeySet(tab1, next, tab1[next].qkey - key);
        queuetab[next] := queuetab[next].(qkey := queuetab[next].qkey - key);
        assert queuetab[..] == tab1[next := tab1[next].(qkey := tab1[next].qkey - key)];
      }
      return OK;
    }

    /** Takes a sleeping process off its delta list; the one after it inherits its
        delay. */
    method Unsleep(pid: nat)
      requires Valid() && pid < NPROC && home[pid] >= 0
      modifies this, queuetab
      ensures Valid() && old(home)[pid] < NLISTS
      ensures var n := old(home)[pid];
        && Pids(old(lists)[n])
        && lists == old(lists)[n := Without(old(lists)[n], pid)] && home == old(home)[pid := -1]
        && Keys(queuetab[..]) == UnsleptKeys(old(lists)[n], old(Keys(queuetab[..])), pid)
    {
      hide Table, Without, UnsleptKeys, IndexOf, Keys;
      ghost var tab := queuetab[..];
      TablePids(tab, lists, home);
      Successor(tab, lists, home, pid);
      var pidnext := queuetab[pid].qnext;
      if pidnext < NPROC {
        TableKeys(tab, lists, home, pidnext, tab[pidnext].qkey + tab[pid].qkey);
        KeySet(tab, pidnext, tab[pidnext].qkey + tab[pid].qkey);
        queuetab[pidnext] := queuetab[pidnext].(qkey := queuetab[pidnext].qkey + queuetab[pid].qkey);
        assert queuetab[..] == tab[pidnext := tab[pidnext].(qkey := tab[pidnext].qkey + tab[pid].qkey)];
      }
      var _ := GetItem(pid);
    }

    /** One tick: the first key of a nonempty delta list goes down by one, as a
        32-bit number. */
    method DecrementFirst(q: nat)
      requires Valid() && IsQueue(q) && lists[ListOf(q)] != []
      modifies queuetab
      ensures Valid()
      ensures var p := lists[ListOf(q)][0];
        p < NPROC && Keys(queuetab[..]) == old(Keys(queuetab[..]))[p := Decremented(old(Keys(queuetab[..]))[p])]
    {
      hide Table;
      ghost var tab := queuetab[..];
      TablePids(tab, lists, home);
      Walk(tab, lists, home, ListOf(q), 0);
      var p := FirstId(q);
      TableKeys(tab, lists, home, p, Decremented(tab[p].qkey));
      KeySet(tab, p, Decremented(tab[p].qkey));
      queuetab[p] := queuetab[p].(qkey := Decremented(queuetab[p].qkey));
      assert queuetab[..] == tab[p := tab[p].(qkey := Decremented(tab[p].qkey))];
    }
  }

  lemma KeySet(tab: seq<QEntry>, p: nat, key: int)
    requires |tab| == NQENT && p < NPROC
    ensures Keys(tab[p := tab[p].(qkey := key)]) == Keys(tab)[p := key] && Keys(tab)[p] == tab[p].qkey
  {
  }

  lemma LastWithout(l: seq<nat>)
    requires l != [] && NoDup(l)
    ensures Without(l, l[|l| - 1]) == l[..|l| - 1]
  {
    assert IndexOf(l, l[|l| - 1]) == |l| - 1;
  }
}
