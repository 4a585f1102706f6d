/** queuetab: one array in which every list is a doubly linked ring of process
    entries between a head and a tail entry of its own. */
module QueueTable {
  import opened QueueModel

  datatype QEntry = QEntry(qkey: int, qnext: int, qprev: int)

  function Head(n: nat): nat { NPROC + 2 * n }
  function Tail(n: nat): nat { NPROC + 2 * n + 1 }

  /** The entries of list n in order, with its two sentinels. */
  function Ring(n: nat, l: seq<nat>): (r: seq<nat>)
    ensures |r| == |l| + 2 && r[0] == Head(n) && r[|l| + 1] == Tail(n)
    ensures forall i | 0 <= i < |l| :: r[i + 1] == l[i]
  {
    [Head(n)] + l + [Tail(n)]
  }

  /** Neighbours in r point at each other. */
  ghost predicate Chain(tab: seq<QEntry>, r: seq<nat>) {
    && (forall i | 0 <= i < |r| :: r[i] < |tab|)
    && (forall i, j | 0 <= i < j < |r| && j == i + 1 :: tab[r[i]].qnext == r[j] && tab[r[j]].qprev == r[i])
  }

  /** List n is linked in both directions. */
  ghost predicate Linked(tab: seq<QEntry>, n: nat, l: seq<nat>)
    requires |tab| == NQENT && n < NLISTS && Pids(l)
  {
    Chain(tab, Ring(n, l)) && tab[Head(n)].qkey == MAXKEY && tab[Tail(n)].qkey == MINKEY
  }

  /** home names the one list a process is on, or is -1. */
  ghost predicate Placed(lists: seq<seq<nat>>, home: seq<int>) {
    && |lists| == NLISTS && |home| == NPROC
    && (forall n | 0 <= n < NLISTS :: Pids(lists[n]) && NoDup(lists[n]))
    && (forall n, p | 0 <= n < NLISTS && 0 <= p < NPROC :: p in lists[n] <==> home[p] == n)
    && (forall p | 0 <= p < NPROC :: -1 <= home[p] < NLISTS)
  }

  /** Disjoint, well-formed doubly linked lists. */
  ghost predicate Table(tab: seq<QEntry>, lists: seq<seq<nat>>, home: seq<int>) {
    && |tab| == NQENT && Placed(lists, home)
    && (forall n | 0 <= n < NLISTS :: Linked(tab, n, lists[n]))
  }

  /** Entries of list n: its sentinels and its members. */
  ghost predicate InRing(n: nat, home: seq<int>, e: nat)
    requires |home| == NPROC
  {
    e == Head(n) || e == Tail(n) || (e < NPROC && home[e] == n)
  }

  lemma RingMembers(lists: seq<seq<nat>>, home: seq<int>, n: nat)
    requires Placed(lists, home) && n < NLISTS
    ensures forall i | 0 <= i < |lists[n]| + 2 :: InRing(n, home, Ring(n, lists[n])[i])
  {
    var r := Ring(n, lists[n]);
    forall i | 0 <= i < |lists[n]| + 2 ensures InRing(n, home, r[i]) {
      if 0 < i <= |lists[n]| {
        assert r[i] == lists[n][i - 1] && lists[n][i - 1] in lists[n];
      }
    }
  }

  /** A list is unaffected by changes to entries of other lists. */
  lemma LinkedKept(tab: seq<QEntry>, tab': seq<QEntry>, lists: seq<seq<nat>>, home: seq<int>, n: nat)
    requires |tab| == |tab'| == NQENT && Placed(lists, home) && n < NLISTS && Linked(tab, n, lists[n])
    requires forall e | 0 <= e < NQENT && InRing(n, home, e) :: tab'[e] == tab[e]
    ensures Linked(tab', n, lists[n])
  {
    RingMembers(lists, home, n);
    var r := Ring(n, lists[n]);
    assert forall i | 0 <= i < |r| :: InRing(n, home, r[i]);
    hide InRing, Ring;
    assert tab'[r[0]] == tab[r[0]] && tab'[r[|r| - 1]] == tab[r[|r| - 1]];
  }

  // ----- linking a process in -----

  /** The four pointer assignments (and the key) of an insertion. */
  function LinkIn(tab: seq<QEntry>, p: nat, key: int, prev: nat, next: nat): (r: seq<QEntry>)
    requires |tab| == NQENT && p < NQENT && prev < NQENT && next < NQENT
    ensures |r| == NQENT
  {
    var t1 := tab[p := QEntry(key, next, prev)];
    var t2 := t1[prev := t1[prev].(qnext := p)];
    t2[next := t2[next].(qprev := p)]
  }

  lemma ChainInsert(tab: seq<QEntry>, r: seq<nat>, i: nat, p: nat, key: int)
    requires |tab| == NQENT && Chain(tab, r) && NoDup(r) && i + 1 < |r| && p < NQENT && p !in r
    ensures Chain(LinkIn(tab, p, key, r[i], r[i + 1]), InsertedAt(r, i + 1, p))
  {
    var tab', r' := LinkIn(tab, p, key, r[i], r[i + 1]), InsertedAt(r, i + 1, p);
    forall k | 0 <= k < |r'| ensures r'[k] == if k <= i then r[k] else if k == i + 1 then p else r[k - 1] {
    }
  }

  lemma ChainRemove(tab: seq<QEntry>, r: seq<nat>, i: nat)
    requires |tab| == NQENT && Chain(tab, r) && NoDup(r) && i + 2 < |r|
    ensures Chain(LinkOut(tab, r[i], r[i + 2]), RemovedAt(r, i + 1))
  {
    var tab', r' := LinkOut(tab, r[i], r[i + 2]), RemovedAt(r, i + 1);
    forall k | 0 <= k < |r'| ensures r'[k] == if k <= i then r[k] else r[k + 1] {
    }
  }

  lemma RingNoDup(n: nat, l: seq<nat>)
    requires n < NLISTS && Pids(l) && NoDup(l)
    ensures NoDup(Ring(n, l)) && forall i | 0 <= i < |l| + 2 :: Ring(n, l)[i] < NQENT
    ensures forall p | 0 <= p < NPROC && p !in l :: p !in Ring(n, l)
  {
  }

  lemma LinkedInsert(tab: seq<QEntry>, n: nat, l: seq<nat>, i: nat, p: nat, key: int)
    requires |tab| == NQENT && n < NLISTS && Pids(l) && NoDup(l) && Linked(tab, n, l)
    requires i <= |l| && p < NPROC && p !in l
    ensures Pids(InsertedAt(l, i, p)) && Ring(n, l)[i] < NQENT && Ring(n, l)[i + 1] < NQENT
    ensures Linked(LinkIn(tab, p, key, Ring(n, l)[i], Ring(n, l)[i + 1]), n, InsertedAt(l, i, p))
  {
    RingNoDup(n, l);
    assert Ring(n, InsertedAt(l, i, p)) == InsertedAt(Ring(n, l), i + 1, p);
    hide Chain;
    ChainInsert(tab, Ring(n, l), i, p, key);
  }

  lemma PlacedInsert(lists: seq<seq<nat>>, home: seq<int>, n: nat, i: nat, p: nat)
    requires Placed(lists, home) && n < NLISTS && i <= |lists[n]| && p < NPROC && home[p] == -1
    ensures Placed(lists[n := InsertedAt(lists[n], i, p)], home[p := n])
  {
    InsertedMembers(lists[n], i, p);
  }

  /** Changing entries of list n only changes no other list. */
  lemma OthersLinked(tab: seq<QEntry>, tab': seq<QEntry>, lists: seq<seq<nat>>, home: seq<int>, n: nat, m: nat)
    requires Table(tab, lists, home) && |tab'| == NQENT && n < NLISTS && m < NLISTS && m != n
    requires forall e | 0 <= e < NQENT && tab'[e] != tab[e] :: InRing(n, home, e) || (e < NPROC && home[e] == -1)
    ensures Linked(tab', m, lists[m])
  {
    hide Linked;
    assert forall e | 0 <= e < NQENT && InRing(m, home, e) :: tab'[e] == tab[e];
    LinkedKept(tab, tab', lists, home, m);
  }

  /** Inserting a process that is on no list keeps all lists well-formed. */
  lemma TableInsert(tab: seq<QEntry>, lists: seq<seq<nat>>, home: seq<int>, n: nat, i: nat, p: nat, key: int)
    requires Table(tab, lists, home) && n < NLISTS && i <= |lists[n]| && p < NPROC && home[p] == -1
    ensures Ring(n, lists[n])[i] < NQENT && Ring(n, lists[n])[i + 1] < NQENT
    ensures Table(LinkIn(tab, p, key, Ring(n, lists[n])[i], Ring(n, lists[n])[i + 1]),
                  lists[n := InsertedAt(lists[n], i, p)], home[p := n])
  {
    hide Linked, Ring, NoDup;
    RingMembers(lists, home, n);
    var prev, next := Ring(n, lists[n])[i], Ring(n, lists[n])[i + 1];
    assert InRing(n, home, prev) && InRing(n, home, next);
    var tab' := LinkIn(tab, p, key, prev, next);
    var lists', home' := lists[n := InsertedAt(lists[n], i, p)], home[p := n];
    PlacedInsert(lists, home, n, i, p);
    LinkedInsert(tab, n, lists[n], i, p, key);
    forall m | 0 <= m < NLISTS ensures Linked(tab', m, lists'[m]) {
      if m != n { OthersLinked(tab, tab', lists, home, n, m); }
    }
  }

  // ----- unlinking a process -----

  function LinkOut(tab: seq<QEntry>, prev: nat, next: nat): (r: seq<QEntry>)
    requires |tab| == NQENT && prev < NQENT && next < NQENT
    ensures |r| == NQENT
  {
    var t1 := tab[prev := tab[prev].(qnext := next)];
    t1[next := t1[next].(qprev := prev)]
  }

  lemma LinkedRemove(tab: seq<QEntry>, n: nat, l: seq<nat>, i: nat)
    requires |tab| == NQENT && n < NLISTS && Pids(l) && NoDup(l) && Linked(tab, n, l) && i < |l|
    ensures Pids(RemovedAt(l, i)) && Ring(n, l)[i] < NQENT && Ring(n, l)[i + 2] < NQENT
    ensures tab[l[i]].qprev == Ring(n, l)[i] && tab[l[i]].qnext == Ring(n, l)[i + 2]
    ensures Linked(LinkOut(tab, Ring(n, l)[i], Ring(n, l)[i + 2]), n, RemovedAt(l, i))
  {
    RingNoDup(n, l);
    assert Ring(n, RemovedAt(l, i)) == RemovedAt(Ring(n, l), i + 1);
    assert Ring(n, l)[i + 1] == l[i];
    assert tab[l[i]].qprev == Ring(n, l)[i] && tab[l[i]].qnext == Ring(n, l)[i + 2];
    hide Chain;
    ChainRemove(tab, Ring(n, l), i);
  }

  lemma PlacedRemove(lists: seq<seq<nat>>, home: seq<int>, n: nat, p: nat)
    requires Placed(lists, home) && n < NLISTS && p in lists[n]
    ensures p < NPROC && Placed(lists[n := Without(lists[n], p)], home[p := -1])
  {
    WithoutMembers(lists[n], p);
    WithoutPids(lists[n], p);
    var lists', home' := lists[n := Without(lists[n], p)], home[p := -1];
    assert home[p] == n;
    hide Without, NoDup;
    forall m, q | 0 <= m < NLISTS && 0 <= q < NPROC ensures q in lists'[m] <==> home'[q] == m {
      assert q in lists[m] <==> home[q] == m;
    }
  }

  /** Unlinking a member keeps all lists well-formed. */
  lemma TableRemove(tab: seq<QEntry>, lists: seq<seq<nat>>, home: seq<int>, n: nat, p: nat)
    requires Table(tab, lists, home) && n < NLISTS && p in lists[n]
    ensures p < NPROC && 0 <= tab[p].qprev < NQENT && 0 <= tab[p].qnext < NQENT && home[p] == n
    ensures Table(LinkOut(tab, tab[p].qprev, tab[p].qnext), lists[n := Without(lists[n], p)], home[p := -1])
  {
    hide Linked, Ring, NoDup;
    var i := IndexOf(lists[n], p);
    RingMembers(lists, home, n);
    LinkedRemove(tab, n, lists[n], i);
    var prev, next := Ring(n, lists[n])[i], Ring(n, lists[n])[i + 2];
    assert InRing(n, home, prev) && InRing(n, home, next);
    var lists' := lists[n := Without(lists[n], p)];
    PlacedRemove(lists, home, n, p);
    forall m | 0 <= m < NLISTS ensures Linked(LinkOut(tab, prev, next), m, lists'[m]) {
      if m != n { OthersLinked(tab, LinkOut(tab, prev, next), lists, home, n, m); }
    }
  }

  /** Changing the links of a process that is on no list changes no list. */
  lemma TableIdle(tab: seq<QEntry>, lists: seq<seq<nat>>, home: seq<int>, p: nat, e: QEntry)
    requires Table(tab, lists, home) && p < NPROC && home[p] == -1
    ensures Table(tab[p := e], lists, home)
  {
    forall m | 0 <= m < NLISTS ensures Linked(tab[p := e], m, lists[m]) {
      hide Linked;
      LinkedKept(tab, tab[p := e], lists, home, m);
    }
  }

  /** Changing keys of process entries changes no list. */
  lemma TableKeys(tab: seq<QEntry>, lists: seq<seq<nat>>, home: seq<int>, p: nat, key: int)
    requires Table(tab, lists, home) && p < NPROC
    ensures Table(tab[p := tab[p].(qkey := key)], lists, home)
  {
    var tab' := tab[p := tab[p].(qkey := key)];
    forall m | 0 <= m < NLISTS ensures Linked(tab', m, lists[m]) {
      var r := Ring(m, lists[m]);
      RingMembers(lists, home, m);
      assert forall e | 0 <= e < NQENT :: tab'[e].qnext == tab[e].qnext && tab'[e].qprev == tab[e].qprev;
    }
  }
}
