/** Process queues: what lists of processes and their keys mean, and how they are
    linked through the one queue table. */
module QueueModel {

  const NPROC := 16
  const NSEM := 32
  const NQENT := NPROC + 4 + NSEM + NSEM
  const EMPTY := -1
  const MAXKEY := 0x7FFF_FFFF
  const MINKEY := -0x8000_0000

  /** The lists in the order sysinit allocates them: one for each semaphore, then
      the ready list, then the list of sleeping processes. */
  const READYQ := NSEM
  const SLEEPQ := NSEM + 1
  const NLISTS := NSEM + 2

  // ----- lists of processes -----

  ghost predicate NoDup(l: seq<nat>) {
    forall i, j | 0 <= i < j < |l| :: l[i] != l[j]
  }

  /** All members are process IDs, so they index the key table. */
  ghost predicate Pids(l: seq<nat>) {
    forall i | 0 <= i < |l| :: l[i] < NPROC
  }

  function InsertedAt(l: seq<nat>, i: nat, p: nat): seq<nat>
    requires i <= |l|
  {
    l[..i] + [p] + l[i..]
  }

  function RemovedAt(l: seq<nat>, i: nat): seq<nat>
    requires i < |l|
  {
    l[..i] + l[i + 1..]
  }

  function IndexOf(l: seq<nat>, p: nat): (i: nat)
    ensures i <= |l| && (i < |l| <==> p in l) && (i < |l| ==> l[i] == p)
    ensures forall j | 0 <= j < i :: l[j] != p
  {
    if l == [] || l[0] == p then 0 else 1 + IndexOf(l[1..], p)
  }

  function Without(l: seq<nat>, p: nat): seq<nat> {
    var i := IndexOf(l, p);
    if i < |l| then RemovedAt(l, i) else l
  }

  lemma InsertedMembers(l: seq<nat>, i: nat, p: nat)
    requires i <= |l|
    ensures forall q :: q in InsertedAt(l, i, p) <==> q == p || q in l
    ensures NoDup(l) && p !in l ==> NoDup(InsertedAt(l, i, p))
  {
    var r := InsertedAt(l, i, p);
    assert r[i] == p && (forall j | 0 <= j < i :: r[j] == l[j]) && (forall j | i <= j < |l| :: r[j + 1] == l[j]);
    forall q ensures q in r <==> q == p || q in l {
      if q in l {
        var j :| 0 <= j < |l| && l[j] == q;
        assert r[if j < i then j else j + 1] == q;
      }
      if q in r {
        var j :| 0 <= j < |r| && r[j] == q;
        assert j == i || q == l[if j < i then j else j - 1];
      }
    }
  }

  lemma RemovedMembers(l: seq<nat>, i: nat)
    requires NoDup(l) && i < |l|
    ensures NoDup(RemovedAt(l, i)) && forall q :: q in RemovedAt(l, i) <==> q in l && q != l[i]
  {
    var r := RemovedAt(l, i);
    assert |r| == |l| - 1 && forall j | 0 <= j < |r| :: r[j] == l[if j < i then j else j + 1];
    hide RemovedAt;
    forall q ensures q in r <==> q in l && q != l[i] {
      if q in l && q != l[i] {
        var j :| 0 <= j < |l| && l[j] == q;
        assert r[if j < i then j else j - 1] == q;
      }
      if q in r {
        var j :| 0 <= j < |r| && r[j] == q;
        assert q == l[if j < i then j else j + 1];
      }
    }
  }

  lemma WithoutMembers(l: seq<nat>, p: nat)
    requires NoDup(l)
    ensures NoDup(Without(l, p)) && forall q :: q in Without(l, p) <==> q in l && q != p
    ensures |Without(l, p)| == if p in l then |l| - 1 else |l|
  {
    var i := IndexOf(l, p);
    if i < |l| { RemovedMembers(l, i); }
  }

  lemma FirstWithout(l: seq<nat>)
    requires l != []
    ensures Without(l, l[0]) == l[1..]
  {
  }

  // ----- descending order -----

  /** Where insert puts a process: before the first member with a smaller key. */
  function DescPos(l: seq<nat>, keys: seq<int>, key: int): (i: nat)
    requires |keys| == NPROC && Pids(l)
    ensures i <= |l| && (forall j | 0 <= j < i :: keys[l[j]] >= key) && (i < |l| ==> keys[l[i]] < key)
  {
    if l == [] || keys[l[0]] < key then 0 else
    var i := DescPos(l[1..], keys, key);
    assert forall j | 1 <= j < 1 + i :: l[j] == l[1..][j - 1];
    1 + i
  }

  ghost predicate Descending(l: seq<nat>, keys: seq<int>)
    requires |keys| == NPROC && Pids(l)
  {
    forall i, j | 0 <= i < j < |l| :: keys[l[i]] >= keys[l[j]]
  }

  lemma InsertedKey(l: seq<nat>, keys: seq<int>, i: nat, p: nat, key: int, j: nat)
    requires |keys| == NPROC && Pids(l) && i <= |l| && p < NPROC && p !in l && j <= |l|
    ensures |InsertedAt(l, i, p)| == |l| + 1 && InsertedAt(l, i, p)[j] < NPROC
    ensures keys[p := key][InsertedAt(l, i, p)[j]]
         == if j < i then keys[l[j]] else if j == i then key else keys[l[j - 1]]
  {
    assert InsertedAt(l, i, p)[j] == if j < i then l[j] else if j == i then p else l[j - 1];
    assert forall k | 0 <= k < |l| :: l[k] in l && l[k] < NPROC;
  }

  lemma InsertedDescending(l: seq<nat>, keys: seq<int>, p: nat, key: int)
    requires |keys| == NPROC && Pids(l) && p < NPROC && p !in l && Descending(l, keys)
    ensures Pids(InsertedAt(l, DescPos(l, keys, key), p))
    ensures Descending(InsertedAt(l, DescPos(l, keys, key), p), keys[p := key])
  {
    var i := DescPos(l, keys, key);
    hide InsertedAt, DescPos;
    var r, keys' := InsertedAt(l, i, p), keys[p := key];
    forall j | 0 <= j < |r| ensures r[j] < NPROC {
      InsertedKey(l, keys, i, p, key, 0);
      InsertedKey(l, keys, i, p, key, j);
    }
    forall a, b | 0 <= a < b < |r| ensures keys'[r[a]] >= keys'[r[b]] {
      InsertedKey(l, keys, i, p, key, 0);
      InsertedKey(l, keys, i, p, key, a);
      InsertedKey(l, keys, i, p, key, b);
      if b == i { assert keys[l[a]] >= key; }
      else if a == i && b > i + 1 { assert keys[l[i]] >= keys[l[b - 1]]; }
    }
  }

  // ----- the delta list -----

  /** A 32-bit key less one, which wraps around at the least key there is. */
  function Decremented(key: int): int {
    if key == MINKEY then MAXKEY else key - 1
  }

  /** The ticks until member p of a delta list is due: the keys up to it, added. */
  function Remaining(l: seq<nat>, keys: seq<int>, p: nat): int
    requires |keys| == NPROC && Pids(l)
  {
    if l == [] then 0
    else if l[0] == p then keys[p]
    else keys[l[0]] + Remaining(l[1..], keys, p)
  }

  /** Where insertd stops, and what is then left of the delay. */
  function DeltaPos(l: seq<nat>, keys: seq<int>, key: int): (r: (nat, int))
    requires |keys| == NPROC && Pids(l)
    ensures r.0 <= |l|
  {
    if l == [] || keys[l[0]] > key then (0, key) else
    var r := DeltaPos(l[1..], keys, key - keys[l[0]]);
    (1 + r.0, r.1)
  }

  function DeltaList(l: seq<nat>, keys: seq<int>, p: nat, key: int): seq<nat>
    requires |keys| == NPROC && Pids(l)
  {
    InsertedAt(l, DeltaPos(l, keys, key).0, p)
  }

  function DeltaKeys(l: seq<nat>, keys: seq<int>, p: nat, key: int): (r: seq<int>)
    requires |keys| == NPROC && Pids(l) && p < NPROC
    ensures |r| == NPROC
  {
    var (i, left) := DeltaPos(l, keys, key);
    var ks := keys[p := left];
    if i < |l| then ks[l[i] := ks[l[i]] - left] else ks
  }

  ghost predicate NonNegative(l: seq<nat>, keys: seq<int>)
    requires |keys| == NPROC && Pids(l)
  {
    forall i | 0 <= i < |l| :: keys[l[i]] >= 0
  }

  lemma {:induction false} RemainingKept(l: seq<nat>, keys: seq<int>, keys': seq<int>, q: nat)
    requires |keys| == |keys'| == NPROC && Pids(l)
    requires forall i | 0 <= i < |l| :: keys'[l[i]] == keys[l[i]]
    ensures Remaining(l, keys', q) == Remaining(l, keys, q)
  {
    if l != [] && l[0] != q { RemainingKept(l[1..], keys, keys', q); }
    if l != [] { assert keys'[l[0]] == keys[l[0]]; }
  }

  lemma PidsTail(l: seq<nat>)
    requires Pids(l) && l != []
    ensures Pids(l[1..]) && (NoDup(l) ==> NoDup(l[1..]) && l[0] !in l[1..])
    ensures forall q :: q in l <==> q == l[0] || q in l[1..]
  {
    assert l == [l[0]] + l[1..];
  }

  lemma DeltaFront(l: seq<nat>, keys: seq<int>, p: nat, key: int)
    requires |keys| == NPROC && Pids(l) && l != [] && p < NPROC && keys[l[0]] > key
    ensures DeltaList(l, keys, p, key) == [p] + l
    ensures DeltaKeys(l, keys, p, key) == keys[p := key][l[0] := keys[p := key][l[0]] - key]
  {
  }

  /** A member passed over by insertd only shortens the delay. */
  lemma DeltaCons(l: seq<nat>, keys: seq<int>, p: nat, key: int)
    requires |keys| == NPROC && Pids(l) && l != [] && p < NPROC && keys[l[0]] <= key
    ensures Pids(l[1..])
    ensures DeltaList(l, keys, p, key) == [l[0]] + DeltaList(l[1..], keys, p, key - keys[l[0]])
    ensures DeltaKeys(l, keys, p, key) == DeltaKeys(l[1..], keys, p, key - keys[l[0]])
  {
    PidsTail(l);
  }

  /** insertd changes no key but that of the new process and of its successor,
      and leaves all keys non-negative. */
  lemma {:induction false} DeltaNonNegative(l: seq<nat>, keys: seq<int>, p: nat, key: int)
    requires |keys| == NPROC && Pids(l) && NoDup(l) && p < NPROC && p !in l
    requires NonNegative(l, keys) && key >= 0
    ensures Pids(DeltaList(l, keys, p, key))
    ensures NonNegative(DeltaList(l, keys, p, key), DeltaKeys(l, keys, p, key))
    ensures forall r | 0 <= r < NPROC && r != p && r !in l :: DeltaKeys(l, keys, p, key)[r] == keys[r]
    decreases l
  {
    hide DeltaList, DeltaKeys, DeltaPos, NoDup;
    if l == [] || keys[l[0]] > key {
      DeltaFirst(l, keys, p, key);
    } else {
      DeltaCons(l, keys, p, key);
      PidsTail(l);
      DeltaNonNegative(l[1..], keys, p, key - keys[l[0]]);
      DeltaHeadKept(l[1..], keys, p, key - keys[l[0]], l[0]);
    }
  }

  lemma DeltaFirst(l: seq<nat>, keys: seq<int>, p: nat, key: int)
    requires |keys| == NPROC && Pids(l) && p < NPROC && p !in l && NonNegative(l, keys) && key >= 0
    requires l == [] || keys[l[0]] > key
    ensures Pids(DeltaList(l, keys, p, key))
    ensures NonNegative(DeltaList(l, keys, p, key), DeltaKeys(l, keys, p, key))
    ensures forall r | 0 <= r < NPROC && r != p && r !in l :: DeltaKeys(l, keys, p, key)[r] == keys[r]
  {
    var l', keys' := DeltaList(l, keys, p, key), DeltaKeys(l, keys, p, key);
    assert DeltaPos(l, keys, key) == (0, key) && l' == [p] + l;
    assert keys' == if l == [] then keys[p := key] else keys[p := key][l[0] := keys[l[0]] - key];
    hide DeltaList, DeltaKeys, DeltaPos;
    forall i | 0 <= i < |l'| ensures keys'[l'[i]] >= 0 {
      if i > 0 { assert l'[i] == l[i - 1]; }
    }
  }

  /** insertd gives the new process exactly its delay. */
  lemma {:induction false} DeltaInserted(l: seq<nat>, keys: seq<int>, p: nat, key: int)
    requires |keys| == NPROC && Pids(l) && NoDup(l) && p < NPROC && p !in l
    ensures Pids(DeltaList(l, keys, p, key))
    ensures Remaining(DeltaList(l, keys, p, key), DeltaKeys(l, keys, p, key), p) == key
    decreases l
  {
    hide DeltaList, DeltaKeys, DeltaPos, Remaining, NoDup;
    if l == [] || keys[l[0]] > key {
      DeltaBase(l, keys, p, key);
    } else {
      DeltaCons(l, keys, p, key);
      PidsTail(l);
      DeltaInserted(l[1..], keys, p, key - keys[l[0]]);
      RemainingCons(l[0], DeltaList(l[1..], keys, p, key - keys[l[0]]), DeltaKeys(l, keys, p, key), p);
      DeltaHeadKept(l[1..], keys, p, key - keys[l[0]], l[0]);
    }
  }

  lemma DeltaBase(l: seq<nat>, keys: seq<int>, p: nat, key: int)
    requires |keys| == NPROC && Pids(l) && p < NPROC && p !in l && (l == [] || keys[l[0]] > key)
    ensures Pids(DeltaList(l, keys, p, key))
    ensures Remaining(DeltaList(l, keys, p, key), DeltaKeys(l, keys, p, key), p) == key
  {
    assert DeltaList(l, keys, p, key)[0] == p;
  }

  lemma RemainingCons(h: nat, t: seq<nat>, keys: seq<int>, q: nat)
    requires |keys| == NPROC && Pids(t) && h < NPROC
    ensures Pids([h] + t)
    ensures q != h ==> Remaining([h] + t, keys, q) == keys[h] + Remaining(t, keys, q)
    ensures q == h ==> Remaining([h] + t, keys, q) == keys[h]
  {
    assert ([h] + t)[1..] == t;
  }

  lemma DeltaHeadKept(l: seq<nat>, keys: seq<int>, p: nat, key: int, r: nat)
    requires |keys| == NPROC && Pids(l) && p < NPROC && r < NPROC && r != p && r !in l
    ensures DeltaKeys(l, keys, p, key)[r] == keys[r]
  {
  }

  /** insertd changes nobody else's remaining time. */
  lemma {:induction false} DeltaOthers(l: seq<nat>, keys: seq<int>, p: nat, key: int, q: nat)
    requires |keys| == NPROC && Pids(l) && NoDup(l) && p < NPROC && p !in l && q in l
    ensures Pids(DeltaList(l, keys, p, key))
    ensures Remaining(DeltaList(l, keys, p, key), DeltaKeys(l, keys, p, key), q) == Remaining(l, keys, q)
    decreases l
  {
    hide DeltaList, DeltaKeys, DeltaPos, Remaining, NoDup;
    var keys' := DeltaKeys(l, keys, p, key);
    var h, t := l[0], l[1..];
    PidsTail(l);
    assert [h] + t == l;
    RemainingCons(h, t, keys, q);
    if keys[h] > key {
      DeltaFront(l, keys, p, key);
      RemainingCons(p, l, keys', q);
      RemainingCons(h, t, keys', q);
      RemainingKept(t, keys, keys', q);
    } else {
      var key1 := key - keys[h];
      DeltaCons(l, keys, p, key);
      DeltaHeadKept(t, keys, p, key1, h);
      if q != h { DeltaOthers(t, keys, p, key1, q); } else { DeltaInserted(t, keys, p, key1); }
      RemainingCons(h, DeltaList(t, keys, p, key1), keys', q);
    }
  }

  /** What unsleep does to the keys: the successor inherits the removed delay. */
  function UnsleptKeys(l: seq<nat>, keys: seq<int>, p: nat): (r: seq<int>)
    requires |keys| == NPROC && Pids(l) && p < NPROC
    ensures |r| == NPROC
  {
    var i := IndexOf(l, p);
    if i + 1 < |l| then keys[l[i + 1] := keys[l[i + 1]] + keys[p]] else keys
  }

  lemma UnsleptFirst(l: seq<nat>, keys: seq<int>)
    requires |keys| == NPROC && Pids(l) && l != []
    ensures Without(l, l[0]) == l[1..]
    ensures UnsleptKeys(l, keys, l[0]) == if |l| > 1 then keys[l[1] := keys[l[1]] + keys[l[0]]] else keys
  {
  }

  /** Lengthening the first delay postpones everyone. */
  lemma UnsleptHead(t: seq<nat>, keys: seq<int>, d: int, q: nat)
    requires |keys| == NPROC && Pids(t) && NoDup(t) && t != [] && q in t
    ensures Remaining(t, keys[t[0] := keys[t[0]] + d], q) == d + Remaining(t, keys, q)
  {
    hide Remaining;
    var keys', t1 := keys[t[0] := keys[t[0]] + d], t[1..];
    PidsTail(t);
    assert [t[0]] + t1 == t;
    RemainingCons(t[0], t1, keys, q);
    RemainingCons(t[0], t1, keys', q);
    RemainingKept(t1, keys, keys', q);
  }

  lemma IndexCons(h: nat, t: seq<nat>, p: nat)
    requires h != p
    ensures IndexOf([h] + t, p) == 1 + IndexOf(t, p)
  {
    assert ([h] + t)[1..] == t;
  }

  lemma RemovedCons(h: nat, t: seq<nat>, i: nat)
    requires i < |t|
    ensures RemovedAt([h] + t, 1 + i) == [h] + RemovedAt(t, i)
  {
    var l := [h] + t;
    assert l[..1 + i] == [h] + t[..i] && l[i + 2..] == t[i + 1..];
  }

  lemma UnsleptCons(l: seq<nat>, keys: seq<int>, p: nat)
    requires |keys| == NPROC && Pids(l) && p in l && l[0] != p
    ensures Pids(l[1..]) && p in l[1..] && p < NPROC
    ensures Without(l, p) == [l[0]] + Without(l[1..], p) && UnsleptKeys(l, keys, p) == UnsleptKeys(l[1..], keys, p)
  {
    hide NoDup, IndexOf, RemovedAt;
    PidsTail(l);
    var h, t := l[0], l[1..];
    assert l == [h] + t;
    IndexCons(h, t, p);
    RemovedCons(h, t, IndexOf(t, p));
  }

  /** unsleep removes one process and changes no other remaining time. */
  lemma {:induction false} Unslept(l: seq<nat>, keys: seq<int>, p: nat, q: nat)
    requires |keys| == NPROC && Pids(l) && NoDup(l) && p in l && q in l && q != p
    ensures Pids(Without(l, p)) && p < NPROC
    ensures Remaining(Without(l, p), UnsleptKeys(l, keys, p), q) == Remaining(l, keys, q)
    decreases l
  {
    hide Without, UnsleptKeys, IndexOf, Remaining, NoDup;
    var h, t, keys' := l[0], l[1..], UnsleptKeys(l, keys, p);
    PidsTail(l);
    WithoutPids(l, p);
    assert [h] + t == l;
    RemainingCons(h, t, keys, q);
    if h == p {
      UnsleptFirst(l, keys);
      UnsleptHead(t, keys, keys[p], q);
    } else {
      UnsleptCons(l, keys, p);
      UnsleptHeadKept(t, keys, p, h);
      if q != h { Unslept(t, keys, p, q); } else { WithoutPids(t, p); }
      RemainingCons(h, Without(t, p), keys', q);
    }
  }

  lemma UnsleptHeadKept(l: seq<nat>, keys: seq<int>, p: nat, r: nat)
    requires |keys| == NPROC && Pids(l) && p < NPROC && r < NPROC && r !in l
    ensures UnsleptKeys(l, keys, p)[r] == keys[r]
  {
  }

  lemma WithoutPids(l: seq<nat>, p: nat)
    requires Pids(l) && NoDup(l)
    ensures Pids(Without(l, p))
  {
    WithoutMembers(l, p);
    forall i | 0 <= i < |Without(l, p)| ensures Without(l, p)[i] in l {
      assert Without(l, p)[i] in Without(l, p);
    }
  }

  lemma UnsleptNonNegative(l: seq<nat>, keys: seq<int>, p: nat)
    requires |keys| == NPROC && Pids(l) && NoDup(l) && p in l && NonNegative(l, keys)
    ensures Pids(Without(l, p)) && NonNegative(Without(l, p), UnsleptKeys(l, keys, p))
  {
    WithoutMembers(l, p);
    var l' := Without(l, p);
    forall i | 0 <= i < |l'| ensures l'[i] in l && UnsleptKeys(l, keys, p)[l'[i]] >= 0 {
      assert l'[i] in l';
    }
  }
}
