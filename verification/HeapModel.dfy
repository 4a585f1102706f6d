/** The heap's free list as a value: an address-ordered, fully coalesced list of
    blocks, which is the one such list for a set of free bytes. */
module HeapModel {

  datatype Blk = Blk(addr: nat, len: nat)

  const SYSERR := -1

  function End(b: Blk): nat { b.addr + b.len }

  /** roundmb: up to the next multiple of 8. */
  function RoundMb(n: nat): (r: nat)
    ensures r % 8 == 0 && n <= r < n + 8
  {
    (n + 7) / 8 * 8
  }

  // ----- free lists and the bytes they stand for -----

  ghost predicate In(b: Blk, x: int) { b.addr <= x < End(b) }

  ghost predicate FreeAt(s: seq<Blk>, x: int) {
    exists i | 0 <= i < |s| :: In(s[i], x)
  }

  /** Ascending, disjoint and coalesced: some used byte lies between neighbours. */
  ghost predicate Canonical(s: seq<Blk>) {
    && (forall i | 0 <= i < |s| :: s[i].len > 0 && s[i].len % 8 == 0)
    && (forall i, j | 0 <= i < j < |s| :: End(s[i]) < s[j].addr)
  }

  function Total(s: seq<Blk>): nat {
    if s == [] then 0 else s[0].len + Total(s[1..])
  }

  lemma CanonicalTail(s: seq<Blk>, x: int)
    requires Canonical(s) && s != []
    ensures Canonical(s[1..]) && (FreeAt(s[1..], x) <==> FreeAt(s, x) && End(s[0]) <= x)
    ensures FreeAt(s, x) ==> s[0].addr <= x
    ensures In(s[0], x) ==> FreeAt(s, x)
  {
    if FreeAt(s[1..], x) {
      var i :| 0 <= i < |s[1..]| && In(s[1..][i], x);
      assert In(s[i + 1], x);
    }
    if FreeAt(s, x) {
      var i :| 0 <= i < |s| && In(s[i], x);
      if i > 0 { assert In(s[1..][i - 1], x); }
    }
  }

  /** The first block is known from the free bytes. */
  lemma SameFirst(s: seq<Blk>, t: seq<Blk>)
    requires Canonical(s) && Canonical(t) && s != [] && t != []
    requires forall x :: FreeAt(s, x) <==> FreeAt(t, x)
    ensures s[0] == t[0]
  {
    CanonicalTail(s, t[0].addr);
    CanonicalTail(t, t[0].addr);
    CanonicalTail(s, s[0].addr);
    CanonicalTail(t, s[0].addr);
    CanonicalTail(s, End(t[0]));
    CanonicalTail(t, End(t[0]));
    CanonicalTail(s, End(s[0]));
    CanonicalTail(t, End(s[0]));
    EndUsed(s);
    EndUsed(t);
  }

  lemma EndUsed(s: seq<Blk>)
    requires Canonical(s) && s != []
    ensures !FreeAt(s, End(s[0]))
  {
  }

  /** A set of free bytes has only one free list. */
  lemma {:induction false} OneFreeList(s: seq<Blk>, t: seq<Blk>)
    requires Canonical(s) && Canonical(t)
    requires forall x :: FreeAt(s, x) <==> FreeAt(t, x)
    ensures s == t
    decreases |s|
  {
    if s == [] {
      if t != [] { CanonicalTail(t, t[0].addr); }
    } else if t == [] {
      CanonicalTail(s, s[0].addr);
    } else {
      SameFirst(s, t);
      forall x ensures FreeAt(s[1..], x) <==> FreeAt(t[1..], x) {
        CanonicalTail(s, x);
        CanonicalTail(t, x);
      }
      CanonicalTail(s, 0);
      CanonicalTail(t, 0);
      OneFreeList(s[1..], t[1..]);
      assert s == [s[0]] + s[1..] && t == [t[0]] + t[1..];
    }
  }

  // ----- taking memory -----

  /** The first block of at least n bytes, or the length of the list. */
  function FirstFit(s: seq<Blk>, n: nat): (i: nat)
    ensures i <= |s| && (i < |s| ==> s[i].len >= n) && forall j | 0 <= j < i :: s[j].len < n
  {
    if s == [] || s[0].len >= n then 0 else 1 + FirstFit(s[1..], n)
  }

  /** The last block of at least n bytes, or the length of the list. */
  function LastFit(s: seq<Blk>, n: nat): (i: nat)
    ensures i <= |s| && (i < |s| ==> s[i].len >= n)
    ensures forall j | 0 <= j < |s| && (j > i || i == |s|) :: s[j].len < n
  {
    if s == [] then 0
    else if s[|s| - 1].len >= n then |s| - 1
    else var i := LastFit(s[..|s| - 1], n); if i == |s| - 1 then |s| else i
  }

  function Removed(s: seq<Blk>, i: nat): seq<Blk>
    requires i < |s|
  {
    s[..i] + s[i + 1..]
  }

  /** The bottom n bytes of block i are taken. */
  function CutBottom(s: seq<Blk>, i: nat, n: nat): seq<Blk>
    requires i < |s| && n <= s[i].len
  {
    if s[i].len == n then Removed(s, i) else s[i := Blk(s[i].addr + n, s[i].len - n)]
  }

  /** The top n bytes of block i are taken. */
  function CutTop(s: seq<Blk>, i: nat, n: nat): seq<Blk>
    requires i < |s| && n <= s[i].len
  {
    if s[i].len == n then Removed(s, i) else s[i := Blk(s[i].addr, s[i].len - n)]
  }

  function GetMem(s: seq<Blk>, nbytes: nat): (seq<Blk>, int) {
    var n, i := RoundMb(nbytes), FirstFit(s, RoundMb(nbytes));
    if nbytes == 0 || i == |s| then (s, SYSERR) else (CutBottom(s, i, n), s[i].addr)
  }

  /** getstk returns the address of the last word taken. */
  function GetStk(s: seq<Blk>, nbytes: nat): (r: (seq<Blk>, int))
    ensures r.1 >= 0 ==> nbytes > 0 && r.1 + 4 >= RoundMb(nbytes)
  {
    var n, i := RoundMb(nbytes), LastFit(s, RoundMb(nbytes));
    if nbytes == 0 || i == |s| then (s, SYSERR) else (CutTop(s, i, n), End(s[i]) - 4)
  }

  /** The bytes of taken leave the free list and no others do. */
  ghost predicate Taken(s: seq<Blk>, t: seq<Blk>, taken: Blk) {
    && Canonical(t) && taken.len > 0
    && (forall x :: In(taken, x) ==> FreeAt(s, x))
    && (forall x :: FreeAt(t, x) <==> FreeAt(s, x) && !In(taken, x))
  }

  lemma RemovedAt(s: seq<Blk>, i: nat)
    requires i < |s|
    ensures |Removed(s, i)| == |s| - 1
    ensures forall j | 0 <= j < |s| - 1 :: Removed(s, i)[j] == s[if j < i then j else j + 1]
  {
  }

  lemma OneBlock(s: seq<Blk>, i: nat)
    requires Canonical(s) && i < |s|
    ensures forall j, x | 0 <= j < |s| && In(s[j], x) && In(s[i], x) :: j == i
  {
  }

  lemma RemovedCanonical(s: seq<Blk>, i: nat)
    requires Canonical(s) && i < |s|
    ensures Canonical(Removed(s, i)) && s[i].len > 0
  {
    hide Removed;
    RemovedAt(s, i);
  }

  lemma RemovedTaken(s: seq<Blk>, i: nat)
    requires Canonical(s) && i < |s|
    ensures Taken(s, Removed(s, i), s[i])
  {
    hide Canonical, Removed;
    var t := Removed(s, i);
    RemovedAt(s, i);
    RemovedCanonical(s, i);
    OneBlock(s, i);
    forall x ensures In(s[i], x) ==> FreeAt(s, x) {
    }
    forall x ensures FreeAt(t, x) <==> FreeAt(s, x) && !In(s[i], x) {
      if FreeAt(t, x) {
        var j :| 0 <= j < |t| && In(t[j], x);
        assert In(s[if j < i then j else j + 1], x);
      }
      if FreeAt(s, x) && !In(s[i], x) {
        var j :| 0 <= j < |s| && In(s[j], x);
        assert In(t[if j < i then j else j - 1], x);
      }
    }
  }

  /** Shrinking block i to b, which leaves exactly the rest. */
  lemma ShrunkTaken(s: seq<Blk>, i: nat, b: Blk, rest: Blk)
    requires Canonical(s) && i < |s| && rest.len > 0 && b.len > 0 && b.len % 8 == 0
    requires b.len + rest.len == s[i].len
    requires (b.addr == s[i].addr && rest.addr == End(b)) || (rest.addr == s[i].addr && b.addr == End(rest))
    ensures Taken(s, s[i := b], rest)
  {
    hide Canonical;
    var t := s[i := b];
    ShrunkCanonical(s, i, b);
    OneBlock(s, i);
    forall x ensures In(rest, x) ==> FreeAt(s, x) {
      if In(rest, x) { assert In(s[i], x); }
    }
    forall x ensures FreeAt(t, x) <==> FreeAt(s, x) && !In(rest, x) {
      if FreeAt(t, x) {
        var j :| 0 <= j < |t| && In(t[j], x);
        assert In(s[j], x) && (In(rest, x) ==> In(s[i], x));
      }
      if FreeAt(s, x) && !In(rest, x) {
        var j :| 0 <= j < |s| && In(s[j], x);
        assert In(t[j], x);
      }
    }
  }

  lemma ShrunkCanonical(s: seq<Blk>, i: nat, b: Blk)
    requires Canonical(s) && i < |s| && b.len > 0 && b.len % 8 == 0 && s[i].addr <= b.addr && End(b) <= End(s[i])
    ensures Canonical(s[i := b])
  {
  }

  /** getmem takes the lowest bytes of the first block that fits, and fails only
      when none does. */
  lemma GetMemTakes(s: seq<Blk>, nbytes: nat)
    requires Canonical(s)
    ensures var (t, a) := GetMem(s, nbytes);
      if nbytes > 0 && exists i | 0 <= i < |s| :: s[i].len >= nbytes
      then a >= 0 && Taken(s, t, Blk(a, RoundMb(nbytes)))
           && (exists i :: 0 <= i < |s| && s[i].addr == a && forall j | 0 <= j < i :: s[j].len < nbytes)
      else t == s && a == SYSERR
  {
    hide Canonical, Taken;
    var n, i := RoundMb(nbytes), FirstFit(s, RoundMb(nbytes));
    RoundFits(s, nbytes);
    if nbytes > 0 && i < |s| {
      if s[i].len == n { RemovedTaken(s, i); }
      else { ShrunkTaken(s, i, Blk(s[i].addr + n, s[i].len - n), Blk(s[i].addr, n)); }
    }
  }

  /** A block, a multiple of 8, holds n bytes just when it holds n rounded up. */
  lemma RoundFits(s: seq<Blk>, n: nat)
    requires Canonical(s)
    ensures forall j | 0 <= j < |s| :: (s[j].len < RoundMb(n) <==> s[j].len < n) && (s[j].len - RoundMb(n)) % 8 == 0
  {
    hide RoundMb;
    forall j | 0 <= j < |s| ensures (s[j].len < RoundMb(n) <==> s[j].len < n) && (s[j].len - RoundMb(n)) % 8 == 0 {
      RoundFit(s[j].len, RoundMb(n), n);
    }
  }

  lemma RoundFit(len: nat, r: nat, n: nat)
    requires len % 8 == 0 && r % 8 == 0 && n <= r < n + 8
    ensures (len < r <==> len < n) && (len - r) % 8 == 0
  {
    var q, p := len / 8, r / 8;
    assert len == 8 * q && r == 8 * p && len - r == 8 * (q - p);
  }

  /** getstk takes the highest bytes of the last block that fits. */
  lemma GetStkTakes(s: seq<Blk>, nbytes: nat)
    requires Canonical(s)
    ensures var (t, a) := GetStk(s, nbytes);
      if nbytes > 0 && exists i | 0 <= i < |s| :: s[i].len >= nbytes
      then a + 4 >= RoundMb(nbytes) && Taken(s, t, Blk(a + 4 - RoundMb(nbytes), RoundMb(nbytes)))
           && (exists i :: 0 <= i < |s| && End(s[i]) == a + 4 && forall j | i < j < |s| :: s[j].len < nbytes)
      else t == s && a == SYSERR
  {
    hide Canonical, Taken;
    var n, i := RoundMb(nbytes), LastFit(s, RoundMb(nbytes));
    RoundFits(s, nbytes);
    if nbytes > 0 && i < |s| {
      if s[i].len == n { RemovedTaken(s, i); }
      else { ShrunkTaken(s, i, Blk(s[i].addr, s[i].len - n), Blk(End(s[i]) - n, n)); }
    }
  }

  // ----- giving memory back -----

  /** Where freemem's walk stops: the first block at or above address a. */
  function Position(s: seq<Blk>, a: nat): (i: nat)
    ensures i <= |s| && (i < |s| ==> s[i].addr >= a) && forall j | 0 <= j < i :: s[j].addr < a
  {
    if s == [] || s[0].addr >= a then 0 else 1 + Position(s[1..], a)
  }

  /** The check against the two neighbours. */
  predicate Fits(s: seq<Blk>, a: nat, n: nat) {
    var i := Position(s, a);
    (i > 0 ==> End(s[i - 1]) <= a) && (i < |s| ==> a + n <= s[i].addr)
  }

  /** The blocks from Lower to Upper are replaced by one: a neighbour that touches
      the given block is absorbed. */
  function Lower(s: seq<Blk>, a: nat): (lo: nat)
    ensures lo <= Position(s, a)
  {
    var i := Position(s, a);
    if i > 0 && End(s[i - 1]) == a then i - 1 else i
  }

  function Upper(s: seq<Blk>, a: nat, n: nat): (hi: nat)
    ensures Position(s, a) <= hi <= |s|
  {
    var i := Position(s, a);
    if i < |s| && a + n == s[i].addr then i + 1 else i
  }

  function Union(s: seq<Blk>, a: nat, n: nat): Blk {
    var i := Position(s, a);
    var start := if Lower(s, a) < i then s[i - 1].addr else a;
    var end := if Upper(s, a, n) > i then End(s[i]) else a + n;
    Blk(start, if start <= end then end - start else 0)
  }

  function Merged(s: seq<Blk>, a: nat, n: nat): seq<Blk> {
    s[..Lower(s, a)] + [Union(s, a, n)] + s[Upper(s, a, n)..]
  }

  function FreeMem(s: seq<Blk>, minheap: nat, maxheap: nat, a: nat, nbytes: nat): (seq<Blk>, int) {
    if nbytes == 0 || a < minheap || a > maxheap || !Fits(s, a, RoundMb(nbytes)) then (s, SYSERR)
    else (Merged(s, a, RoundMb(nbytes)), 1)
  }

  /** Checking two neighbours is enough: the check passes just when no byte of the
      block is free. */
  lemma FitsDisjoint(s: seq<Blk>, a: nat, n: nat)
    requires Canonical(s) && n > 0
    ensures Fits(s, a, n) <==> forall x | a <= x < a + n :: !FreeAt(s, x)
  {
    var i := Position(s, a);
    if Fits(s, a, n) {
      forall x | a <= x < a + n ensures !FreeAt(s, x) {
        forall j | 0 <= j < |s| ensures !In(s[j], x) {
        }
      }
    } else if i > 0 && End(s[i - 1]) > a {
      assert In(s[i - 1], a) && FreeAt(s, a);
    } else {
      assert In(s[i], s[i].addr) && FreeAt(s, s[i].addr);
    }
  }

  /** The bytes of given join the free list and no others do. */
  ghost predicate Given(s: seq<Blk>, t: seq<Blk>, given: Blk) {
    Canonical(t) && forall x :: FreeAt(t, x) <==> FreeAt(s, x) || In(given, x)
  }

  /** The merged block keeps clear of the blocks that stay. */
  lemma UnionApart(s: seq<Blk>, a: nat, n: nat)
    requires Canonical(s) && n > 0 && Fits(s, a, n)
    ensures var u, lo, hi := Union(s, a, n), Lower(s, a), Upper(s, a, n);
      && lo <= hi <= lo + 2
      && (forall j | 0 <= j < lo :: End(s[j]) < u.addr) && (forall j | hi <= j < |s| :: End(u) < s[j].addr)
  {
    hide FreeAt, In;
  }

  lemma MergedAt(s: seq<Blk>, a: nat, n: nat)
    requires Canonical(s) && n > 0 && Fits(s, a, n)
    ensures var t, lo, hi := Merged(s, a, n), Lower(s, a), Upper(s, a, n);
      && |t| == lo + 1 + |s| - hi && lo <= hi <= lo + 2 && t[lo] == Union(s, a, n)
      && (forall j | 0 <= j < |t| && j != lo :: t[j] == s[if j < lo then j else j - lo - 1 + hi])
      && (forall j | 0 <= j < lo :: End(s[j]) < t[lo].addr)
      && (forall j | hi <= j < |s| :: End(t[lo]) < s[j].addr)
  {
    hide Canonical, Fits, Union, Lower, Upper, Position;
    UnionApart(s, a, n);
    SplicedAt(s, Lower(s, a), Union(s, a, n), Upper(s, a, n));
  }

  lemma SplicedAt(s: seq<Blk>, lo: nat, u: Blk, hi: nat)
    requires lo <= hi <= |s|
    ensures var t := s[..lo] + [u] + s[hi..];
      && |t| == lo + 1 + |s| - hi && t[lo] == u
      && forall j | 0 <= j < |t| && j != lo :: t[j] == s[if j < lo then j else j - lo - 1 + hi]
  {
  }

  lemma UnionBytes(s: seq<Blk>, a: nat, n: nat)
    requires Canonical(s) && n > 0 && Fits(s, a, n)
    ensures var lo, hi := Lower(s, a), Upper(s, a, n);
      forall x :: In(Union(s, a, n), x) <==>
                  In(Blk(a, n), x) || (lo < hi && In(s[lo], x)) || (lo + 1 < hi && In(s[lo + 1], x))
  {
  }

  lemma UnionLength(s: seq<Blk>, a: nat, n: nat)
    requires Canonical(s) && n > 0 && Fits(s, a, n)
    ensures var lo, hi := Lower(s, a), Upper(s, a, n);
      Union(s, a, n).len == n + (if lo < hi then s[lo].len else 0) + (if lo + 1 < hi then s[lo + 1].len else 0)
  {
  }

  lemma Multiples(x: nat, y: nat, z: nat)
    requires x % 8 == 0 && y % 8 == 0 && z % 8 == 0
    ensures (x + y + z) % 8 == 0
  {
  }

  lemma UnionMultiple(s: seq<Blk>, a: nat, n: nat)
    requires Canonical(s) && n > 0 && n % 8 == 0 && Fits(s, a, n)
    ensures Union(s, a, n).len > 0 && Union(s, a, n).len % 8 == 0
  {
    hide FreeAt, Position, Fits, Union, Lower, Upper, In, Merged;
    UnionApart(s, a, n);
    UnionLength(s, a, n);
    var lo, hi := Lower(s, a), Upper(s, a, n);
    Multiples(n, if lo < hi then s[lo].len else 0, if lo + 1 < hi then s[lo + 1].len else 0);
  }

  lemma MergedCanonical(s: seq<Blk>, a: nat, n: nat)
    requires Canonical(s) && n > 0 && n % 8 == 0 && Fits(s, a, n)
    ensures Canonical(Merged(s, a, n))
  {
    hide FreeAt, Position, Fits, Union, Lower, Upper, In, Merged;
    MergedAt(s, a, n);
    UnionMultiple(s, a, n);
    var t, lo, hi := Merged(s, a, n), Lower(s, a), Upper(s, a, n);
    forall i, j | 0 <= i < j < |t| ensures End(t[i]) < t[j].addr {
      if i != lo && j != lo {
        assert End(s[if i < lo then i else i - lo - 1 + hi]) < s[if j < lo then j else j - lo - 1 + hi].addr;
      }
    }
  }

  lemma MergedGiven(s: seq<Blk>, a: nat, n: nat)
    requires Canonical(s) && n > 0 && n % 8 == 0 && Fits(s, a, n)
    ensures Given(s, Merged(s, a, n), Blk(a, n))
  {
    hide Position, Fits, Union, Lower, Upper, Merged, Canonical;
    MergedCanonical(s, a, n);
    MergedAt(s, a, n);
    UnionBytes(s, a, n);
    var t, lo, hi := Merged(s, a, n), Lower(s, a), Upper(s, a, n);
    forall x ensures FreeAt(t, x) <==> FreeAt(s, x) || In(Blk(a, n), x) {
      if FreeAt(t, x) && !In(Blk(a, n), x) {
        var j :| 0 <= j < |t| && In(t[j], x);
        if j > lo { assert t[j] == s[j - lo - 1 + hi]; }
      }
      if FreeAt(s, x) {
        var j :| 0 <= j < |s| && In(s[j], x);
        assert In(t[if j < lo then j else if j < hi then lo else j - hi + lo + 1], x);
      }
      if In(Blk(a, n), x) { assert In(t[lo], x); }
    }
  }

  /** freemem accepts a block just when it starts inside the heap and no byte of it is
      free; then exactly its bytes become free, and otherwise nothing changes. */
  lemma FreeMemGives(s: seq<Blk>, minheap: nat, maxheap: nat, a: nat, nbytes: nat)
    requires Canonical(s)
    ensures var (t, r) := FreeMem(s, minheap, maxheap, a, nbytes);
      if nbytes > 0 && minheap <= a <= maxheap && forall x | a <= x < a + RoundMb(nbytes) :: !FreeAt(s, x)
      then r == 1 && Given(s, t, Blk(a, RoundMb(nbytes)))
      else r == SYSERR && t == s
  {
    hide Canonical, FreeAt, Given, Merged, Fits;
    if nbytes > 0 {
      FitsDisjoint(s, a, RoundMb(nbytes));
      if Fits(s, a, RoundMb(nbytes)) { MergedGiven(s, a, RoundMb(nbytes)); }
    }
  }

  // ----- undoing -----

  /** Every block lies in the heap. */
  ghost predicate Within(s: seq<Blk>, minheap: nat, maxheap: nat) {
    forall i | 0 <= i < |s| :: minheap <= s[i].addr && End(s[i]) <= maxheap
  }

  /** Giving back what was taken restores the list exactly. */
  lemma TakenGiven(s: seq<Blk>, t: seq<Blk>, taken: Blk, minheap: nat, maxheap: nat)
    requires Canonical(s) && Within(s, minheap, maxheap) && Taken(s, t, taken) && taken.len % 8 == 0
    ensures FreeMem(t, minheap, maxheap, taken.addr, taken.len) == (s, 1)
  {
    hide Canonical, FreeAt, Within, Merged, Fits;
    FitsDisjoint(t, taken.addr, taken.len);
    assert In(taken, taken.addr);
    FreeWithin(s, minheap, maxheap, taken.addr);
    MergedGiven(t, taken.addr, taken.len);
    OneFreeList(Merged(t, taken.addr, taken.len), s);
  }

  lemma FreeWithin(s: seq<Blk>, minheap: nat, maxheap: nat, x: int)
    requires Within(s, minheap, maxheap) && FreeAt(s, x)
    ensures minheap <= x < maxheap
  {
  }

  lemma RoundTwice(n: nat)
    ensures RoundMb(RoundMb(n)) == RoundMb(n)
  {
  }

  /** getmem then freemem, and getstk then freestk, leave the list as it was. */
  lemma GetThenFree(s: seq<Blk>, minheap: nat, maxheap: nat, nbytes: nat)
    requires Canonical(s) && Within(s, minheap, maxheap)
    ensures var (t, a) := GetMem(s, nbytes);
      a >= 0 ==> FreeMem(t, minheap, maxheap, a, nbytes) == (s, 1)
    ensures var (t, a) := GetStk(s, nbytes);
      a >= 0 ==>
        && a - RoundMb(nbytes) + 4 >= 0
        && FreeMem(t, minheap, maxheap, a - RoundMb(nbytes) + 4, RoundMb(nbytes)) == (s, 1)
  {
    hide Canonical, Within, Taken, GetMem, GetStk, Position, Fits, Merged, RoundMb;
    GetMemTakes(s, nbytes);
    GetStkTakes(s, nbytes);
    RoundTwice(nbytes);
    var (t, a) := GetMem(s, nbytes);
    if a >= 0 { TakenGiven(s, t, Blk(a, RoundMb(nbytes)), minheap, maxheap); }
    var (t', a') := GetStk(s, nbytes);
    if a' >= 0 { TakenGiven(s, t', Blk(a' + 4 - RoundMb(nbytes), RoundMb(nbytes)), minheap, maxheap); }
  }

  // ----- what freemem does not check -----

  lemma UnionEnd(s: seq<Blk>, a: nat, n: nat, minheap: nat, maxheap: nat)
    requires Canonical(s) && Within(s, minheap, maxheap) && n > 0 && Fits(s, a, n) && minheap <= a
    ensures var u := Union(s, a, n); minheap <= u.addr && a + n <= End(u) && (End(u) <= maxheap <==> a + n <= maxheap)
  {
  }

  /** freemem checks where a block starts, not where it ends: accepted blocks keep
      the free list inside the heap just when they end inside it. */
  lemma FreedWithin(s: seq<Blk>, minheap: nat, maxheap: nat, a: nat, nbytes: nat)
    requires Canonical(s) && Within(s, minheap, maxheap) && FreeMem(s, minheap, maxheap, a, nbytes).1 == 1
    ensures Within(FreeMem(s, minheap, maxheap, a, nbytes).0, minheap, maxheap) <==> a + RoundMb(nbytes) <= maxheap
  {
    hide Canonical, Lower, Upper, Position, Fits, Merged, RoundMb, Union;
    var n := RoundMb(nbytes);
    UnionEnd(s, a, n, minheap, maxheap);
    MergedAt(s, a, n);
    var t, lo, hi := Merged(s, a, n), Lower(s, a), Upper(s, a, n);
    assert End(t[lo]) >= a + n;
    assert forall j | 0 <= j < |t| && j != lo :: minheap <= t[j].addr && End(t[j]) <= maxheap;
  }

  /** Nor does it check alignment: addresses stay multiples of 8 just when the
      block starts at one. */
  lemma FreedAligned(s: seq<Blk>, minheap: nat, maxheap: nat, a: nat, nbytes: nat)
    requires Canonical(s) && FreeMem(s, minheap, maxheap, a, nbytes).1 == 1
    requires forall i | 0 <= i < |s| :: s[i].addr % 8 == 0
    ensures (forall i | 0 <= i < |FreeMem(s, minheap, maxheap, a, nbytes).0| ::
               FreeMem(s, minheap, maxheap, a, nbytes).0[i].addr % 8 == 0) <==> a % 8 == 0
  {
    hide Canonical, Union, Lower, Upper, Position, Fits, Merged, RoundMb;
    var n := RoundMb(nbytes);
    UnionStart(s, a, n);
    MergedAt(s, a, n);
    var t, lo, hi := Merged(s, a, n), Lower(s, a), Upper(s, a, n);
    assert forall j | 0 <= j < |t| && j != lo :: t[j].addr % 8 == 0;
    assert t[lo].addr % 8 == 0 <==> a % 8 == 0;
  }

  lemma UnionStart(s: seq<Blk>, a: nat, n: nat)
    requires Canonical(s) && n > 0 && Fits(s, a, n) && forall i | 0 <= i < |s| :: s[i].addr % 8 == 0
    ensures Union(s, a, n).addr % 8 == 0 <==> a % 8 == 0
  {
    var i := Position(s, a);
    if i > 0 { SumMultiple(s[i - 1].addr, s[i - 1].len); }
  }

  lemma SumMultiple(x: nat, y: nat)
    requires x % 8 == 0 && y % 8 == 0
    ensures (x + y) % 8 == 0
  {
  }

  lemma FreedOutside()
    ensures var s := [Blk(8, 40)]; FreeMem(s, 8, 64, 64, 16) == ([Blk(8, 40), Blk(64, 16)], 1)
    ensures var s := [Blk(8, 40)]; FreeMem(s, 8, 64, 51, 8) == ([Blk(8, 40), Blk(51, 8)], 1)
  {
    var s := [Blk(8, 40)];
    assert Position(s, 64) == 1 && Position(s, 51) == 1;
    assert RoundMb(16) == 16 && RoundMb(8) == 8;
    assert Merged(s, 64, 16) == [Blk(8, 40), Blk(64, 16)];
    assert Merged(s, 51, 8) == [Blk(8, 40), Blk(51, 8)];
  }

  // ----- the total -----

  lemma {:induction false} TotalSplit(s: seq<Blk>, t: seq<Blk>)
    ensures Total(s + t) == Total(s) + Total(t)
  {
    if s == [] {
      assert s + t == t;
    } else {
      TotalSplit(s[1..], t);
      assert (s + t)[1..] == s[1..] + t;
    }
  }

  lemma TotalReplaced(l: seq<Blk>, m: seq<Blk>, m': seq<Blk>, r: seq<Blk>)
    ensures Total(l + m' + r) - Total(l + m + r) == Total(m') - Total(m)
  {
    TotalSplit(l + m, r);
    TotalSplit(l + m', r);
    TotalSplit(l, m);
    TotalSplit(l, m');
  }

  lemma TotalAt(s: seq<Blk>, i: nat, m: seq<Blk>)
    requires i < |s|
    ensures Total(s[..i] + m + s[i + 1..]) == Total(s) - s[i].len + Total(m)
  {
    assert s == s[..i] + [s[i]] + s[i + 1..];
    TotalReplaced(s[..i], [s[i]], m, s[i + 1..]);
  }

  /** The total moves by exactly what is taken or given. */
  lemma TotalCut(s: seq<Blk>, i: nat, n: nat)
    requires i < |s| && n <= s[i].len
    ensures Total(CutBottom(s, i, n)) == Total(s) - n && Total(CutTop(s, i, n)) == Total(s) - n
  {
    if s[i].len == n {
      assert Removed(s, i) == s[..i] + [] + s[i + 1..];
      TotalAt(s, i, []);
    } else {
      var b, c := Blk(s[i].addr + n, s[i].len - n), Blk(s[i].addr, s[i].len - n);
      assert s[i := b] == s[..i] + [b] + s[i + 1..] && s[i := c] == s[..i] + [c] + s[i + 1..];
      TotalAt(s, i, [b]);
      TotalAt(s, i, [c]);
    }
  }

  lemma TotalMerged(s: seq<Blk>, a: nat, n: nat)
    requires Canonical(s) && n > 0 && Fits(s, a, n)
    ensures Total(Merged(s, a, n)) == Total(s) + n
  {
    hide Canonical, Fits, Union, Lower, Upper, Position;
    MergedAt(s, a, n);
    UnionLength(s, a, n);
    var lo, hi := Lower(s, a), Upper(s, a, n);
    assert s == s[..lo] + s[lo..hi] + s[hi..];
    TotalReplaced(s[..lo], s[lo..hi], [Union(s, a, n)], s[hi..]);
    assert s[lo..hi] == if lo == hi then [] else if lo + 1 == hi then [s[lo]] else [s[lo]] + [s[lo + 1]];
    if lo + 1 < hi { TotalSplit([s[lo]], [s[lo + 1]]); }
  }
}
