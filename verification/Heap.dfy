/** getmem, getstk and freemem on the linked free list itself: each free block
    holds the address of the next one and its own length. */
module HeapList {
  import opened HeapModel
  import HeapRuns

  const NULL := 0
  const OK := 1
  const WORD_MAX := 0xFFFF_FFFF

  /** Stands for the address of memlist, the head of the list. */
  const MEMLIST := -1

  type Words = map<int, int>

  /** The nodes of the list: the head, then the blocks. */
  function NodeAt(s: seq<Blk>, i: nat): int
    requires i <= |s|
  {
    if i == 0 then MEMLIST else s[i - 1].addr
  }

  function NextAt(s: seq<Blk>, i: nat): int {
    if i < |s| then s[i].addr else NULL
  }

  ghost predicate Ascending(s: seq<Blk>) {
    && (forall i | 0 <= i < |s| :: s[i].addr > 0)
    && (forall i, j | 0 <= i < j < |s| :: s[i].addr < s[j].addr)
  }

  ghost predicate Linked(mnext: Words, mlength: Words, s: seq<Blk>) {
    && Ascending(s)
    && (forall i | 0 <= i <= |s| :: NodeAt(s, i) in mnext && mnext[NodeAt(s, i)] == NextAt(s, i))
    && (forall i | 0 <= i < |s| :: s[i].addr in mlength && mlength[s[i].addr] == s[i].len)
  }

  /** Block i is unlinked. */
  lemma Unlink(mnext: Words, mlength: Words, s: seq<Blk>, i: nat)
    requires Linked(mnext, mlength, s) && i < |s|
    ensures s[i].addr in mnext && Linked(mnext[NodeAt(s, i) := mnext[s[i].addr]], mlength, Removed(s, i))
  {
    hide Removed;
    assert NodeAt(s, i + 1) == s[i].addr;
    var t, mnext' := Removed(s, i), mnext[NodeAt(s, i) := mnext[s[i].addr]];
    RemovedAt(s, i);
    assert Ascending(t);
    hide Ascending;
    forall j | 0 <= j <= |t| ensures NodeAt(t, j) in mnext' && mnext'[NodeAt(t, j)] == NextAt(t, j) {
      var k := if j <= i then j else j + 1;
      assert NodeAt(t, j) == NodeAt(s, k);
      if j < i { NodesDiffer(s, j, i); }
      if j > i { NodesDiffer(s, i, k); }
    }
  }

  /** Block i is replaced by a block at address a inside it. */
  lemma Relink(mnext: Words, mlength: Words, s: seq<Blk>, i: nat, a: nat, len: nat)
    requires Linked(mnext, mlength, s) && i < |s| && s[i].addr < a && (i + 1 < |s| ==> a < s[i + 1].addr)
    ensures s[i].addr in mnext
    ensures Linked(mnext[NodeAt(s, i) := a][a := mnext[s[i].addr]], mlength[a := len], s[i := Blk(a, len)])
  {
    var t := s[i := Blk(a, len)];
    assert NodeAt(s, i + 1) == s[i].addr;
    forall j | 0 <= j <= |t| ensures NodeAt(t, j) == if j == i + 1 then a else NodeAt(s, j) {
    }
  }

  /** Block i changes its length. */
  lemma Resize(mnext: Words, mlength: Words, s: seq<Blk>, i: nat, len: nat)
    requires Linked(mnext, mlength, s) && i < |s|
    ensures Linked(mnext, mlength[s[i].addr := len], s[i := Blk(s[i].addr, len)])
  {
    var t := s[i := Blk(s[i].addr, len)];
    forall j | 0 <= j <= |t| ensures NodeAt(t, j) == NodeAt(s, j) {
    }
  }

  function Inserted(s: seq<Blk>, i: nat, b: Blk): seq<Blk>
    requires i <= |s|
  {
    s[..i] + [b] + s[i..]
  }

  lemma InsertedAt(s: seq<Blk>, i: nat, b: Blk)
    requires i <= |s|
    ensures |Inserted(s, i, b)| == |s| + 1
    ensures forall j | 0 <= j <= |s| :: Inserted(s, i, b)[j] == if j < i then s[j] else if j == i then b else s[j - 1]
  {
  }

  lemma InsertedNodes(s: seq<Blk>, i: nat, b: Blk, j: nat)
    requires i <= |s| && j <= |s| + 1
    ensures |Inserted(s, i, b)| == |s| + 1
    ensures NodeAt(Inserted(s, i, b), j) ==
              if j <= i then NodeAt(s, j) else if j == i + 1 then b.addr else NodeAt(s, j - 1)
    ensures NextAt(Inserted(s, i, b), j) ==
              if j < i then NextAt(s, j) else if j == i then b.addr else NextAt(s, j - 1)
  {
    InsertedAt(s, i, b);
  }

  /** A new block is linked in before block i. */
  lemma LinkNew(mnext: Words, mlength: Words, s: seq<Blk>, i: nat, b: Blk)
    requires Linked(mnext, mlength, s) && i <= |s| && b.addr > 0
    requires (i > 0 ==> s[i - 1].addr < b.addr) && (i < |s| ==> b.addr < s[i].addr)
    ensures Linked(mnext[b.addr := NextAt(s, i)][NodeAt(s, i) := b.addr], mlength[b.addr := b.len], Inserted(s, i, b))
  {
    hide Ascending, NextAt;
    var t := Inserted(s, i, b);
    InsertedAscending(s, i, b);
    InsertedAt(s, i, b);
    var mnext', mlength' := mnext[b.addr := NextAt(s, i)][NodeAt(s, i) := b.addr], mlength[b.addr := b.len];
    assert forall j | 0 <= j < |t| :: t[j].addr in mlength' && mlength'[t[j].addr] == t[j].len;
    hide Inserted;
    forall j | 0 <= j <= |t| ensures NodeAt(t, j) in mnext' && mnext'[NodeAt(t, j)] == NextAt(t, j) {
      InsertedNodes(s, i, b, j);
      if j < i { NodesDiffer(s, j, i); }
      if j > i + 1 { NodesDiffer(s, i, j - 1); }
      if 0 < j <= i { assert NodeAt(s, j) == s[j - 1].addr; }
      if j > i + 1 { assert NodeAt(s, j - 1) == s[j - 2].addr; }
    }
  }

  lemma InsertedAscending(s: seq<Blk>, i: nat, b: Blk)
    requires Ascending(s) && i <= |s| && b.addr > 0
    requires (i > 0 ==> s[i - 1].addr < b.addr) && (i < |s| ==> b.addr < s[i].addr)
    ensures Ascending(Inserted(s, i, b)) && b.addr != NodeAt(s, i)
    ensures (forall k | 0 <= k < i :: s[k].addr < b.addr) && (forall k | i <= k < |s| :: b.addr < s[k].addr)
  {
    var t := Inserted(s, i, b);
    InsertedAt(s, i, b);
    assert forall j | 0 <= j <= |s| :: t[j] == if j < i then s[j] else if j == i then b else s[j - 1];
    assert forall k | 0 <= k < i :: s[k].addr <= s[i - 1].addr < b.addr;
    assert forall k | i <= k < |s| :: b.addr < s[i].addr <= s[k].addr;
  }

  lemma NodesDiffer(s: seq<Blk>, i: nat, j: nat)
    requires Ascending(s) && i < j <= |s|
    ensures NodeAt(s, i) != NodeAt(s, j)
  {
  }

  /** What a walk reads at the head and at block i. */
  lemma AtHead(mnext: Words, mlength: Words, s: seq<Blk>)
    requires Linked(mnext, mlength, s)
    ensures MEMLIST in mnext && mnext[MEMLIST] == NextAt(s, 0) && NodeAt(s, 0) == MEMLIST
  {
    assert NodeAt(s, 0) == MEMLIST;
  }

  lemma AtBlock(mnext: Words, mlength: Words, s: seq<Blk>, i: nat)
    requires Linked(mnext, mlength, s) && i < |s|
    ensures s[i].addr > 0 && NodeAt(s, i + 1) == s[i].addr
    ensures s[i].addr in mnext && mnext[s[i].addr] == NextAt(s, i + 1)
    ensures s[i].addr in mlength && mlength[s[i].addr] == s[i].len
    ensures NodeAt(s, i) in mnext && NodeAt(s, i) != s[i].addr && NextAt(s, i) == s[i].addr
  {
    assert NodeAt(s, i + 1) == s[i].addr;
  }

  lemma AtEnd(mnext: Words, mlength: Words, s: seq<Blk>, i: nat)
    requires Linked(mnext, mlength, s) && i <= |s|
    ensures NextAt(s, i) == NULL <==> i == |s|
    ensures NodeAt(s, i) == MEMLIST <==> i == 0
  {
  }

  /** The head's own length field is not part of the chain. */
  lemma HeadLength(mnext: Words, mlength: Words, s: seq<Blk>, total: int)
    requires Linked(mnext, mlength, s)
    ensures Linked(mnext, mlength[MEMLIST := total], s)
  {
  }

  // ----- taking a block -----

  ghost predicate Counted(mlength: Words, s: seq<Blk>) {
    MEMLIST in mlength && mlength[MEMLIST] == Total(s)
  }

  function Less(mlength: Words, n: int): Words
    requires MEMLIST in mlength
  {
    mlength[MEMLIST := mlength[MEMLIST] - n]
  }

  lemma CutAll(mnext: Words, mlength: Words, s: seq<Blk>, i: nat, n: nat)
    requires Linked(mnext, mlength, s) && Canonical(s) && Counted(mlength, s) && i < |s| && s[i].len == n
    ensures s[i].addr in mnext
    ensures Linked(mnext[NodeAt(s, i) := mnext[s[i].addr]], Less(mlength, n), CutBottom(s, i, n))
    ensures CutBottom(s, i, n) == CutTop(s, i, n)
    ensures Canonical(CutBottom(s, i, n)) && Counted(Less(mlength, n), CutBottom(s, i, n))
  {
    hide Linked, Canonical;
    HeadLength(mnext, mlength, s, mlength[MEMLIST] - n);
    Unlink(mnext, Less(mlength, n), s, i);
    TotalCut(s, i, n);
    RemovedTaken(s, i);
  }

  lemma RoundMultiple(s: seq<Blk>, i: nat, n: nat)
    requires Canonical(s) && i < |s| && n % 8 == 0
    ensures (s[i].len - n) % 8 == 0
  {
  }

  lemma CutInside(s: seq<Blk>, i: nat)
    requires Canonical(s) && i < |s|
    ensures i + 1 < |s| ==> End(s[i]) < s[i + 1].addr
  {
  }

  lemma CutLow(mnext: Words, mlength: Words, s: seq<Blk>, i: nat, n: nat)
    requires Linked(mnext, mlength, s) && Canonical(s) && Counted(mlength, s)
    requires i < |s| && s[i].len > n > 0 && n % 8 == 0
    ensures var a := s[i].addr + n;
      && s[i].addr in mnext && a != MEMLIST
      && Linked(mnext[NodeAt(s, i) := a][a := mnext[s[i].addr]], Less(mlength[a := s[i].len - n], n),
                CutBottom(s, i, n))
      && Canonical(CutBottom(s, i, n)) && Counted(Less(mlength[a := s[i].len - n], n), CutBottom(s, i, n))
  {
    hide Linked, Canonical, Total;
    var a, len := s[i].addr + n, s[i].len - n;
    RoundMultiple(s, i, n);
    CutInside(s, i);
    Relink(mnext, mlength, s, i, a, len);
    ShrunkCanonical(s, i, Blk(a, len));
    HeadLength(mnext[NodeAt(s, i) := a][a := mnext[s[i].addr]], mlength[a := len], s[i := Blk(a, len)],
               mlength[MEMLIST] - n);
    TotalCut(s, i, n);
  }

  lemma CutHigh(mnext: Words, mlength: Words, s: seq<Blk>, i: nat, n: nat)
    requires Linked(mnext, mlength, s) && Canonical(s) && Counted(mlength, s)
    requires i < |s| && s[i].len > n > 0 && n % 8 == 0
    ensures Linked(mnext, Less(mlength[s[i].addr := s[i].len - n], n), CutTop(s, i, n))
    ensures Canonical(CutTop(s, i, n)) && Counted(Less(mlength[s[i].addr := s[i].len - n], n), CutTop(s, i, n))
  {
    hide Linked, Canonical;
    var len := s[i].len - n;
    RoundMultiple(s, i, n);
    Resize(mnext, mlength, s, i, len);
    ShrunkCanonical(s, i, Blk(s[i].addr, len));
    HeadLength(mnext, mlength[s[i].addr := len], s[i := Blk(s[i].addr, len)], mlength[MEMLIST] - n);
    TotalCut(s, i, n);
  }

  // ----- giving a block back -----

  /** The list after the first half of freemem: the block is appended to the one
      before it or linked in. */
  function Placed(s: seq<Blk>, i: nat, a: nat, n: nat): seq<Blk>
    requires i <= |s|
  {
    if i > 0 && End(s[i - 1]) == a then s[i - 1 := Blk(s[i - 1].addr, s[i - 1].len + n)] else Inserted(s, i, Blk(a, n))
  }

  /** Blocks j and j + 1 become one. */
  function Joined(s: seq<Blk>, j: nat): seq<Blk>
    requires j + 1 < |s|
  {
    Removed(s[j := Blk(s[j].addr, s[j].len + s[j + 1].len)], j + 1)
  }

  lemma Join(mnext: Words, mlength: Words, s: seq<Blk>, j: nat)
    requires Linked(mnext, mlength, s) && j + 1 < |s|
    ensures s[j + 1].addr in mnext
    ensures Linked(mnext[s[j].addr := mnext[s[j + 1].addr]], mlength[s[j].addr := s[j].len + s[j + 1].len],
                   Joined(s, j))
  {
    hide Linked;
    Resize(mnext, mlength, s, j, s[j].len + s[j + 1].len);
    var both := s[j].len + s[j + 1].len;
    Unlink(mnext, mlength[s[j].addr := both], s[j := Blk(s[j].addr, both)], j + 1);
  }

  lemma PlaceLeft(mnext: Words, mlength: Words, s: seq<Blk>, i: nat, a: nat, n: nat)
    requires Linked(mnext, mlength, s) && 0 < i <= |s| && End(s[i - 1]) == a
    ensures Linked(mnext, mlength[s[i - 1].addr := s[i - 1].len + n], Placed(s, i, a, n))
  {
    hide Linked;
    Resize(mnext, mlength, s, i - 1, s[i - 1].len + n);
  }

  lemma PlaceNew(mnext: Words, mlength: Words, s: seq<Blk>, i: nat, a: nat, n: nat)
    requires Linked(mnext, mlength, s) && Canonical(s) && a > 0 && i == Position(s, a) && n > 0 && Fits(s, a, n)
    requires i > 0 ==> End(s[i - 1]) != a
    ensures Linked(mnext[a := NextAt(s, i)][NodeAt(s, i) := a], mlength[a := n], Placed(s, i, a, n))
  {
    hide Linked;
    LinkNew(mnext, mlength, s, i, Blk(a, n));
  }

  lemma PlacedAt(s: seq<Blk>, i: nat, a: nat, n: nat)
    requires i <= |s|
    ensures var s1, j := Placed(s, i, a, n), if i > 0 && End(s[i - 1]) == a then i - 1 else i;
      && |s1| > j && s1[j].addr == (if j < i then s[j].addr else a) && End(s1[j]) == a + n
      && s1[..j] == s[..j] && s1[j + 1..] == s[i..] && NextAt(s1, j + 1) == NextAt(s, i)
  {
    if i > 0 && End(s[i - 1]) == a {
    } else {
      InsertedAt(s, i, Blk(a, n));
    }
  }

  lemma JoinedParts(s: seq<Blk>, j: nat)
    requires j + 1 < |s|
    ensures Joined(s, j) == s[..j] + [Blk(s[j].addr, s[j].len + s[j + 1].len)] + s[j + 1..][1..]
  {
  }

  /** After the second half the list is coalesced. */
  lemma PlacedMerged(s: seq<Blk>, a: nat, n: nat)
    requires n > 0 && Fits(s, a, n)
    ensures var i := Position(s, a);
      var s1, j := Placed(s, i, a, n), if i > 0 && End(s[i - 1]) == a then i - 1 else i;
      && |s1| > j && s1[j].addr == (if j < i then s[j].addr else a) && NextAt(s1, j + 1) == NextAt(s, i)
      && Merged(s, a, n) == if j + 1 < |s1| && End(s1[j]) == s1[j + 1].addr then Joined(s1, j) else s1
  {
    hide Placed, Joined, Fits, Position;
    var i := Position(s, a);
    var s1, j := Placed(s, i, a, n), if i > 0 && End(s[i - 1]) == a then i - 1 else i;
    PlacedAt(s, i, a, n);
    assert i < |s| ==> s1[j + 1] == s[i];
    if i < |s| && a + n == s[i].addr {
      JoinedParts(s1, j);
      assert Union(s, a, n) == Blk(s1[j].addr, s1[j].len + s1[j + 1].len);
      assert s[i + 1..] == s1[j + 1..][1..];
    } else {
      assert s1 == s1[..j] + [s1[j]] + s1[j + 1..];
      assert Union(s, a, n) == s1[j];
    }
  }

  lemma FreedOk(s: seq<Blk>, a: nat, n: nat)
    requires Canonical(s) && n > 0 && n % 8 == 0 && Fits(s, a, n)
    ensures Canonical(Merged(s, a, n)) && Total(Merged(s, a, n)) == Total(s) + n
  {
    MergedCanonical(s, a, n);
    TotalMerged(s, a, n);
  }

  class MemList {
    const minheap: nat
    const maxheap: nat
    var mnext: Words
    var mlength: Words
    ghost var free: seq<Blk>

    /** The list is linked as free says, free is canonical, and the head's length
        field is the number of free bytes. */
    ghost predicate Valid()
      reads this
    {
      && 0 < minheap && Linked(mnext, mlength, free) && Canonical(free) && Counted(mlength, free)
    }

    /** sysinit: the whole heap is one free block. */
    constructor (minheap: nat, maxheap: nat)
      requires 0 < minheap < maxheap && (maxheap - minheap) % 8 == 0
      ensures Valid() && this.minheap == minheap && this.maxheap == maxheap
      ensures free == [Blk(minheap, maxheap - minheap)]
    {
      this.minheap := minheap;
      this.maxheap := maxheap;
      mnext := map[MEMLIST := minheap, minheap := NULL];
      mlength := map[MEMLIST := maxheap - minheap, minheap := maxheap - minheap];
      free := [Blk(minheap, maxheap - minheap)];
      new;
      assert NodeAt(free, 0) == MEMLIST && NodeAt(free, 1) == minheap;
    }

    method GetMem(nbytes: nat) returns (r: int)
      requires Valid() && nbytes <= WORD_MAX - 7
      modifies this
      ensures Valid() && (free, r) == HeapModel.GetMem(old(free), nbytes)
    {
      hide Linked, Canonical, CutBottom, Total;
      if nbytes == 0 { return SYSERR; }
      var n := RoundMb(nbytes);
      ghost var i := 0;
      AtHead(mnext, mlength, free);
      var prev, curr := MEMLIST, mnext[MEMLIST];
      while curr != NULL
        invariant Valid() && free == old(free)
        invariant i <= |free| && prev == NodeAt(free, i) && curr == NextAt(free, i)
        invariant forall j | 0 <= j < i :: free[j].len < n
        decreases |free| - i
      {
        AtBlock(mnext, mlength, free, i);
        if mlength[curr] == n {
          CutAll(mnext, mlength, free, i, n);
          mnext := mnext[prev := mnext[curr]];
          mlength := mlength[MEMLIST := mlength[MEMLIST] - n];
          free := CutBottom(free, i, n);
          return curr;
        } else if mlength[curr] > n {
          CutLow(mnext, mlength, free, i, n);
          var leftover := curr + n;
          mnext := mnext[prev := leftover];
          mnext := mnext[leftover := mnext[curr]];
          mlength := mlength[leftover := mlength[curr] - n];
          mlength := mlength[MEMLIST := mlength[MEMLIST] - n];
          free := CutBottom(free, i, n);
          return curr;
        } else {
          prev := curr;
          curr := mnext[curr];
          i := i + 1;
        }
      }
      AtEnd(mnext, mlength, free, i);
      return SYSERR;
    }

    method GetStk(nbytes: nat) returns (r: int)
      requires Valid() && nbytes <= WORD_MAX - 7
      modifies this
      ensures Valid() && (free, r) == HeapModel.GetStk(old(free), nbytes)
    {
      hide Linked, Canonical, CutTop, Total;
      if nbytes == 0 { return SYSERR; }
      var n := RoundMb(nbytes);
      ghost var i, k := 0, -1;
      AtHead(mnext, mlength, free);
      var prev, curr := MEMLIST, mnext[MEMLIST];
      var fits, fitsprev := NULL, NULL;
      while curr != NULL
        invariant Valid() && free == old(free)
        invariant i <= |free| && prev == NodeAt(free, i) && curr == NextAt(free, i) && -1 <= k < i
        invariant forall j | k < j < i :: free[j].len < n
        invariant if k < 0 then fits == NULL
                  else fits == free[k].addr > 0 && fitsprev == NodeAt(free, k) && free[k].len >= n
        decreases |free| - i
      {
        AtBlock(mnext, mlength, free, i);
        if mlength[curr] >= n {
          fits := curr;
          fitsprev := prev;
          k := i;
        }
        prev := curr;
        curr := mnext[curr];
        i := i + 1;
      }
      AtEnd(mnext, mlength, free, i);
      if fits == NULL { return SYSERR; }
      AtBlock(mnext, mlength, free, k);
      if n == mlength[fits] {
        CutAll(mnext, mlength, free, k, n);
        mnext := mnext[fitsprev := mnext[fits]];
      } else {
        CutHigh(mnext, mlength, free, k, n);
        mlength := mlength[fits := mlength[fits] - n];
        fits := fits + mlength[fits];
      }
      mlength := mlength[MEMLIST := mlength[MEMLIST] - n];
      free := CutTop(free, k, n);
      return fits + n - 4;
    }

    method FreeMem(blkaddr: nat, nbytes: nat) returns (r: int)
      requires Valid() && nbytes <= WORD_MAX - 7 && blkaddr + RoundMb(nbytes) <= WORD_MAX
      modifies this
      ensures Valid() && (free, r) == HeapModel.FreeMem(old(free), minheap, maxheap, blkaddr, nbytes)
    {
      hide Linked, Canonical, Given, Total, Merged, FreeAt;
      if nbytes == 0 || blkaddr < minheap || blkaddr > maxheap { return SYSERR; }
      var n := RoundMb(nbytes);
      var block := blkaddr;
      ghost var i := 0;
      AtHead(mnext, mlength, free);
      var prev, next := MEMLIST, mnext[MEMLIST];
      while next != NULL && next < block
        invariant Valid() && free == old(free)
        invariant i <= |free| && prev == NodeAt(free, i) && next == NextAt(free, i)
        invariant forall j | 0 <= j < i :: free[j].addr < block
        decreases |free| - i
      {
        AtBlock(mnext, mlength, free, i);
        prev := next;
        next := mnext[next];
        i := i + 1;
      }
      AtEnd(mnext, mlength, free, i);
      if i > 0 { AtBlock(mnext, mlength, free, i - 1); }
      var top := if prev == MEMLIST then NULL else prev + mlength[prev];
      if (prev != MEMLIST && block < top) || (next != NULL && block + n > next) {
        return SYSERR;
      }
      FreeInto(blkaddr, n, prev, next, i);
      return OK;
    }

    /** The part of freemem that links: block a, of n bytes, goes between prev and
        next and is merged with those it touches. */
    method FreeInto(a: nat, n: nat, prev: int, next: int, ghost i: nat)
      requires Valid() && n > 0 && n % 8 == 0 && a > 0 && Fits(free, a, n)
      requires i == Position(free, a) && prev == NodeAt(free, i) && next == NextAt(free, i)
      modifies this
      ensures Valid() && free == Merged(old(free), a, n)
    {
      hide Linked, Canonical, Total, Merged, Fits, Position, Placed, Joined;
      var block := a;
      PlacedMerged(free, a, n);
      FreedOk(free, a, n);
      if i > 0 { AtBlock(mnext, mlength, free, i - 1); }
      AtEnd(mnext, mlength, free, i);
      var top := if prev == MEMLIST then NULL else prev + mlength[prev];
      HeadLength(mnext, mlength, free, mlength[MEMLIST] + n);
      mlength := mlength[MEMLIST := mlength[MEMLIST] + n];
      ghost var s1, j := Placed(free, i, a, n), if top == block then i - 1 else i;
      if top == block {
        PlaceLeft(mnext, mlength, free, i, a, n);
        mlength := mlength[prev := mlength[prev] + n];
        block := prev;
      } else {
        PlaceNew(mnext, mlength, free, i, a, n);
        mnext := mnext[block := next];
        mlength := mlength[block := n];
        mnext := mnext[prev := block];
      }
      JoinNext(block, next, s1, j);
      free := Merged(free, a, n);
    }

    /** A block that touches the next one is merged with it. */
    method JoinNext(block: int, next: int, ghost s: seq<Blk>, ghost j: nat)
      requires Linked(mnext, mlength, s) && MEMLIST in mlength
      requires j < |s| && block == s[j].addr && next == NextAt(s, j + 1)
      modifies this`mnext, this`mlength
      ensures Linked(mnext, mlength, if j + 1 < |s| && End(s[j]) == s[j + 1].addr then Joined(s, j) else s)
      ensures MEMLIST in mlength && mlength[MEMLIST] == old(mlength)[MEMLIST]
    {
      hide Linked, Joined;
      AtBlock(mnext, mlength, s, j);
      AtEnd(mnext, mlength, s, j + 1);
      if block + mlength[block] == next {
        AtBlock(mnext, mlength, s, j + 1);
        Join(mnext, mlength, s, j);
        mlength := mlength[block := mlength[block] + mlength[next]];
        mnext := mnext[block := mnext[next]];
      }
    }

    // ----- any sequence of calls -----

    /** One call; live are the blocks handed out before it, live' those after it. */
    method Do(op: HeapRuns.Op, ghost live: set<Blk>) returns (ghost live': set<Blk>)
      requires Valid() && maxheap <= WORD_MAX && HeapRuns.Tiled(HeapRuns.Heap(free, live), minheap, maxheap)
      requires HeapRuns.Enabled(HeapRuns.Heap(free, live), op) && (!op.Release? ==> op.nbytes <= WORD_MAX - 7)
      modifies this
      ensures Valid()
      ensures HeapRuns.Heap(free, live') == HeapRuns.Apply(HeapRuns.Heap(old(free), live), minheap, maxheap, op)
    {
      hide Linked, Canonical, Counted, HeapRuns.Tiled, RoundMb, FirstFit, LastFit, CutBottom, CutTop, Merged, Fits;
      live' := live;
      match op {
        case Get(n) =>
          var a := GetMem(n);
          if a >= 0 { live' := live + {Blk(a, RoundMb(n))}; }
        case Stack(n) =>
          HeapRuns.StackAddress(free, n);
          var a := GetStk(n);
          if a >= 0 { live' := live + {Blk(a + 4 - RoundMb(n), RoundMb(n))}; }
        case Release(b) =>
          HeapRuns.LiveInside(HeapRuns.Heap(free, live), b, minheap, maxheap);
          var r := FreeMem(b.addr, b.len);
          if r != SYSERR { live' := live - {b}; }
      }
    }

    /** Every sequence of calls on the linked list is the run of the value model, so
        all that is proved of runs holds of it. */
    method DoAll(ops: seq<HeapRuns.Op>, ghost live: set<Blk>) returns (ghost live': set<Blk>)
      requires Valid() && maxheap <= WORD_MAX && HeapRuns.Tiled(HeapRuns.Heap(free, live), minheap, maxheap)
      requires HeapRuns.Legal(HeapRuns.Heap(free, live), minheap, maxheap, ops)
      requires forall i | 0 <= i < |ops| :: !ops[i].Release? ==> ops[i].nbytes <= WORD_MAX - 7
      modifies this
      ensures Valid()
      ensures HeapRuns.Heap(free, live') == HeapRuns.Run(HeapRuns.Heap(old(free), live), minheap, maxheap, ops)
      ensures HeapRuns.Tiled(HeapRuns.Heap(free, live'), minheap, maxheap)
    {
      hide Valid, HeapRuns.Tiled, HeapRuns.Apply;
      live' := live;
      ghost var h0 := HeapRuns.Heap(free, live);
      var i := 0;
      assert ops[0..] == ops;
      while i < |ops|
        invariant 0 <= i <= |ops| && Valid() && HeapRuns.Tiled(HeapRuns.Heap(free, live'), minheap, maxheap)
        invariant HeapRuns.Legal(HeapRuns.Heap(free, live'), minheap, maxheap, ops[i..])
        invariant HeapRuns.Run(HeapRuns.Heap(free, live'), minheap, maxheap, ops[i..])
               == HeapRuns.Run(h0, minheap, maxheap, ops)
      {
        assert ops[i..][0] == ops[i] && ops[i..][1..] == ops[i + 1..];
        HeapRuns.ApplyTiled(HeapRuns.Heap(free, live'), minheap, maxheap, ops[i]);
        live' := Do(ops[i], live');
        i := i + 1;
      }
    }
  }
}
