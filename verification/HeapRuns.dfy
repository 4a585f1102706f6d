/** The heap over whole runs: blocks handed out and free blocks tile it. */
module HeapRuns {
  import opened HeapModel

  /** The free list and the blocks handed out and not yet given back. */
  datatype Heap = Heap(free: seq<Blk>, live: set<Blk>)

  datatype Op = Get(nbytes: nat) | Stack(nbytes: nat) | Release(b: Blk)

  ghost predicate LiveAt(live: set<Blk>, x: int) {
    exists b :: b in live && In(b, x)
  }

  /** Every byte of the heap is in exactly one block, free or live. */
  ghost predicate Tiled(h: Heap, minheap: nat, maxheap: nat) {
    && Canonical(h.free)
    && (forall b | b in h.live :: b.len > 0 && b.len % 8 == 0)
    && (forall b, c, x | b in h.live && c in h.live && In(b, x) && In(c, x) :: b == c)
    && (forall x :: minheap <= x < maxheap <==> FreeAt(h.free, x) || LiveAt(h.live, x))
    && (forall x :: !(FreeAt(h.free, x) && LiveAt(h.live, x)))
  }

  /** The heap as sysinit makes it: one block. */
  function Start(minheap: nat, maxheap: nat): Heap
    requires minheap < maxheap
  {
    Heap([Blk(minheap, maxheap - minheap)], {})
  }

  lemma StartTiled(minheap: nat, maxheap: nat)
    requires minheap < maxheap && (maxheap - minheap) % 8 == 0
    ensures Tiled(Start(minheap, maxheap), minheap, maxheap)
  {
    var s := Start(minheap, maxheap).free;
    forall x ensures FreeAt(s, x) <==> minheap <= x < maxheap {
      assert In(s[0], x) <==> minheap <= x < maxheap;
    }
  }

  predicate Enabled(h: Heap, op: Op) {
    op.Release? ==> op.b in h.live
  }

  function Apply(h: Heap, minheap: nat, maxheap: nat, op: Op): Heap {
    match op
    case Get(n) =>
      var (t, a) := GetMem(h.free, n);
      if a < 0 then h else Heap(t, h.live + {Blk(a, RoundMb(n))})
    case Stack(n) =>
      var (t, a) := GetStk(h.free, n);
      if a < 0 then h else Heap(t, h.live + {Blk(a + 4 - RoundMb(n), RoundMb(n))})
    case Release(b) =>
      var (t, r) := FreeMem(h.free, minheap, maxheap, b.addr, b.len);
      if r == SYSERR then h else Heap(t, h.live - {b})
  }

  lemma TakenTiled(h: Heap, t: seq<Blk>, taken: Blk, minheap: nat, maxheap: nat)
    requires Tiled(h, minheap, maxheap) && Taken(h.free, t, taken) && taken.len % 8 == 0
    ensures Tiled(Heap(t, h.live + {taken}), minheap, maxheap) && taken !in h.live
  {
    hide Canonical, FreeAt, In;
    var live := h.live + {taken};
    forall x ensures LiveAt(live, x) <==> LiveAt(h.live, x) || In(taken, x) {
      if LiveAt(h.live, x) { var b :| b in h.live && In(b, x); assert b in live; }
      if In(taken, x) { assert taken in live; }
    }
    assert In(taken, taken.addr) by { TakenFirst(taken); }
    forall b, x | b in h.live && In(b, x) ensures !In(taken, x) {
      assert LiveAt(h.live, x);
    }
  }

  lemma TakenFirst(b: Blk)
    requires b.len > 0
    ensures In(b, b.addr)
  {
  }

  /** A live block can always be given back, whole, and nothing else changes. */
  lemma ReleaseTiled(h: Heap, b: Blk, minheap: nat, maxheap: nat)
    requires Tiled(h, minheap, maxheap) && b in h.live
    ensures FreeMem(h.free, minheap, maxheap, b.addr, b.len).1 == 1
    ensures Tiled(Apply(h, minheap, maxheap, Release(b)), minheap, maxheap)
    ensures Apply(h, minheap, maxheap, Release(b)).live == h.live - {b}
  {
    hide Canonical, FreeAt, In, Merged, Fits;
    TakenFirst(b);
    assert LiveAt(h.live, b.addr);
    forall x | b.addr <= x < b.addr + b.len ensures !FreeAt(h.free, x) {
      assert In(b, x) by { InRange(b, x); }
      assert LiveAt(h.live, x);
    }
    FitsDisjoint(h.free, b.addr, b.len);
    RoundSame(b.len);
    MergedGiven(h.free, b.addr, b.len);
    var live := h.live - {b};
    forall x ensures LiveAt(live, x) <==> LiveAt(h.live, x) && !In(b, x) {
      if LiveAt(live, x) { var c :| c in live && In(c, x); assert c in h.live; }
      if LiveAt(h.live, x) && !In(b, x) { var c :| c in h.live && In(c, x); assert c in live; }
    }
    forall x ensures In(b, x) ==> LiveAt(h.live, x) {
    }
  }

  /** A live block lies inside the heap and is whole units long. */
  lemma LiveInside(h: Heap, b: Blk, minheap: nat, maxheap: nat)
    requires Tiled(h, minheap, maxheap) && b in h.live
    ensures minheap <= b.addr && b.addr + b.len <= maxheap && RoundMb(b.len) == b.len > 0
  {
    hide Canonical, FreeAt;
    RoundSame(b.len);
    assert In(b, b.addr) && In(b, b.addr + b.len - 1);
    assert LiveAt(h.live, b.addr) && LiveAt(h.live, b.addr + b.len - 1);
  }

  lemma StackAddress(s: seq<Blk>, n: nat)
    ensures GetStk(s, n).1 >= 0 ==> GetStk(s, n).1 + 4 - RoundMb(n) >= 0
  {
  }

  lemma InRange(b: Blk, x: int)
    requires b.addr <= x < b.addr + b.len
    ensures In(b, x)
  {
  }

  lemma RoundSame(n: nat)
    requires n % 8 == 0
    ensures RoundMb(n) == n
  {
  }

  /** Every operation keeps the tiling. */
  lemma ApplyTiled(h: Heap, minheap: nat, maxheap: nat, op: Op)
    requires Tiled(h, minheap, maxheap) && Enabled(h, op)
    ensures Tiled(Apply(h, minheap, maxheap, op), minheap, maxheap)
  {
    hide Tiled, Taken, Canonical, GetMem, GetStk;
    TiledCanonical(h, minheap, maxheap);
    match op
    case Get(n) =>
      GetMemTakes(h.free, n);
      var (t, a) := GetMem(h.free, n);
      if a >= 0 { TakenTiled(h, t, Blk(a, RoundMb(n)), minheap, maxheap); }
    case Stack(n) =>
      GetStkTakes(h.free, n);
      var (t, a) := GetStk(h.free, n);
      if a >= 0 { TakenTiled(h, t, Blk(a + 4 - RoundMb(n), RoundMb(n)), minheap, maxheap); }
    case Release(b) => ReleaseTiled(h, b, minheap, maxheap);
  }

  lemma TiledCanonical(h: Heap, minheap: nat, maxheap: nat)
    requires Tiled(h, minheap, maxheap)
    ensures Canonical(h.free)
  {
  }

  ghost predicate Legal(h: Heap, minheap: nat, maxheap: nat, ops: seq<Op>)
    decreases |ops|
  {
    ops == [] || (Enabled(h, ops[0]) && Legal(Apply(h, minheap, maxheap, ops[0]), minheap, maxheap, ops[1..]))
  }

  function Run(h: Heap, minheap: nat, maxheap: nat, ops: seq<Op>): Heap
    decreases |ops|
  {
    if ops == [] then h else Run(Apply(h, minheap, maxheap, ops[0]), minheap, maxheap, ops[1..])
  }

  lemma {:induction false} RunTiled(h: Heap, minheap: nat, maxheap: nat, ops: seq<Op>)
    requires Tiled(h, minheap, maxheap) && Legal(h, minheap, maxheap, ops)
    ensures Tiled(Run(h, minheap, maxheap, ops), minheap, maxheap)
    decreases |ops|
  {
    if ops != [] {
      ApplyTiled(h, minheap, maxheap, ops[0]);
      RunTiled(Apply(h, minheap, maxheap, ops[0]), minheap, maxheap, ops[1..]);
    }
  }

  /** No byte is in two blocks, be they free or live. */
  lemma OneOwner(h: Heap, minheap: nat, maxheap: nat, b: Blk, c: Blk, x: int)
    requires Tiled(h, minheap, maxheap) && (b in h.free || b in h.live) && (c in h.free || c in h.live)
    requires In(b, x) && In(c, x)
    ensures b == c && minheap <= x < maxheap
  {
    OwnerAt(h, b, x);
    OwnerAt(h, c, x);
    assert FreeAt(h.free, x) || LiveAt(h.live, x);
  }

  lemma OwnerAt(h: Heap, b: Blk, x: int)
    requires In(b, x)
    ensures (b in h.free ==> FreeAt(h.free, x)) && (b in h.live ==> LiveAt(h.live, x))
  {
    if b in h.free {
      var i :| 0 <= i < |h.free| && h.free[i] == b;
      assert In(h.free[i], x);
    }
  }

  lemma OwnerOf(h: Heap, minheap: nat, maxheap: nat, x: int) returns (c: Blk)
    requires Tiled(h, minheap, maxheap) && minheap <= x < maxheap
    ensures (c in h.free || c in h.live) && In(c, x)
  {
    hide Canonical;
    if FreeAt(h.free, x) {
      var i :| 0 <= i < |h.free| && In(h.free[i], x);
      c := h.free[i];
    } else {
      c :| c in h.live && In(c, x);
    }
  }

  lemma WholeUnits(h: Heap, minheap: nat, maxheap: nat, b: Blk)
    requires Tiled(h, minheap, maxheap) && (b in h.free || b in h.live)
    ensures b.len > 0 && b.len % 8 == 0
  {
  }

  /** Unless a block is the first of the heap, one ends where it begins. */
  lemma BlockBefore(h: Heap, minheap: nat, maxheap: nat, b: Blk) returns (c: Blk)
    requires Tiled(h, minheap, maxheap) && (b in h.free || b in h.live) && b.addr != minheap
    ensures (c in h.free || c in h.live) && End(c) == b.addr && c.len > 0 && c.len % 8 == 0
  {
    hide Tiled;
    WholeUnits(h, minheap, maxheap, b);
    OneOwner(h, minheap, maxheap, b, b, b.addr);
    c := OwnerOf(h, minheap, maxheap, b.addr - 1);
    WholeUnits(h, minheap, maxheap, c);
    if In(c, b.addr) { OneOwner(h, minheap, maxheap, b, c, b.addr); }
  }

  /** In a heap that starts at a multiple of 8 every block, free or live, starts at
      one. */
  lemma {:induction false} TiledAligned(h: Heap, minheap: nat, maxheap: nat, b: Blk)
    requires Tiled(h, minheap, maxheap) && minheap % 8 == 0 && (b in h.free || b in h.live)
    ensures b.addr % 8 == 0
    decreases b.addr
  {
    hide Tiled;
    if b.addr != minheap {
      var c := BlockBefore(h, minheap, maxheap, b);
      TiledAligned(h, minheap, maxheap, c);
    }
  }

  /** The free list depends on which blocks are live and on nothing else. */
  lemma LiveDecides(h: Heap, g: Heap, minheap: nat, maxheap: nat)
    requires Tiled(h, minheap, maxheap) && Tiled(g, minheap, maxheap) && h.live == g.live
    ensures h == g
  {
    forall x ensures FreeAt(h.free, x) <==> FreeAt(g.free, x) {
      assert minheap <= x < maxheap <==> FreeAt(h.free, x) || LiveAt(h.live, x);
    }
    OneFreeList(h.free, g.free);
  }

  /** Two runs that leave the same blocks live leave the same free list: the order
      in which blocks were taken or given back leaves no trace. */
  lemma OrderFree(minheap: nat, maxheap: nat, ops: seq<Op>, ops': seq<Op>)
    requires minheap < maxheap && (maxheap - minheap) % 8 == 0
    requires Legal(Start(minheap, maxheap), minheap, maxheap, ops)
    requires Legal(Start(minheap, maxheap), minheap, maxheap, ops')
    requires Run(Start(minheap, maxheap), minheap, maxheap, ops).live
          == Run(Start(minheap, maxheap), minheap, maxheap, ops').live
    ensures Run(Start(minheap, maxheap), minheap, maxheap, ops) == Run(Start(minheap, maxheap), minheap, maxheap, ops')
  {
    var h := Start(minheap, maxheap);
    StartTiled(minheap, maxheap);
    RunTiled(h, minheap, maxheap, ops);
    RunTiled(h, minheap, maxheap, ops');
    LiveDecides(Run(h, minheap, maxheap, ops), Run(h, minheap, maxheap, ops'), minheap, maxheap);
  }

  function Releases(l: seq<Blk>): (ops: seq<Op>)
    ensures |ops| == |l| && forall i | 0 <= i < |l| :: ops[i] == Release(l[i])
  {
    if l == [] then [] else [Release(l[0])] + Releases(l[1..])
  }

  lemma ListMembers(l: seq<Blk>)
    requires l != []
    ensures (set b | b in l) == {l[0]} + (set b | b in l[1..])
    ensures Releases(l)[0] == Release(l[0]) && Releases(l)[1..] == Releases(l[1..])
  {
  }

  /** Giving back distinct live blocks, in whatever order, always succeeds and
      takes exactly them from the live ones. */
  lemma {:induction false} ReleaseMany(h: Heap, minheap: nat, maxheap: nat, l: seq<Blk>)
    requires Tiled(h, minheap, maxheap)
    requires (forall i | 0 <= i < |l| :: l[i] in h.live) && (forall i, j | 0 <= i < j < |l| :: l[i] != l[j])
    ensures Legal(h, minheap, maxheap, Releases(l))
    ensures Run(h, minheap, maxheap, Releases(l)).live == h.live - (set b | b in l)
    ensures Tiled(Run(h, minheap, maxheap, Releases(l)), minheap, maxheap)
    decreases |l|
  {
    hide Tiled, Apply, Releases;
    if l != [] {
      ReleaseTiled(h, l[0], minheap, maxheap);
      var h1 := Apply(h, minheap, maxheap, Release(l[0]));
      ReleaseMany(h1, minheap, maxheap, l[1..]);
      ListMembers(l);
      assert h.live - {l[0]} - (set b | b in l[1..]) == h.live - (set b | b in l);
    }
  }

  /** Giving everything back in any order leaves the single block of the start. */
  lemma ReleaseAll(h: Heap, minheap: nat, maxheap: nat, l: seq<Blk>)
    requires minheap < maxheap && (maxheap - minheap) % 8 == 0 && Tiled(h, minheap, maxheap)
    requires h.live == (set b | b in l) && (forall i, j | 0 <= i < j < |l| :: l[i] != l[j])
    ensures Run(h, minheap, maxheap, Releases(l)) == Start(minheap, maxheap)
  {
    hide Tiled;
    ReleaseMany(h, minheap, maxheap, l);
    StartTiled(minheap, maxheap);
    LiveDecides(Run(h, minheap, maxheap, Releases(l)), Start(minheap, maxheap), minheap, maxheap);
  }
}
