/** Counting blocks: the size of a file decides how many it has, and the sizes of
    all files decide how many are free. */
module LfsSizes {
  import opened LfsFormat
  import opened LfsModel

  function Total(lists: seq<seq<nat>>): nat {
    if lists == [] then 0 else Total(lists[..|lists| - 1]) + |lists[|lists| - 1]|
  }

  ghost function Elems(l: seq<nat>): set<nat> { set x | x in l }

  ghost function Joined(free: seq<nat>, lists: seq<seq<nat>>): set<nat> {
    if lists == [] then Elems(free) else Joined(free, lists[..|lists| - 1]) + Elems(lists[|lists| - 1])
  }

  lemma {:induction false} ElemsSize(l: seq<nat>)
    requires NoDup(l)
    ensures |Elems(l)| == |l|
  {
    if l != [] {
      var rest, x := l[..|l| - 1], l[|l| - 1];
      ElemsSize(rest);
      assert Elems(l) == Elems(rest) + {x} && x !in Elems(rest);
    }
  }

  lemma {:induction false} JoinedSize(lo: nat, hi: nat, owner: seq<int>, free: seq<nat>, lists: seq<seq<nat>>, n: nat)
    requires Placed(lo, hi, owner, free, lists) && n <= |lists|
    ensures |Joined(free, lists[..n])| == |free| + Total(lists[..n])
    ensures forall x | x in Joined(free, lists[..n]) :: lo <= x < hi && owner[x] < n
  {
    if n == 0 {
      ElemsSize(free);
    } else {
      JoinedSize(lo, hi, owner, free, lists, n - 1);
      ElemsSize(lists[n - 1]);
      assert lists[..n][..n - 1] == lists[..n - 1];
      assert Joined(free, lists[..n - 1]) !! Elems(lists[n - 1]);
    }
  }

  lemma {:induction false} JoinedMember(free: seq<nat>, lists: seq<seq<nat>>, x: nat)
    ensures x in Joined(free, lists) <==> x in free || exists f | 0 <= f < |lists| :: x in lists[f]
  {
    if lists != [] {
      var last := |lists| - 1;
      JoinedMember(free, lists[..last], x);
      assert forall f | 0 <= f < last :: lists[..last][f] == lists[f];
    }
  }

  /** No block of the area is lost: the free ones and those of all files are as many
      as there are. */
  lemma OwnedCount(lo: nat, hi: nat, owner: seq<int>, free: seq<nat>, lists: seq<seq<nat>>)
    requires Owned(lo, hi, owner, free, lists)
    ensures |free| + Total(lists) == hi - lo
  {
    JoinedSize(lo, hi, owner, free, lists, |lists|);
    assert lists[..|lists|] == lists;
    forall x | lo <= x < hi ensures x in Joined(free, lists) {
      JoinedMember(free, lists, x);
    }
    var all: seq<nat> := seq(hi - lo, i requires 0 <= i => lo + i);
    forall x | lo <= x < hi ensures x in all {
      assert all[x - lo] == x;
    }
    assert Joined(free, lists) == Elems(all);
    ElemsSize(all);
  }

  /** The blocks that n bytes need, per bytes to a block. */
  function Units(n: nat, per: nat): nat
    requires per > 0
  {
    (n + per - 1) / per
  }

  /** The blocks that the files other than f take. */
  function Taken(contents: seq<seq<byte>>, f: nat, per: nat): nat
    requires per > 0
  {
    if contents == [] then 0 else
    var last := |contents| - 1;
    Taken(contents[..last], f, per) + if last == f then 0 else Units(|contents[last]|, per)
  }

  lemma TightUnits(n: nat, units: nat, per: nat)
    requires per > 0 && Tight(n, units, per)
    ensures units == Units(n, per)
  {
    var m := n + per - 1;
    assert m == per * units + (m - per * units) && 0 <= m - per * units < per;
    DivUnique(m, units, per);
  }

  lemma DivUnique(m: nat, q: nat, per: nat)
    requires per > 0 && 0 <= m - per * q < per
    ensures m / per == q
  {
    var d := m / per - q;
    assert per * d == per * (m / per) - per * q;
    assert 0 - per < per * d < per;
  }

  lemma {:induction false} TotalTaken(lists: seq<seq<nat>>, contents: seq<seq<byte>>, f: nat, per: nat)
    requires |lists| == |contents| && per > 0
    requires forall h | 0 <= h < |lists| :: Tight(|contents[h]|, |lists[h]|, per)
    ensures Total(lists) == Taken(contents, f, per) + if f < |lists| then |lists[f]| else 0
    decreases |lists|
  {
    hide Tight, Units;
    if lists != [] {
      var last := |lists| - 1;
      TotalTaken(lists[..last], contents[..last], f, per);
      TightUnits(|contents[last]|, |lists[last]|, per);
    }
  }

  /** The size at which file f cannot grow any more, on a disk with so many index
      blocks and data blocks, from the sizes of the other files. */
  function FileCap(iblks: int, dblks: int, contents: seq<seq<byte>>, f: nat): int {
    var data, index := 512 * (dblks - Taken(contents, f, 512)), 8192 * (iblks - Taken(contents, f, 8192));
    if data < index then data else index
  }

  lemma TightChain(n: nat, blocks: nat, chain: nat)
    requires Tight(n, blocks, 512) && Tight(blocks, chain, 16)
    ensures Tight(n, chain, 8192)
  {
  }

  lemma FileSizes(ib: seq<IBlock>, sec: seq<Sector>, dir: Dir, g: Layout, h: nat)
    requires Volume(ib, sec, dir, g, -1) && h < |g.contents|
    ensures |g.chains| == |g.blocks| == |g.contents|
    ensures Tight(|g.contents[h]|, |g.blocks[h]|, 512) && Tight(|g.contents[h]|, |g.chains[h]|, 8192)
  {
    hide Tight, FileBody, Lists, Owned;
    assert Sized(dir.files[h].size, g.chains[h], g.blocks[h], g.contents[h]);
    TightChain(|g.contents[h]|, |g.blocks[h]|, |g.chains[h]|);
  }

  /** How many blocks are free or in file f. */
  lemma RoomSizes(ib: seq<IBlock>, sec: seq<Sector>, dir: Dir, g: Layout, f: nat)
    requires Volume(ib, sec, dir, g, -1)
    ensures |g.chains| == |g.blocks| == |g.contents|
    ensures |g.dfree| + (if f < |g.blocks| then |g.blocks[f]| else 0)
         == |sec| - DataArea(ib) - Taken(g.contents, f, 512)
    ensures |g.ifree| + (if f < |g.chains| then |g.chains[f]| else 0) == |ib| - Taken(g.contents, f, 8192)
  {
    assert Shape(ib, sec, dir, g);
    forall h | 0 <= h < |g.contents|
      ensures Tight(|g.contents[h]|, |g.blocks[h]|, 512) && Tight(|g.contents[h]|, |g.chains[h]|, 8192)
    {
      FileSizes(ib, sec, dir, g, h);
    }
    hide Volume, Owned, Tight, Taken, Total;
    OwnedCount(0, |ib|, g.iowner, g.ifree, g.chains);
    OwnedCount(DataArea(ib), |sec|, g.downer, g.dfree, g.blocks);
    TotalTaken(g.chains, g.contents, f, 8192);
    TotalTaken(g.blocks, g.contents, f, 512);
  }
}
