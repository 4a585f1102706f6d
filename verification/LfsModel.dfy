/** What a disk formatted by lfscreate means: free lists, file chains, who owns
    which block, and the bytes each file holds. */
module LfsModel {
  import opened LfsFormat

  ghost predicate NoDup<T>(s: seq<T>) {
    forall i, j | 0 <= i < j < |s| :: s[i] != s[j]
  }

  // ----- ownership of blocks -----

  /** The free list (owner -1) and every file's list f (owner f) stay inside
      [lo, hi), hold only blocks they own, and hold none of them twice. */
  ghost predicate Placed(lo: nat, hi: nat, owner: seq<int>, free: seq<nat>, lists: seq<seq<nat>>) {
    && lo <= hi == |owner|
    && (forall k | 0 <= k < |free| :: lo <= free[k] < hi && owner[free[k]] == -1)
    && (forall f, k | 0 <= f < |lists| && 0 <= k < |lists[f]| :: lo <= lists[f][k] < hi && owner[lists[f][k]] == f)
    && NoDup(free)
    && (forall f | 0 <= f < |lists| :: NoDup(lists[f]))
  }

  /** Every block in [lo, hi) is on the list of its owner. */
  ghost predicate Covered(lo: nat, hi: nat, owner: seq<int>, free: seq<nat>, lists: seq<seq<nat>>)
    requires hi == |owner|
  {
    forall x | lo <= x < hi ::
      -1 <= owner[x] < |lists| && (if owner[x] == -1 then x in free else x in lists[owner[x]])
  }

  /** The free list and the files' lists partition [lo, hi). */
  ghost predicate Owned(lo: nat, hi: nat, owner: seq<int>, free: seq<nat>, lists: seq<seq<nat>>) {
    Placed(lo, hi, owner, free, lists) && Covered(lo, hi, owner, free, lists)
  }

  lemma OwnedPop(lo: nat, hi: nat, owner: seq<int>, free: seq<nat>, lists: seq<seq<nat>>, f: nat)
    requires Owned(lo, hi, owner, free, lists) && free != [] && f < |lists|
    ensures free[0] < |owner|
    ensures Owned(lo, hi, owner[free[0] := f], free[1..], lists[f := lists[f] + [free[0]]])
  {
    var x := free[0];
    var owner', free', lists' := owner[x := f], free[1..], lists[f := lists[f] + [x]];
    forall y | lo <= y < hi
      ensures -1 <= owner'[y] < |lists'| && (if owner'[y] == -1 then y in free' else y in lists'[owner'[y]])
    {
      if y == x {
        assert lists'[f][|lists[f]|] == x;
      } else if owner[y] == -1 {
        var k :| 0 <= k < |free| && free[k] == y;
        assert free'[k - 1] == y;
      } else if owner[y] == f {
        var k :| 0 <= k < |lists[f]| && lists[f][k] == y;
        assert lists'[f][k] == y;
      }
    }
  }

  lemma OwnedPush(lo: nat, hi: nat, owner: seq<int>, free: seq<nat>, lists: seq<seq<nat>>, f: nat)
    requires Owned(lo, hi, owner, free, lists) && f < |lists| && lists[f] != []
    ensures lists[f][0] < |owner|
    ensures Owned(lo, hi, owner[lists[f][0] := -1], [lists[f][0]] + free, lists[f := lists[f][1..]])
  {
    var x := lists[f][0];
    var owner', free', lists' := owner[x := -1], [x] + free, lists[f := lists[f][1..]];
    forall y | lo <= y < hi
      ensures -1 <= owner'[y] < |lists'| && (if owner'[y] == -1 then y in free' else y in lists'[owner'[y]])
    {
      if y != x && owner[y] == f {
        var k :| 0 <= k < |lists[f]| && lists[f][k] == y;
        assert lists'[f][k - 1] == y;
      }
    }
  }

  /** All blocks of file f go to the free list. */
  function Disown(owner: seq<int>, f: int): seq<int> {
    seq(|owner|, i requires 0 <= i < |owner| => if owner[i] == f then -1 else owner[i])
  }

  lemma OwnedSplice(lo: nat, hi: nat, owner: seq<int>, free: seq<nat>, lists: seq<seq<nat>>, f: nat)
    requires Owned(lo, hi, owner, free, lists) && f < |lists|
    ensures Owned(lo, hi, Disown(owner, f), lists[f] + free, lists[f := []])
  {
    var owner', free', lists' := Disown(owner, f), lists[f] + free, lists[f := []];
    forall y | lo <= y < hi
      ensures -1 <= owner'[y] < |lists'| && (if owner'[y] == -1 then y in free' else y in lists'[owner'[y]])
    {
    }
  }

  lemma {:induction false} NoDupBound(lo: nat, hi: nat, s: seq<nat>)
    requires lo <= hi && NoDup(s) && forall k | 0 <= k < |s| :: lo <= s[k] < hi
    ensures |s| <= hi - lo
    decreases hi - lo
  {
    if s != [] {
      assert lo <= s[0] < hi;
      if k :| 0 <= k < |s| && s[k] == lo {
        NoDupBound(lo + 1, hi, s[..k] + s[k + 1..]);
      } else {
        NoDupBound(lo + 1, hi, s);
      }
    }
  }

  // ----- linked lists on disk -----

  /** What the link field of the k-th member of list l holds (INULL == DNULL). */
  function LinkOf(l: seq<nat>, k: nat): int {
    if k + 1 < |l| then l[k + 1] else INULL
  }

  /** l is the list of index blocks that starts at head and follows ib_next. */
  ghost predicate IList(ib: seq<IBlock>, head: word, l: seq<nat>) {
    && (forall k | 0 <= k < |l| :: l[k] < |ib| && l[k] < INULL)
    && head == (if l == [] then INULL else l[0])
    && (forall k {:trigger ib[l[k]]} | 0 <= k < |l| :: ib[l[k]].next == LinkOf(l, k))
  }

  /** l is the list of data sectors that starts at head and follows lf_nextdb. */
  ghost predicate DList(sec: seq<Sector>, head: word, l: seq<nat>) {
    && (forall k | 0 <= k < |l| :: l[k] < |sec| && l[k] < DNULL)
    && head == (if l == [] then DNULL else l[0])
    && (forall k {:trigger sec[l[k]]} | 0 <= k < |l| :: NextDb(sec[l[k]]) == LinkOf(l, k))
  }

  lemma IListTail(ib: seq<IBlock>, ib': seq<IBlock>, head: word, l: seq<nat>)
    requires IList(ib, head, l) && l != [] && |ib'| == |ib|
    requires forall k | 1 <= k < |l| :: ib'[l[k]] == ib[l[k]]
    ensures IList(ib', ib[l[0]].next, l[1..])
  {
    var t := l[1..];
    assert ib[l[0]].next == LinkOf(l, 0);
    forall k | 0 <= k < |t| ensures ib'[t[k]].next == LinkOf(t, k) {
      assert t[k] == l[k + 1] && LinkOf(t, k) == LinkOf(l, k + 1);
    }
  }

  lemma DListTail(sec: seq<Sector>, sec': seq<Sector>, head: word, l: seq<nat>)
    requires DList(sec, head, l) && l != [] && |sec'| == |sec|
    requires forall k | 1 <= k < |l| :: sec'[l[k]] == sec[l[k]]
    ensures DList(sec', NextDb(sec[l[0]]), l[1..])
  {
    var t := l[1..];
    assert NextDb(sec[l[0]]) == LinkOf(l, 0);
    forall k | 0 <= k < |t| ensures NextDb(sec'[t[k]]) == LinkOf(t, k) {
      assert t[k] == l[k + 1] && LinkOf(t, k) == LinkOf(l, k + 1);
    }
  }

  // ----- files -----

  /** The index blocks of a file point at its data blocks in order. */
  ghost predicate Indexed(ib: seq<IBlock>, chain: seq<nat>, blocks: seq<nat>)
    requires forall k | 0 <= k < |chain| :: chain[k] < |ib|
  {
    && |blocks| <= 16 * |chain|
    && (forall b | 0 <= b < |blocks| :: blocks[b] < DNULL)
    && (forall k {:trigger ib[chain[k]]} | 0 <= k < |chain| :: ib[chain[k]].offset == 8192 * k)
    && (forall k, j | 0 <= k < |chain| && 0 <= j < 16 ::
          ib[chain[k]].dba[j] == if 16 * k + j < |blocks| then blocks[16 * k + j] else DNULL)
  }

  /** The data blocks hold content. */
  ghost predicate Holds(sec: seq<Sector>, blocks: seq<nat>, content: seq<byte>) {
    && (forall b | 0 <= b < |blocks| :: blocks[b] < |sec|)
    && |content| <= 512 * |blocks|
    && (forall b, o | 0 <= b < |blocks| && 0 <= o < 512 && 512 * b + o < |content| ::
          sec[blocks[b]][o] == content[512 * b + o])
  }

  ghost predicate FileBody(ib: seq<IBlock>, sec: seq<Sector>, ilist: word,
                           chain: seq<nat>, blocks: seq<nat>, content: seq<byte>) {
    IList(ib, ilist, chain) && Indexed(ib, chain, blocks) && Holds(sec, blocks, content)
  }

  /** The units are exactly enough to hold n items, per to a unit. */
  ghost predicate Tight(n: nat, units: nat, per: nat) {
    per * units < n + per && n <= per * units
  }

  /** A file uses no more blocks than its size needs. */
  ghost predicate Sized(size: nat, chain: seq<nat>, blocks: seq<nat>, content: seq<byte>) {
    size == |content| && Tight(|content|, |blocks|, 512) && Tight(|blocks|, |chain|, 16)
  }

  /** Ghost description of a whole file system: the free lists, the owner of each
      block, and for each file its index chain, data blocks and contents. */
  datatype Layout = Layout(
    ifree: seq<nat>, dfree: seq<nat>, iowner: seq<int>, downer: seq<int>,
    chains: seq<seq<nat>>, blocks: seq<seq<nat>>, contents: seq<seq<byte>>)

  const MAXSECTORS := 0x80_0000   // a disk holds less than 2^32 bytes

  function DataArea(ib: seq<IBlock>): nat { |ib| / 7 + 1 }

  ghost predicate Shape(ib: seq<IBlock>, sec: seq<Sector>, dir: Dir, g: Layout) {
    && 0 < |ib| && |ib| % 7 == 0 && DataArea(ib) <= |sec| <= MAXSECTORS
    && dir.nfiles == |g.chains| == |g.blocks| == |g.contents| <= 20
    && Owned(0, |ib|, g.iowner, g.ifree, g.chains)
    && Owned(DataArea(ib), |sec|, g.downer, g.dfree, g.blocks)
  }

  ghost predicate Lists(ib: seq<IBlock>, sec: seq<Sector>, dir: Dir, g: Layout) {
    IList(ib, dir.ifree, g.ifree) && DList(sec, dir.dfree, g.dfree)
  }

  ghost predicate BodyOf(ib: seq<IBlock>, sec: seq<Sector>, dir: Dir, g: Layout, f: nat)
    requires f < |g.chains| == |g.blocks| == |g.contents| <= 20
  {
    FileBody(ib, sec, dir.files[f].ilist, g.chains[f], g.blocks[f], g.contents[f])
  }

  /** All files except x are complete and use just the blocks their sizes need. */
  ghost predicate FilesExcept(ib: seq<IBlock>, sec: seq<Sector>, dir: Dir, g: Layout, x: int)
    requires |g.chains| == |g.blocks| == |g.contents| <= 20
  {
    forall f | 0 <= f < |g.chains| && f != x ::
      && BodyOf(ib, sec, dir, g, f)
      && Sized(dir.files[f].size, g.chains[f], g.blocks[f], g.contents[f])
  }

  /** The volume invariant.  File x (if it is one) may have more blocks than its
      size needs, which happens between an allocation and the byte that needed it. */
  ghost predicate Volume(ib: seq<IBlock>, sec: seq<Sector>, dir: Dir, g: Layout, x: int) {
    && Shape(ib, sec, dir, g)
    && Lists(ib, sec, dir, g)
    && FilesExcept(ib, sec, dir, g, x)
    && (0 <= x < |g.chains| ==> BodyOf(ib, sec, dir, g, x))
  }

  /** Block numbers never clash with the null pointers. */
  lemma VolumeBounds(ib: seq<IBlock>, sec: seq<Sector>, dir: Dir, g: Layout, x: int)
    requires Volume(ib, sec, dir, g, x)
    ensures |ib| < INULL && DataArea(ib) <= |sec| < DNULL
    ensures dir.nfiles == |g.chains| == |g.blocks| == |g.contents| <= 20
  {
    hide Covered, FilesExcept, Lists, BodyOf;
  }

  /** The free lists are empty exactly when their heads are null. */
  lemma FreeHeads(ib: seq<IBlock>, sec: seq<Sector>, dir: Dir, g: Layout, x: int)
    requires Volume(ib, sec, dir, g, x)
    ensures |g.iowner| == |ib| && |g.downer| == |sec|
    ensures if g.ifree == [] then dir.ifree == INULL else
            dir.ifree == g.ifree[0] < |ib| && dir.ifree != INULL && g.iowner[g.ifree[0]] == -1
    ensures if g.dfree == [] then dir.dfree == DNULL else
            dir.dfree == g.dfree[0] < |sec| && dir.dfree != DNULL && DataArea(ib) <= g.dfree[0]
  {
    hide Covered, FilesExcept, BodyOf;
  }

  lemma BlockInArea(ib: seq<IBlock>, sec: seq<Sector>, dir: Dir, g: Layout, x: int, f: nat, d: nat)
    requires Volume(ib, sec, dir, g, x) && f < |g.blocks| && d in g.blocks[f]
    ensures DataArea(ib) <= d < |sec|
  {
    hide Covered, FilesExcept, Lists, BodyOf;
  }

  // ----- reading a file straight from a disk image -----

  /** Every 72-byte slot after the directory sector, decoded as an index block. */
  function IndexImage(disk: seq<Sector>): (r: seq<IBlock>)
    requires 0 < |disk|
    ensures |r| == 7 * (|disk| - 1)
  {
    seq(7 * (|disk| - 1), i requires 0 <= i < 7 * (|disk| - 1) => IbAt(disk, i))
  }

  /** The index block reached from inum by following n links. */
  function Follow(ib: seq<IBlock>, inum: word, n: nat): word {
    if n == 0 then inum else
    var i := Follow(ib, inum, n - 1);
    if i < |ib| then ib[i].next else INULL
  }

  function FileByte(ib: seq<IBlock>, sec: seq<Sector>, ilist: word, p: nat): byte {
    var i := Follow(ib, ilist, p / 8192);
    if i >= |ib| then 0 else
    var d := ib[i].dba[p % 8192 / 512];
    if d < |sec| then sec[d][p % 512] else 0
  }

  /** The bytes of a file, computed from nothing but the sectors of the disk and
      the size and first index block in its directory entry. */
  function DiskContent(disk: seq<Sector>, e: Entry): seq<byte>
    requires 0 < |disk|
  {
    seq(e.size, p requires 0 <= p < e.size => FileByte(IndexImage(disk), disk, e.ilist, p))
  }

  /** ib is what the index area of the disk decodes to. */
  ghost predicate IndexView(disk: seq<Sector>, ib: seq<IBlock>) {
    && DataArea(ib) <= |disk| && |ib| % 7 == 0
    && (forall i {:trigger IbAt(disk, i)} | 0 <= i < |ib| :: IbAt(disk, i) == ib[i])
  }

  lemma IndexImageView(disk: seq<Sector>, ib: seq<IBlock>)
    requires 0 < |disk| && IndexView(disk, ib)
    ensures |ib| <= |IndexImage(disk)|
    ensures forall i | 0 <= i < |ib| :: IndexImage(disk)[i] == ib[i]
  {
  }

  /** lfibput in terms of the index area. */
  lemma IndexViewPut(disk: seq<Sector>, ib: seq<IBlock>, inum: nat, b: IBlock)
    requires IndexView(disk, ib) && inum < |ib|
    ensures IndexView(PutIb(disk, inum, b), ib[inum := b])
  {
    var disk' := PutIb(disk, inum, b);
    forall i {:trigger IbAt(disk', i)} | 0 <= i < |ib| ensures IbAt(disk', i) == ib[inum := b][i] {
      IbPutGet(disk, inum, b, i);
    }
  }

  lemma IndexViewKept(disk: seq<Sector>, ib: seq<IBlock>, disk': seq<Sector>)
    requires IndexView(disk, ib) && |disk'| == |disk|
    requires forall s | 1 <= s < DataArea(ib) :: disk'[s] == disk[s]
    ensures IndexView(disk', ib)
  {
    forall i {:trigger IbAt(disk', i)} | 0 <= i < |ib| ensures IbAt(disk', i) == ib[i] {
      assert 1 <= Ib2Sect(i) < DataArea(ib);
      assert IbAt(disk, i) == ib[i];
    }
  }

  lemma {:induction false} FollowChain(ib: seq<IBlock>, head: word, chain: seq<nat>, n: nat)
    requires IList(ib, head, chain) && n < |chain|
    ensures Follow(ib, head, n) == chain[n]
  {
    if n > 0 {
      FollowChain(ib, head, chain, n - 1);
      assert ib[chain[n - 1]].next == LinkOf(chain, n - 1);
    }
  }

  /** A position names an index block, a slot in it and a byte of a sector. */
  lemma SplitPosition(p: nat)
    ensures p / 512 == 16 * (p / 8192) + p % 8192 / 512 && p % 8192 / 512 < 16
    ensures p == 512 * (p / 512) + p % 512
    ensures p / 512 / 16 == p / 8192 && p / 512 % 16 == p % 8192 / 512
    ensures p % 8192 == 512 * (p % 8192 / 512) + p % 512
  {
  }

  lemma ByteReadsBack(ib: seq<IBlock>, sec: seq<Sector>, ilist: word, chain: seq<nat>, blocks: seq<nat>,
                      content: seq<byte>, p: nat)
    requires FileBody(ib, sec, ilist, chain, blocks, content) && p < |content|
    ensures FileByte(ib, sec, ilist, p) == content[p]
  {
    var k, j, b, o := p / 8192, p % 8192 / 512, p / 512, p % 512;
    SplitPosition(p);
    assert b < |blocks| && k < |chain|;
    FollowChain(ib, ilist, chain, k);
    assert ib[chain[k]].dba[j] == blocks[b];
    assert sec[blocks[b]][o] == content[512 * b + o];
  }

  /** A file of the volume reads back from the bare disk byte for byte. */
  lemma FileReadsBack(disk: seq<Sector>, ib: seq<IBlock>, e: Entry,
                      chain: seq<nat>, blocks: seq<nat>, content: seq<byte>)
    requires 0 < |disk| && IndexView(disk, ib)
    requires FileBody(ib, disk, e.ilist, chain, blocks, content) && e.size == |content|
    ensures DiskContent(disk, e) == content
  {
    var img := IndexImage(disk);
    IndexImageView(disk, ib);
    assert FileBody(img, disk, e.ilist, chain, blocks, content);
    forall p | 0 <= p < |content| ensures FileByte(img, disk, e.ilist, p) == content[p] {
      ByteReadsBack(img, disk, e.ilist, chain, blocks, content, p);
    }
  }

  // ----- how writes keep the volume -----

  /** Only blocks of file f or of the free lists changed. */
  ghost predicate SameForOthers(ib: seq<IBlock>, sec: seq<Sector>, ib': seq<IBlock>, sec': seq<Sector>,
                                g: Layout, f: nat)
    requires |g.iowner| == |ib| == |ib'| && |g.downer| == |sec| == |sec'|
  {
    && (forall i | 0 <= i < |ib| && g.iowner[i] != -1 && g.iowner[i] != f :: ib'[i] == ib[i])
    && (forall d | 0 <= d < |sec| && g.downer[d] != -1 && g.downer[d] != f :: sec'[d] == sec[d])
  }

  /** Only file f's directory entry and description changed. */
  ghost predicate SameEntries(dir: Dir, g: Layout, dir': Dir, g': Layout, f: nat)
    requires |g.chains| == |g.blocks| == |g.contents| <= 20
  {
    && |g'.chains| == |g'.blocks| == |g'.contents| == |g.chains|
    && (forall h | 0 <= h < |g.chains| && h != f ::
          && dir'.files[h] == dir.files[h] && g'.chains[h] == g.chains[h]
          && g'.blocks[h] == g.blocks[h] && g'.contents[h] == g.contents[h])
  }

  /** Work on file f leaves every other file as it was. */
  lemma OthersKept(ib: seq<IBlock>, sec: seq<Sector>, dir: Dir, g: Layout,
                   ib': seq<IBlock>, sec': seq<Sector>, dir': Dir, g': Layout, f: nat)
    requires Shape(ib, sec, dir, g) && FilesExcept(ib, sec, dir, g, f)
    requires |ib'| == |ib| && |sec'| == |sec| && SameForOthers(ib, sec, ib', sec', g, f)
    requires SameEntries(dir, g, dir', g', f)
    ensures FilesExcept(ib', sec', dir', g', f)
  {
    hide Covered, Sized;
    forall h | 0 <= h < |g.chains| && h != f
      ensures BodyOf(ib', sec', dir', g', h) && dir'.files[h] == dir.files[h]
    {
      assert BodyOf(ib, sec, dir, g, h);
      BodyKept(ib, sec, ib', sec', dir.files[h].ilist, g.chains[h], g.blocks[h], g.contents[h]);
    }
  }

  lemma BodyKept(ib: seq<IBlock>, sec: seq<Sector>, ib': seq<IBlock>, sec': seq<Sector>, ilist: word,
                 chain: seq<nat>, blocks: seq<nat>, content: seq<byte>)
    requires FileBody(ib, sec, ilist, chain, blocks, content)
    requires |ib'| == |ib| && |sec'| == |sec|
    requires forall k | 0 <= k < |chain| :: ib'[chain[k]] == ib[chain[k]]
    requires forall b | 0 <= b < |blocks| :: sec'[blocks[b]] == sec[blocks[b]]
    ensures FileBody(ib', sec', ilist, chain, blocks, content)
  {
  }

  function ClearIb(offset: word): IBlock { IBlock(INULL, offset, seq(16, _ => DNULL)) }

  // -- appending an index block to file f --

  function IbAppended(ib: seq<IBlock>, chain: seq<nat>, x: nat): (r: seq<IBlock>)
    requires x < |ib| && 8192 * |chain| <= 0xFFFF_FFFF && x < INULL
    requires forall k | 0 <= k < |chain| :: chain[k] < |ib|
    ensures |r| == |ib|
    ensures forall i | 0 <= i < |ib| && i != x && (chain == [] || i != chain[|chain| - 1]) :: r[i] == ib[i]
  {
    (if chain == [] then ib else ib[chain[|chain| - 1] := ib[chain[|chain| - 1]].(next := x)])
    [x := ClearIb(8192 * |chain|)]
  }

  function SetEntry(dir: Dir, f: nat, e: Entry): Dir
    requires f < 20
  {
    dir.(files := dir.files[f := e])
  }

  function IndexGrown(g: Layout, f: nat): Layout
    requires f < |g.chains| && g.ifree != [] && g.ifree[0] < |g.iowner|
  {
    g.(ifree := g.ifree[1..], iowner := g.iowner[g.ifree[0] := f],
       chains := g.chains[f := g.chains[f] + [g.ifree[0]]])
  }

  lemma ChainAppended(ib: seq<IBlock>, ilist: word, chain: seq<nat>, blocks: seq<nat>, x: nat)
    requires IList(ib, ilist, chain) && Indexed(ib, chain, blocks) && NoDup(chain)
    requires x < |ib| && x !in chain && 8192 * |chain| <= 0xFFFF_FFFF && x < INULL
    ensures IList(IbAppended(ib, chain, x), if chain == [] then x else ilist, chain + [x])
    ensures Indexed(IbAppended(ib, chain, x), chain + [x], blocks)
  {
    var ib' := IbAppended(ib, chain, x);
    var chain' := chain + [x];
    forall k | 0 <= k < |chain'|
      ensures ib'[chain'[k]].next == LinkOf(chain', k)
      ensures ib'[chain'[k]].offset == 8192 * k
      ensures k < |chain| ==> ib'[chain[k]].dba == ib[chain[k]].dba
    {
    }
  }

  lemma AppendIndexFrame(ib: seq<IBlock>, sec: seq<Sector>, g: Layout, f: nat, c: seq<nat>, x: nat)
    requires |g.iowner| == |ib| && |g.downer| == |sec|
    requires x < |ib| && 8192 * |c| <= 0xFFFF_FFFF && x < INULL && g.iowner[x] == -1
    requires forall k | 0 <= k < |c| :: c[k] < |ib| && g.iowner[c[k]] == f
    ensures SameForOthers(ib, sec, IbAppended(ib, c, x), sec, g, f)
  {
    assert c != [] ==> g.iowner[c[|c| - 1]] == f;
  }

  lemma AppendBlockFrame(ib: seq<IBlock>, sec: seq<Sector>, g: Layout, f: nat, i: nat, j: nat, y: word, fill: Sector)
    requires |g.iowner| == |ib| && |g.downer| == |sec|
    requires i < |ib| && g.iowner[i] == f && j < 16 && y < |sec| && g.downer[y] == -1
    ensures SameForOthers(ib, sec, IbPointed(ib, i, j, y), sec[y := fill], g, f)
  {
  }

  /** The head of the free index list becomes the last index block of file f. */
  ghost predicate AppendsIndex(ib: seq<IBlock>, dir: Dir, g: Layout, f: nat, ib': seq<IBlock>, dir': Dir, g': Layout)
    requires f < |g.chains| <= 20
  {
    var c, e := g.chains[f], dir.files[f];
    && g.ifree != [] && 8192 * |c| <= 0xFFFF_FFFF && (forall k | 0 <= k < |c| :: c[k] < |ib|)
    && var x := g.ifree[0];
       && x < |ib| && x < INULL && x < |g.iowner|
       && ib' == IbAppended(ib, c, x)
       && dir' == SetEntry(dir.(ifree := ib[x].next), f, if c == [] then e.(ilist := x) else e)
       && g' == IndexGrown(g, f)
  }

  lemma AppendIndexLists(ib: seq<IBlock>, sec: seq<Sector>, dir: Dir, g: Layout, f: nat,
                         ib': seq<IBlock>, dir': Dir, g': Layout)
    requires Shape(ib, sec, dir, g) && Lists(ib, sec, dir, g) && f < |g.chains|
    requires AppendsIndex(ib, dir, g, f, ib', dir', g')
    ensures Shape(ib', sec, dir', g') && Lists(ib', sec, dir', g')
  {
    hide Covered, IbAppended;
    assert Lists(ib', sec, dir', g') by {
      var c := g.chains[f];
      assert c != [] ==> g.iowner[c[|c| - 1]] == f;
      assert forall k | 1 <= k < |g.ifree| :: g.ifree[k] != g.ifree[0] && g.iowner[g.ifree[k]] == -1;
      IListTail(ib, ib', dir.ifree, g.ifree);
    }
    hide Owned, Lists;
    OwnedPop(0, |ib|, g.iowner, g.ifree, g.chains, f);
  }

  /** The volume is kept and no file's contents change. */
  lemma VolumeAppendIndex(ib: seq<IBlock>, sec: seq<Sector>, dir: Dir, g: Layout, f: nat,
                          ib': seq<IBlock>, dir': Dir, g': Layout)
    requires Volume(ib, sec, dir, g, f) && f < |g.chains|
    requires AppendsIndex(ib, dir, g, f, ib', dir', g')
    ensures Volume(ib', sec, dir', g', f)
  {
    var x, c := g.ifree[0], g.chains[f];
    AppendIndexLists(ib, sec, dir, g, f, ib', dir', g');
    assert BodyOf(ib, sec, dir, g, f) && NoDup(c) && forall k | 0 <= k < |c| :: g.iowner[c[k]] == f;
    assert g.iowner[x] == -1;
    hide Covered, Sized, Holds, IbAppended, DList, Indexed;
    assert BodyOf(ib', sec, dir', g', f) by {
      ChainAppended(ib, dir.files[f].ilist, c, g.blocks[f], x);
    }
    hide IList;
    AppendIndexFrame(ib, sec, g, f, c, x);
    OthersKept(ib, sec, dir, g, ib', sec, dir', g', f);
  }

  // -- appending a data block to file f --

  function IbPointed(ib: seq<IBlock>, inum: nat, j: nat, y: word): (r: seq<IBlock>)
    requires inum < |ib| && j < 16
    ensures |r| == |ib| && forall x | 0 <= x < |ib| && x != inum :: r[x] == ib[x]
  {
    ib[inum := ib[inum].(dba := ib[inum].dba[j := y])]
  }

  function BlocksGrown(g: Layout, f: nat): Layout
    requires f < |g.blocks| && g.dfree != [] && g.dfree[0] < |g.downer|
  {
    g.(dfree := g.dfree[1..], downer := g.downer[g.dfree[0] := f],
       blocks := g.blocks[f := g.blocks[f] + [g.dfree[0]]])
  }

  lemma BlockAppended(ib: seq<IBlock>, ilist: word, chain: seq<nat>, blocks: seq<nat>, y: word)
    requires IList(ib, ilist, chain) && Indexed(ib, chain, blocks) && NoDup(chain)
    requires |blocks| < 16 * |chain| && y < DNULL
    ensures |blocks| / 16 < |chain|
    ensures var ib' := IbPointed(ib, chain[|blocks| / 16], |blocks| % 16, y);
            IList(ib', ilist, chain) && Indexed(ib', chain, blocks + [y])
  {
    var n := |blocks|;
    var ib' := IbPointed(ib, chain[n / 16], n % 16, y);
    forall k, j | 0 <= k < |chain| && 0 <= j < 16
      ensures ib'[chain[k]].dba[j] == if 16 * k + j < n + 1 then (blocks + [y])[16 * k + j] else DNULL
    {
      if k != n / 16 { assert chain[k] != chain[n / 16]; }
      assert ib[chain[k]].dba[j] == if 16 * k + j < n then blocks[16 * k + j] else DNULL;
    }
    forall k | 0 <= k < |chain| ensures ib'[chain[k]].offset == 8192 * k && ib'[chain[k]].next == ib[chain[k]].next {
    }
  }

  lemma BodyAppendBlock(ib: seq<IBlock>, sec: seq<Sector>, ilist: word, chain: seq<nat>, blocks: seq<nat>,
                        content: seq<byte>, y: nat, fill: Sector)
    requires FileBody(ib, sec, ilist, chain, blocks, content) && NoDup(chain)
    requires |blocks| < 16 * |chain| && y < |sec| && y < DNULL && y !in blocks
    ensures |blocks| / 16 < |chain| && chain[|blocks| / 16] < |ib|
    ensures FileBody(IbPointed(ib, chain[|blocks| / 16], |blocks| % 16, y), sec[y := fill], ilist,
                     chain, blocks + [y], content)
  {
    BlockAppended(ib, ilist, chain, blocks, y);
    var sec' := sec[y := fill];
    assert forall b | 0 <= b < |blocks| :: sec'[blocks[b]] == sec[blocks[b]];
  }

  /** The head of the free data list becomes the next block of file f. */
  ghost predicate AppendsBlock(ib: seq<IBlock>, sec: seq<Sector>, dir: Dir, g: Layout, f: nat, fill: Sector,
                               ib': seq<IBlock>, sec': seq<Sector>, dir': Dir, g': Layout)
    requires f < |g.chains| == |g.blocks|
  {
    var c, n := g.chains[f], |g.blocks[f]|;
    && g.dfree != [] && n < 16 * |c| && c[n / 16] < |ib|
    && var y := g.dfree[0];
       && y < |sec| && y < DNULL && y < |g.downer|
       && ib' == IbPointed(ib, c[n / 16], n % 16, y)
       && sec' == sec[y := fill]
       && dir' == dir.(dfree := NextDb(sec[y]))
       && g' == BlocksGrown(g, f)
  }

  lemma AppendBlockLinks(ib: seq<IBlock>, sec: seq<Sector>, dir: Dir, g: Layout, f: nat, fill: Sector,
                         ib': seq<IBlock>, sec': seq<Sector>, dir': Dir, g': Layout)
    requires Shape(ib, sec, dir, g) && Lists(ib, sec, dir, g) && f < |g.chains|
    requires AppendsBlock(ib, sec, dir, g, f, fill, ib', sec', dir', g')
    ensures Lists(ib', sec', dir', g')
  {
    hide Covered, IbPointed, LinkOf, NextDb;
    var i := g.chains[f][|g.blocks[f]| / 16];
    assert g.iowner[i] == f;
    forall k | 0 <= k < |g.ifree| ensures ib'[g.ifree[k]] == ib[g.ifree[k]] {
      assert g.ifree[k] != i;
    }
    assert IList(ib', dir'.ifree, g'.ifree);
    forall k | 1 <= k < |g.dfree| ensures sec'[g.dfree[k]] == sec[g.dfree[k]] {
      assert g.dfree[k] != g.dfree[0];
    }
    hide Owned, IList;
    DListTail(sec, sec', dir.dfree, g.dfree);
  }

  lemma AppendBlockShape(ib: seq<IBlock>, sec: seq<Sector>, dir: Dir, g: Layout, f: nat, fill: Sector,
                         ib': seq<IBlock>, sec': seq<Sector>, dir': Dir, g': Layout)
    requires Shape(ib, sec, dir, g) && f < |g.chains|
    requires AppendsBlock(ib, sec, dir, g, f, fill, ib', sec', dir', g')
    ensures Shape(ib', sec', dir', g')
  {
    hide Owned, IbPointed, NextDb;
    OwnedPop(DataArea(ib), |sec|, g.downer, g.dfree, g.blocks, f);
  }

  lemma VolumeAppendBlock(ib: seq<IBlock>, sec: seq<Sector>, dir: Dir, g: Layout, f: nat, fill: Sector,
                          ib': seq<IBlock>, sec': seq<Sector>, dir': Dir, g': Layout)
    requires Volume(ib, sec, dir, g, f) && f < |g.chains|
    requires AppendsBlock(ib, sec, dir, g, f, fill, ib', sec', dir', g')
    ensures Volume(ib', sec', dir', g', f)
  {
    var y, c, n := g.dfree[0], g.chains[f], |g.blocks[f]|;
    AppendBlockLinks(ib, sec, dir, g, f, fill, ib', sec', dir', g');
    AppendBlockShape(ib, sec, dir, g, f, fill, ib', sec', dir', g');
    assert BodyOf(ib, sec, dir, g, f) && g.iowner[c[n / 16]] == f;
    hide Covered, Sized, Indexed, Holds, IbPointed, IList, DList;
    assert BodyOf(ib', sec', dir', g', f) by {
      assert forall b | 0 <= b < n :: g.downer[g.blocks[f][b]] == f;
      BodyAppendBlock(ib, sec, dir.files[f].ilist, c, g.blocks[f], g.contents[f], y, fill);
    }
    AppendBlockFrame(ib, sec, g, f, c[n / 16], n % 16, y, fill);
    OthersKept(ib, sec, dir, g, ib', sec', dir', g', f);
  }

  // -- storing one byte of file f --

  function StoredAt(content: seq<byte>, p: nat, ch: byte): seq<byte>
    requires p <= |content|
  {
    if p < |content| then content[p := ch] else content + [ch]
  }

  lemma ByteStored(sec: seq<Sector>, blocks: seq<nat>, content: seq<byte>, p: nat, ch: byte)
    requires Holds(sec, blocks, content) && NoDup(blocks)
    requires p <= |content| && p / 512 < |blocks|
    ensures blocks[p / 512] < |sec|
    ensures var d := blocks[p / 512];
            Holds(sec[d := sec[d][p % 512 := ch]], blocks, StoredAt(content, p, ch))
  {
    var d := blocks[p / 512];
    var sec' := sec[d := sec[d][p % 512 := ch]];
    var content' := StoredAt(content, p, ch);
    forall b, o | 0 <= b < |blocks| && 0 <= o < 512 && 512 * b + o < |content'|
      ensures sec'[blocks[b]][o] == content'[512 * b + o]
    {
      if b != p / 512 {
        assert blocks[b] != d;
        assert sec'[blocks[b]] == sec[blocks[b]];
      }
      if 512 * b + o < |content| { assert sec[blocks[b]][o] == content[512 * b + o]; }
    }
  }

  lemma VolumeStoreByte(ib: seq<IBlock>, sec: seq<Sector>, dir: Dir, g: Layout, f: nat, p: nat, ch: byte,
                        content': seq<byte>, sec': seq<Sector>, dir': Dir, g': Layout)
    requires Volume(ib, sec, dir, g, f) && f < |g.chains|
    requires p <= |g.contents[f]| && p / 512 < |g.blocks[f]| && content' == StoredAt(g.contents[f], p, ch)
    requires Tight(|content'|, |g.blocks[f]|, 512) && Tight(|g.blocks[f]|, |g.chains[f]|, 16)
    requires var d := g.blocks[f][p / 512];
             && d < |sec| && |content'| <= 0xFFFF_FFFF
             && sec' == sec[d := sec[d][p % 512 := ch]]
             && dir' == SetEntry(dir, f, dir.files[f].(size := |content'|))
             && g' == g.(contents := g.contents[f := content'])
    ensures Volume(ib, sec', dir', g', -1)
  {
    var d := g.blocks[f][p / 512];
    assert BodyOf(ib, sec, dir, g, f) && g.downer[d] == f;
    hide Covered;
    ByteStored(sec, g.blocks[f], g.contents[f], p, ch);
    assert BodyOf(ib, sec', dir', g', f);
    assert Lists(ib, sec', dir', g') by {
      assert forall k | 0 <= k < |g.dfree| :: sec'[g.dfree[k]] == sec[g.dfree[k]];
    }
    assert FilesExcept(ib, sec', dir', g', f) by {
      assert SameForOthers(ib, sec, ib, sec', g, f);
      OthersKept(ib, sec, dir, g, ib, sec', dir', g', f);
    }
  }

  /** No file can outgrow 32-bit sizes: its blocks are distinct sectors. */
  lemma BlocksFit(ib: seq<IBlock>, sec: seq<Sector>, dir: Dir, g: Layout, f: nat)
    requires Shape(ib, sec, dir, g) && f < |g.blocks|
    ensures |g.blocks[f]| <= |sec| - 2
    ensures 512 * |g.blocks[f]| <= 0xFFFF_FFFF - 512
  {
    NoDupBound(DataArea(ib), |sec|, g.blocks[f]);
  }

  // -- truncating file f --

  /** The state in the middle of lftruncate: k index blocks of file f have been
      cleared and the first m of its data blocks are back on the free list.  The
      last cleared index block already leads on into the old free list. */
  ghost predicate Draining(ib: seq<IBlock>, sec: seq<Sector>, dir: Dir, g: Layout, f: nat,
                           chain: seq<nat>, blocks: seq<nat>, k: nat, m: nat) {
    && Shape(ib, sec, dir, g)
    && f < |g.chains| && g.chains[f] == chain && m <= |blocks| && g.blocks[f] == blocks[m..]
    && Lists(ib, sec, dir, g)
    && FilesExcept(ib, sec, dir, g, f)
    && k <= |chain| && (forall i | 0 <= i < |chain| :: chain[i] < |ib| && chain[i] < INULL)
    && (forall b | 0 <= b < |blocks| :: blocks[b] < |sec| && blocks[b] < DNULL)
    && (forall i {:trigger ib[chain[i]]} | 0 <= i < |chain| ::
          ib[chain[i]].next == if i + 1 == |chain| && i < k then dir.ifree else LinkOf(chain, i))
    && (forall i, j | k <= i < |chain| && 0 <= j < 16 ::
          ib[chain[i]].dba[j] == if 16 * i + j < |blocks| then blocks[16 * i + j] else DNULL)
  }

  lemma DrainStart(ib: seq<IBlock>, sec: seq<Sector>, dir: Dir, g: Layout, f: nat, e: Entry)
    requires Volume(ib, sec, dir, g, -1) && f < |g.chains|
    ensures Draining(ib, sec, SetEntry(dir, f, e), g, f, g.chains[f], g.blocks[f], 0, 0)
  {
    assert BodyOf(ib, sec, dir, g, f);
    hide Covered, Sized;
    OthersKept(ib, sec, dir, g, ib, sec, SetEntry(dir, f, e), g, f);
  }

  /** The walk ends exactly at the end of the file's chain: no member of the
      chain is the head of the free list. */
  lemma ChainAvoidsFree(ib: seq<IBlock>, sec: seq<Sector>, dir: Dir, g: Layout, f: nat,
                        chain: seq<nat>, blocks: seq<nat>, k: nat, m: nat, i: nat)
    requires Draining(ib, sec, dir, g, f, chain, blocks, k, m) && i < |chain|
    ensures chain[i] != dir.ifree
  {
    assert g.iowner[chain[i]] == f;
    if g.ifree != [] { assert g.iowner[g.ifree[0]] == -1; }
  }

  function BlockFreed(g: Layout, f: nat): Layout
    requires f < |g.blocks| && g.blocks[f] != [] && g.blocks[f][0] < |g.downer|
  {
    g.(dfree := [g.blocks[f][0]] + g.dfree, downer := g.downer[g.blocks[f][0] := -1],
       blocks := g.blocks[f := g.blocks[f][1..]])
  }

  lemma DListPush(sec: seq<Sector>, head: word, l: seq<nat>, y: nat, s: Sector)
    requires DList(sec, head, l) && y !in l && y < |sec| && y < DNULL && NextDb(s) == head
    ensures DList(sec[y := s], y, [y] + l)
  {
    var l', sec' := [y] + l, sec[y := s];
    forall k | 0 <= k < |l'| ensures NextDb(sec'[l'[k]]) == LinkOf(l', k) {
      if k > 0 {
        assert l'[k] == l[k - 1] && LinkOf(l', k) == LinkOf(l, k - 1);
        assert NextDb(sec[l[k - 1]]) == LinkOf(l, k - 1);
      }
    }
  }

  lemma DrainBlock(ib: seq<IBlock>, sec: seq<Sector>, dir: Dir, g: Layout, f: nat,
                   chain: seq<nat>, blocks: seq<nat>, k: nat, m: nat, s: Sector, g': Layout)
    requires Draining(ib, sec, dir, g, f, chain, blocks, k, m) && m < |blocks| && NextDb(s) == dir.dfree
    requires blocks[m] < |g.downer| && g' == BlockFreed(g, f)
    ensures Draining(ib, sec[blocks[m] := s], dir.(dfree := blocks[m]), g', f, chain, blocks, k, m + 1)
  {
    var y := blocks[m];
    var sec', dir' := sec[y := s], dir.(dfree := y);
    assert y == g.blocks[f][0] && g.downer[y] == f;
    hide Covered, Sized;
    assert Shape(ib, sec', dir', g') by { hide Owned; OwnedPush(DataArea(ib), |sec|, g.downer, g.dfree, g.blocks, f); }
    assert Lists(ib, sec', dir', g') by {
      assert forall i | 0 <= i < |g.dfree| :: g.downer[g.dfree[i]] == -1;
      DListPush(sec, dir.dfree, g.dfree, y, s);
    }
    assert FilesExcept(ib, sec', dir', g', f) by {
      assert SameForOthers(ib, sec, ib, sec', g, f);
      OthersKept(ib, sec, dir, g, ib, sec', dir', g', f);
    }
  }

  lemma OwnIndexWritten(ib: seq<IBlock>, sec: seq<Sector>, dir: Dir, g: Layout, f: nat, i: nat, b: IBlock)
    requires Shape(ib, sec, dir, g) && Lists(ib, sec, dir, g) && FilesExcept(ib, sec, dir, g, f)
    requires i < |ib| && g.iowner[i] == f
    ensures Shape(ib[i := b], sec, dir, g) && Lists(ib[i := b], sec, dir, g)
    ensures FilesExcept(ib[i := b], sec, dir, g, f)
  {
    hide Covered, Sized;
    var ib' := ib[i := b];
    assert Lists(ib', sec, dir, g) by {
      assert forall k | 0 <= k < |g.ifree| :: ib'[g.ifree[k]] == ib[g.ifree[k]];
    }
    hide Lists, Owned, FilesExcept;
    OthersKept(ib, sec, dir, g, ib', sec, dir, g, f);
  }

  lemma DrainIndex(ib: seq<IBlock>, sec: seq<Sector>, dir: Dir, g: Layout, f: nat,
                   chain: seq<nat>, blocks: seq<nat>, k: nat, m: nat, b: IBlock)
    requires Draining(ib, sec, dir, g, f, chain, blocks, k, m) && k < |chain|
    requires b.next == if k + 1 == |chain| then dir.ifree else LinkOf(chain, k)
    ensures Draining(ib[chain[k] := b], sec, dir, g, f, chain, blocks, k + 1, m)
  {
    var ib' := ib[chain[k] := b];
    assert g.iowner[chain[k]] == f && NoDup(chain);
    hide FilesExcept, Lists, Shape;
    OwnIndexWritten(ib, sec, dir, g, f, chain[k], b);
    assert forall i | 0 <= i < |chain| && i != k :: ib'[chain[i]] == ib[chain[i]];
  }

  function Emptied(g: Layout, f: nat): Layout
    requires f < |g.chains| && f < |g.contents|
  {
    g.(ifree := g.chains[f] + g.ifree, iowner := Disown(g.iowner, f),
       chains := g.chains[f := []], contents := g.contents[f := []])
  }

  /** Once the chain is walked, pointing the free list at its first member puts
      the whole chain on the free list. */
  lemma DrainDone(ib: seq<IBlock>, sec: seq<Sector>, dir: Dir, g: Layout, f: nat,
                  chain: seq<nat>, blocks: seq<nat>, g': Layout)
    requires Draining(ib, sec, dir, g, f, chain, blocks, |chain|, |blocks|) && chain != [] && g.chains[f] == chain
    requires dir.files[f].size == 0 && dir.files[f].ilist == INULL && f < |g.contents| && g' == Emptied(g, f)
    ensures Volume(ib, sec, dir.(ifree := chain[0]), g', -1)
  {
    var dir' := dir.(ifree := chain[0]);
    assert Shape(ib, sec, dir', g') by { hide Owned; OwnedSplice(0, |ib|, g.iowner, g.ifree, g.chains, f); }
    assert Lists(ib, sec, dir', g') by { SplicedList(ib, dir.ifree, g.ifree, chain); }
    hide Covered;
    assert FilesExcept(ib, sec, dir', g', f) by {
      OthersKept(ib, sec, dir, g, ib, sec, dir', g', f);
    }
    assert BodyOf(ib, sec, dir', g', f) && Sized(0, [], [], []);
  }

  lemma SplicedList(ib: seq<IBlock>, head: word, l: seq<nat>, chain: seq<nat>)
    requires IList(ib, head, l) && chain != []
    requires forall i | 0 <= i < |chain| :: chain[i] < |ib| && chain[i] < INULL
    requires forall i {:trigger ib[chain[i]]} | 0 <= i < |chain| ::
               ib[chain[i]].next == if i + 1 == |chain| then head else LinkOf(chain, i)
    ensures IList(ib, chain[0], chain + l)
  {
    var t := chain + l;
    forall i | 0 <= i < |t| ensures ib[t[i]].next == LinkOf(t, i) {
      if i < |chain| {
        assert t[i] == chain[i] && (i + 1 < |chain| ==> LinkOf(t, i) == LinkOf(chain, i));
      } else {
        assert t[i] == l[i - |chain|] && LinkOf(t, i) == LinkOf(l, i - |chain|);
      }
    }
  }

  // -- the steps of lftruncate's loops --

  function Reversed(s: seq<nat>): (r: seq<nat>)
    ensures |r| == |s|
  {
    if s == [] then [] else [s[|s| - 1]] + Reversed(s[..|s| - 1])
  }

  lemma ReversedStep(s: seq<nat>, m: nat, rest: seq<nat>)
    requires m < |s|
    ensures Reversed(s[..m + 1]) + rest == [s[m]] + (Reversed(s[..m]) + rest)
  {
    assert s[..m + 1][..m] == s[..m];
  }

  lemma DrainSlot(ib: seq<IBlock>, sec: seq<Sector>, dir: Dir, g: Layout, f: nat,
                  chain: seq<nat>, blocks: seq<nat>, k: nat, m: nat, j: nat)
    requires Draining(ib, sec, dir, g, f, chain, blocks, k, m) && k < |chain| && j < 16
    ensures chain[k] < |ib| && chain[k] < INULL && ib[chain[k]].next == LinkOf(chain, k)
    ensures ib[chain[k]].next == INULL <==> k + 1 == |chain|
    ensures ib[chain[k]].dba[j] == if 16 * k + j < |blocks| then blocks[16 * k + j] else DNULL
    ensures forall b | 0 <= b < |blocks| :: blocks[b] < DNULL
  {
    hide Shape, Lists, FilesExcept;
  }

  lemma DrainReady(ib: seq<IBlock>, sec: seq<Sector>, dir: Dir, g: Layout, f: nat,
                   chain: seq<nat>, blocks: seq<nat>, k: nat, m: nat)
    requires Draining(ib, sec, dir, g, f, chain, blocks, k, m) && m < |blocks|
    ensures DataArea(ib) <= blocks[m] < |sec| == |g.downer| && f < |g.blocks|
    ensures g.blocks[f] != [] && g.blocks[f][0] == blocks[m]
  {
    hide Covered, Lists, FilesExcept;
    assert g.blocks[f][0] == blocks[m];
  }
}
