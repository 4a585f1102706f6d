/** lfscreate: laying an empty file system out on a blank disk. */
module LfsCreation {
  import opened LfsFormat
  import opened LfsModel
  import opened LocalFiles

  function From(lo: nat, n: nat): (r: seq<nat>)
    ensures |r| == n && forall i | 0 <= i < n :: r[i] == lo + i
  {
    seq(n, i requires 0 <= i < n => lo + i)
  }

  /** A file system without files: every block is free, in order. */
  function EmptyLayout(iblks: nat, lo: nat, hi: nat): Layout
    requires lo <= hi
  {
    Layout(From(0, iblks), From(lo, hi - lo), seq(iblks, _ => -1), seq(hi, _ => -1), [], [], [])
  }

  lemma AllFree(lo: nat, hi: nat)
    requires lo <= hi
    ensures Owned(lo, hi, seq(hi, _ => -1), From(lo, hi - lo), [])
  {
    var owner, free := seq(hi, _ => -1), From(lo, hi - lo);
    forall x | lo <= x < hi ensures owner[x] == -1 && x in free {
      assert free[x - lo] == x;
    }
  }

  lemma EmptyIndexList(ib: seq<IBlock>)
    requires 0 < |ib| < INULL
    requires forall i | 0 <= i < |ib| :: ib[i].next == if i + 1 == |ib| then INULL else i + 1
    ensures IList(ib, 0, From(0, |ib|))
  {
    var l := From(0, |ib|);
    forall k {:trigger ib[l[k]]} | 0 <= k < |l| ensures ib[l[k]].next == LinkOf(l, k) {
      assert l[k] == k;
    }
  }

  lemma EmptyDataList(sec: seq<Sector>, lo: nat)
    requires lo < |sec| < DNULL
    requires forall d | lo <= d < |sec| :: NextDb(sec[d]) == if d + 1 == |sec| then DNULL else d + 1
    ensures DList(sec, lo, From(lo, |sec| - lo))
  {
    var l := From(lo, |sec| - lo);
    forall k {:trigger sec[l[k]]} | 0 <= k < |l| ensures NextDb(sec[l[k]]) == LinkOf(l, k) {
      assert l[k] == lo + k;
    }
  }

  lemma EmptyVolume(ib: seq<IBlock>, sec: seq<Sector>, dir: Dir)
    requires 0 < |ib| && |ib| % 7 == 0 && DataArea(ib) < |sec| <= MAXSECTORS && |ib| < INULL
    requires dir.nfiles == 0 && dir.ifree == 0 && dir.dfree == DataArea(ib)
    requires forall i | 0 <= i < |ib| :: ib[i].next == if i + 1 == |ib| then INULL else i + 1
    requires forall d | DataArea(ib) <= d < |sec| :: NextDb(sec[d]) == if d + 1 == |sec| then DNULL else d + 1
    ensures Volume(ib, sec, dir, EmptyLayout(|ib|, DataArea(ib), |sec|), -1)
  {
    hide Owned, IList, DList, NextDb, From, BodyOf;
    AllFree(0, |ib|);
    AllFree(DataArea(ib), |sec|);
    EmptyIndexList(ib);
    EmptyDataList(sec, DataArea(ib));
  }

  ghost function Decoded(disk: seq<Sector>, n: nat): (ib: seq<IBlock>)
    requires n % 7 == 0 && n / 7 + 1 <= |disk|
    ensures IndexView(disk, ib) && |ib| == n
  {
    seq(n, i requires 0 <= i < n => IbAt(disk, i))
  }

  /** Links all index blocks into the free list, in order.  With none it writes
      index block 0 all the same, into what is then the first data sector. */
  method LinkIndexBlocks(disk: array<Sector>, iblks: nat,
                         ghost ib0: seq<IBlock>, ghost sec0: seq<Sector>, ghost dir: Dir)
    returns (ghost ib: seq<IBlock>, ghost sec: seq<Sector>)
    requires Mirrors(disk[..], ib0, sec0, dir) && |ib0| == iblks < INULL && 1 < disk.Length
    modifies disk
    ensures |ib| == iblks && |sec| == |sec0| && Mirrors(disk[..], ib, sec, dir)
    ensures forall j | 0 <= j < iblks :: ib[j].next == if j + 1 == iblks then INULL else j + 1
  {
    hide Mirrors;
    ib, sec := ib0, sec0;
    var iblock: IBlock := LocalFile.LfIbClear(0);
    var i := 0;
    while i < iblks - 1
      invariant 0 <= i && (0 < iblks ==> i <= iblks - 1) && |ib| == iblks && Mirrors(disk[..], ib, sec, dir)
      invariant iblks == 0 ==> i == 0
      invariant forall j | 0 <= j < i :: ib[j].next == j + 1
    {
      iblock := iblock.(next := i + 1);
      MirrorIb(disk[..], ib, sec, dir, i, iblock);
      LfIbPut(disk, i, iblock);
      ib := ib[i := iblock];
      i := i + 1;
    }
    iblock := iblock.(next := INULL);
    if 0 < iblks {
      MirrorIb(disk[..], ib, sec, dir, i, iblock);
      ib := ib[i := iblock];
    } else {
      NoIndexMirror(disk[..], sec, dir, iblock);
      sec := PutIb(disk[..], 0, iblock);
    }
    LfIbPut(disk, i, iblock);
  }

  lemma NoIndexMirror(disk: seq<Sector>, sec: seq<Sector>, dir: Dir, b: IBlock)
    requires Mirrors(disk, [], sec, dir) && 1 < |disk|
    ensures Mirrors(PutIb(disk, 0, b), [], PutIb(disk, 0, b), dir) && |PutIb(disk, 0, b)| == |disk| == |sec|
  {
  }

  /** Links all data blocks, from first on, into the free list, in order. */
  method LinkDataBlocks(disk: array<Sector>, first: nat, ghost ib: seq<IBlock>, ghost sec0: seq<Sector>, ghost dir: Dir)
    returns (ghost sec: seq<Sector>)
    requires Mirrors(disk[..], ib, sec0, dir) && first == DataArea(ib) < disk.Length == |sec0| < DNULL
    modifies disk
    ensures |sec| == |sec0| && Mirrors(disk[..], ib, sec, dir)
    ensures forall k | first <= k < |sec| :: NextDb(sec[k]) == if k + 1 == |sec| then DNULL else k + 1
  {
    hide Mirrors;
    sec := sec0;
    var dbindex := first;
    var dblock: Sector := seq(BLKSIZ, _ => 0);
    while dbindex < disk.Length - 1
      invariant first <= dbindex <= disk.Length - 1 && |sec| == disk.Length && Mirrors(disk[..], ib, sec, dir)
      invariant forall k | first <= k < dbindex :: NextDb(sec[k]) == k + 1
    {
      dblock := PatchNextDb(dblock, dbindex + 1);
      MirrorData(disk[..], ib, sec, dir, dbindex, dblock);
      WriteSector(disk, dbindex, dblock);
      sec := sec[dbindex := dblock];
      dbindex := dbindex + 1;
    }
    dblock := PatchNextDb(dblock, DNULL);
    MirrorData(disk[..], ib, sec, dir, dbindex, dblock);
    WriteSector(disk, dbindex, dblock);
    sec := sec[dbindex := dblock];
  }

  /** The number of sectors for so many index blocks, in unsigned arithmetic. */
  function IbSectors(lfiblks: int): nat { (lfiblks + 6) % 0x1_0000_0000 / 7 }

  /** The disk holds a well-formed file system. */
  ghost predicate Formatted(disk: seq<Sector>) {
    && 0 < |disk| && var dir := DecodeDir(disk[0]);
    && exists ib, g :: Mirrors(disk, ib, disk, dir) && Volume(ib, disk, dir, g, -1)
  }

  /** Without index blocks both free lists start in the same sector. */
  lemma NoIndexBlocks(disk: seq<Sector>)
    requires 0 < |disk| && DecodeDir(disk[0]).dfree == 1
    ensures !Formatted(disk)
  {
    var dir := DecodeDir(disk[0]);
    forall ib, g ensures !(Mirrors(disk, ib, disk, dir) && Volume(ib, disk, dir, g, -1)) {
      if Volume(ib, disk, dir, g, -1) {
        FreeHeads(ib, disk, dir, g, -1);
        VolumeBounds(ib, disk, dir, g, -1);
      }
    }
  }

  /** Fails, with the disk untouched, when the index area would take more than
      half of the disk; otherwise leaves an empty file system, which is well-formed
      if and only if there are index blocks.  The room asked for is that of one data
      sector: without it the second loop runs past the end of the disk. */
  method LfsCreate(disk: array<Sector>, lfiblks: int, dsiz: word)
    returns (r: int, ghost ib: seq<IBlock>, ghost dir: Dir, ghost g: Layout)
    requires -0x8000_0000 <= lfiblks < 0x8000_0000 && disk.Length == dsiz / 512
    requires IbSectors(lfiblks) <= disk.Length / 2 ==> IbSectors(lfiblks) + 1 < disk.Length
    modifies disk
    ensures r == if IbSectors(lfiblks) > disk.Length / 2 then SYSERR else OK
    ensures r == SYSERR ==> disk[..] == old(disk[..])
    ensures r == OK ==> (Formatted(disk[..]) <==> lfiblks >= 1)
    ensures r == OK && lfiblks >= 1 ==>
      && Mirrors(disk[..], ib, disk[..], dir) && Volume(ib, disk[..], dir, g, -1)
      && g.contents == [] && |ib| == |g.ifree| >= lfiblks && |g.dfree| == disk.Length - 1 - |ib| / 7
  {
    hide Mirrors, Volume, IndexView, Formatted, NextDb, EncodeDir, DecodeDir, From;
    ib, g := [], Layout([], [], [], [], [], [], []);
    var d := Dir(0, 0, 0, seq(20, _ => Entry(0, 0, seq(16, _ => 0))), seq(20, _ => 0));
    dir := d;
    var sectors := dsiz / BLKSIZ;
    var ibpersector := BLKSIZ / IBSIZE;
    var ibsectors := (lfiblks + (ibpersector - 1)) % 0x1_0000_0000 / ibpersector;
    var iblks := ibsectors * ibpersector;
    if ibsectors > sectors / 2 {
      return SYSERR, ib, dir, g;
    }
    var dbindex := ibsectors + 1;
    d := d.(dfree := dbindex);
    WriteSector(disk, 0, EncodeDir(d));
    dir := d;
    ghost var sec: seq<Sector> := disk[..];
    ib := Decoded(sec, iblks);
    StartMirror(sec, ib, dir);
    ib, sec := LinkIndexBlocks(disk, iblks, ib, sec, dir);
    sec := LinkDataBlocks(disk, dbindex, ib, sec, dir);
    EndMirror(disk[..], ib, sec, dir);
    if lfiblks >= 1 {
      g := EmptyLayout(|ib|, DataArea(ib), disk.Length);
      EmptyVolume(ib, disk[..], dir);
      IsFormatted(disk[..], ib, dir, g);
    } else {
      NoIndexBlocks(disk[..]);
    }
    r := OK;
  }

  lemma IsFormatted(disk: seq<Sector>, ib: seq<IBlock>, dir: Dir, g: Layout)
    requires Mirrors(disk, ib, disk, dir) && Volume(ib, disk, dir, g, -1)
    ensures Formatted(disk)
  {
    DirAtZero(disk, ib, disk, dir);
    hide Mirrors, Volume;
  }

  method WriteSector(disk: array<Sector>, s: nat, b: Sector)
    requires s < disk.Length
    modifies disk
    ensures disk[..] == old(disk[..])[s := b]
  {
    disk[s] := b;
  }

  lemma StartMirror(disk: seq<Sector>, ib: seq<IBlock>, dir: Dir)
    requires IndexView(disk, ib) && DataArea(ib) <= |disk| && disk != [] && disk[0] == EncodeDir(dir)
    ensures Mirrors(disk, ib, disk, dir)
  {
  }

  lemma EndMirror(disk: seq<Sector>, ib: seq<IBlock>, sec: seq<Sector>, dir: Dir)
    requires Mirrors(disk, ib, sec, dir)
    ensures Mirrors(disk, ib, disk, dir) && forall d | DataArea(ib) <= d < |sec| :: d < |disk| && disk[d] == sec[d]
    ensures |sec| == |disk| > 0 && DecodeDir(disk[0]) == dir
  {
    DirAtZero(disk, ib, sec, dir);
  }
}
