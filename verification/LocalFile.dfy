/** The local file system: the in-memory directory (struct lfdata), the one open
    file (struct lflcblk, as Nlfl is 1) and the disk they are stored on. */
module LocalFiles {
  import opened LfsFormat
  import opened LfsModel
  import opened LfsState
  import ByteFile

  /** ib and sec are what the index area and the data area of the disk hold, and
      saved is the directory in sector 0. */
  ghost predicate Mirrors(disk: seq<Sector>, ib: seq<IBlock>, sec: seq<Sector>, saved: Dir) {
    && 0 < DataArea(ib) <= |disk| == |sec|
    && IndexView(disk, ib)
    && (forall d | DataArea(ib) <= d < |disk| :: disk[d] == sec[d])
    && disk[0] == EncodeDir(saved)
  }

  datatype Mode = BadMode | AnyMode | OldMode | NewMode

  /** When lfsOpen finds or makes the file, no file being open. */
  predicate Opens(d: Dir, name: seq<byte>, mode: Mode) {
    && |name| < NAME_LEN && mode != BadMode
    && if InDir(d, name) then mode != NewMode else mode != OldMode && d.nfiles < NUM_DIR_ENT
  }

  /** The bytes of the file with that name, read from the disk alone. */
  ghost function DiskNamed(disk: seq<Sector>, name: seq<byte>): seq<byte> {
    if disk == [] then [] else
    var d := DecodeDir(disk[0]);
    if InDir(d, name) && d.nfiles <= 20 then DiskContent(disk, d.files[EntryOf(d, name)]) else []
  }

  // ----- lfibget, lfibput -----

  method LfIbGet(disk: array<Sector>, inum: nat) returns (ib: IBlock)
    requires Ib2Sect(inum) < disk.Length
    ensures ib == IbAt(disk[..], inum)
  {
    var dbuff := disk[Ib2Sect(inum)];
    var from := Ib2Disp(inum);
    var to: seq<byte> := [];
    for i := 0 to IBSIZE
      invariant to == dbuff[from..from + i]
    {
      to := to + [dbuff[from + i]];
    }
    ib := DecodeIb(to);
  }

  method LfIbPut(disk: array<Sector>, inum: nat, ib: IBlock)
    requires Ib2Sect(inum) < disk.Length
    modifies disk
    ensures disk[..] == PutIb(old(disk[..]), inum, ib)
  {
    var diskblock := Ib2Sect(inum);
    var to := Ib2Disp(inum);
    var from := EncodeIb(ib);
    var dbuff := disk[diskblock];
    for i := 0 to IBSIZE
      invariant |dbuff| == BLKSIZ
      invariant dbuff[..to + i] == old(disk[diskblock])[..to] + from[..i]
      invariant dbuff[to + i..] == old(disk[diskblock])[to + i..]
    {
      dbuff := dbuff[to + i := from[i]];
    }
    assert dbuff == PatchSector(old(disk[diskblock]), to, from) by {
      assert dbuff == dbuff[..to + IBSIZE] + dbuff[to + IBSIZE..] && from[..IBSIZE] == from;
    }
    disk[diskblock] := dbuff;
  }

  // ----- what disk writes do to the mirror -----

  lemma MirrorDir(disk: seq<Sector>, ib: seq<IBlock>, sec: seq<Sector>, saved: Dir, dir: Dir)
    requires Mirrors(disk, ib, sec, saved)
    ensures Mirrors(disk[0 := EncodeDir(dir)], ib, sec, dir)
  {
    IndexViewKept(disk, ib, disk[0 := EncodeDir(dir)]);
  }

  lemma MirrorIb(disk: seq<Sector>, ib: seq<IBlock>, sec: seq<Sector>, saved: Dir, inum: nat, b: IBlock)
    requires Mirrors(disk, ib, sec, saved) && inum < |ib|
    ensures Ib2Sect(inum) < |disk| && Mirrors(PutIb(disk, inum, b), ib[inum := b], sec, saved)
  {
    hide IbAt;
    assert 1 <= Ib2Sect(inum) < DataArea(ib);
    IndexViewPut(disk, ib, inum, b);
  }

  lemma MirrorData(disk: seq<Sector>, ib: seq<IBlock>, sec: seq<Sector>, saved: Dir, d: nat, s: Sector)
    requires Mirrors(disk, ib, sec, saved) && DataArea(ib) <= d < |disk|
    ensures Mirrors(disk[d := s], ib, sec[d := s], saved)
  {
    IndexViewKept(disk, ib, disk[d := s]);
  }

  /** With no file open, the disk alone decodes to every file: the directory in
      sector 0 lists them with their contents, except that files at its end that
      were created and never written may be missing. */
  ghost predicate OnDisk(disk: seq<Sector>, contents: seq<seq<byte>>) {
    && 0 < |disk| && var d := DecodeDir(disk[0]);
    && d.nfiles <= |contents| <= 20
    && (forall h | 0 <= h < d.nfiles :: DiskContent(disk, d.files[h]) == contents[h])
    && (forall h | d.nfiles <= h < |contents| :: contents[h] == [])
  }

  lemma DirAtZero(disk: seq<Sector>, ib: seq<IBlock>, sec: seq<Sector>, saved: Dir)
    requires Mirrors(disk, ib, sec, saved)
    ensures 0 < |disk| && DecodeDir(disk[0]) == saved
  {
    DirRoundTrip(saved);
  }

  lemma ClosedOnDisk(disk: seq<Sector>, s: FS)
    requires Mirrors(disk, s.ib, s.sec, s.saved) && Valid(s) && !s.used
    ensures OnDisk(disk, s.g.contents)
  {
    DirRoundTrip(s.saved);
    var dir := CurDir(s);
    VolumeBounds(s.ib, s.sec, dir, s.g, -1);
    hide Volume;
    forall h | 0 <= h < |s.g.contents|
      ensures if h < s.saved.nfiles then DiskContent(disk, s.saved.files[h]) == s.g.contents[h]
              else s.g.contents[h] == []
    {
      CurBody(s.ib, s.sec, dir, s.g, -1, h);
      if h < s.saved.nfiles {
        assert dir.files[h] == s.saved.files[h];
        forall b | 0 <= b < |s.g.blocks[h]| ensures disk[s.g.blocks[h][b]] == s.sec[s.g.blocks[h][b]] {
          BlockInArea(s.ib, s.sec, dir, s.g, -1, h, s.g.blocks[h][b]);
        }
        BodyKept(s.ib, s.sec, s.ib, disk, dir.files[h].ilist, s.g.chains[h], s.g.blocks[h], s.g.contents[h]);
        FileReadsBack(disk, s.ib, s.saved.files[h], s.g.chains[h], s.g.blocks[h], s.g.contents[h]);
      }
    }
  }

  /** With no file open, the disk by name is the file system by name. */
  lemma DiskByName(disk: seq<Sector>, s: FS)
    requires Mirrors(disk, s.ib, s.sec, s.saved) && Valid(s) && !s.used
    ensures forall n: seq<byte> :: DiskNamed(disk, n) == FileNamed(s, n)
  {
    ClosedOnDisk(disk, s);
    DirAtZero(disk, s.ib, s.sec, s.saved);
    ClosedNames(s);
    hide Mirrors, Valid, DiskContent;
    var d, d' := s.saved, CurDir(s);
    forall n: seq<byte> ensures DiskNamed(disk, n) == FileNamed(s, n) {
      EntryKept(d, d', n);
    }
  }

  const FILL: byte := 43        // '+', to erase old data

  const OK := ByteFile.OK
  const SYSERR := ByteFile.SYSERR
  const EOF := ByteFile.EOF

  class LocalFile {
    const disk: array<Sector>
    // struct lfdata
    var dir: Dir
    var dirpresent: bool
    var dirdirty: bool
    // struct lflcblk
    var used: bool
    var cur: nat          // index of the entry lfdirptr points at
    var pos: word
    var inum: word
    var iblock: IBlock
    var dnum: word
    var dblock: Sector
    var byteptr: nat      // lfbyte, as an offset into lfdblock
    var ibdirty: bool
    var dbdirty: bool
    var panicked: bool    // panic() was called: the system has stopped
    // what the disk holds, and who owns which block
    ghost const iblks: nat
    ghost var ib: seq<IBlock>
    ghost var sec: seq<Sector>
    ghost var saved: Dir
    ghost var g: Layout

    ghost function St(): FS
      reads this
    {
      FS(dir, dirpresent, dirdirty, used, cur, pos, inum, iblock, dnum, dblock, byteptr, ibdirty, dbdirty,
         ib, sec, saved, g)
    }

    ghost predicate Sync()
      reads this, disk
    {
      |ib| == iblks && |sec| == disk.Length && Mirrors(disk[..], ib, sec, saved)
    }

    /** The invariant between file calls. */
    ghost predicate Ok()
      reads this, disk
    {
      !panicked && Sync() && Valid(St())
    }

    /** A file system on a formatted disk, its directory not read yet. */
    constructor (disk: array<Sector>, ghost ib: seq<IBlock>, ghost sec: seq<Sector>, ghost saved: Dir, ghost g: Layout)
      requires Mirrors(disk[..], ib, sec, saved) && Volume(ib, sec, saved, g, -1)
      ensures Ok() && !used && !dirpresent && this.disk == disk && this.iblks == |ib| && this.g == g
    {
      this.disk := disk;
      dir := Dir(0, 0, 0, seq(20, _ => Entry(0, 0, seq(16, _ => 0))), seq(20, _ => 0));
      dirpresent, dirdirty, used, panicked := false, false, false, false;
      cur, pos, inum, dnum, byteptr := 0, 0, INULL, 0, BLKSIZ;
      iblock := IBlock(0, 0, seq(16, _ => 0));
      dblock := seq(512, _ => 0);
      ibdirty, dbdirty := false, false;
      this.iblks, this.ib, this.sec, this.saved, this.g := |ib|, ib, sec, saved, g;
    }

    // ----- writes of single sectors -----

    method WriteDir()
      requires Sync()
      modifies this`saved, disk
      ensures Sync() && saved == dir
    {
      MirrorDir(disk[..], ib, sec, saved, dir);
      disk[0] := EncodeDir(dir);
      assert disk[..] == old(disk[..])[0 := EncodeDir(dir)];
      saved := dir;
    }

    method PutIndex(i: nat, b: IBlock)
      requires Sync() && i < |ib|
      modifies this`ib, disk
      ensures Sync() && ib == old(ib)[i := b]
    {
      MirrorIb(disk[..], ib, sec, saved, i, b);
      LfIbPut(disk, i, b);
      ib := ib[i := b];
    }

    method GetIndex(i: nat) returns (b: IBlock)
      requires Sync() && i < |ib|
      ensures b == ib[i]
    {
      b := LfIbGet(disk, i);
    }

    method WriteData(d: nat, s: Sector)
      requires Sync() && DataArea(ib) <= d < |sec|
      modifies this`sec, disk
      ensures Sync() && sec == old(sec)[d := s]
    {
      MirrorData(disk[..], ib, sec, saved, d, s);
      disk[d] := s;
      assert disk[..] == old(disk[..])[d := s];
      sec := sec[d := s];
    }

    // ----- lfflush -----

    method FlushDir()
      requires Sync()
      modifies this`dirdirty, this`saved, disk
      ensures Sync()
      ensures !dirdirty && saved == if old(dirdirty) then dir else old(saved)
    {
      if dirdirty {
        WriteDir();
        dirdirty := false;
      }
    }

    method FlushData()
      requires Sync() && (dbdirty ==> DataArea(ib) <= dnum < |sec|)
      modifies this`dbdirty, this`sec, disk
      ensures Sync()
      ensures !dbdirty && sec == if old(dbdirty) then old(sec)[dnum := dblock] else old(sec)
    {
      if dbdirty {
        WriteData(dnum, dblock);
        dbdirty := false;
      }
    }

    method FlushIndex()
      requires Sync() && (ibdirty ==> inum < |ib|)
      modifies this`ibdirty, this`ib, disk
      ensures Sync()
      ensures !ibdirty && ib == if old(ibdirty) then old(ib)[inum := iblock] else old(ib)
    {
      if ibdirty {
        PutIndex(inum, iblock);
        ibdirty := false;
      }
    }

    /** Afterwards the disk alone is what disk and dirty buffers were together. */
    method LfFlush()
      requires Sync() && Valid(St()) && used
      modifies this, disk
      ensures panicked == old(panicked)
      ensures Sync() && St() == Flushed(old(St())) && Valid(St())
    {
      hide Mirrors, Valid, LIb, LSec;
      FlushedValid(St());
      FlushFacts(St());
      FlushDir();
      FlushData();
      FlushIndex();
    }

    // ----- lfiballoc, lfdballoc, lfibclear -----

    method LfIbAlloc() returns (ibnum: word)
      requires !panicked && Sync() && (dir.ifree != INULL ==> dir.ifree < |ib|)
      modifies this, disk
      ensures Sync() && panicked == (old(dir.ifree) == INULL)
      ensures panicked ==> St() == old(St())
      ensures !panicked ==>
        ibnum == old(dir.ifree) && var d := old(dir).(ifree := old(ib)[ibnum].next);
        St() == old(St()).(dir := d, saved := d, dirdirty := false)
    {
      hide Mirrors;
      ibnum := dir.ifree;
      if ibnum == INULL {       // ran out of free index blocks
        panicked := true;
        return;
      }
      var iblock := GetIndex(ibnum);
      dir := dir.(ifree := iblock.next);
      WriteDir();
      dirdirty := false;
    }

    method LfDbAlloc() returns (dn: word, dbuff: Sector)
      requires !panicked && Sync() && (dir.dfree != DNULL ==> DataArea(ib) <= dir.dfree < |sec|)
      modifies this, disk
      ensures Sync() && panicked == (old(dir.dfree) == DNULL)
      ensures dbuff == seq(BLKSIZ, _ => FILL)
      ensures panicked ==> St() == old(St())
      ensures !panicked ==>
        dn == old(dir.dfree) && var d := old(dir).(dfree := NextDb(old(sec)[dn]));
        St() == old(St()).(dir := d, saved := d, dirdirty := false)
    {
      dn := dir.dfree;
      dbuff := seq(BLKSIZ, _ => FILL);
      if dn == DNULL {          // ran out of data blocks
        panicked := true;
        return;
      }
      dir := dir.(dfree := NextDb(disk[dn]));
      hide Mirrors;
      WriteDir();
      dirdirty := false;
    }

    static method LfIbClear(offset: word) returns (b: IBlock)
      ensures b == ClearIb(offset)
    {
      var dba: seq<word> := seq(IBLEN, _ => 0);
      for i := 0 to IBLEN
        invariant |dba| == IBLEN && forall j | 0 <= j < i :: dba[j] == DNULL
      {
        dba := dba[i := DNULL];
      }
      b := IBlock(INULL, offset, dba);
    }

    // ----- lfsetup -----

    /** Loads or allocates an index block at or before the position. */
    method FirstIndex() returns (ghost k: nat)
      requires Ok() && used && byteptr == BLKSIZ && !ibdirty && !dbdirty
      modifies this, disk
      ensures Sync()
      ensures panicked ==> old(NeedsIndex(St()) && g.ifree == [])
      ensures !panicked ==>
        && Seeking(St(), k) && SameFiles(old(St()), St())
        && (if ibdirty then old(g.ifree) != [] && old(NeedsIndex(St())) && g == WithIndex(old(g), cur) else g == old(g))
    {
      hide Mirrors, Valid, Seeking, Sized;
      ghost var s := St();
      CleanView(s);
      HeadsOf(s);
      k := 0;
      var ibnum := inum;
      if ibnum == INULL {
        ibnum := dir.files[cur].ilist;
        if ibnum == INULL {     // empty file - get new index block
          NewChain();
        } else {                // nonempty - read first index block
          SeekFirst(s);
          iblock := GetIndex(ibnum);
          inum := ibnum;
        }
      } else if pos < iblock.offset {
        ibnum := dir.files[cur].ilist;
        NonemptyHasIndex(s);
        SeekFirst(s);
        iblock := GetIndex(ibnum);
        inum := ibnum;
      } else {
        k := SeekStart(s);
      }
    }

    /** Gives an empty file its first index block. */
    method NewChain()
      requires Ok() && used && byteptr == BLKSIZ && !ibdirty && !dbdirty && cur < 20
      requires inum == INULL && dir.files[cur].ilist == INULL
      modifies this, disk
      ensures Sync() && old(NeedsIndex(St()))
      ensures panicked ==> old(g.ifree == [])
      ensures !panicked ==>
        && Seeking(St(), 0) && SameFiles(old(St()), St()) && ibdirty && old(g.ifree) != []
        && g == WithIndex(old(g), cur)
    {
      hide Mirrors, Valid, Seeking, Sized, SameFiles;
      ghost var s := St();
      CleanView(s);
      HeadsOf(s);
      EmptyNeeds(s);
      var ibnum := LfIbAlloc();
      if panicked { return; }
      SeekNew(s, ibnum);
      var block := LfIbClear(0);
      dir := SetEntry(dir, cur, dir.files[cur].(ilist := ibnum));
      HoldIndex(ibnum, block);
      g := IndexGrown(g, cur);
      assert St() == NewFirst(s, ibnum);
    }

    /** Makes a new index block the one in memory, to be written back later. */
    method HoldIndex(i: word, b: IBlock)
      modifies this`inum, this`iblock, this`ibdirty
      ensures St() == old(St()).(inum := i, iblock := b, ibdirty := true)
    {
      iblock := b;
      ibdirty := true;
      inum := i;
    }

    /** Walks the chain to the index block of the position, extending the file. */
    method WalkIndex(ghost k0: nat)
      requires !panicked && Sync() && Seeking(St(), k0)
      modifies this, disk
      ensures Sync()
      ensures panicked ==> old(!ibdirty && NeedsIndex(St()) && dir.ifree == INULL)
      ensures !panicked ==>
        && Seeking(St(), pos / 8192) && SameFiles(old(St()), St()) && (old(ibdirty) ==> ibdirty)
        && (if ibdirty && !old(ibdirty) then
              old(dir.ifree) != INULL && old(NeedsIndex(St())) && g == WithIndex(old(g), cur)
            else g == old(g))
        && (!ibdirty ==> !NeedsIndex(St()))
    {
      hide Mirrors, Valid, Seeking, Sized, SameFiles, NewNext, IndexGrown, WithIndex;
      ghost var s0 := St();
      ghost var k: nat := k0;
      SeekBound(s0, k);
      SameFilesRefl(s0);
      while pos - pos % 8192 > iblock.offset
        invariant !panicked && Sync() && Seeking(St(), k) && iblock.offset == 8192 * k <= pos
        invariant SameFiles(s0, St())
        invariant old(ibdirty) ==> ibdirty
        invariant if ibdirty && !old(ibdirty)
          then old(dir.ifree) != INULL && NeedsIndex(s0) && g == WithIndex(s0.g, cur)
          else dir.ifree == old(dir.ifree) && g == s0.g
        invariant ibdirty == old(ibdirty) || 8192 * k == pos - pos % 8192
        decreases pos - iblock.offset
      {
        ghost var s := St();
        SeekClean(s, k);
        SameNeeds(s0, s);
        if iblock.next == INULL {       // allocate new index block to extend file
          ExtendNeeds(s, k);
          Extend(k);
          if panicked { return; }
        } else {
          Follow(k);
        }
        SameFilesTrans(s0, s, St());
        k := k + 1;
        SeekBound(St(), k);
      }
      if !ibdirty { SeekEnd(St(), k); }
      SeekBound(St(), k);
    }

    method Extend(ghost k: nat)
      requires !panicked && Sync() && Seeking(St(), k) && !ibdirty
      requires 8192 * k < pos - pos % 8192 && iblock.next == INULL
      modifies this, disk
      ensures Sync() && panicked == (old(dir.ifree) == INULL)
      ensures !panicked ==>
        && Seeking(St(), k + 1) && SameFiles(old(St()), St()) && ibdirty && iblock.offset > old(iblock.offset)
        && g == WithIndex(old(g), cur)
    {
      hide Mirrors, Valid, Seeking, Sized, SameFiles;
      ghost var s := St();
      SeekClean(s, k);
      SeekBound(s, k);
      var ibnum := LfIbAlloc();
      if panicked { return; }
      SeekExtend(s, k, ibnum);
      iblock := iblock.(next := ibnum);
      PutIndex(inum, iblock);
      inum := ibnum;
      var newoffset := iblock.offset + IDATA;
      iblock := LfIbClear(newoffset);
      ibdirty := true;
      dnum := DNULL;            // invalidate old data block
      g := IndexGrown(g, cur);
      assert St() == NewNext(s, ibnum);
    }

    method Follow(ghost k: nat)
      requires !panicked && Sync() && Seeking(St(), k) && !ibdirty
      requires 8192 * k < pos - pos % 8192 && iblock.next != INULL
      modifies this, disk
      ensures Sync() && !panicked && Seeking(St(), k + 1) && SameFiles(old(St()), St())
      ensures iblock.offset > old(iblock.offset)
      ensures !ibdirty && g == old(g) && dir == old(dir)
    {
      hide Mirrors, Valid, Seeking, Sized;
      ghost var s := St();
      SeekNext(s, k);
      SeekBound(s, k);
      var ibnum := iblock.next;
      iblock := GetIndex(ibnum);
      inum := ibnum;
      dnum := DNULL;
      assert St() == AtIndex(s, ibnum).(dnum := DNULL);
      SeekBound(St(), k + 1);
    }

    /** Loads or allocates the data block of the position. */
    method LoadBlock()
      requires !panicked && Sync() && Seeking(St(), pos / 8192)
      modifies this, disk
      ensures Sync()
      ensures panicked ==> old(NeedsBlock(St()) && g.dfree == [])
      ensures !panicked ==> Ready(St()) && SameFiles(old(St()), St())
      ensures !panicked ==>
        if old(NeedsBlock(St())) then old(g.dfree) != [] && g == WithBlock(old(g), cur) else g == old(g)
    {
      hide Mirrors, Valid, Seeking, Ready, SameFiles;
      LoadFacts(St());
      var dn := iblock.dba[pos % IDATA / BLKSIZ];
      if dn == DNULL { NewBlock(); } else { OldBlock(dn); }
    }

    /** Allocates the data block of the position. */
    method NewBlock()
      requires !panicked && Sync() && Seeking(St(), pos / 8192) && iblock.dba[pos % IDATA / BLKSIZ] == DNULL
      modifies this, disk
      ensures Sync() && old(NeedsBlock(St()))
      ensures panicked ==> old(g.dfree == [])
      ensures !panicked ==> Ready(St()) && SameFiles(old(St()), St())
      ensures !panicked ==> old(g.dfree) != [] && g == WithBlock(old(g), cur)
    {
      hide Mirrors, Valid, Seeking, Ready, SameFiles;
      ghost var s := St();
      LoadFacts(s);
      var dindex := pos % IDATA / BLKSIZ;
      var dn, fill := LfDbAlloc();
      if panicked { return; }
      LoadNew(s, s.pos / 8192, dn, fill);
      dblock := fill;
      iblock := iblock.(dba := iblock.dba[dindex := dn]);
      ibdirty := true;
      dnum := dn;
      byteptr := pos % BLKSIZ;
      g := BlocksGrown(g, cur);
      assert St() == NewData(s, dn, fill);
    }

    /** Loads the data block of the position, unless it is in memory. */
    method OldBlock(dn: word)
      requires !panicked && Sync() && Seeking(St(), pos / 8192) && iblock.dba[pos % IDATA / BLKSIZ] == dn != DNULL
      modifies this
      ensures !panicked && Sync() && Ready(St()) && SameFiles(old(St()), St()) && !old(NeedsBlock(St())) && g == old(g)
    {
      hide Mirrors, Valid, Seeking, Ready, SameFiles;
      ghost var s := St();
      LoadFacts(s);
      LoadOld(s, s.pos / 8192, dn);
      if dn != dnum {
        dblock := ReadData(dn);
        dbdirty := false;
      }
      dnum := dn;
      byteptr := pos % BLKSIZ;
      assert St() == Loaded(s, dn);
    }

    method ReadData(d: nat) returns (s: Sector)
      requires Sync() && DataArea(ib) <= d < |sec|
      ensures s == sec[d]
    {
      s := disk[d];
    }

    /** Sets up the buffers for the current position; panics exactly when the
        file must grow and the blocks for that have run out. */
    method LfSetup()
      requires Ok() && used && byteptr == BLKSIZ
      modifies this, disk
      ensures Sync() && panicked == old(OutOfBlocks(St()))
      ensures !panicked ==> Ready(St()) && SameFiles(old(St()), St()) && g == Extended(old(St()))
    {
      hide Mirrors, Valid, Seeking, Ready, SameFiles, NeedsIndex, NeedsBlock, WithIndex, WithBlock;
      ghost var s := St();
      CurEntry(s);
      SameFilesRefl(s);
      if ibdirty || dbdirty {
        FlushedValid(s);
        LfFlush();
      }
      ghost var s1 := St();
      SameNeeds(s, s1);
      ghost var k := FirstIndex();
      if panicked { return; }
      ghost var s2 := St();
      SameFilesTrans(s, s1, s2);
      SameNeeds(s, s2);
      SeekBoundHead(s2, k);
      WalkIndex(k);
      if panicked { return; }
      ghost var s3 := St();
      SameFilesTrans(s, s2, s3);
      SameNeeds(s, s3);
      IndexMoved(s.g, cur);
      LoadBlock();
      if panicked { return; }
      SameFilesTrans(s, s3, St());
    }

    // ----- operations on the open file -----

    ghost predicate Open()
      reads this, disk
    {
      Ok() && used
    }

    method LflGetc() returns (onebyte: int)
      requires Ok()
      modifies this, disk
      ensures Ok() && used == old(used)
      ensures !used ==> onebyte == SYSERR && St() == old(St())
      ensures used ==>
        && OthersSame(old(St()), St()) && g == old(g)
        && (View(St()), ByteFile.Result(onebyte, [])) == ByteFile.Apply(old(View(St())), ByteFile.Getc)
        && (if old(pos == |Content(St())|) then onebyte == EOF && pos == old(pos)
            else onebyte == old(Content(St())[pos]) as int && pos == old(pos) + 1)
      ensures used && old(pos == |Content(St())|) ==> St() == old(St()) && disk[..] == old(disk[..])
    {
      hide Mirrors, Valid, Ready, SameFiles, OutOfBlocks, Extended;
      if !used { return SYSERR; }
      ghost var s := St();
      CurEntry(s);
      ByteBound(s);
      if pos >= dir.files[cur].size { return EOF; }
      if byteptr >= BLKSIZ {
        NoGrowth(s);
        LfSetup();
        SameNeeds(s, St());
        ExtendedRoom(s, St());
        SameUsed(s, St());
      } else {
        ReadyNow(s);
      }
      ReadyFacts(St());
      ReadyPtr(St());
      GetValid(St());
      onebyte := dblock[byteptr] as int;
      byteptr := byteptr + 1;
      pos := pos + 1;
    }

    /** Panics exactly when the byte needs a block and none is left. */
    method LflPutc(ch: byte) returns (r: int)
      requires Ok()
      modifies this, disk
      ensures panicked == (old(used) && old(pos == Cap(St())))
      ensures !panicked ==> Ok() && used == old(used)
      ensures !panicked && !used ==> r == SYSERR && St() == old(St())
      ensures !panicked && used ==>
        && OthersSame(old(St()), St()) && g == Extended(old(St())).(contents := g.contents)
        && (View(St()), ByteFile.Result(r, [])) == ByteFile.Apply(old(View(St())), ByteFile.Putc(ch))
        && r == OK && Wrote(old(St()), St(), [ch])
        && (|Content(St())| > old(|Content(St())|) ==> dirdirty)
    {
      hide Mirrors, Valid, Ready, SameFiles, OutOfBlocks, OthersSame, Put, Extended, Cap, Wrote, ByteFile.Overlay;
      if !used { return SYSERR; }
      ghost var s := St();
      CurEntry(s);
      ByteBound(s);
      CapReached(s);
      if pos > dir.files[cur].size { return SYSERR; }
      r := OK;
      if byteptr >= BLKSIZ {
        LfSetup();
        if panicked { return; }
        SameNeeds(s, St());
        ExtendedRoom(s, St());
        SameUsed(s, St());
      } else {
        ReadyNow(s);
        SameFilesRefl(s);
        SameUsed(s, s);
        NotOut(s);
        NoneNeeded(s);
      }
      ghost var t := St();
      assert t.g == Extended(s);
      ReadyFacts(t);
      ReadyPtr(t);
      PutValid(t, ch);
      PutView(t, ch);
      PlaceByte(ch);
      PutLayout(t, ch);
      OthersTrans(s, t, St());
      OverlayWrote(s, St(), [ch]);
    }

    method LengthenFile()
      requires cur < 20 && dir.files[cur].size < 0xFFFF_FFFF
      modifies this`dir, this`dirdirty
      ensures dirdirty && dir == SetEntry(old(dir), cur, old(dir.files[cur]).(size := old(dir.files[cur].size) + 1))
    {
      dir := SetEntry(dir, cur, dir.files[cur].(size := dir.files[cur].size + 1));
      dirdirty := true;
    }

    /** Stores a byte under the pointer, lengthening the file at its end. */
    method PlaceByte(ch: byte)
      requires !panicked && Sync() && pos < 0xFFFF_FFFF - 1 && byteptr < 512 && cur < 20 && cur < |g.contents|
      requires pos <= |Content(St())| && dir.files[cur].size < 0xFFFF_FFFF
      modifies this
      ensures !panicked && Sync() && used == old(used) && St() == Put(old(St()), ch)
      ensures old(pos >= dir.files[cur].size) ==> dirdirty
    {
      hide Mirrors, StoredAt, SetEntry;
      if pos >= dir.files[cur].size {   // appending a byte to the file
        LengthenFile();
      }
      g := g.(contents := g.contents[cur := StoredAt(g.contents[cur], pos, ch)]);
      StoreByte(ch);
    }

    method StoreByte(ch: byte)
      requires pos < 0xFFFF_FFFF && byteptr < 512
      modifies this`dblock, this`byteptr, this`pos, this`dbdirty
      ensures St() == old(St()).(dblock := old(dblock)[old(byteptr) := ch], byteptr := old(byteptr) + 1,
                                 pos := old(pos) + 1, dbdirty := true)
    {
      dblock := dblock[byteptr := ch];
      byteptr := byteptr + 1;
      pos := pos + 1;
      dbdirty := true;
    }

    method LflSeek(offset: word) returns (r: int)
      requires Ok()
      modifies this, disk
      ensures Ok() && used == old(used)
      ensures !used ==> r == SYSERR && St() == old(St())
      ensures used ==>
        && OthersSame(old(St()), St()) && St() == old(St()).(pos := pos, byteptr := byteptr)
        && (View(St()), ByteFile.Result(r, [])) == ByteFile.Apply(old(View(St())), ByteFile.Seek(offset))
        && (if offset <= |Content(St())| then r == OK && pos == offset else r == SYSERR && St() == old(St()))
      ensures disk[..] == old(disk[..])
    {
      hide Mirrors, Valid;
      if !used { return SYSERR; }
      CurEntry(St());
      if offset > dir.files[cur].size { return SYSERR; }
      SeekValid(St(), offset);
      pos := offset;
      byteptr := BLKSIZ;
      return OK;
    }

    method LflRead(count: int) returns (r: int, buff: seq<byte>)
      requires Ok()
      modifies this, disk
      ensures Ok() && used == old(used)
      ensures !used ==> St() == old(St()) && (r == SYSERR || count == 0)
      ensures used ==>
        && OthersSame(old(St()), St()) && g == old(g)
        && (View(St()), ByteFile.Result(r, buff)) == ByteFile.Apply(old(View(St())), ByteFile.Read(count))
        && (if count < 0 then r == SYSERR && buff == [] else WasRead(old(St()), St(), count, r, buff))
      ensures used && old(pos == |Content(St())|) ==> St() == old(St()) && disk[..] == old(disk[..])
    {
      hide Mirrors, Valid, OthersSame;
      buff := [];
      OthersRefl(St());
      if count < 0 { return SYSERR, buff; }
      if used { CurEntry(St()); ByteBound(St()); }
      ghost var s := St();
      var numread := 0;
      while numread < count
        invariant 0 <= numread <= count && Ok() && used == s.used
        invariant !used ==> St() == s && numread == 0 && buff == []
        invariant used ==>
          && cur == s.cur < |g.contents| && s.cur < |s.g.contents| && OthersSame(s, St()) && g == s.g
          && s.pos + numread <= |View(s).content| && (numread == 0 ==> St() == s && disk[..] == old(disk[..]))
          && View(St()) == View(s).(pos := s.pos + numread)
          && buff == View(s).content[s.pos..s.pos + numread]
      {
        ghost var t := St();
        var nxtbyte := LflGetc();
        if used { OthersTrans(s, t, St()); }
        if nxtbyte == SYSERR {
          return SYSERR, buff;
        } else if nxtbyte == EOF {      // EOF before finished
          return if numread == 0 then EOF else numread, buff;
        }
        ByteFile.OneMore(View(s).content, s.pos, numread);
        buff := buff + [nxtbyte as byte];
        numread := numread + 1;
      }
      r := numread;
    }

    /** Panics exactly when the bytes reach past the size the file can get. */
    method LflWrite(buff: seq<byte>, count: int) returns (r: int)
      requires Ok() && count <= |buff|
      modifies this, disk
      ensures panicked == (old(used) && old(pos + count > Cap(St())))
      ensures !panicked ==> Ok() && used == old(used)
      ensures !panicked && !used ==> St() == old(St()) && (r == SYSERR || count == 0)
      ensures !panicked && used && count >= 0 ==>
        && OthersSame(old(St()), St())
        && (View(St()), ByteFile.Result(r, [])) == ByteFile.Apply(old(View(St())), ByteFile.Write(buff[..count]))
        && r == count && Wrote(old(St()), St(), buff[..count])
        && (|Content(St())| > old(|Content(St())|) ==> Listed(St()))
      ensures count < 0 ==> r == SYSERR
      ensures count <= 0 ==> St() == old(St()) && disk[..] == old(disk[..])
    {
      hide Mirrors, Valid, OthersSame, Extended, Cap, Listed, CurDir, Wrote, ByteFile.Overlay;
      r := SYSERR;
      OthersRefl(St());
      if used {
        CurEntry(St());
        CapReached(St());
        ByteFile.OverlayNothing(Content(St()), pos);
      }
      if count < 0 { return; }
      ghost var s := St();
      var i := 0;
      assert buff[..0] == [];
      while i < count
        invariant 0 <= i <= count && Ok() && used == s.used
        invariant i == 0 ==> St() == s && disk[..] == old(disk[..])
        invariant !used ==> St() == s && i == 0
        invariant used ==>
          && cur == s.cur < |g.contents| && s.cur < |s.g.contents| && OthersSame(s, St())
          && View(St()) == ByteFile.File(ByteFile.Overlay(View(s).content, s.pos, buff[..i]), s.pos + i)
          && s.pos + i <= Cap(St()) == Cap(s)
          && (|Content(St())| > |Content(s)| ==> Listed(St()))
      {
        ghost var t := St();
        var ok := LflPutc(buff[i]);
        if panicked { return; }
        if ok == SYSERR { return; }
        OthersTrans(s, t, St());
        SameCap(t, St());
        StillListed(t, St());
        DirtyListed(St());
        ByteFile.OverlayStep(View(s).content, s.pos, buff, i);
        CapReached(St());
        i := i + 1;
      }
      if used { OverlayWrote(s, St(), buff[..count]); }
      r := count;
    }

    // ----- lftruncate -----

    /** Neither buffer is valid: the next access sets them up. */
    method ForgetBuffers()
      modifies this`inum, this`dnum, this`byteptr
      ensures St() == old(St()).(inum := INULL, dnum := DNULL, byteptr := BLKSIZ)
    {
      inum := INULL;
      dnum := DNULL;
      byteptr := BLKSIZ;
    }

    method LfDbFree(d: nat) returns (ghost s: Sector)
      requires Sync() && DataArea(ib) <= d < |sec| && d <= 0xFFFF_FFFF
      modifies this, disk
      ensures Sync() && panicked == old(panicked) && NextDb(s) == old(dir.dfree)
      ensures var t := old(dir).(dfree := d);
              St() == old(St()).(dir := t, saved := t, sec := old(sec)[d := s])
    {
      hide Mirrors;
      var buf: Sector := *;
      buf := PatchNextDb(buf, dir.dfree);
      dir := dir.(dfree := d);
      WriteData(d, buf);
      WriteDir();
      s := buf;
    }

    /** Frees the data blocks of one index block, in order. */
    method FreeBlocks(iblock: IBlock, ghost chain: seq<nat>, ghost blocks: seq<nat>, ghost k: nat, ghost free: seq<nat>)
      returns (cleared: IBlock, ghost m: nat)
      requires Sync() && k < |chain| && 16 * k <= |blocks|
      requires Draining(ib, sec, dir, g, cur, chain, blocks, k, 16 * k)
      requires iblock == ib[chain[k]] && g.dfree == Reversed(blocks[..16 * k]) + free
      modifies this, disk
      ensures Sync() && panicked == old(panicked)
      ensures m == (if 16 * (k + 1) <= |blocks| then 16 * (k + 1) else |blocks|)
      ensures Draining(ib, sec, dir, g, cur, chain, blocks, k, m) && g.dfree == Reversed(blocks[..m]) + free
      ensures St() == old(St()).(dir := dir, saved := saved, sec := sec, g := g)
      ensures dir == old(dir).(dfree := dir.dfree) && g.contents == old(g.contents) && g.ifree == old(g.ifree)
      ensures cleared.next == iblock.next
    {
      hide Mirrors, Draining;
      cleared := iblock;
      m := 16 * k;
      for i := 0 to IBLEN
        invariant Sync() && panicked == old(panicked)
        invariant m == (if 16 * k + i <= |blocks| then 16 * k + i else |blocks|)
        invariant Draining(ib, sec, dir, g, cur, chain, blocks, k, m) && g.dfree == Reversed(blocks[..m]) + free
        invariant St() == old(St()).(dir := dir, saved := saved, sec := sec, g := g)
        invariant dir == old(dir).(dfree := dir.dfree) && g.contents == old(g.contents) && g.ifree == old(g.ifree)
        invariant cleared.next == iblock.next
        invariant forall j | i <= j < IBLEN :: cleared.dba[j] == iblock.dba[j]
      {
        var nextdb := cleared.dba[i];
        DrainSlot(old(ib), old(sec), old(dir), old(g), cur, chain, blocks, k, 16 * k, i);
        if nextdb != DNULL {
          DrainReady(ib, sec, dir, g, cur, chain, blocks, k, m);
          ghost var d0, s0, g0 := dir, sec, g;
          ghost var s := LfDbFree(nextdb);
          g := BlockFreed(g, cur);
          DrainBlock(ib, s0, d0, g0, cur, chain, blocks, k, m, s, g);
          ReversedStep(blocks, m, free);
          m := m + 1;
        }
        cleared := cleared.(dba := cleared.dba[i := DNULL]);
      }
    }

    /** Walks the index chain from firstib until the head of the free list,
        freeing and clearing; it visits exactly the members of the chain. */
    method DisposeChain(firstib: word, ifree: word, ghost chain: seq<nat>, ghost blocks: seq<nat>)
      returns (ghost visited: seq<nat>)
      requires !panicked && Sync() && Draining(ib, sec, dir, g, cur, chain, blocks, 0, 0)
      requires chain != [] && firstib == chain[0] && ifree == dir.ifree
      requires 16 * |chain| < |blocks| + 16 && |blocks| <= 16 * |chain|
      requires forall i | 0 <= i < |chain| :: chain[i] != ifree
      modifies this, disk
      ensures !panicked && Sync() && Draining(ib, sec, dir, g, cur, chain, blocks, |chain|, |blocks|)
      ensures visited == chain && g.dfree == Reversed(blocks) + old(g.dfree)
      ensures St() == old(St()).(dir := dir, saved := saved, sec := sec, ib := ib, g := g)
      ensures dir == old(dir).(dfree := dir.dfree) && g.contents == old(g.contents) && g.ifree == old(g.ifree)
    {
      hide Mirrors, Draining;
      visited := [];
      var nextib := firstib;
      ghost var k: nat, m: nat := 0, 0;
      assert blocks[..0] == [];
      while nextib != ifree
        invariant k <= |chain| && visited == chain[..k]
        invariant nextib == if k < |chain| then chain[k] else ifree
        invariant !panicked && Sync() && Draining(ib, sec, dir, g, cur, chain, blocks, k, m)
        invariant m == (if 16 * k <= |blocks| then 16 * k else |blocks|)
        invariant g.dfree == Reversed(blocks[..m]) + old(g.dfree)
        invariant St() == old(St()).(dir := dir, saved := saved, sec := sec, ib := ib, g := g)
        invariant dir == old(dir).(dfree := dir.dfree) && g.contents == old(g.contents) && g.ifree == old(g.ifree)
        decreases |chain| - k
      {
        DrainSlot(ib, sec, dir, g, cur, chain, blocks, k, m, 0);
        var iblock := GetIndex(nextib);
        iblock, m := FreeBlocks(iblock, chain, blocks, k, old(g.dfree));
        iblock := iblock.(offset := 0);
        if iblock.next == INULL {       // the last one leads to the free list
          iblock := iblock.(next := ifree);
        }
        DrainIndex(ib, sec, dir, g, cur, chain, blocks, k, m, iblock);
        PutIndex(nextib, iblock);
        visited := visited + [chain[k]];
        nextib := iblock.next;
        k := k + 1;
      }
      assert k == |chain| && m == |blocks| && blocks[..m] == blocks && chain[..k] == chain;
    }

    /** Empties the open file.  The walk visits exactly the file's index chain,
        and every block of the file goes to the free lists. */
    method LfTruncate() returns (r: int, ghost visited: seq<nat>)
      requires Open()
      modifies this, disk
      ensures Open() && r == OK && OthersSame(old(St()), St())
      ensures (View(St()), ByteFile.Result(r, [])) == ByteFile.Apply(old(View(St())), ByteFile.Truncate)
      ensures cur < |g.contents| && Content(St()) == [] && pos == 0
      ensures cur < |g.chains| && cur < |g.blocks| && cur < |old(g.chains)| && cur < |old(g.blocks)|
      ensures visited == old(g.chains[cur])
      ensures g.chains[cur] == [] && g.ifree == old(g.chains[cur]) + old(g.ifree)
      ensures g.blocks[cur] == [] && g.dfree == Reversed(old(g.blocks[cur])) + old(g.dfree)
      ensures old(Content(St()) == []) ==> St() == old(St()) && disk[..] == old(disk[..])
    {
      hide Mirrors, Valid, Draining, OthersSame;
      r, visited := OK, [];
      ghost var s0 := St();
      CurEntry(s0);
      ByteBound(s0);
      OthersRefl(s0);
      EmptyFile(s0);
      if dir.files[cur].size == 0 { return; }       // file is already empty
      if ibdirty || dbdirty {
        FlushedValid(s0);
        LfFlush();
        SameUsed(s0, St());
      }
      CurEntry(St());
      ghost var s1 := St();
      visited := FreeAll();
      OthersTrans(s0, s1, St());
    }

    /** lftruncate once the buffers are clean. */
    method FreeAll() returns (ghost visited: seq<nat>)
      requires Open() && !ibdirty && !dbdirty && cur < 20 && dir.files[cur].size != 0
      modifies this, disk
      ensures Open() && OthersSame(old(St()), St()) && cur == old(cur)
      ensures cur < |g.contents| && Content(St()) == [] && pos == 0
      ensures cur < |g.chains| && cur < |g.blocks| && cur < |old(g.chains)| && cur < |old(g.blocks)|
      ensures visited == old(g.chains[cur])
      ensures g.chains[cur] == [] && g.ifree == old(g.chains[cur]) + old(g.ifree)
      ensures g.blocks[cur] == [] && g.dfree == Reversed(old(g.blocks[cur])) + old(g.dfree)
    {
      hide Mirrors, Valid, Draining, OthersSame, Volume, Reversed;
      ghost var s0 := St();
      CleanView(s0);
      CurEntry(s0);
      TruncStart(s0);
      ghost var chain, blocks := g.chains[cur], g.blocks[cur];
      var ifree := dir.ifree;
      var firstib := dir.files[cur].ilist;
      ForgetBuffers();
      EmptyEntry();
      visited := DisposeChain(firstib, ifree, chain, blocks);
      TruncEnd(St(), chain, blocks);
      dir := dir.(ifree := firstib);
      dirdirty := true;
      g := Emptied(g, cur);
      CurEntry(St());
      TruncOthers(s0, St());
    }

    /** The open file has no index blocks and no bytes any more. */
    method EmptyEntry()
      requires cur < 20
      modifies this`pos, this`dir, this`dirdirty
      ensures St() == old(St()).(pos := 0, dirdirty := true,
                                 dir := SetEntry(old(dir), cur, old(dir.files[cur]).(ilist := INULL, size := 0)))
    {
      pos := 0;
      dir := SetEntry(dir, cur, dir.files[cur].(ilist := INULL, size := 0));
      dirdirty := true;
    }

    // ----- lflClose, lfsOpen -----

    method LflClose() returns (r: int)
      requires Ok()
      modifies this, disk
      ensures Ok() && !used && r == (if old(used) then OK else SYSERR)
      ensures g == old(g) && CurDir(St()) == old(CurDir(St())) && OnDisk(disk[..], g.contents)
      ensures 0 < disk.Length && saved == (if old(used && dirdirty) then old(dir) else old(saved)) == DecodeDir(disk[0])
      ensures !old(used && (dirdirty || dbdirty || ibdirty)) ==> disk[..] == old(disk[..])
    {
      hide Mirrors, Valid, OnDisk;
      if !used {
        ClosedOnDisk(disk[..], St());
        DirAtZero(disk[..], ib, sec, saved);
        return SYSERR;
      }
      CurEntry(St());
      if dirdirty || dbdirty || ibdirty {
        LfFlush();
      }
      DirAtZero(disk[..], ib, sec, saved);
      CloseValid(St());
      used := false;
      ClosedOnDisk(disk[..], St());
      return OK;
    }

    /** Whether the file's name is already in the directory, and where. */
    method FindEntry(name: seq<byte>) returns (found: bool, i: nat)
      requires |name| < NAME_LEN && 0 !in name && dir.nfiles <= 20
      ensures found == InDir(dir, name) && (found ==> i == EntryOf(dir, name))
    {
      found, i := false, 0;
      while i < dir.nfiles
        invariant i <= dir.nfiles
        invariant forall j | 0 <= j < i :: !Named(dir.files[j], name)
      {
        var cmp := dir.files[i].name;
        var k := 0;
        while k < |name|
          invariant 0 <= k <= |name| && cmp[..k] == name[..k]
        {
          if name[k] != cmp[k] { break; }
          k := k + 1;
        }
        if k == |name| && cmp[k] == 0 {
          found := true;
          return;
        }
        i := i + 1;
      }
    }

    /** Reads the directory into memory the first time a file is opened. */
    method LoadDir()
      requires Ok() && !used
      modifies this`dir, this`dirpresent
      ensures Ok() && St() == old(St()).(dir := old(CurDir(St())), dirpresent := true)
      ensures dir.nfiles == |g.contents| <= 20
    {
      hide Mirrors, Valid;
      ClosedBounds(St());
      if !dirpresent {
        DirAtZero(disk[..], ib, sec, saved);
        MountValid(St());
        dir := DecodeDir(disk[0]);
        dirpresent := true;
      }
    }

    /** Adds an empty file to the directory, in memory only. */
    method AddEntry(name: seq<byte>)
      requires Ok() && !used && dirpresent && dir.nfiles < NUM_DIR_ENT && |name| < NAME_LEN
      modifies this`dir, this`g
      ensures Ok() && dir.nfiles == old(dir.nfiles) + 1 && Named(dir.files[old(dir.nfiles)], name)
      ensures St() == Created(old(St()), dir.files[old(dir.nfiles)])
      ensures !Listed(St()) && dir.nfiles == |g.contents| <= 20
    {
      hide Mirrors, Valid;
      var i := dir.nfiles;
      var e := dir.files[i];
      e := Entry(0, INULL, name + [0] + e.name[|name| + 1..]);
      CreatedValid(St(), e);
      ghost var t := St();
      dir := SetEntry(dir, i, e).(nfiles := dir.nfiles + 1);
      g := Created(t, e).g;
    }

    /** Opens a file, creating it unless the mode says it must exist. */
    method LfsOpen(name: seq<byte>, mode: Mode) returns (r: int)
      requires Ok() && 0 !in name
      modifies this, disk
      ensures Ok() && r in {OK, SYSERR} && disk[..] == old(disk[..])
      ensures (r == OK) == (!old(used) && Opens(old(CurDir(St())), name, mode))
      ensures r == OK <==> var d := old(CurDir(St()));
        && !old(used) && |name| < 16 && mode != BadMode && d.nfiles <= 20
        && if exists h | 0 <= h < d.nfiles :: Named(d.files[h], name) then mode != NewMode
           else mode != OldMode && d.nfiles < 20
      ensures r == SYSERR ==> used == old(used) && g == old(g) && CurDir(St()) == old(CurDir(St()))
      ensures r == OK ==> OpenedAs(old(St()), St(), name) && !dirdirty && !ibdirty && !dbdirty && saved == old(saved)
    {
      hide Mirrors, Valid;
      r := SYSERR;
      if |name| >= NAME_LEN || mode == BadMode || used { return; }
      ClosedClean(St());
      LoadDir();
      hide Named, InDir;
      var found, i := FindEntry(name);
      if !found {
        if mode == OldMode || dir.nfiles >= NUM_DIR_ENT { return; }
        i := dir.nfiles;
        AddEntry(name);
      } else if mode == NewMode {
        return;
      }
      OpenedValid(St(), i);
      InitBlock(i);
      r := OK;
    }

    /** Initialises the control block for entry i. */
    method InitBlock(i: nat)
      modifies this`used, this`cur, this`pos, this`inum, this`dnum, this`byteptr, this`ibdirty, this`dbdirty
      ensures St() == Opened(old(St()), i)
    {
      OpenEntry(i);
      ForgetBuffers();
      DropDirty();
    }

    method OpenEntry(i: nat)
      modifies this`used, this`cur, this`pos
      ensures St() == old(St()).(used := true, cur := i, pos := 0)
    {
      used := true;
      cur := i;
      pos := 0;
    }

    method DropDirty()
      modifies this`ibdirty, this`dbdirty
      ensures St() == old(St()).(ibdirty := false, dbdirty := false)
    {
      ibdirty := false;
      dbdirty := false;
    }

    // ----- any sequence of calls on the open file -----

    /** Every sequence of calls returns what the plain byte file returns.  The
        system stops if and only if the file would outgrow the blocks there are,
        and then at the first call that makes it do so. */
    method Run(ops: seq<ByteFile.Op>) returns (results: seq<ByteFile.Result>)
      requires Open() && cur < |g.contents| && ByteFile.Fits(View(St()))
      modifies this, disk
      ensures |results| <= |ops| && results == ByteFile.Run(old(View(St())), ops[..|results|]).1
      ensures panicked <==> |results| < |ops|
      ensures panicked <==> ByteFile.Peak(old(View(St())), ops) > old(Cap(St()))
      ensures panicked ==> var f, n := old(View(St())), |results|;
        ByteFile.Peak(f, ops[..n]) <= old(Cap(St())) < ByteFile.Peak(f, ops[..n + 1])
      ensures !panicked ==> Open() && CallsDone(old(St()), St(), ops, results, disk[..] == old(disk[..]))
    {
      hide Mirrors, Valid, OthersSame, Cap, CallDone, CallsDone, ByteFile.Run, ByteFile.Apply, ByteFile.Peak;
      results := [];
      ghost var s := St();
      NoCalls(s);
      assert ops[..0] == [];
      while |results| < |ops|
        invariant |results| <= |ops| && Open()
        invariant CallsDone(s, St(), ops[..|results|], results, disk[..] == old(disk[..]))
        decreases |ops| - |results|
      {
        ghost var t, d := St(), disk[..];
        ghost var k := |results|;
        CallsFacts(s, t, ops[..k], results, d == old(disk[..]));
        ByteFile.PeakNext(View(s), ops, k);
        var result := Call(ops[|results|]);
        if panicked {
          ByteFile.PeakGrows(View(s), ops, k + 1);
          return;
        }
        CapReached(St());
        OneMoreCall(s, t, St(), ops, k, results, result, d == old(disk[..]), disk[..] == d,
          disk[..] == old(disk[..]));
        results := results + [result];
      }
      assert ops[..|results|] == ops;
      CallsFacts(s, St(), ops, results, disk[..] == old(disk[..]));
    }

    method Call(op: ByteFile.Op) returns (result: ByteFile.Result)
      requires Open() && cur < |g.contents| && ByteFile.Fits(View(St()))
      modifies this, disk
      ensures panicked <==> |ByteFile.Apply(old(View(St())), op).0.content| > old(Cap(St()))
      ensures !panicked ==> Open() && CallDone(old(St()), St(), op, result, disk[..] == old(disk[..]))
    {
      hide Mirrors, Valid, Cap, OthersSame, Listed, CallDone, Idle, ByteFile.Apply, View, Content, Extended;
      var code, data := OK, [];
      ghost var s, d := St(), disk[..];
      CapReached(s);
      CallSize(s, op);
      match op {
        case Seek(offset) =>
          code := LflSeek(offset);
          IsDone(s, St(), op, ByteFile.Result(code, data), disk[..] == d);
        case Getc =>
          code := LflGetc();
          IsDone(s, St(), op, ByteFile.Result(code, data), disk[..] == d);
        case Putc(ch) =>
          code := LflPutc(ch);
          if !panicked { IsDone(s, St(), op, ByteFile.Result(code, data), disk[..] == d); }
        case Read(count) =>
          code, data := LflRead(count);
          IsDone(s, St(), op, ByteFile.Result(code, data), disk[..] == d);
        case Write(bytes) =>
          code := LflWrite(bytes, |bytes|);
          assert bytes[..|bytes|] == bytes;
          if !panicked { IsDone(s, St(), op, ByteFile.Result(code, data), disk[..] == d); }
        case Truncate =>
          ghost var visited;
          code, visited := LfTruncate();
          IsDone(s, St(), op, ByteFile.Result(code, data), disk[..] == d);
      }
      result := ByteFile.Result(code, data);
    }

    // ----- whole sessions, by file name -----

    /** Opens a file, makes any calls and closes it.  By name, the disk alone then
        has for this file what the plain byte file has, and for every other file
        what it had.  The system stops just when the file would outgrow the blocks
        there are.  A new file is in the directory on disk if and only if some call
        stored a byte; otherwise the disk is as it was. */
    method Session(name: seq<byte>, mode: Mode, ops: seq<ByteFile.Op>)
      returns (r: int, results: seq<ByteFile.Result>)
      requires Ok() && !used && 0 !in name
      modifies this, disk
      ensures panicked <==>
        && old(Opens(CurDir(St()), name, mode))
        && ByteFile.Peak(ByteFile.File(old(FileNamed(St(), name)), 0), ops) > old(CapNamed(St(), name))
      ensures !panicked ==> Ok() && !used && r == if old(Opens(CurDir(St()), name, mode)) then OK else SYSERR
      ensures !panicked && r == SYSERR ==>
        && results == [] && g == old(g) && CurDir(St()) == old(CurDir(St())) && disk[..] == old(disk[..])
      ensures !panicked && r == OK ==> var f := ByteFile.File(old(FileNamed(St(), name)), 0);
        && results == ByteFile.Run(f, ops).1
        && InDir(CurDir(St()), name) && FileNamed(St(), name) == ByteFile.Run(f, ops).0.content
      ensures !panicked ==> forall n: seq<byte> | 0 !in n && n != name ::
        InDir(CurDir(St()), n) == InDir(old(CurDir(St())), n) && FileNamed(St(), n) == FileNamed(old(St()), n)
      ensures !panicked ==> forall n: seq<byte> :: DiskNamed(disk[..], n) == FileNamed(St(), n)
      ensures !panicked && r == OK && !InDir(old(CurDir(St())), name) ==>
        && 0 < disk.Length && CurDir(St()).nfiles == |g.contents| == |old(g.contents)| + 1
        && (DecodeDir(disk[0]).nfiles == |g.contents| <==> exists i | 0 <= i < |ops| :: ByteFile.Puts(ops[i]))
        && ((forall i | 0 <= i < |ops| :: !ByteFile.Puts(ops[i])) ==> disk[..] == old(disk[..]))
    {
      hide Mirrors, Valid, OthersSame, Cap, OpenedAs, OnDisk, DiskNamed, FileNamed, InDir, ByteFile.Run, ByteFile.Peak;
      results := [];
      ghost var s := St();
      r := LfsOpen(name, mode);
      if r != OK {
        DiskByName(disk[..], St());
        FileSame(s, St());
        return;
      }
      ghost var t := St();
      OpenedFile(s, t, name);
      results := Run(ops);
      if panicked { return; }
      assert ops[..|results|] == ops;
      ghost var u := St();
      CurEntry(u);
      SessionNames(s, t, u, name);
      r := LflClose();
      FileSame(u, St());
      DiskByName(disk[..], St());
    }

    /** What is stored under a name is read back under that name. */
    method StoreAndFetch(name: seq<byte>, bytes: seq<byte>) returns (r: int, data: seq<byte>)
      requires Ok() && !used && 0 !in name
      modifies this, disk
      ensures panicked <==> old(Opens(CurDir(St()), name, AnyMode)) && |bytes| > old(CapNamed(St(), name))
      ensures !panicked ==> Ok() && !used && (r == OK <==> old(Opens(CurDir(St()), name, AnyMode)))
      ensures !panicked && r == OK ==> data == bytes
    {
      hide Mirrors, Valid, CapNamed, FileNamed, DiskNamed, InDir, ByteFile.Run, ByteFile.Peak;
      var results;
      data := [];
      ghost var f := ByteFile.File(FileNamed(St(), name), 0);
      ClosedCap(St(), name);
      ByteFile.Replaced(f, bytes);
      r, results := Session(name, AnyMode, [ByteFile.Truncate, ByteFile.Write(bytes)]);
      if panicked || r != OK { return; }
      ClosedCap(St(), name);
      ByteFile.ReadWhole(bytes);
      r, results := Session(name, OldMode, [ByteFile.Read(|bytes|)]);
      data := results[0].data;
    }

    /** What is written at some place of a file in one session is read back there in the
        next, and every other byte of the file is what it was. */
    method PatchAndFetch(name: seq<byte>, p: word, bytes: seq<byte>) returns (r: int, data: seq<byte>)
      requires Ok() && !used && 0 !in name && p <= |FileNamed(St(), name)|
      modifies this, disk
      ensures panicked <==> old(Opens(CurDir(St()), name, AnyMode)) && p + |bytes| > old(CapNamed(St(), name))
      ensures !panicked ==> Ok() && !used && (r == OK <==> old(Opens(CurDir(St()), name, AnyMode)))
      ensures !panicked && r == OK ==> var c, c' := old(FileNamed(St(), name)), FileNamed(St(), name);
        && data == bytes && |c'| == (if p + |bytes| < |c| then |c| else p + |bytes|)
        && (forall i | 0 <= i < |c'| :: c'[i] == if p <= i < p + |bytes| then bytes[i - p] else c[i])
        && DiskNamed(disk[..], name) == c'
    {
      hide Mirrors, Valid, CapNamed, FileNamed, DiskNamed, InDir, ByteFile.Run, ByteFile.Peak;
      var results;
      data := [];
      ghost var f := ByteFile.File(FileNamed(St(), name), 0);
      ClosedCap(St(), name);
      ByteFile.WrittenAt(f, p, bytes);
      r, results := Session(name, AnyMode, [ByteFile.Seek(p), ByteFile.Write(bytes)]);
      if panicked || r != OK { return; }
      ClosedCap(St(), name);
      ghost var c := FileNamed(St(), name);
      ByteFile.ReadAt(c, p, |bytes|);
      assert c[p..p + |bytes|] == bytes;
      r, results := Session(name, OldMode, [ByteFile.Seek(p), ByteFile.Read(|bytes|)]);
      data := results[1].data;
    }
  }
}
