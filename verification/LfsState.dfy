/** The state of the local file system as a value: the in-memory directory, the
    control block of the one open file, and what the disk holds.  The step lemmas
    here say what each assignment of lfsetup does to the file system. */
module LfsState {
  import opened LfsFormat
  import opened LfsModel
  import opened LfsSizes
  import ByteFile

  datatype FS = FS(
    // struct lfdata
    dir: Dir, dirpresent: bool, dirdirty: bool,
    // struct lflcblk; lfdirptr is an index, lfbyte an offset into lfdblock
    used: bool, cur: nat, pos: word, inum: word, iblock: IBlock, dnum: word, dblock: Sector,
    byteptr: nat, ibdirty: bool, dbdirty: bool,
    // the disk: index area, data area, directory sector
    ib: seq<IBlock>, sec: seq<Sector>, saved: Dir,
    // who owns what
    g: Layout)

  /** The index blocks with the cached one laid over. */
  function LIb(s: FS): seq<IBlock> {
    if s.used && s.inum < |s.ib| then s.ib[s.inum := s.iblock] else s.ib
  }

  /** The data sectors with the cached one laid over. */
  function LSec(s: FS): seq<Sector> {
    if s.used && s.dnum < |s.sec| then s.sec[s.dnum := s.dblock] else s.sec
  }

  function CurDir(s: FS): Dir {
    if s.dirpresent then s.dir else s.saved
  }

  /** saved is dir, except that it may lack files at the end of the directory
      that were created and never written. */
  ghost predicate Behind(saved: Dir, dir: Dir) {
    && saved.dfree == dir.dfree && saved.ifree == dir.ifree && saved.nfiles <= dir.nfiles <= 20
    && (forall h | 0 <= h < saved.nfiles :: saved.files[h] == dir.files[h])
    && (forall h | saved.nfiles <= h < dir.nfiles :: dir.files[h].size == 0 && dir.files[h].ilist == INULL)
  }

  /** Unless it is dirty, the in-memory directory is the one on disk, up to such
      files at the end. */
  ghost predicate DirOk(s: FS) {
    && (!s.dirpresent ==> !s.used && !s.dirdirty)
    && (s.dirpresent && !s.dirdirty ==> Behind(s.saved, s.dir))
  }

  /** A clean cached index block is the one on disk, and it is the open file's. */
  ghost predicate IndexCoherent(s: FS) {
    && (s.inum != INULL ==> s.inum < |s.ib| && s.cur < |s.g.chains| && s.inum in s.g.chains[s.cur])
    && (if s.ibdirty then s.inum != INULL else s.inum != INULL ==> s.ib[s.inum] == s.iblock)
  }

  ghost predicate DataOwned(s: FS) {
    && (s.dnum != DNULL ==> s.dnum < |s.sec| && s.cur < |s.g.blocks| && s.dnum in s.g.blocks[s.cur])
    && (s.dbdirty ==> s.dnum != DNULL)
  }

  /** A clean cached data block is the one on disk, and it is the open file's. */
  ghost predicate DataCoherent(s: FS) {
    DataOwned(s) && (!s.dbdirty && s.dnum != DNULL ==> s.sec[s.dnum] == s.dblock)
  }

  /** While the byte pointer is inside the buffer, the buffer is the block of the
      current position. */
  ghost predicate ByteOk(s: FS) {
    && s.byteptr <= BLKSIZ && s.cur < |s.g.blocks|
    && (s.byteptr < BLKSIZ ==>
          && s.pos / 512 < |s.g.blocks[s.cur]|
          && s.dnum == s.g.blocks[s.cur][s.pos / 512] && s.byteptr == s.pos % 512)
  }

  ghost predicate Positioned(s: FS) {
    s.used && s.dirpresent && s.cur < |s.g.contents| && s.pos <= |s.g.contents[s.cur]|
  }

  /** The invariant between file calls. */
  ghost predicate Valid(s: FS) {
    && Volume(LIb(s), LSec(s), CurDir(s), s.g, -1)
    && DirOk(s)
    && (if s.used then IndexCoherent(s) && DataCoherent(s) && ByteOk(s) && Positioned(s)
        else !s.ibdirty && !s.dbdirty && !s.dirdirty)
  }

  function Content(s: FS): seq<byte>
    requires s.cur < |s.g.contents|
  {
    s.g.contents[s.cur]
  }

  /** The directory on disk lists all files, or will once it is written. */
  ghost predicate Listed(s: FS) {
    s.dirdirty || s.saved.nfiles == s.dir.nfiles
  }

  /** The directory was left alone, or it is listed now. */
  ghost predicate DirKept(s: FS, t: FS) {
    (t.dir == s.dir && t.saved == s.saved && t.dirdirty == s.dirdirty) || Listed(t)
  }

  /** Same files, same bytes, same open file and position. */
  ghost predicate SameFiles(s: FS, t: FS) {
    && t.g.contents == s.g.contents && t.cur == s.cur && t.pos == s.pos
    && t.used == s.used && t.dirpresent == s.dirpresent && t.dir.nfiles == s.dir.nfiles
    && (forall h | 0 <= h < 20 :: t.dir.files[h].(ilist := 0) == s.dir.files[h].(ilist := 0))
    && (forall h | 0 <= h < 20 && h != s.cur :: t.dir.files[h] == s.dir.files[h])
    && DirKept(s, t)
  }

  /** The next byte to write needs a data block (an index block) that the file
      does not have yet. */
  predicate NeedsBlock(s: FS)
    requires s.cur < |s.g.contents|
  {
    s.pos == |Content(s)| && s.pos % 512 == 0
  }

  predicate NeedsIndex(s: FS)
    requires s.cur < |s.g.contents|
  {
    s.pos == |Content(s)| && s.pos % 8192 == 0
  }

  lemma SameFilesRefl(s: FS)
    ensures SameFiles(s, s)
  {
  }

  lemma SameFilesTrans(s: FS, t: FS, u: FS)
    requires SameFiles(s, t) && SameFiles(t, u)
    ensures SameFiles(s, u)
  {
  }

  lemma SameNeeds(s: FS, t: FS)
    requires SameFiles(s, t) && s.cur < |s.g.contents|
    ensures t.pos == s.pos && t.cur == s.cur && t.g.contents == s.g.contents
    ensures NeedsIndex(t) == NeedsIndex(s) && NeedsBlock(t) == NeedsBlock(s)
  {
  }

  // ----- lfflush -----

  function Flushed(s: FS): FS {
    s.(ib := LIb(s), sec := LSec(s), saved := if s.dirdirty then s.dir else s.saved,
       dirdirty := false, ibdirty := false, dbdirty := false)
  }

  /** What the three writes of lfflush need, and what they amount to. */
  lemma FlushFacts(s: FS)
    requires Valid(s) && s.used
    ensures DataArea(LIb(s)) == DataArea(s.ib)
    ensures s.dbdirty ==> DataArea(s.ib) <= s.dnum < |s.sec| && LSec(s) == s.sec[s.dnum := s.dblock]
    ensures !s.dbdirty ==> LSec(s) == s.sec
    ensures s.ibdirty ==> s.inum < |s.ib| && LIb(s) == s.ib[s.inum := s.iblock]
    ensures !s.ibdirty ==> LIb(s) == s.ib
    ensures |s.ib| < INULL && |s.sec| < DNULL && s.dir.nfiles <= 20
  {
    hide Volume, Behind, ByteOk;
    VolumeBounds(LIb(s), LSec(s), CurDir(s), s.g, -1);
    if s.dbdirty { BlockInArea(LIb(s), LSec(s), s.dir, s.g, -1, s.cur, s.dnum); }
  }

  lemma BehindSelf(d: Dir)
    requires d.nfiles <= 20
    ensures Behind(d, d)
  {
  }

  lemma FlushedValid(s: FS)
    requires Valid(s) && s.used
    ensures Valid(Flushed(s)) && LIb(Flushed(s)) == Flushed(s).ib && LSec(Flushed(s)) == Flushed(s).sec
    ensures SameFiles(s, Flushed(s))
  {
    hide Volume, Behind;
    FlushFacts(s);
    BehindSelf(s.dir);
    assert LIb(Flushed(s)) == LIb(s) && LSec(Flushed(s)) == LSec(s);
  }

  /** A clean cache hides nothing. */
  lemma CleanView(s: FS)
    requires Valid(s) && s.used && !s.ibdirty && !s.dbdirty
    ensures LIb(s) == s.ib && LSec(s) == s.sec
    ensures |s.ib| < INULL && |s.sec| < DNULL
    ensures s.cur < |s.g.chains| == |s.g.blocks| == |s.g.contents| <= 20
  {
    VolumeBounds(LIb(s), LSec(s), CurDir(s), s.g, -1);
    hide Volume;
  }

  // ----- lfsetup, first half: finding the index block -----

  ghost predicate CurSized(s: FS)
    requires s.cur < |s.g.chains| == |s.g.blocks| == |s.g.contents| <= 20
  {
    Sized(s.dir.files[s.cur].size, s.g.chains[s.cur], s.g.blocks[s.cur], s.g.contents[s.cur])
  }

  /** lfsetup has the k-th index block of the file in memory, at or before the
      one that covers the position.  If that block was just allocated, it is the
      one for the end of the file and it is still empty. */
  ghost predicate Seeking(s: FS, k: nat) {
    && Positioned(s) && s.byteptr == 512 && !s.dbdirty && DataCoherent(s) && LSec(s) == s.sec
    && Volume(LIb(s), s.sec, s.dir, s.g, s.cur)
    && var c := s.g.chains[s.cur];
       && k < |c| && s.inum == c[k] && s.inum < |s.ib|
       && s.iblock.offset == 8192 * k && k <= s.pos / 8192
       && s.dir.files[s.cur].size == |Content(s)|
       && (if s.ibdirty
           then k + 1 == |c| && |Content(s)| == s.pos == 512 * |s.g.blocks[s.cur]| == 8192 * k
           else s.ib[s.inum] == s.iblock && DirOk(s) && CurSized(s))
  }

  lemma CurBody(ib: seq<IBlock>, sec: seq<Sector>, dir: Dir, g: Layout, x: int, f: nat)
    requires Volume(ib, sec, dir, g, x) && f < |g.chains| && (x == -1 || x == f)
    ensures f < |g.chains| == |g.blocks| == |g.contents| <= 20 && BodyOf(ib, sec, dir, g, f)
    ensures f != x ==> Sized(dir.files[f].size, g.chains[f], g.blocks[f], g.contents[f])
    ensures Volume(ib, sec, dir, g, f)
  {
    hide Covered, Sized, Lists, FileBody;
    if f != x { assert BodyOf(ib, sec, dir, g, f); }
  }

  lemma SeekStart(s: FS) returns (k: nat)
    requires Valid(s) && s.used && !s.ibdirty && !s.dbdirty && s.byteptr == 512
    requires s.inum != INULL && s.pos >= s.iblock.offset
    ensures Seeking(s, k)
  {
    hide Volume;
    CleanView(s);
    CurBody(s.ib, s.sec, s.dir, s.g, -1, s.cur);
    k :| 0 <= k < |s.g.chains[s.cur]| && s.g.chains[s.cur][k] == s.inum;
  }

  /** Index block i of the file is read into memory. */
  function AtIndex(s: FS, i: word): FS
    requires i < |s.ib|
  {
    s.(inum := i, iblock := s.ib[i])
  }

  lemma SeekFirst(s: FS)
    requires Valid(s) && s.used && !s.ibdirty && !s.dbdirty && s.byteptr == 512
    requires s.cur < 20 && s.dir.files[s.cur].ilist != INULL
    ensures s.dir.files[s.cur].ilist < |s.ib| && Seeking(AtIndex(s, s.dir.files[s.cur].ilist), 0)
  {
    hide Volume;
    CleanView(s);
    CurBody(s.ib, s.sec, s.dir, s.g, -1, s.cur);
    assert s.g.chains[s.cur][0] < |s.ib|;
    assert LIb(AtIndex(s, s.dir.files[s.cur].ilist)) == s.ib;
  }

  /** An empty file gets its first index block.  lfiballoc writes the directory
      before ld_ilist is set, so the copy on disk does not have it yet. */
  function NewFirst(s: FS, x: word): FS
    requires s.cur < 20 && x < |s.ib| && s.cur < |s.g.chains| && s.g.ifree != [] && s.g.ifree[0] < |s.g.iowner|
  {
    var dir := s.dir.(ifree := s.ib[x].next);
    s.(dir := SetEntry(dir, s.cur, dir.files[s.cur].(ilist := x)), saved := dir, dirdirty := false,
       inum := x, iblock := ClearIb(0), ibdirty := true, g := IndexGrown(s.g, s.cur))
  }

  /** An empty file, with x the first free index block. */
  lemma EmptyChain(s: FS, x: word)
    requires Valid(s) && s.used && !s.ibdirty && !s.dbdirty && s.cur < 20
    requires s.dir.files[s.cur].ilist == INULL && x == s.dir.ifree != INULL
    ensures LIb(s) == s.ib && LSec(s) == s.sec && x < |s.ib| < INULL
    ensures s.cur < |s.g.chains| == |s.g.blocks| == |s.g.contents| <= 20
    ensures s.g.chains[s.cur] == [] && s.g.blocks[s.cur] == [] && Content(s) == [] && s.pos == 0
    ensures s.g.ifree != [] && s.g.ifree[0] == x < |s.g.iowner|
    ensures Volume(s.ib, s.sec, s.dir, s.g, s.cur) && s.dir.files[s.cur].size == 0
  {
    CleanView(s);
    CurBody(s.ib, s.sec, s.dir, s.g, -1, s.cur);
    FreeHeads(s.ib, s.sec, s.dir, s.g, -1);
    hide Volume;
  }

  lemma SeekNew(s: FS, x: word)
    requires Valid(s) && s.used && !s.ibdirty && !s.dbdirty && s.byteptr == 512
    requires s.inum == INULL && s.cur < 20 && s.dir.files[s.cur].ilist == INULL && x == s.dir.ifree != INULL
    ensures x < |s.ib| && s.cur < |s.g.chains| && s.g.ifree != [] && s.g.ifree[0] < |s.g.iowner|
    ensures Seeking(NewFirst(s, x), 0) && SameFiles(s, NewFirst(s, x)) && NeedsIndex(s)
    ensures NewFirst(s, x).g.blocks == s.g.blocks && NewFirst(s, x).g.dfree == s.g.dfree
  {
    hide Volume;
    EmptyChain(s, x);
    var s' := NewFirst(s, x);
    assert LIb(s') == IbAppended(s.ib, [], x);
    VolumeAppendIndex(s.ib, s.sec, s.dir, s.g, s.cur, LIb(s'), s'.dir, s'.g);
  }

  /** What the index block in memory says about the file. */
  lemma SeekFacts(s: FS, k: nat)
    requires Seeking(s, k)
    ensures |s.ib| < INULL && |s.sec| < DNULL && s.cur < |s.g.chains| == |s.g.blocks| == |s.g.contents| <= 20
    ensures var c, bs := s.g.chains[s.cur], s.g.blocks[s.cur];
            && k < |c| && LIb(s)[c[k]] == s.iblock && s.iblock.next == LinkOf(c, k)
            && (k + 1 < |c| ==> c[k + 1] < |s.ib| && LIb(s)[c[k + 1]].offset == 8192 * (k + 1))
            && (forall j | 0 <= j < 16 :: s.iblock.dba[j] == if 16 * k + j < |bs| then bs[16 * k + j] else DNULL)
            && (forall b | 0 <= b < |bs| :: bs[b] < |s.sec|)
            && |Content(s)| <= 512 * |bs| <= 8192 * |c|
    ensures 512 * |s.g.blocks[s.cur]| <= 0xFFFF_FFFF - 512 && s.dir.nfiles <= 20
  {
    VolumeBounds(LIb(s), s.sec, s.dir, s.g, s.cur);
    CurBody(LIb(s), s.sec, s.dir, s.g, s.cur, s.cur);
    BlocksFit(LIb(s), s.sec, s.dir, s.g, s.cur);
    hide Volume, DataCoherent, DirOk, Positioned, Sized;
    var c := s.g.chains[s.cur];
    assert LIb(s)[c[k]] == s.iblock;
    if k + 1 < |c| { assert LIb(s)[c[k + 1]].offset == 8192 * (k + 1); }
  }

  /** The walk moves to the next index block of the file. */
  lemma SeekNext(s: FS, k: nat)
    requires Seeking(s, k) && !s.ibdirty && 8192 * k < s.pos - s.pos % 8192 && s.iblock.next != INULL
    ensures s.iblock.next < |s.ib| && Seeking(AtIndex(s, s.iblock.next).(dnum := DNULL), k + 1)
  {
    hide Volume, Sized, Behind;
    SeekFacts(s, k);
    assert LIb(s) == s.ib;
    var s' := AtIndex(s, s.iblock.next).(dnum := DNULL);
    assert LIb(s') == s.ib && LSec(s') == s.sec;
  }

  /** The file grows by an index block: the last one is linked to it on disk. */
  function NewNext(s: FS, x: word): FS
    requires s.cur < |s.g.chains| && s.g.ifree != [] && s.g.ifree[0] < |s.g.iowner|
    requires x < |s.ib| && s.inum < |s.ib| && s.iblock.offset + 8192 <= 0xFFFF_FFFF
  {
    var dir := s.dir.(ifree := s.ib[x].next);
    s.(dir := dir, saved := dir, dirdirty := false, ib := s.ib[s.inum := s.iblock.(next := x)],
       inum := x, iblock := ClearIb(s.iblock.offset + 8192), ibdirty := true, dnum := DNULL,
       g := IndexGrown(s.g, s.cur))
  }

  lemma SeekExtend(s: FS, k: nat, x: word)
    requires Seeking(s, k) && !s.ibdirty && 8192 * k < s.pos - s.pos % 8192 && s.iblock.next == INULL
    requires x == s.dir.ifree != INULL
    ensures x < |s.ib| && s.cur < |s.g.chains| && s.g.ifree != [] && s.g.ifree[0] < |s.g.iowner|
    ensures s.iblock.offset + 8192 <= 0xFFFF_FFFF
    ensures Seeking(NewNext(s, x), k + 1) && SameFiles(s, NewNext(s, x)) && NeedsIndex(s)
    ensures NewNext(s, x).g.blocks == s.g.blocks && NewNext(s, x).g.dfree == s.g.dfree
  {
    hide Volume, Behind, IbAppended;
    SeekFacts(s, k);
    FreeHeads(LIb(s), s.sec, s.dir, s.g, s.cur);
    var c := s.g.chains[s.cur];
    assert LIb(s) == s.ib && k + 1 == |c|;
    var s' := NewNext(s, x);
    ChainOwned(s.ib, s.sec, s.dir, s.g, s.cur, s.cur, k);
    assert LIb(s') == IbAppended(s.ib, c, x) by { AppendedLast(s.ib, c, x, s.iblock); }
    assert LSec(s') == s.sec;
    VolumeAppendIndex(s.ib, s.sec, s.dir, s.g, s.cur, LIb(s'), s'.dir, s'.g);
  }

  lemma AppendedLast(ib: seq<IBlock>, chain: seq<nat>, x: nat, b: IBlock)
    requires chain != [] && x < |ib| && 8192 * |chain| <= 0xFFFF_FFFF && x < INULL
    requires (forall k | 0 <= k < |chain| :: chain[k] < |ib|) && b == ib[chain[|chain| - 1]]
    ensures IbAppended(ib, chain, x) == ib[chain[|chain| - 1] := b.(next := x)][x := ClearIb(8192 * |chain|)]
  {
  }

  lemma ChainOwned(ib: seq<IBlock>, sec: seq<Sector>, dir: Dir, g: Layout, x: int, f: nat, k: nat)
    requires Volume(ib, sec, dir, g, x) && f < |g.chains| && k < |g.chains[f]|
    ensures forall i | 0 <= i < |g.chains[f]| :: g.chains[f][i] < |ib|
    ensures g.chains[f][k] < |g.iowner| && g.iowner[g.chains[f][k]] == f
  {
    hide Covered, FilesExcept, BodyOf, Lists;
  }

  lemma SeekBound(s: FS, k: nat)
    requires Seeking(s, k)
    ensures s.iblock.offset == 8192 * k <= s.pos - s.pos % 8192 && s.cur < |s.g.contents|
    ensures s.ibdirty ==> 8192 * k == s.pos
  {
    hide Volume, Behind;
  }

  lemma SeekBoundHead(s: FS, k: nat)
    requires Seeking(s, k)
    ensures s.cur < |s.g.contents| && (s.g.ifree == [] <==> s.dir.ifree == INULL)
  {
    hide Volume, Behind;
    VolumeBounds(LIb(s), s.sec, s.dir, s.g, s.cur);
    FreeHeads(LIb(s), s.sec, s.dir, s.g, s.cur);
  }

  /** Only the last index block of a file can be a new one. */
  lemma SeekClean(s: FS, k: nat)
    requires Seeking(s, k) && 8192 * k < s.pos - s.pos % 8192
    ensures !s.ibdirty && s.cur < 20 && s.inum < |s.ib|
    ensures s.dir.ifree != INULL ==> s.dir.ifree < |s.ib|
  {
    hide Volume, Behind;
    VolumeBounds(LIb(s), s.sec, s.dir, s.g, s.cur);
    FreeHeads(LIb(s), s.sec, s.dir, s.g, s.cur);
  }

  /** A walk that ends without an allocation did not need one. */
  lemma SeekEnd(s: FS, k: nat)
    requires Seeking(s, k) && !s.ibdirty && 8192 * k >= s.pos - s.pos % 8192
    ensures k == s.pos / 8192 && !NeedsIndex(s)
  {
    hide Volume, Behind;
    SeekFacts(s, k);
  }

  lemma ExtendNeeds(s: FS, k: nat)
    requires Seeking(s, k) && !s.ibdirty && 8192 * k < s.pos - s.pos % 8192 && s.iblock.next == INULL
    ensures NeedsIndex(s)
  {
    hide Volume, Behind;
    SeekFacts(s, k);
  }

  lemma EmptyNeeds(s: FS)
    requires Valid(s) && s.used && s.cur < 20 && s.dir.files[s.cur].ilist == INULL
    ensures NeedsIndex(s) && s.inum == INULL
  {
    hide Volume, Behind;
    VolumeBounds(LIb(s), LSec(s), s.dir, s.g, -1);
    CurBody(LIb(s), LSec(s), s.dir, s.g, -1, s.cur);
  }

  /** A file with an index block in memory has one in its directory entry. */
  lemma NonemptyHasIndex(s: FS)
    requires Valid(s) && s.used && s.inum != INULL && s.cur < 20
    ensures s.dir.files[s.cur].ilist != INULL
  {
    hide Volume, Behind;
    VolumeBounds(LIb(s), LSec(s), s.dir, s.g, -1);
    CurBody(LIb(s), LSec(s), s.dir, s.g, -1, s.cur);
  }

  lemma HeadsOf(s: FS)
    requires Valid(s) && s.used && LIb(s) == s.ib && LSec(s) == s.sec
    ensures s.cur < 20 && s.cur < |s.g.chains| == |s.g.blocks| && |s.g.iowner| == |s.ib| && |s.ib| < INULL
    ensures if s.g.ifree == [] then s.dir.ifree == INULL
            else s.dir.ifree == s.g.ifree[0] < |s.ib| && s.dir.ifree != INULL
  {
    hide Volume, Behind;
    VolumeBounds(LIb(s), LSec(s), s.dir, s.g, -1);
    FreeHeads(LIb(s), LSec(s), s.dir, s.g, -1);
  }

  // ----- lfsetup, second half: loading the data block -----

  /** What lfsetup leaves: the byte pointer addresses the current position, and
      the file has exactly the blocks that a byte stored there needs. */
  ghost predicate Ready(s: FS) {
    && Positioned(s) && s.byteptr == s.pos % 512 && DataOwned(s) && IndexCoherent(s) && DirOk(s)
    && Volume(LIb(s), LSec(s), s.dir, s.g, s.cur)
    && s.dir.files[s.cur].size == |Content(s)|
    && var bs := s.g.blocks[s.cur];
       && s.pos / 512 < |bs| && s.dnum == bs[s.pos / 512]
       && Tight(if s.pos < |Content(s)| then |Content(s)| else s.pos + 1, |bs|, 512)
       && Tight(|bs|, |s.g.chains[s.cur]|, 16)
       && (!NeedsBlock(s) ==> Valid(s))
  }

  lemma LoadFacts(s: FS)
    requires Seeking(s, s.pos / 8192)
    ensures s.cur < 20 && s.cur < |s.g.contents| && s.pos % 8192 / 512 < 16 && !s.dbdirty
    ensures s.dir.dfree != DNULL ==> DataArea(s.ib) <= s.dir.dfree < |s.sec|
    ensures s.g.dfree == [] <==> s.dir.dfree == DNULL
    ensures var d := s.iblock.dba[s.pos % 8192 / 512];
            if d == DNULL then NeedsBlock(s) else DataArea(s.ib) <= d < |s.sec|
  {
    hide Volume, Behind;
    SeekFacts(s, s.pos / 8192);
    FreeHeads(LIb(s), s.sec, s.dir, s.g, s.cur);
    SplitPosition(s.pos);
    var d := s.iblock.dba[s.pos % 8192 / 512];
    if d != DNULL {
      assert d == s.g.blocks[s.cur][s.pos / 512];
      BlockInArea(LIb(s), s.sec, s.dir, s.g, s.cur, s.cur, d);
    }
  }

  /** The position is at the end of the file and the blocks to extend it are gone. */
  ghost predicate OutOfBlocks(s: FS)
    requires s.cur < |s.g.contents|
  {
    (NeedsIndex(s) && s.g.ifree == []) || (NeedsBlock(s) && s.g.dfree == [])
  }

  /** The first free index block (data block) goes to file f, if there is one. */
  function WithIndex(g: Layout, f: nat): Layout {
    if f < |g.chains| && g.ifree != [] && g.ifree[0] < |g.iowner| then IndexGrown(g, f) else g
  }

  function WithBlock(g: Layout, f: nat): Layout {
    if f < |g.blocks| && g.dfree != [] && g.dfree[0] < |g.downer| then BlocksGrown(g, f) else g
  }

  /** The layout once the blocks for the byte at the position are there. */
  function Extended(s: FS): Layout
    requires s.cur < |s.g.contents|
  {
    var g := if NeedsIndex(s) then WithIndex(s.g, s.cur) else s.g;
    if NeedsBlock(s) then WithBlock(g, s.cur) else g
  }

  /** The data (index) blocks that the open file has or could still get. */
  function DataRoom(s: FS): nat {
    |s.g.dfree| + if s.cur < |s.g.blocks| then |s.g.blocks[s.cur]| else 0
  }

  function IndexRoom(s: FS): nat {
    |s.g.ifree| + if s.cur < |s.g.chains| then |s.g.chains[s.cur]| else 0
  }

  /** The size at which the open file cannot grow any more. */
  function Cap(s: FS): nat {
    if 512 * DataRoom(s) < 8192 * IndexRoom(s) then 512 * DataRoom(s) else 8192 * IndexRoom(s)
  }

  /** Blocks run out exactly at that size. */
  lemma CapReached(s: FS)
    requires Valid(s) && s.used
    ensures s.cur < |s.g.contents| && s.pos <= |Content(s)| <= Cap(s)
    ensures OutOfBlocks(s) <==> s.pos == Cap(s)
  {
    hide Valid, Tight;
    CurTight(s);
    CapNumbers(s.pos, |Content(s)|, |s.g.blocks[s.cur]|, |s.g.chains[s.cur]|, |s.g.dfree|, |s.g.ifree|);
  }

  /** Seen from outside: the size follows from the disk's and those of the other files. */
  lemma CapSizes(s: FS, f: nat)
    requires Valid(s)
    ensures Cap(s.(cur := f)) == FileCap(|s.ib|, |s.sec| - DataArea(s.ib), s.g.contents, f)
  {
    hide Volume, Taken, DirOk, IndexCoherent, DataCoherent, ByteOk, Positioned;
    RoomSizes(LIb(s), LSec(s), CurDir(s), s.g, f);
  }

  lemma CapNumbers(p: nat, n: nat, b: nat, c: nat, d: nat, i: nat)
    requires p <= n <= 512 * b < n + 512 && b <= 16 * c < b + 16
    ensures var cap := if 512 * (d + b) < 8192 * (i + c) then 512 * (d + b) else 8192 * (i + c);
      n <= cap && (p == cap <==> p == n && ((n % 8192 == 0 && i == 0) || (n % 512 == 0 && d == 0)))
  {
    var q, r := n / 512, n / 8192;
    assert n % 512 == 0 ==> n == 512 * q && b == q;
    assert n % 8192 == 0 ==> n == 8192 * r && b == 16 * r && c == r;
    assert n == 512 * b ==> n % 512 == 0;
    assert n == 8192 * c ==> n % 8192 == 0;
  }

  lemma CurTight(s: FS)
    requires Valid(s) && s.used
    ensures s.cur < |s.g.chains| == |s.g.blocks| == |s.g.contents| && s.pos <= |Content(s)|
    ensures var n, b, c := |Content(s)|, |s.g.blocks[s.cur]|, |s.g.chains[s.cur]|;
      n <= 512 * b < n + 512 && b <= 16 * c < b + 16
  {
    hide Volume, Behind;
    VolumeBounds(LIb(s), LSec(s), s.dir, s.g, -1);
    CurBody(LIb(s), LSec(s), s.dir, s.g, -1, s.cur);
  }

  /** Blocks move from a free list to the file; none is gained or lost. */
  lemma ExtendedRoom(s: FS, t: FS)
    requires s.cur < |s.g.contents| && t.cur == s.cur && t.g == Extended(s)
    ensures DataRoom(t) == DataRoom(s) && IndexRoom(t) == IndexRoom(s)
    ensures !NeedsBlock(s) ==> t.g == s.g
  {
    hide WithIndex, WithBlock, Content, NeedsIndex, NeedsBlock;
    var g := if NeedsIndex(s) then WithIndex(s.g, s.cur) else s.g;
    IndexMoved(s.g, s.cur);
    BlockMoved(g, s.cur);
    NoneNeeded(s);
  }

  /** A byte that needs no data block needs no index block either. */
  lemma NoneNeeded(s: FS)
    requires s.cur < |s.g.contents|
    ensures !NeedsBlock(s) ==> Extended(s) == s.g
  {
    hide WithIndex, WithBlock;
    var p := s.pos;
    if p % 8192 == 0 { assert p % 512 == 0; }
  }

  lemma IndexMoved(g: Layout, f: nat)
    ensures var g' := WithIndex(g, f);
      && g'.blocks == g.blocks && g'.dfree == g.dfree && |g'.chains| == |g.chains| && g'.contents == g.contents
      && (if f < |g.chains| then |g'.ifree| + |g'.chains[f]| == |g.ifree| + |g.chains[f]| else g' == g)
  {
  }

  lemma BlockMoved(g: Layout, f: nat)
    ensures var g' := WithBlock(g, f);
      && g'.chains == g.chains && g'.ifree == g.ifree && |g'.blocks| == |g.blocks| && g'.contents == g.contents
      && (if f < |g.blocks| then |g'.dfree| + |g'.blocks[f]| == |g.dfree| + |g.blocks[f]| else g' == g)
  {
  }

  /** The block of the position exists: it is read, unless it is in memory. */
  function Loaded(s: FS, d: word): FS
    requires d < |s.sec|
  {
    s.(dnum := d, dblock := if d == s.dnum then s.dblock else s.sec[d], byteptr := s.pos % 512)
  }

  lemma LoadOld(s: FS, k: nat, d: word)
    requires Seeking(s, k) && 8192 * k >= s.pos - s.pos % 8192
    requires d == s.iblock.dba[s.pos % 8192 / 512] != DNULL
    ensures d < |s.sec| && Ready(Loaded(s, d)) && !NeedsBlock(s) && SameFiles(s, Loaded(s, d))
  {
    hide Volume, Behind;
    SeekFacts(s, k);
    SplitPosition(s.pos);
    var c, bs := s.g.chains[s.cur], s.g.blocks[s.cur];
    assert k == s.pos / 8192 && s.iblock.dba[s.pos % 8192 / 512] == bs[s.pos / 512];
    var s' := Loaded(s, d);
    assert LIb(s') == LIb(s) && LSec(s') == s.sec;
    CurSizedAll(LIb(s), s.sec, s.dir, s.g, s.cur);
  }

  lemma CurSizedAll(ib: seq<IBlock>, sec: seq<Sector>, dir: Dir, g: Layout, f: nat)
    requires Volume(ib, sec, dir, g, f) && f < |g.chains|
    ensures f < |g.chains| == |g.blocks| == |g.contents| <= 20
    ensures Sized(dir.files[f].size, g.chains[f], g.blocks[f], g.contents[f]) ==> Volume(ib, sec, dir, g, -1)
  {
    hide Covered, Sized, Lists, FileBody;
  }

  /** The file grows by a data block, filled to erase old data. */
  function NewData(s: FS, y: word, fill: Sector): FS
    requires y < |s.sec| && s.cur < |s.g.blocks| && s.g.dfree != [] && s.g.dfree[0] < |s.g.downer|
  {
    var dir := s.dir.(dfree := NextDb(s.sec[y]));
    s.(dir := dir, saved := dir, dirdirty := false, dblock := fill, dnum := y,
       iblock := s.iblock.(dba := s.iblock.dba[s.pos % 8192 / 512 := y]), ibdirty := true,
       byteptr := s.pos % 512, g := BlocksGrown(s.g, s.cur))
  }

  lemma LoadNew(s: FS, k: nat, y: word, fill: Sector)
    requires Seeking(s, k) && 8192 * k >= s.pos - s.pos % 8192
    requires s.iblock.dba[s.pos % 8192 / 512] == DNULL && y == s.dir.dfree != DNULL
    ensures y < |s.sec| && s.cur < |s.g.blocks| && s.g.dfree != [] && s.g.dfree[0] < |s.g.downer|
    ensures Ready(NewData(s, y, fill)) && SameFiles(s, NewData(s, y, fill)) && NeedsBlock(s)
  {
    hide Volume, IbPointed;
    SeekFacts(s, k);
    FreeHeads(LIb(s), s.sec, s.dir, s.g, s.cur);
    SplitPosition(s.pos);
    var c, bs := s.g.chains[s.cur], s.g.blocks[s.cur];
    assert k == s.pos / 8192 && s.pos / 512 == |bs|;
    var s' := NewData(s, y, fill);
    ChainOwned(LIb(s), s.sec, s.dir, s.g, s.cur, s.cur, k);
    assert LIb(s') == IbPointed(LIb(s), c[|bs| / 16], |bs| % 16, y) by {
      PointedCached(s.ib, s.inum, s.iblock, |bs| % 16, y);
    }
    assert LSec(s') == s.sec[y := fill];
    VolumeAppendBlock(LIb(s), s.sec, s.dir, s.g, s.cur, fill, LIb(s'), LSec(s'), s'.dir, s'.g);
  }

  lemma PointedCached(ib: seq<IBlock>, i: nat, b: IBlock, j: nat, y: word)
    requires i < |ib| && j < 16
    ensures IbPointed(ib[i := b], i, j, y) == ib[i := b.(dba := b.dba[j := y])]
  {
  }

  // ----- lflGetc, lflPutc, lflSeek -----

  /** With the byte pointer inside the buffer no setup is needed. */
  lemma ReadyNow(s: FS)
    requires Valid(s) && s.used && s.byteptr < 512
    ensures Ready(s) && !NeedsBlock(s)
  {
    hide Volume, Behind;
    VolumeBounds(LIb(s), LSec(s), s.dir, s.g, -1);
    CurBody(LIb(s), LSec(s), s.dir, s.g, -1, s.cur);
  }

  lemma ByteBound(s: FS)
    requires Valid(s) && s.used
    ensures s.byteptr <= 512 && s.pos <= |Content(s)|
  {
    hide Volume, Behind;
  }

  /** Nothing is allocated for a byte the file already has. */
  lemma NoGrowth(s: FS)
    requires s.cur < |s.g.contents| && s.pos < |Content(s)|
    ensures !OutOfBlocks(s) && !NeedsBlock(s)
  {
  }

  lemma SameUsed(s: FS, t: FS)
    requires SameFiles(s, t) && DataRoom(t) == DataRoom(s) && IndexRoom(t) == IndexRoom(s)
    ensures t.used == s.used && OthersSame(s, t)
  {
    forall h | 0 <= h < 20 ensures t.dir.files[h].name == s.dir.files[h].name {
      assert t.dir.files[h].(ilist := 0).name == s.dir.files[h].(ilist := 0).name;
    }
  }

  lemma ReadyPtr(s: FS)
    requires Ready(s)
    ensures s.byteptr < 512 && s.pos <= |Content(s)|
  {
    hide Volume, Behind, Valid;
  }

  lemma ReadyFacts(s: FS)
    requires Ready(s)
    ensures s.cur < |s.g.chains| == |s.g.blocks| == |s.g.contents| <= 20
    ensures s.dnum < |s.sec| && LSec(s)[s.dnum] == s.dblock && s.pos < 0xFFFF_FFFF - 1
    ensures s.dir.files[s.cur].size == |Content(s)| < 0xFFFF_FFFF
    ensures s.pos < |Content(s)| ==> s.dblock[s.byteptr] == Content(s)[s.pos]
  {
    VolumeBounds(LIb(s), LSec(s), s.dir, s.g, s.cur);
    BlocksFit(LIb(s), LSec(s), s.dir, s.g, s.cur);
    CurBody(LIb(s), LSec(s), s.dir, s.g, s.cur, s.cur);
    hide Volume, Behind, DirOk, IndexCoherent, IList, Indexed, Valid, Tight;
    var b, o := s.pos / 512, s.pos % 512;
    assert s.pos == 512 * b + o && s.dnum == s.g.blocks[s.cur][b];
  }

  function Advanced(s: FS): FS
    requires s.pos < 0xFFFF_FFFF
  {
    s.(byteptr := s.byteptr + 1, pos := s.pos + 1)
  }

  lemma GetValid(s: FS)
    requires Ready(s) && s.pos < |Content(s)| && s.pos < 0xFFFF_FFFF
    ensures Valid(Advanced(s))
  {
    hide Volume, Behind, Tight;
    assert LIb(Advanced(s)) == LIb(s) && LSec(Advanced(s)) == LSec(s);
  }

  /** A byte goes into the buffer; at the end of the file it lengthens the file. */
  function Put(s: FS, ch: byte): FS
    requires s.pos < 0xFFFF_FFFF - 1 && s.byteptr < 512 && s.cur < 20 && s.cur < |s.g.contents| && s.pos <= |Content(s)|
    requires s.dir.files[s.cur].size < 0xFFFF_FFFF
  {
    var e := s.dir.files[s.cur];
    var grows := s.pos >= e.size;
    s.(dir := if grows then SetEntry(s.dir, s.cur, e.(size := e.size + 1)) else s.dir,
       dirdirty := s.dirdirty || grows, dblock := s.dblock[s.byteptr := ch],
       byteptr := s.byteptr + 1, pos := s.pos + 1, dbdirty := true,
       g := s.g.(contents := s.g.contents[s.cur := StoredAt(Content(s), s.pos, ch)]))
  }

  lemma PutValid(s: FS, ch: byte)
    requires Ready(s) && s.pos < 0xFFFF_FFFF - 1 && s.cur < 20 && s.dir.files[s.cur].size < 0xFFFF_FFFF
    ensures Valid(Put(s, ch))
  {
    hide Volume, Behind;
    ReadyFacts(s);
    var s' := Put(s, ch);
    VolumeBounds(LIb(s), LSec(s), s.dir, s.g, s.cur);
    BlocksFitV(LIb(s), LSec(s), s.dir, s.g, s.cur, s.cur);
    var d := s.dnum;
    assert LIb(s') == LIb(s);
    assert LSec(s') == LSec(s)[d := LSec(s)[d][s.pos % 512 := ch]];
    assert s'.dir == SetEntry(s.dir, s.cur, s.dir.files[s.cur].(size := |Content(s')|));
    VolumeStoreByte(LIb(s), LSec(s), s.dir, s.g, s.cur, s.pos, ch, Content(s'), LSec(s'), s'.dir, s'.g);
    CurBody(LIb(s'), LSec(s'), s'.dir, s'.g, -1, s'.cur);
    DirGrown(s, s');
  }

  lemma BlocksFitV(ib: seq<IBlock>, sec: seq<Sector>, dir: Dir, g: Layout, x: int, f: nat)
    requires Volume(ib, sec, dir, g, x) && f < |g.blocks|
    ensures 512 * |g.blocks[f]| <= 0xFFFF_FFFF - 512
  {
    BlocksFit(ib, sec, dir, g, f);
  }

  lemma DirGrown(s: FS, s': FS)
    requires DirOk(s) && s'.saved == s.saved && s'.used == s.used && s'.dirpresent == s.dirpresent && s.dirpresent
    requires s'.dirdirty || (s'.dir == s.dir && s'.dirdirty == s.dirdirty)
    ensures DirOk(s')
  {
  }

  lemma SeekValid(s: FS, offset: word)
    requires Valid(s) && s.used && offset <= |Content(s)|
    ensures Valid(s.(pos := offset, byteptr := 512))
  {
    hide Volume, Behind;
    var s' := s.(pos := offset, byteptr := 512);
    assert LIb(s') == LIb(s) && LSec(s') == LSec(s);
  }

  lemma CurEntry(s: FS)
    requires Valid(s) && s.used
    ensures s.cur < |s.g.chains| == |s.g.blocks| == |s.g.contents| == s.dir.nfiles <= 20
    ensures s.dir.files[s.cur].size == |Content(s)| && s.dirpresent
  {
    hide Volume, Behind;
    VolumeBounds(LIb(s), LSec(s), s.dir, s.g, -1);
    CurBody(LIb(s), LSec(s), s.dir, s.g, -1, s.cur);
  }

  /** The open file as its user sees it. */
  function View(s: FS): ByteFile.File
    requires s.cur < |s.g.contents|
  {
    ByteFile.File(Content(s), s.pos)
  }

  /** The open file of t is that of s with these bytes at the position, where they
      replace what was there, and the position is after them. */
  ghost predicate Wrote(s: FS, t: FS, bytes: seq<byte>) {
    && s.cur < |s.g.contents| && t.cur < |t.g.contents| && s.pos <= |Content(s)|
    && t.pos == s.pos + |bytes|
    && |Content(t)| == (if t.pos < |Content(s)| then |Content(s)| else t.pos)
    && forall i | 0 <= i < |Content(t)| ::
         Content(t)[i] == if s.pos <= i < t.pos then bytes[i - s.pos] else Content(s)[i]
  }

  lemma OverlayWrote(s: FS, t: FS, bytes: seq<byte>)
    requires s.cur < |s.g.contents| && t.cur < |t.g.contents| && s.pos <= |Content(s)|
    requires View(t) == ByteFile.File(ByteFile.Overlay(Content(s), s.pos, bytes), s.pos + |bytes|)
    ensures Wrote(s, t, bytes)
  {
    ByteFile.OverlayAt(Content(s), s.pos, bytes);
    hide ByteFile.Overlay;
  }

  /** Reading count bytes from s on gave these, fewer at the end of the file, and moved
      the position past them. */
  ghost predicate WasRead(s: FS, t: FS, count: nat, r: int, data: seq<byte>) {
    && s.cur < |s.g.contents| && t.cur < |t.g.contents| && s.pos <= |Content(s)| && Content(t) == Content(s)
    && |data| == (if count < |Content(s)| - s.pos then count else |Content(s)| - s.pos)
    && (forall i | 0 <= i < |data| :: data[i] == Content(s)[s.pos + i])
    && t.pos == s.pos + |data| && r == (if data == [] && count > 0 then ByteFile.EOF else |data|)
  }

  /** What the open file's operations must leave alone: the other files with their
      directory entries, all names, and the number of blocks this file can have. */
  ghost predicate OthersSame(s: FS, t: FS) {
    && t.cur == s.cur && |t.g.contents| == |s.g.contents| && t.dir.nfiles == s.dir.nfiles
    && (forall h | 0 <= h < |s.g.contents| && h != s.cur :: t.g.contents[h] == s.g.contents[h])
    && (forall h | 0 <= h < 20 && h != s.cur :: t.dir.files[h] == s.dir.files[h])
    && (forall h | 0 <= h < 20 :: t.dir.files[h].name == s.dir.files[h].name)
    && DataRoom(t) == DataRoom(s) && IndexRoom(t) == IndexRoom(s) && DirKept(s, t)
  }

  lemma OthersRefl(s: FS)
    ensures OthersSame(s, s)
  {
  }

  lemma OthersTrans(s: FS, t: FS, u: FS)
    requires OthersSame(s, t) && OthersSame(t, u)
    ensures OthersSame(s, u)
  {
  }

  lemma SameCap(s: FS, t: FS)
    requires OthersSame(s, t)
    ensures Cap(t) == Cap(s)
  {
  }

  lemma StillListed(s: FS, t: FS)
    requires OthersSame(s, t)
    ensures Listed(s) ==> Listed(t)
  {
  }

  lemma SameCur(s: FS, t: FS)
    requires OthersSame(s, t)
    ensures t.cur == s.cur && |t.g.contents| == |s.g.contents|
  {
  }

  lemma DirtyListed(s: FS)
    ensures s.dirdirty ==> Listed(s)
  {
  }

  lemma NotOut(s: FS)
    requires s.cur < |s.g.contents| && !NeedsBlock(s)
    ensures !OutOfBlocks(s)
  {
  }

  lemma PutView(s: FS, ch: byte)
    requires Ready(s) && s.pos < 0xFFFF_FFFF - 1 && s.cur < 20 && s.dir.files[s.cur].size < 0xFFFF_FFFF
    ensures View(Put(s, ch)) == ByteFile.Apply(View(s), ByteFile.Putc(ch)).0 && OthersSame(s, Put(s, ch))
    ensures |Content(Put(s, ch))| == if s.pos < |Content(s)| then |Content(s)| else s.pos + 1
  {
    hide Volume, Valid, DirOk, IndexCoherent, DataOwned;
    var c := Content(s);
    assert StoredAt(c, s.pos, ch) == ByteFile.Overlay(c, s.pos, [ch]);
  }

  lemma PutLayout(s: FS, ch: byte)
    requires Ready(s) && s.pos < 0xFFFF_FFFF - 1 && s.cur < 20 && s.dir.files[s.cur].size < 0xFFFF_FFFF
    ensures s.byteptr < 512 && s.cur < |s.g.contents| && s.pos <= |Content(s)|
    ensures Put(s, ch).g == s.g.(contents := Put(s, ch).g.contents)
    ensures |Content(Put(s, ch))| > |Content(s)| ==> Put(s, ch).dirdirty
  {
    ReadyFacts(s);
    ReadyPtr(s);
    hide Ready, Volume;
  }

  // ----- lftruncate -----

  lemma EmptyFile(s: FS)
    requires Valid(s) && s.used && s.cur < 20
    ensures s.cur < |s.g.chains| == |s.g.blocks| == |s.g.contents|
    ensures s.dir.files[s.cur].size == 0 ==>
      s.g.chains[s.cur] == [] && s.g.blocks[s.cur] == [] && Content(s) == [] && s.pos == 0
  {
    hide Volume, Behind;
    VolumeBounds(LIb(s), LSec(s), s.dir, s.g, -1);
    CurBody(LIb(s), LSec(s), s.dir, s.g, -1, s.cur);
  }

  lemma TruncStart(s: FS)
    requires Valid(s) && s.used && LIb(s) == s.ib && LSec(s) == s.sec
    requires s.cur < 20 && s.dir.files[s.cur].size != 0
    ensures s.cur < |s.g.chains| == |s.g.blocks| == |s.g.contents|
    ensures var c, bs, e := s.g.chains[s.cur], s.g.blocks[s.cur], s.dir.files[s.cur];
            && Draining(s.ib, s.sec, SetEntry(s.dir, s.cur, e.(ilist := INULL, size := 0)), s.g, s.cur, c, bs, 0, 0)
            && c != [] && e.ilist == c[0] && 16 * |c| < |bs| + 16 && |bs| <= 16 * |c|
            && (forall i | 0 <= i < |c| :: c[i] != s.dir.ifree)
  {
    hide Volume, Behind, Draining;
    VolumeBounds(s.ib, s.sec, s.dir, s.g, -1);
    CurBody(s.ib, s.sec, s.dir, s.g, -1, s.cur);
    var c, bs, e := s.g.chains[s.cur], s.g.blocks[s.cur], s.dir.files[s.cur].(ilist := INULL, size := 0);
    DrainStart(s.ib, s.sec, s.dir, s.g, s.cur, e);
    forall i | 0 <= i < |c| ensures c[i] != s.dir.ifree {
      ChainAvoidsFree(s.ib, s.sec, SetEntry(s.dir, s.cur, e), s.g, s.cur, c, bs, 0, 0, i);
    }
  }

  lemma TruncEnd(s: FS, chain: seq<nat>, blocks: seq<nat>)
    requires Draining(s.ib, s.sec, s.dir, s.g, s.cur, chain, blocks, |chain|, |blocks|) && chain != []
    requires s.used && s.dirpresent && !s.ibdirty && !s.dbdirty
    requires s.inum == INULL && s.dnum == DNULL && s.byteptr == 512 && s.pos == 0 && s.cur < 20
    requires s.dir.files[s.cur].size == 0 && s.dir.files[s.cur].ilist == INULL
    ensures chain[0] < INULL && s.cur < |s.g.chains| == |s.g.blocks| == |s.g.contents|
    ensures s.g.chains[s.cur] == chain && s.g.blocks[s.cur] == []
    ensures Valid(s.(dir := s.dir.(ifree := chain[0]), dirdirty := true, g := Emptied(s.g, s.cur)))
  {
    DrainDone(s.ib, s.sec, s.dir, s.g, s.cur, chain, blocks, Emptied(s.g, s.cur));
    var s' := s.(dir := s.dir.(ifree := chain[0]), dirdirty := true, g := Emptied(s.g, s.cur));
    hide Draining, Volume, Behind;
    VolumeBounds(s'.ib, s'.sec, s'.dir, s'.g, -1);
    assert LIb(s') == s'.ib && LSec(s') == s'.sec;
  }

  lemma TruncOthers(s: FS, t: FS)
    requires t.cur == s.cur < |s.g.contents| && s.cur < 20 && t.g.contents == s.g.contents[s.cur := []]
    requires DataRoom(t) == DataRoom(s) && IndexRoom(t) == IndexRoom(s) && t.dirdirty
    requires t.dir.nfiles == s.dir.nfiles && t.dir.files[s.cur].name == s.dir.files[s.cur].name
    requires forall h | 0 <= h < 20 && h != s.cur :: t.dir.files[h] == s.dir.files[h]
    ensures OthersSame(s, t)
  {
  }

  // ----- any call, any sequence of calls -----

  /** Nothing happened, except that the position may have moved. */
  ghost predicate Idle(s: FS, t: FS, diskSame: bool) {
    diskSame && t == s.(pos := t.pos, byteptr := t.byteptr)
  }

  /** The call took s to t as it should.  On an empty file it either stores bytes,
      and then the directory lists the file, or does nothing. */
  ghost predicate CallDone(s: FS, t: FS, op: ByteFile.Op, result: ByteFile.Result, diskSame: bool) {
    && s.cur < |s.g.contents| && s.cur < |t.g.contents| && OthersSame(s, t) && ByteFile.Fits(View(s))
    && t.cur == s.cur && (View(t), result) == ByteFile.Apply(View(s), op)
    && (Content(s) == [] ==> if ByteFile.Puts(op) then Listed(t) else Content(t) == [] && Idle(s, t, diskSame))
  }

  /** The size of the file after a call, against what it can get to. */
  lemma CallSize(s: FS, op: ByteFile.Op)
    requires s.cur < |s.g.contents| && s.pos <= |Content(s)| <= Cap(s)
    ensures ByteFile.Fits(View(s))
    ensures |ByteFile.Apply(View(s), op).0.content| > Cap(s) <==>
              match op
              case Putc(_) => s.pos + 1 > Cap(s)
              case Write(bytes) => s.pos + |bytes| > Cap(s)
              case _ => false
  {
    hide Cap;
  }

  lemma IsDone(s: FS, t: FS, op: ByteFile.Op, result: ByteFile.Result, diskSame: bool)
    requires OthersSame(s, t) && s.cur < |s.g.contents| && ByteFile.Fits(View(s))
    requires (View(t), result) == ByteFile.Apply(View(s), op)
    requires ByteFile.Puts(op) ==> |Content(t)| <= |Content(s)| || t.dirdirty || Listed(t)
    requires !ByteFile.Puts(op) && Content(s) == [] ==> diskSame && t == s.(pos := t.pos, byteptr := t.byteptr)
    ensures CallDone(s, t, op, result, diskSame)
  {
    SameCur(s, t);
    DirtyListed(t);
    hide OthersSame, Listed;
  }

  /** The calls took s to t as they should, within the blocks there are. */
  ghost predicate CallsDone(s: FS, t: FS, ops: seq<ByteFile.Op>, results: seq<ByteFile.Result>, diskSame: bool) {
    && s.cur < |s.g.contents| && s.cur < |t.g.contents| && OthersSame(s, t) && ByteFile.Fits(View(s))
    && t.cur == s.cur && (View(t), results) == ByteFile.Run(View(s), ops)
    && ByteFile.Peak(View(s), ops) <= Cap(s)
    && (Content(s) == [] ==>
          if exists i | 0 <= i < |ops| :: ByteFile.Puts(ops[i]) then Listed(t)
          else Content(t) == [] && Idle(s, t, diskSame))
  }

  lemma NoCalls(s: FS)
    requires Valid(s) && s.used
    ensures CallsDone(s, s, [], [], true)
  {
    hide Valid, Cap, OthersSame;
    CapReached(s);
    OthersRefl(s);
    ByteFile.PeakStart(View(s));
  }

  lemma CallsFacts(s: FS, t: FS, ops: seq<ByteFile.Op>, results: seq<ByteFile.Result>, same: bool)
    requires CallsDone(s, t, ops, results, same)
    ensures s.cur < |s.g.contents| && s.cur == t.cur < |t.g.contents|
    ensures ByteFile.Fits(View(s)) && ByteFile.Fits(View(t))
    ensures (View(t), results) == ByteFile.Run(View(s), ops) && ByteFile.Peak(View(s), ops) <= Cap(s) == Cap(t)
  {
    SameCap(s, t);
    hide ByteFile.Run, ByteFile.Peak, OthersSame, Cap;
  }

  lemma OneMoreCall(s: FS, t: FS, u: FS, ops: seq<ByteFile.Op>, k: nat, results: seq<ByteFile.Result>,
                    result: ByteFile.Result, same: bool, same': bool, both: bool)
    requires k < |ops| && CallsDone(s, t, ops[..k], results, same) && CallDone(t, u, ops[k], result, same')
    requires same && same' ==> both
    requires |Content(u)| <= Cap(u)
    ensures CallsDone(s, u, ops[..k + 1], results + [result], both)
  {
    hide Cap, OthersSame, Listed, ByteFile.Run, ByteFile.Apply, ByteFile.Peak;
    OthersTrans(s, t, u);
    SameCap(s, u);
    StillListed(t, u);
    ByteFile.PeakNext(View(s), ops, k);
    assert forall i | 0 <= i < k :: ops[..k + 1][i] == ops[..k][i];
    assert ops[..k + 1][k] == ops[k];
  }

  // ----- lfsOpen -----

  lemma ClosedBounds(s: FS)
    requires Valid(s) && !s.used
    ensures CurDir(s).nfiles == |s.g.contents| <= 20
  {
    hide Volume, Behind;
    VolumeBounds(LIb(s), LSec(s), CurDir(s), s.g, -1);
  }

  lemma ClosedClean(s: FS)
    requires Valid(s) && !s.used
    ensures !s.ibdirty && !s.dbdirty && !s.dirdirty
  {
  }

  lemma MountValid(s: FS)
    requires Valid(s) && !s.used && !s.dirpresent
    ensures Valid(s.(dir := s.saved, dirpresent := true))
  {
    VolumeBounds(LIb(s), LSec(s), CurDir(s), s.g, -1);
    hide Volume;
  }

  lemma CloseValid(s: FS)
    requires Valid(s) && s.used && !s.ibdirty && !s.dbdirty && !s.dirdirty
    ensures Valid(s.(used := false))
  {
    CleanView(s);
    hide Volume, Behind;
  }

  /** The control block as lfsOpen initialises it for entry i. */
  function Opened(s: FS, i: nat): FS {
    s.(used := true, cur := i, pos := 0, inum := INULL, dnum := DNULL, byteptr := BLKSIZ,
       ibdirty := false, dbdirty := false)
  }

  lemma OpenedValid(s: FS, i: nat)
    requires Valid(s) && !s.used && s.dirpresent && i < s.dir.nfiles
    ensures Valid(Opened(s, i)) && i < |s.g.contents|
  {
    hide Volume, Behind;
    VolumeBounds(LIb(s), LSec(s), s.dir, s.g, -1);
    var s' := Opened(s, i);
    assert LIb(s') == s.ib == LIb(s) && LSec(s') == s.sec == LSec(s);
  }

  /** The layout with one more file, which is empty. */
  function NewFile(g: Layout): Layout {
    g.(chains := g.chains + [[]], blocks := g.blocks + [[]], contents := g.contents + [[]])
  }

  /** A new entry at the end of the directory, for an empty file. */
  function Created(s: FS, e: Entry): FS
    requires s.dir.nfiles < 20
  {
    s.(dir := SetEntry(s.dir, s.dir.nfiles, e).(nfiles := s.dir.nfiles + 1), g := NewFile(s.g))
  }

  lemma CreatedValid(s: FS, e: Entry)
    requires Valid(s) && !s.used && s.dirpresent && s.dir.nfiles < 20 && e.size == 0 && e.ilist == INULL
    ensures Valid(Created(s, e)) && s.dir.nfiles == |s.g.contents| && !Listed(Created(s, e))
  {
    var s' := Created(s, e);
    VolumeBounds(s.ib, s.sec, s.dir, s.g, -1);
    CreatedVolume(s.ib, s.sec, s.dir, s.g, s'.dir, s'.g);
    hide Volume;
    assert Behind(s'.saved, s'.dir);
  }

  lemma OwnedAnother(lo: nat, hi: nat, owner: seq<int>, free: seq<nat>, lists: seq<seq<nat>>)
    requires Owned(lo, hi, owner, free, lists)
    ensures Owned(lo, hi, owner, free, lists + [[]])
  {
    var lists' := lists + [[]];
    forall x | lo <= x < hi
      ensures -1 <= owner[x] < |lists'| && (if owner[x] == -1 then x in free else x in lists'[owner[x]])
    {
    }
  }

  lemma CreatedVolume(ib: seq<IBlock>, sec: seq<Sector>, dir: Dir, g: Layout, dir': Dir, g': Layout)
    requires Volume(ib, sec, dir, g, -1) && dir.nfiles < 20
    requires dir' == SetEntry(dir, dir.nfiles, dir'.files[dir.nfiles]).(nfiles := dir.nfiles + 1)
    requires dir'.files[dir.nfiles].size == 0 && dir'.files[dir.nfiles].ilist == INULL
    requires g' == NewFile(g)
    ensures Volume(ib, sec, dir', g', -1)
  {
    var n := dir.nfiles;
    assert Shape(ib, sec, dir', g') by {
      hide Owned;
      OwnedAnother(0, |ib|, g.iowner, g.ifree, g.chains);
      OwnedAnother(DataArea(ib), |sec|, g.downer, g.dfree, g.blocks);
    }
    hide Owned;
    forall f | 0 <= f < |g'.chains|
      ensures BodyOf(ib, sec, dir', g', f)
      ensures Sized(dir'.files[f].size, g'.chains[f], g'.blocks[f], g'.contents[f])
    {
      if f < n {
        assert BodyOf(ib, sec, dir, g, f);
      }
    }
  }

  // ----- files by name -----

  /** The name field of an entry holds the C string name. */
  predicate Named(e: Entry, name: seq<byte>) {
    |name| < 16 && e.name[..|name|] == name && e.name[|name|] == 0
  }

  /** An entry holds one name only. */
  lemma NamedOne(e: Entry, name: seq<byte>, other: seq<byte>)
    requires Named(e, name) && Named(e, other) && 0 !in name && 0 !in other
    ensures name == other
  {
    assert forall i | 0 <= i < |name| :: e.name[i] == name[i] != 0;
    assert forall i | 0 <= i < |other| :: e.name[i] == other[i] != 0;
    assert |name| == |other|;
  }

  /** The first entry from i on with that name, or the number of files. */
  function FirstFrom(d: Dir, name: seq<byte>, i: nat): (r: nat)
    requires i <= d.nfiles <= 20
    ensures i <= r <= d.nfiles && (forall j | i <= j < r :: !Named(d.files[j], name))
    ensures r < d.nfiles ==> Named(d.files[r], name)
    decreases d.nfiles - i
  {
    if i == d.nfiles || Named(d.files[i], name) then i else FirstFrom(d, name, i + 1)
  }

  function EntryOf(d: Dir, name: seq<byte>): nat {
    if d.nfiles <= 20 then FirstFrom(d, name, 0) else d.nfiles
  }

  predicate InDir(d: Dir, name: seq<byte>) { EntryOf(d, name) < d.nfiles }

  /** The directory after entries were added at the end. */
  ghost predicate NamesKept(d: Dir, d': Dir) {
    && d.nfiles <= d'.nfiles <= 20
    && forall h | 0 <= h < d.nfiles :: d'.files[h].name == d.files[h].name
  }

  /** Files keep their names; the ones added do not hide any. */
  lemma EntryKept(d: Dir, d': Dir, name: seq<byte>)
    requires NamesKept(d, d')
    ensures InDir(d, name) ==> InDir(d', name) && EntryOf(d', name) == EntryOf(d, name)
    ensures !InDir(d, name) && (forall h | d.nfiles <= h < d'.nfiles :: !Named(d'.files[h], name)) ==> !InDir(d', name)
  {
    var i, j := EntryOf(d, name), EntryOf(d', name);
    assert i < d.nfiles ==> Named(d'.files[i], name);
    assert j < d.nfiles ==> Named(d.files[j], name);
  }

  /** The bytes of the file with that name; none if there is no such file. */
  function FileNamed(s: FS, name: seq<byte>): seq<byte> {
    if EntryOf(CurDir(s), name) < |s.g.contents| then s.g.contents[EntryOf(CurDir(s), name)] else []
  }

  /** The size at which that file cannot grow any more. */
  function CapNamed(s: FS, name: seq<byte>): int {
    FileCap(|s.ib|, |s.sec| - DataArea(s.ib), s.g.contents, EntryOf(CurDir(s), name))
  }

  lemma FileSame(s: FS, t: FS)
    requires t.g.contents == s.g.contents && CurDir(t) == CurDir(s)
    ensures forall n: seq<byte> :: FileNamed(t, n) == FileNamed(s, n)
  {
  }

  lemma ClosedNames(s: FS)
    requires Valid(s) && !s.used
    ensures NamesKept(s.saved, CurDir(s)) && CurDir(s).nfiles == |s.g.contents|
  {
    ClosedBounds(s);
    hide Volume;
  }

  /** t is s with the file of that name open at its start, created if need be. */
  ghost predicate OpenedAs(s: FS, t: FS, name: seq<byte>) {
    && t.used && t.dirpresent && t.pos == 0
    && t.cur == EntryOf(CurDir(s), name) == EntryOf(t.dir, name) < t.dir.nfiles == |t.g.contents| <= 20
    && (if InDir(CurDir(s), name) then t.dir == CurDir(s) && t.g == s.g
        else && t.g == NewFile(s.g) && !Listed(t) && |name| < 16
             && t.dir == SetEntry(CurDir(s), t.cur, t.dir.files[t.cur]).(nfiles := t.cur + 1))
  }

  lemma OpenedFile(s: FS, t: FS, name: seq<byte>)
    requires Valid(s) && !s.used && OpenedAs(s, t, name)
    ensures t.used && t.cur < |t.g.contents| && View(t) == ByteFile.File(FileNamed(s, name), 0)
    ensures Cap(t) == CapNamed(s, name)
    ensures !InDir(CurDir(s), name) ==> Content(t) == [] && !Listed(t) && |t.g.contents| == |s.g.contents| + 1
  {
    hide Volume, Listed, DirOk, FileCap, LIb, LSec;
    VolumeBounds(LIb(s), LSec(s), CurDir(s), s.g, -1);
    CapSizes(s, EntryOf(CurDir(s), name));
  }

  /** What a session does to the files by name. */
  lemma SessionNames(s: FS, t: FS, u: FS, name: seq<byte>)
    requires Valid(s) && !s.used && OpenedAs(s, t, name) && OthersSame(t, u) && u.dirpresent && 0 !in name
    ensures t.cur == u.cur < |t.g.contents| == |u.g.contents| == u.dir.nfiles
    ensures InDir(u.dir, name) && FileNamed(u, name) == u.g.contents[t.cur]
    ensures forall n: seq<byte> | 0 !in n && n != name ::
      InDir(CurDir(u), n) == InDir(CurDir(s), n) && FileNamed(u, n) == FileNamed(s, n)
  {
    VolumeBounds(LIb(s), LSec(s), CurDir(s), s.g, -1);
    hide Volume, Valid, DirKept, Listed;
    var d, d' := CurDir(s), u.dir;
    assert NamesKept(t.dir, d');
    EntryKept(t.dir, d', name);
    forall n: seq<byte> | 0 !in n && n != name
      ensures InDir(d', n) == InDir(d, n) && FileNamed(u, n) == FileNamed(s, n)
    {
      OtherNamed(s, t, u, name, n);
    }
  }

  lemma OtherNamed(s: FS, t: FS, u: FS, name: seq<byte>, n: seq<byte>)
    requires OpenedAs(s, t, name) && OthersSame(t, u) && u.dirpresent && 0 !in name && 0 !in n && n != name
    requires CurDir(s).nfiles == |s.g.contents| <= 20
    ensures InDir(u.dir, n) == InDir(CurDir(s), n) && FileNamed(u, n) == FileNamed(s, n)
  {
    hide DirKept, Listed;
    var d, d', c := CurDir(s), u.dir, t.cur;
    assert Named(d'.files[c], name) by { assert Named(t.dir.files[c], name); }
    assert !Named(d'.files[c], n) by { if Named(d'.files[c], n) { NamedOne(d'.files[c], name, n); } }
    assert NamesKept(d, d');
    EntryKept(d, d', n);
  }

  /** No file is larger than its blocks allow. */
  lemma ClosedCap(s: FS, name: seq<byte>)
    requires Valid(s) && !s.used
    ensures |FileNamed(s, name)| <= CapNamed(s, name)
  {
    var f := EntryOf(CurDir(s), name);
    VolumeBounds(LIb(s), LSec(s), CurDir(s), s.g, -1);
    CapSizes(s, f);
    if f < |s.g.contents| {
      CurBody(LIb(s), LSec(s), CurDir(s), s.g, -1, f);
      hide Volume;
    }
  }
}
