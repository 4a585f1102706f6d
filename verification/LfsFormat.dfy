/** On-disk formats of the local file system: 32-bit words, 72-byte index blocks
    packed seven to a sector, and the directory sector. */
module LfsFormat {

  newtype byte = x: int | 0 <= x < 256

  /** A 32-bit word.  Block numbers and sizes are stored as words; the null
      pointers (ibid32) -1 and (dbid32) -1 are the word with all bits set. */
  type word = x: int | 0 <= x < 0x1_0000_0000

  const BLKSIZ := 512
  const IBLEN := 16
  const IBSIZE := 72
  const IDATA := 8192
  const INULL: word := 0xFFFF_FFFF
  const DNULL: word := 0xFFFF_FFFF
  const NAME_LEN := 16
  const NUM_DIR_ENT := 20

  type Sector = s: seq<byte> | |s| == 512 witness seq(512, _ => 0)

  datatype IBlockRep = IBlock(next: word, offset: word, dba: seq<word>)
  type IBlock = b: IBlockRep | |b.dba| == 16 witness IBlock(0, 0, seq(16, _ => 0))

  datatype EntryRep = Entry(size: word, ilist: word, name: seq<byte>)
  type Entry = e: EntryRep | |e.name| == 16 witness Entry(0, 0, seq(16, _ => 0))

  datatype DirRep = Dir(dfree: word, ifree: word, nfiles: word, files: seq<Entry>, padding: seq<byte>)
  type Dir = d: DirRep | |d.files| == 20 && |d.padding| == 20
    witness Dir(0, 0, 0, seq(20, _ => Entry(0, 0, seq(16, _ => 0))), seq(20, _ => 0))

  // ----- words -----

  function PutWord(w: word): (b: seq<byte>)
    ensures |b| == 4
  {
    [(w % 256) as byte, (w / 256 % 256) as byte, (w / 65536 % 256) as byte, (w / 16777216) as byte]
  }

  function GetWord(b: seq<byte>): word
    requires |b| >= 4
  {
    b[0] as int + 256 * b[1] as int + 65536 * b[2] as int + 16777216 * b[3] as int
  }

  lemma WordDigits(w: word)
    ensures w == w % 256 + 256 * (w / 256 % 256) + 65536 * (w / 65536 % 256) + 16777216 * (w / 16777216)
  {
    var q := w / 256;
    assert w / 65536 == q / 256;
    assert w / 16777216 == q / 256 / 256;
  }

  lemma WordRoundTrip(w: word, rest: seq<byte>)
    ensures GetWord(PutWord(w) + rest) == w
  {
    WordDigits(w);
    var b := PutWord(w);
    assert forall i | 0 <= i < 4 :: (b + rest)[i] == b[i];
  }

  function PutWords(ws: seq<word>): (b: seq<byte>)
    ensures |b| == 4 * |ws|
  {
    if ws == [] then [] else PutWord(ws[0]) + PutWords(ws[1..])
  }

  function GetWords(b: seq<byte>): (ws: seq<word>)
    requires |b| % 4 == 0
    ensures |b| == 4 * |ws|
  {
    if b == [] then [] else [GetWord(b[..4])] + GetWords(b[4..])
  }

  lemma {:induction false} WordsRoundTrip(ws: seq<word>)
    ensures GetWords(PutWords(ws)) == ws
  {
    if ws != [] {
      var b := PutWords(ws);
      assert b[..4] == PutWord(ws[0]) && b[4..] == PutWords(ws[1..]);
      WordRoundTrip(ws[0], []);
      assert PutWord(ws[0]) + [] == PutWord(ws[0]);
      WordsRoundTrip(ws[1..]);
    }
  }

  // ----- index blocks -----

  function EncodeIb(ib: IBlock): (b: seq<byte>)
    ensures |b| == IBSIZE
  {
    PutWords([ib.next, ib.offset] + ib.dba)
  }

  function DecodeIb(b: seq<byte>): IBlock
    requires |b| == IBSIZE
  {
    var ws := GetWords(b);
    IBlock(ws[0], ws[1], ws[2..])
  }

  lemma IbRoundTrip(ib: IBlock)
    ensures DecodeIb(EncodeIb(ib)) == ib
  {
    WordsRoundTrip([ib.next, ib.offset] + ib.dba);
  }

  lemma {:induction false} WordAt(ws: seq<word>, i: nat)
    requires i < |ws|
    ensures GetWord(PutWords(ws)[4 * i..4 * i + 4]) == ws[i]
    decreases i
  {
    var b, rest := PutWords(ws), PutWords(ws[1..]);
    assert b == PutWord(ws[0]) + rest;
    if i == 0 {
      assert b[0..4] == PutWord(ws[0]) + [];
      WordRoundTrip(ws[0], []);
    } else {
      assert b[4 * i..4 * i + 4] == rest[4 * (i - 1)..4 * (i - 1) + 4];
      WordAt(ws[1..], i - 1);
    }
  }

  /** Where struct lfiblk has its words: the link, the offset, then the 16 pointers. */
  lemma IbLayout(ib: IBlock, i: nat)
    requires i < 18
    ensures var w := GetWord(EncodeIb(ib)[4 * i..4 * i + 4]);
      w == if i == 0 then ib.next else if i == 1 then ib.offset else ib.dba[i - 2]
  {
    WordAt([ib.next, ib.offset] + ib.dba, i);
  }

  /** The macros ib2sect and ib2disp. */
  function Ib2Sect(inum: nat): nat { inum / 7 + 1 }

  function Ib2Disp(inum: nat): (d: nat)
    ensures d + IBSIZE <= BLKSIZ
  {
    inum % 7 * IBSIZE
  }

  /** The index block numbered inum, decoded from the sector that holds it. */
  function IbAt(disk: seq<Sector>, inum: nat): IBlock
    requires Ib2Sect(inum) < |disk|
  {
    DecodeIb(disk[Ib2Sect(inum)][Ib2Disp(inum)..Ib2Disp(inum) + IBSIZE])
  }

  function PatchSector(s: Sector, disp: nat, bytes: seq<byte>): Sector
    requires disp + |bytes| <= BLKSIZ
  {
    s[..disp] + bytes + s[disp + |bytes|..]
  }

  function PutIb(disk: seq<Sector>, inum: nat, ib: IBlock): seq<Sector>
    requires Ib2Sect(inum) < |disk|
  {
    disk[Ib2Sect(inum) := PatchSector(disk[Ib2Sect(inum)], Ib2Disp(inum), EncodeIb(ib))]
  }

  /** Rewriting one index block inside its sector changes that index block and
      none of the others, not even the six that share the sector. */
  lemma IbPutGet(disk: seq<Sector>, inum: nat, ib: IBlock, other: nat)
    requires Ib2Sect(inum) < |disk| && Ib2Sect(other) < |disk|
    ensures IbAt(PutIb(disk, inum, ib), other) == if other == inum then ib else IbAt(disk, other)
  {
    var disk' := PutIb(disk, inum, ib);
    var s, bytes, d := Ib2Sect(inum), EncodeIb(ib), Ib2Disp(inum);
    var e := Ib2Disp(other);
    if other == inum {
      assert disk'[s][d..d + IBSIZE] == bytes;
      IbRoundTrip(ib);
    } else if Ib2Sect(other) == s {
      assert e + IBSIZE <= d || d + IBSIZE <= e;
      assert disk'[s][e..e + IBSIZE] == disk[s][e..e + IBSIZE];
    }
  }

  // ----- directory -----

  function EncodeEntry(e: Entry): (b: seq<byte>)
    ensures |b| == 24
  {
    PutWord(e.size) + PutWord(e.ilist) + e.name
  }

  function DecodeEntry(b: seq<byte>): Entry
    requires |b| == 24
  {
    Entry(GetWord(b[..4]), GetWord(b[4..8]), b[8..])
  }

  function EncodeEntries(es: seq<Entry>): (b: seq<byte>)
    ensures |b| == 24 * |es|
  {
    if es == [] then [] else EncodeEntry(es[0]) + EncodeEntries(es[1..])
  }

  function DecodeEntries(b: seq<byte>): (es: seq<Entry>)
    requires |b| % 24 == 0
    ensures |b| == 24 * |es|
  {
    if b == [] then [] else [DecodeEntry(b[..24])] + DecodeEntries(b[24..])
  }

  lemma EntryRoundTrip(e: Entry)
    ensures DecodeEntry(EncodeEntry(e)) == e
  {
    var b := EncodeEntry(e);
    assert b[..4] == PutWord(e.size) + [] && b[4..8] == PutWord(e.ilist) + [] && b[8..] == e.name;
    WordRoundTrip(e.size, []);
    WordRoundTrip(e.ilist, []);
  }

  lemma {:induction false} EntriesRoundTrip(es: seq<Entry>)
    ensures DecodeEntries(EncodeEntries(es)) == es
  {
    if es != [] {
      var b := EncodeEntries(es);
      assert b[..24] == EncodeEntry(es[0]) && b[24..] == EncodeEntries(es[1..]);
      EntryRoundTrip(es[0]);
      EntriesRoundTrip(es[1..]);
    }
  }

  function EncodeDir(d: Dir): (s: Sector)
  {
    PutWord(d.dfree) + PutWord(d.ifree) + PutWord(d.nfiles) + EncodeEntries(d.files) + d.padding
  }

  function DecodeDir(s: Sector): Dir
  {
    Dir(GetWord(s[..4]), GetWord(s[4..8]), GetWord(s[8..12]), DecodeEntries(s[12..492]), s[492..])
  }

  lemma DirRoundTrip(d: Dir)
    ensures DecodeDir(EncodeDir(d)) == d
  {
    var s := EncodeDir(d);
    assert s[..4] == PutWord(d.dfree) + [];
    assert s[4..8] == PutWord(d.ifree) + [];
    assert s[8..12] == PutWord(d.nfiles) + [];
    assert s[12..492] == EncodeEntries(d.files);
    assert s[492..] == d.padding;
    WordRoundTrip(d.dfree, []);
    WordRoundTrip(d.ifree, []);
    WordRoundTrip(d.nfiles, []);
    EntriesRoundTrip(d.files);
  }

  lemma {:induction false} EntryAt(es: seq<Entry>, h: nat)
    requires h < |es|
    ensures EncodeEntries(es)[24 * h..24 * h + 24] == EncodeEntry(es[h])
    decreases h
  {
    var b, rest := EncodeEntries(es), EncodeEntries(es[1..]);
    assert b == EncodeEntry(es[0]) + rest;
    if h == 0 {
      assert b[0..24] == EncodeEntry(es[0]);
    } else {
      assert b[24 * h..24 * h + 24] == rest[24 * (h - 1)..24 * (h - 1) + 24];
      EntryAt(es[1..], h - 1);
    }
  }

  lemma SliceOfSlice(s: seq<byte>, a: nat, b: nat, c: nat, d: nat)
    requires a <= b <= |s| && c <= d <= b - a
    ensures s[a..b][c..d] == s[a + c..a + d]
  {
    var l, r := s[a..b][c..d], s[a + c..a + d];
    assert |l| == |r| && forall i | 0 <= i < |l| :: l[i] == s[a + c + i] == r[i];
  }

  lemma DirEntries(d: Dir)
    ensures EncodeDir(d)[12..492] == EncodeEntries(d.files)
  {
  }

  /** Where struct lfdir has its words and struct ldentry its fields. */
  lemma DirLayout(d: Dir, h: nat)
    requires h < 20
    ensures var s, e := EncodeDir(d), 12 + 24 * h;
      && GetWord(s[0..4]) == d.dfree && GetWord(s[4..8]) == d.ifree && GetWord(s[8..12]) == d.nfiles
      && GetWord(s[e..e + 4]) == d.files[h].size && GetWord(s[e + 4..e + 8]) == d.files[h].ilist
      && s[e + 8..e + 24] == d.files[h].name
  {
    var s, e, b := EncodeDir(d), 12 + 24 * h, EncodeEntry(d.files[h]);
    DirRoundTrip(d);
    EntryAt(d.files, h);
    EntryRoundTrip(d.files[h]);
    DirEntries(d);
    SliceOfSlice(s, 12, 492, 24 * h, 24 * h + 24);
    hide EncodeDir, EncodeEntry, EncodeEntries, GetWord;
    assert s[e..e + 24] == b;
    SliceOfSlice(s, e, e + 24, 0, 4);
    SliceOfSlice(s, e, e + 24, 4, 8);
    SliceOfSlice(s, e, e + 24, 8, 24);
  }

  // ----- free data blocks -----

  /** The struct lfdbfree view of a data sector: its first word links the list. */
  function NextDb(s: Sector): word { GetWord(s) }

  function PatchNextDb(s: Sector, next: word): (r: Sector)
    ensures NextDb(r) == next
  {
    WordRoundTrip(next, s[4..]);
    PutWord(next) + s[4..]
  }
}
