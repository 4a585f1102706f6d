/** What an open local file is to its user: a sequence of bytes and a position. */
module ByteFile {
  import opened LfsFormat

  const OK := 1
  const SYSERR := -1
  const EOF := -2

  datatype File = File(content: seq<byte>, pos: nat)

  predicate Fits(f: File) { f.pos <= |f.content| }

  datatype Op =
    | Seek(offset: word)
    | Getc
    | Putc(ch: byte)
    | Read(count: int)
    | Write(bytes: seq<byte>)
    | Truncate

  /** The value a call returns and the bytes it stores in the caller's buffer. */
  datatype Result = Result(code: int, data: seq<byte>)

  /** content with bytes laid over it from position p on, growing at the end. */
  function Overlay(content: seq<byte>, p: nat, bytes: seq<byte>): seq<byte>
    requires p <= |content|
  {
    content[..p] + bytes + if p + |bytes| <= |content| then content[p + |bytes|..] else []
  }

  function Min(a: int, b: int): int { if a < b then a else b }

  function Apply(f: File, op: Op): (File, Result)
    requires Fits(f)
  {
    match op
    case Seek(o) =>
      if o > |f.content| then (f, Result(SYSERR, [])) else (f.(pos := o), Result(OK, []))
    case Getc =>
      if f.pos == |f.content| then (f, Result(EOF, []))
      else (f.(pos := f.pos + 1), Result(f.content[f.pos] as int, []))
    case Putc(ch) =>
      (File(Overlay(f.content, f.pos, [ch]), f.pos + 1), Result(OK, []))
    case Read(count) =>
      if count < 0 then (f, Result(SYSERR, [])) else
      var n := Min(count, |f.content| - f.pos);
      if n == 0 && count > 0 then (f, Result(EOF, []))
      else (f.(pos := f.pos + n), Result(n, f.content[f.pos..f.pos + n]))
    case Write(bytes) =>
      (File(Overlay(f.content, f.pos, bytes), f.pos + |bytes|), Result(|bytes|, []))
    case Truncate =>
      (File([], 0), Result(OK, []))
  }

  /** Index by index: the bytes written replace what was there, and only that. */
  lemma OverlayAt(content: seq<byte>, p: nat, bytes: seq<byte>)
    requires p <= |content|
    ensures |Overlay(content, p, bytes)| == if p + |bytes| < |content| then |content| else p + |bytes|
    ensures forall i | 0 <= i < |Overlay(content, p, bytes)| ::
      Overlay(content, p, bytes)[i] == if p <= i < p + |bytes| then bytes[i - p] else content[i]
  {
  }

  lemma OverlayNothing(content: seq<byte>, p: nat)
    requires p <= |content|
    ensures Overlay(content, p, []) == content
  {
  }

  lemma OneMore<T>(c: seq<T>, i: nat, n: nat)
    requires i + n < |c|
    ensures c[i..i + n] + [c[i + n]] == c[i..i + n + 1]
  {
  }

  /** No operation moves the position past the end. */
  lemma ApplyFits(f: File, op: Op)
    requires Fits(f)
    ensures Fits(Apply(f, op).0)
  {
  }

  /** The results of a sequence of operations, and the file they leave. */
  function Run(f: File, ops: seq<Op>): (r: (File, seq<Result>))
    requires Fits(f)
    ensures Fits(r.0) && |r.1| == |ops|
  {
    if ops == [] then (f, []) else
    var last := |ops| - 1;
    var before := Run(f, ops[..last]);
    ApplyFits(before.0, ops[last]);
    var now := Apply(before.0, ops[last]);
    (now.0, before.1 + [now.1])
  }

  /** The call stores at least one byte. */
  predicate Puts(op: Op) { op.Putc? || (op.Write? && op.bytes != []) }

  /** The longest the file gets in the course of the operations. */
  function Peak(f: File, ops: seq<Op>): nat
    requires Fits(f)
  {
    var n := |Run(f, ops).0.content|;
    if ops == [] then n else
    var before := Peak(f, ops[..|ops| - 1]);
    if before < n then n else before
  }

  lemma PeakStart(f: File)
    requires Fits(f)
    ensures Run(f, []) == (f, []) && Peak(f, []) == |f.content|
  {
  }

  lemma {:induction false} PeakGrows(f: File, ops: seq<Op>, k: nat)
    requires Fits(f) && k <= |ops|
    ensures Peak(f, ops[..k]) <= Peak(f, ops)
    decreases |ops|
  {
    if k < |ops| {
      var ops' := ops[..|ops| - 1];
      assert ops'[..k] == ops[..k];
      PeakGrows(f, ops', k);
    } else {
      assert ops[..k] == ops;
    }
  }

  lemma PeakNext(f: File, ops: seq<Op>, k: nat)
    requires Fits(f) && k < |ops|
    ensures ops[..k + 1][..k] == ops[..k] && ops[..k + 1][k] == ops[k]
    ensures Fits(Run(f, ops[..k]).0)
    ensures Run(f, ops[..k + 1]).0 == Apply(Run(f, ops[..k]).0, ops[k]).0
    ensures Run(f, ops[..k + 1]).1 == Run(f, ops[..k]).1 + [Apply(Run(f, ops[..k]).0, ops[k]).1]
    ensures var n := |Run(f, ops[..k + 1]).0.content|;
      Peak(f, ops[..k + 1]) == if Peak(f, ops[..k]) < n then n else Peak(f, ops[..k])
  {
    var done := ops[..k + 1];
    assert done[..|done| - 1] == ops[..k];
  }

  lemma {:induction false} OverlayStep(content: seq<byte>, p: nat, bytes: seq<byte>, k: nat)
    requires p <= |content| && k < |bytes|
    ensures Overlay(Overlay(content, p, bytes[..k]), p + k, [bytes[k]]) == Overlay(content, p, bytes[..k + 1])
  {
    assert bytes[..k + 1] == bytes[..k] + [bytes[k]];
  }

  function Max(a: nat, b: nat): nat { if a < b then b else a }

  lemma RunTwo(f: File, a: Op, b: Op)
    requires Fits(f)
    ensures Fits(Apply(f, a).0)
    ensures var g := Apply(f, a).0; var h := Apply(g, b).0;
      && Run(f, [a, b]) == (h, [Apply(f, a).1, Apply(g, b).1])
      && Peak(f, [a, b]) == Max(Max(|f.content|, |g.content|), |h.content|)
  {
    var ops := [a, b];
    assert ops[..0] == [] && ops[..2] == ops;
    hide Apply, Run, Peak;
    PeakStart(f);
    PeakNext(f, ops, 0);
    PeakNext(f, ops, 1);
    var g := Apply(f, a).0;
    assert Run(f, ops[..1]).1 == [Apply(f, a).1];
    assert Run(f, ops).1 == [Apply(f, a).1] + [Apply(g, b).1] == [Apply(f, a).1, Apply(g, b).1];
  }

  lemma Replaced(f: File, bytes: seq<byte>)
    requires Fits(f)
    ensures var ops := [Truncate, Write(bytes)];
      && Run(f, ops).0 == File(bytes, |bytes|)
      && Peak(f, ops) == if |bytes| < |f.content| then |f.content| else |bytes|
  {
    RunTwo(f, Truncate, Write(bytes));
    assert Overlay([], 0, bytes) == bytes;
    hide Run, Peak;
  }

  /** Bytes written anywhere in a file replace those there, and no other byte changes. */
  lemma WrittenAt(f: File, p: word, bytes: seq<byte>)
    requires p <= |f.content| && Fits(f)
    ensures var ops := [Seek(p), Write(bytes)]; var c := Run(f, ops).0.content;
      && |c| == (if p + |bytes| < |f.content| then |f.content| else p + |bytes|) == Peak(f, ops)
      && (forall i | 0 <= i < |c| :: c[i] == if p <= i < p + |bytes| then bytes[i - p] else f.content[i])
  {
    RunTwo(f, Seek(p), Write(bytes));
    OverlayAt(f.content, p, bytes);
    hide Run, Peak, Overlay;
  }

  /** What stands at p in a file is what is read there, and the file stays as it is. */
  lemma ReadAt(content: seq<byte>, p: word, n: nat)
    requires p + n <= |content|
    ensures var f, ops := File(content, 0), [Seek(p), Read(n)];
      Run(f, ops) == (File(content, p + n), [Result(OK, []), Result(n, content[p..p + n])]) && Peak(f, ops) == |content|
  {
    RunTwo(File(content, 0), Seek(p), Read(n));
    hide Run, Peak;
  }

  lemma ReadWhole(bytes: seq<byte>)
    ensures var f, ops := File(bytes, 0), [Read(|bytes|)];
      Run(f, ops) == (File(bytes, |bytes|), [Result(|bytes|, bytes)]) && Peak(f, ops) == |bytes|
  {
    var f, ops := File(bytes, 0), [Read(|bytes|)];
    assert ops[..0] == [] && ops[..1] == ops && bytes[0..|bytes|] == bytes;
    assert Apply(f, ops[0]) == (File(bytes, |bytes|), Result(|bytes|, bytes));
    PeakStart(f);
    PeakNext(f, ops, 0);
    assert Run(f, ops).1 == [Apply(f, ops[0]).1];
  }
}
