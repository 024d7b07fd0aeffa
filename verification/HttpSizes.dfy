/** Chunk sizes as the original stream spells them, and exactly which streams break the layout of the framer. */
module HttpSizes {
  import opened Bytes
  import opened HttpHeader
  import opened HttpParser
  import opened HttpFraming
  import opened HttpHeaderScan
  import opened HttpLayout

  /** The hex digits that a text begins with. */
  function HexPrefix(text: seq<byte>): (r: seq<byte>)
    ensures forall i :: 0 <= i < |r| ==> IsHex(r[i])
  {
    if text == [] || !IsHex(text[0]) then [] else [text[0]] + HexPrefix(text[1..])
  }

  /** The number that a size line spells, of any length: the hex digits behind leading spaces. */
  function SizeValue(text: seq<byte>): nat {
    if text != [] && IsSpace(text[0]) then SizeValue(text[1..]) else HexValue(HexPrefix(text), 0)
  }

  /** Reading on the original bytes: `rest` starts with a size line, and `prev` is the byte before it. Some size line
      is reached whose number, as a `size_t`, is one of the last two and which has bytes behind it. */
  predicate Oversized(prev: byte, rest: seq<byte>)
    decreases |rest|, 0
  {
    var f := FirstLF(rest);
    && f < |rest| && (if f == 0 then prev else rest[f - 1]) == CR
    && OversizedBehind(SizeValue(rest[..f]) % SIZE_MOD, rest[f + 1..])
  }

  /** The same behind a size line with the number `n`, which is followed by as many bytes, two more, and the next size
      line. */
  predicate OversizedBehind(n: nat, tail: seq<byte>)
    decreases |tail|, 1
  {
    n != 0 && tail != [] && (n + 2 >= SIZE_MOD || (n + 2 <= |tail| && Oversized(tail[n + 1], tail[n + 2..])))
  }

  /** The stream has a complete header that selects chunked coding, and behind it such a size line. */
  predicate OversizedChunk(stream: seq<byte>) {
    match SplitHeader(stream)
    case Complete(ls, rest) => FlagsOf(ls).chunked && Oversized(LF, rest)
    case _ => false
  }

  /** The scan of a size line without the buffer. */
  datatype Size = Size(value: nat, started: bool, done: bool)

  function ReadByte(z: Size, b: byte): Size {
    if z.done then z
    else if IsHex(b) then Size((z.value * 16 + HexDigit(b)) % SIZE_MOD, true, false)
    else z.(done := z.started || !IsSpace(b))
  }

  function ReadText(z: Size, text: seq<byte>): Size
    decreases |text|
  {
    if text == [] then z else ReadText(ReadByte(z, text[0]), text[1..])
  }

  lemma {:induction false} DoneStays(z: Size, text: seq<byte>)
    requires z.done
    ensures ReadText(z, text) == z
    decreases |text|
  {
    if text != [] {
      DoneStays(z, text[1..]);
    }
  }

  lemma WrapOnce(n: nat, d: nat)
    ensures (n % SIZE_MOD * 16 + d) % SIZE_MOD == (n * 16 + d) % SIZE_MOD
  {
  }

  lemma {:induction false} DigitsRead(n: nat, text: seq<byte>)
    ensures ReadText(Size(n % SIZE_MOD, true, false), text).value == HexValue(HexPrefix(text), n) % SIZE_MOD
    decreases |text|
  {
    if text != [] {
      if IsHex(text[0]) {
        var d := HexDigit(text[0]);
        WrapOnce(n, d);
        DigitsRead(n * 16 + d, text[1..]);
        assert HexPrefix(text)[1..] == HexPrefix(text[1..]);
      } else {
        DoneStays(Size(n % SIZE_MOD, true, true), text[1..]);
      }
    }
  }

  /** The scan computes the number of the line, modulo the word size. */
  lemma {:induction false} SizeRead(text: seq<byte>)
    ensures ReadText(Size(0, false, false), text).value == SizeValue(text) % SIZE_MOD
    decreases |text|
  {
    if text != [] {
      if IsSpace(text[0]) {
        SizeRead(text[1..]);
      } else if IsHex(text[0]) {
        WrapOnce(0, HexDigit(text[0]));
        DigitsRead(HexDigit(text[0]), text[1..]);
        assert HexPrefix(text)[1..] == HexPrefix(text[1..]);
      } else {
        DoneStays(Size(0, false, true), text[1..]);
      }
    }
  }

  function SizeOf(p: Parser): Size {
    Size(p.chunkSize, p.sizeStart, p.sizeDone)
  }

  function Sized(p: Parser, n: nat, z: Size): Parser {
    p.(index := p.index + n, chunkSize := z.value, sizeStart := z.started, sizeDone := z.done)
  }

  lemma SizeByteReads(p: Parser)
    requires 0 < p.index < |p.buf| && p.buf[p.index] != LF
    ensures SizeByte(p) == Sized(p, 1, ReadByte(SizeOf(p), p.buf[p.index]))
  {
  }

  lemma {:induction false} ScanSizeText(p: Parser, text: seq<byte>, rest: seq<byte>)
    requires At(p, text + rest) && p.phase == ChunkHeader && LF !in text
    ensures var q := Sized(p, |text|, ReadText(SizeOf(p), text)); At(q, rest) && Run(p) == Run(q)
    decreases |text|
  {
    hide Run, Ok, SizeByte;
    if text == [] {
      assert text + rest == rest;
    } else {
      assert text[0] in text;
      assert (text + rest)[1..] == text[1..] + rest;
      SizeRunStep(p, text + rest);
      SizeByteReads(p);
      ScanSizeText(SizeByte(p), text[1..], rest);
    }
  }

  lemma {:induction false} FooterKeepsChunks(p: Parser)
    requires Ok(p) && p.phase == ChunkFooter
    ensures Run(p).chunks == p.chunks
    decreases |p.buf| - p.index, Rank(p.phase)
  {
    hide LineByte;
    if Enabled(p) {
      StepOk(p);
      LineByteKeepsChunks(p);
      FooterPhase(p);
      if LineByte(p).phase == ChunkFooter {
        FooterKeepsChunks(LineByte(p));
      }
    }
  }

  lemma FooterPhase(p: Parser)
    requires Ok(p) && Enabled(p) && p.phase == ChunkFooter
    ensures LineByte(p).phase == ChunkFooter || Finished(LineByte(p))
  {
  }

  /** The parser is in front of the size line that `rest` starts with. */
  predicate AtSize(p: Parser, prev: byte, rest: seq<byte>) {
    && At(p, rest) && p.phase == ChunkHeader && SizeOf(p) == Size(0, false, false)
    && 0 < p.index <= |p.buf| && (p.buf[p.index - 1] == CR <==> prev == CR)
  }

  lemma CutAtLF(rest: seq<byte>)
    ensures var f := FirstLF(rest); f <= |rest| && rest == rest[..f] + rest[f..] && LF !in rest[..f]
    ensures var f := FirstLF(rest); f < |rest| ==> rest[f..] == [LF] + rest[f + 1..]
  {
    hide FirstLF;
    var f := FirstLF(rest);
    SplitOff(rest, f);
  }

  lemma SplitOff(s: seq<byte>, f: nat)
    requires f <= |s|
    ensures s == s[..f] + s[f..]
    ensures f < |s| ==> s[f..] == [s[f]] + s[f + 1..]
  {
  }

  /** The size line is not complete. */
  lemma NoLine(p: Parser, prev: byte, rest: seq<byte>)
    requires AtSize(p, prev, rest) && FirstLF(rest) == |rest|
    ensures Ok(p) && Run(p).chunks == p.chunks && !Finished(Run(p))
  {
    hide Run, Ok, FirstLF;
    CutAtLF(rest);
    assert rest + [] == rest && rest[..|rest|] == rest;
    ScanSizeText(p, rest, []);
    Idle(Sized(p, |rest|, ReadText(SizeOf(p), rest)));
  }

  lemma Idle(p: Parser)
    requires At(p, [])
    ensures Run(p) == p
  {
  }

  /** The parser at the LF that ends the size line. */
  lemma ToLineEnd(p: Parser, prev: byte, rest: seq<byte>) returns (q: Parser)
    requires AtSize(p, prev, rest) && FirstLF(rest) < |rest|
    ensures var f := FirstLF(rest);
      && Ok(p) && At(q, rest[f..]) && Run(p) == Run(q) && q.phase == ChunkHeader && q.chunks == p.chunks
      && q.chunkSize == SizeValue(rest[..f]) % SIZE_MOD
      && q.index == p.index + f && 0 < q.index < |q.buf| && q.buf[q.index] == LF
      && (q.buf[q.index - 1] == CR <==> (if f == 0 then prev else rest[f - 1]) == CR)
  {
    hide Run, Ok, FirstLF, SizeValue, ReadText;
    var f := FirstLF(rest);
    CutAtLF(rest);
    SizeRead(rest[..f]);
    ScanSizeText(p, rest[..f], rest[f..]);
    q := Sized(p, f, ReadText(SizeOf(p), rest[..f]));
    Peek(q.buf, q.index, rest[f..]);
    if f > 0 {
      assert p.buf[p.index..][f - 1] == p.buf[p.index + f - 1];
    }
  }

  lemma BadSize(q: Parser, rest: seq<byte>)
    requires At(q, [LF] + rest) && q.phase == ChunkHeader && 0 < q.index < |q.buf| && q.buf[q.index - 1] != CR
    ensures Ok(q) && Run(q).chunks == q.chunks && Run(q).phase == Bad
  {
    SizeRunStep(q, [LF] + rest);
  }

  lemma AfterSize(q: Parser, rest: seq<byte>) returns (e: Parser)
    requires At(q, [LF] + rest) && q.phase == ChunkHeader && 0 < q.index < |q.buf| && q.buf[q.index - 1] == CR
    ensures At(e, rest) && Ok(q) && Run(q) == Run(e) && e.chunks == q.chunks && e.chunkSize == q.chunkSize
    ensures e.phase == if q.chunkSize > 0 then ChunkBody else ChunkFooter
    ensures 0 < e.index == q.index + 1 <= |e.buf| && e.buf[e.index - 1] == NUL
    ensures e.phase == ChunkFooter ==> e.lines != [] && LastLine(e) == Open(e.index)
  {
    hide Run, Ok;
    SizeRunStep(q, [LF] + rest);
    e := SizeEnd(q);
    NulBehind(q.buf, q.index, rest);
  }

  lemma NoRoom(e: Parser, rest: seq<byte>)
    requires At(e, rest) && e.phase == ChunkBody && (rest == [] || |rest| < ChunkNeed(e))
    ensures Ok(e) && Run(e) == e
  {
  }

  lemma Wrapped(e: Parser, rest: seq<byte>)
    requires At(e, rest) && e.phase == ChunkBody && rest != [] && e.chunkSize + 2 >= SIZE_MOD
    ensures Ok(e) && !SizesFit(Run(e).chunks)
  {
    SizeBelow(e);
    RunStep(e);
    StepKeepsChunks(e);
    RunKeepsChunks(Step(e));
    assert Range(e.index, e.chunkSize) in Run(e).chunks;
  }

  lemma SizeBelow(e: Parser)
    requires Ok(e)
    ensures e.chunkSize < SIZE_MOD
    ensures e.chunkSize + 2 >= SIZE_MOD ==> ChunkNeed(e) <= 1
  {
  }

  lemma NextChunk(e: Parser, rest: seq<byte>) returns (n: Parser)
    requires At(e, rest) && e.phase == ChunkBody && SizesFit(e.chunks)
    requires e.chunkSize + 2 < SIZE_MOD && e.chunkSize + 2 <= |rest|
    ensures AtSize(n, rest[e.chunkSize + 1], rest[e.chunkSize + 2..]) && SizesFit(n.chunks) && Ok(e) && Run(e) == Run(n)
  {
    hide Run, Ok, SizesFit;
    var k := e.chunkSize + 2;
    OkIndex(e);
    Behind(e.buf, e.index, rest, k);
    ChunkRunStep(e);
    OneMoreFits(e.chunks, Range(e.index, e.chunkSize));
    n := ChunkStep(e);
  }

  lemma Behind(buf: seq<byte>, i: nat, rest: seq<byte>, k: nat)
    requires i <= |buf| && buf[i..] == rest && 0 < k <= |rest|
    ensures i + k <= |buf| && buf[i + k - 1] == rest[k - 1] && buf[i + k..] == rest[k..]
  {
    assert buf[i..][k - 1] == buf[i + k - 1];
    assert buf[i..][k..] == buf[i + k..];
  }

  lemma OneMoreFits(chunks: seq<Range>, c: Range)
    requires SizesFit(chunks) && c.length + 2 < SIZE_MOD
    ensures SizesFit(chunks + [c])
  {
  }

  /** From a size line on: the recorded lengths fit unless one of the lines of the stream is oversized. */
  lemma {:induction false} SizesFrom(p: Parser, prev: byte, rest: seq<byte>)
    requires AtSize(p, prev, rest) && SizesFit(p.chunks)
    ensures Ok(p) && (SizesFit(Run(p).chunks) <==> !Oversized(prev, rest))
    decreases |rest|
  {
    hide Run, Ok, FirstLF, SizeValue, SizesFit;
    CutAtLF(rest);
    var f := FirstLF(rest);
    if f == |rest| {
      NoLine(p, prev, rest);
    } else {
      var q := ToLineEnd(p, prev, rest);
      var tail := rest[f + 1..];
      if q.buf[q.index - 1] != CR {
        BadSize(q, tail);
      } else {
        var e := AfterSize(q, tail);
        SizesBehind(e, tail);
      }
    }
  }

  lemma {:induction false} SizesBehind(e: Parser, tail: seq<byte>)
    requires At(e, tail) && SizesFit(e.chunks) && e.phase == if e.chunkSize > 0 then ChunkBody else ChunkFooter
    ensures Ok(e) && (SizesFit(Run(e).chunks) <==> !OversizedBehind(e.chunkSize, tail))
    decreases |tail|
  {
    hide Run, Ok, Oversized;
    var n := e.chunkSize;
    if n == 0 {
      FooterKeepsChunks(e);
    } else if tail == [] {
      NoRoom(e, tail);
    } else if n + 2 >= SIZE_MOD {
      Wrapped(e, tail);
    } else if n + 2 <= |tail| {
      var p := NextChunk(e, tail);
      SizesFrom(p, tail[n + 1], tail[n + 2..]);
    } else {
      NoRoom(e, tail);
    }
  }

  /** Until the header is complete no chunk is recorded. */
  predicate HeaderFirst(p: Parser) {
    p.headerSize == 0 ==> p.chunks == [] && (p.phase == Start || p.phase == ReadHeader || p.phase == Bad)
  }

  lemma LineByteHeaderFirst(p: Parser)
    requires Ok(p) && Enabled(p) && p.phase == ReadHeader && HeaderFirst(p)
    ensures HeaderFirst(LineByte(p))
  {
    hide DecodeLines;
    LineByteKeepsChunks(p);
  }

  lemma StepHeaderFirst(p: Parser)
    requires Ok(p) && Enabled(p) && HeaderFirst(p)
    ensures Ok(Step(p)) && HeaderFirst(Step(p))
  {
    hide LineByte;
    StepOk(p);
    if p.phase == ReadHeader {
      LineByteHeaderFirst(p);
    } else if p.phase != Start {
      StepKeepsHeader(p);
    }
  }

  lemma {:induction false} RunHeaderFirst(p: Parser)
    requires Ok(p) && HeaderFirst(p)
    ensures HeaderFirst(Run(p))
    decreases |p.buf| - p.index, Rank(p.phase)
  {
    hide Step, HeaderFirst;
    if Enabled(p) {
      StepOk(p);
      StepHeaderFirst(p);
      RunHeaderFirst(Step(p));
    }
  }

  /** A body of the announced length always fits. */
  lemma FixedBody(p: Parser)
    requires Ok(p) && p.chunks == [] && (p.phase == ReadBody || p.phase == Done) && |p.buf| + 2 < SIZE_MOD
    ensures SizesFit(Run(p).chunks)
  {
    if Enabled(p) {
      RunStep(p);
    }
  }

  /** The recorded lengths fit exactly when no size line of the stream is oversized. */
  lemma SizesFitIff(stream: seq<byte>)
    requires |stream| + 2 < SIZE_MOD
    ensures Ok(Fresh(stream)) && (SizesFit(Run(Fresh(stream)).chunks) <==> !OversizedChunk(stream))
  {
    hide Run, Ok, SplitHeader, FlagsOf, Oversized;
    SplitJoins(stream);
    HeaderScanIsSplit(stream);
    match SplitHeader(stream)
    case Complete(ls, rest) =>
      Assoc(EncodeLines(ls), CRLF, rest);
      var p := HeaderRun(ls, rest);
      OkIndex(p);
      if FlagsOf(ls).chunked {
        SizesFrom(p, LF, rest);
      } else {
        FixedBody(p);
      }
    case _ =>
      FreshHeaderFirst(stream);
  }

  lemma FreshHeaderFirst(stream: seq<byte>)
    ensures Ok(Fresh(stream)) && HeaderFirst(Run(Fresh(stream)))
  {
    RunHeaderFirst(Fresh(stream));
  }

  /** The recorded ranges lie in the buffer, in order and apart from each other, and no chunk byte is overwritten,
      exactly on the streams without an oversized chunk: a size line, reached behind a header that selects chunked
      coding, that spells a number equal to 2^64 - 2 or 2^64 - 1 modulo 2^64 and has bytes behind it. Any other number,
      however long, is taken modulo 2^64 and keeps the layout. */
  lemma LayoutIff(stream: seq<byte>)
    requires |stream| + 2 < SIZE_MOD
    ensures Ok(Fresh(stream)) && (Layout(Run(Fresh(stream)), stream) <==> !OversizedChunk(stream))
  {
    hide Run, OversizedChunk, Layout;
    SizesFitIff(stream);
    LayoutByLengths(stream);
  }
}
