/** Messages as lists of lines and chunks, their encoding as bytes, and what the framer makes of the encoding.
    Framing follows section 3.3.3 of RFC 7230 and chunked coding section 4.1 of RFC 7230. */
module HttpFraming {
  import opened Bytes
  import opened HttpHeader
  import opened HttpParser

  /** A chunk with its size line: hex digits, then anything up to the end of the line that is not one more digit. */
  datatype Chunk = Chunk(digits: seq<byte>, ext: seq<byte>, data: seq<byte>)

  datatype Body =
    | NoBody
    | Fixed(data: seq<byte>)
    | Chunked(chunks: seq<Chunk>, last: Chunk, trailers: seq<seq<byte>>)

  datatype Message = Message(lines: seq<seq<byte>>, body: Body)

  function EncodeLines(ls: seq<seq<byte>>): seq<byte> {
    if ls == [] then [] else ls[0] + CRLF + EncodeLines(ls[1..])
  }

  function EncodeSize(c: Chunk): seq<byte> {
    c.digits + c.ext + CRLF
  }

  function EncodeChunks(cs: seq<Chunk>): seq<byte> {
    if cs == [] then [] else EncodeSize(cs[0]) + (cs[0].data + CRLF) + EncodeChunks(cs[1..])
  }

  function EncodeBody(b: Body): seq<byte> {
    match b
    case NoBody => []
    case Fixed(data) => data
    case Chunked(chunks, last, trailers) => EncodeChunks(chunks) + (EncodeSize(last) + (EncodeLines(trailers) + CRLF))
  }

  function EncodeHeader(ls: seq<seq<byte>>): seq<byte> {
    EncodeLines(ls) + CRLF
  }

  function Encode(m: Message): seq<byte> {
    EncodeHeader(m.lines) + EncodeBody(m.body)
  }

  predicate LinesValid(ls: seq<seq<byte>>) {
    forall i :: 0 <= i < |ls| ==> ls[i] != [] && LF !in ls[i]
  }

  /** The value of a string of hex digits in either letter case. */
  function HexValue(ds: seq<byte>, acc: nat): nat
    requires forall i :: 0 <= i < |ds| ==> IsHex(ds[i])
  {
    if ds == [] then acc else HexValue(ds[1..], acc * 16 + HexDigit(ds[0]))
  }

  predicate SizeValid(c: Chunk) {
    && c.digits != [] && (forall i :: 0 <= i < |c.digits| ==> IsHex(c.digits[i]))
    && LF !in c.ext && (c.ext != [] ==> !IsHex(c.ext[0]))
    && HexValue(c.digits, 0) == |c.data|
    && |c.data| + 2 < SIZE_MOD
  }

  /** The body is the one that the header lines announce. */
  predicate BodyValid(flags: Flags, b: Body) {
    match b
    case NoBody => !flags.chunked && flags.contentLength == 0
    case Fixed(data) => !flags.chunked && flags.contentLength == |data| > 0
    case Chunked(chunks, last, trailers) =>
      && flags.chunked
      && (forall i :: 0 <= i < |chunks| ==> SizeValid(chunks[i]) && chunks[i].data != [])
      && SizeValid(last) && last.data == []
      && LinesValid(trailers)
  }

  predicate Valid(m: Message) {
    LinesValid(m.lines) && BodyValid(FlagsOf(m.lines), m.body)
  }

  function ChunkData(cs: seq<Chunk>): seq<seq<byte>> {
    if cs == [] then [] else [cs[0].data] + ChunkData(cs[1..])
  }

  /** The pieces of content that a message carries. */
  function Payload(b: Body): seq<seq<byte>> {
    match b
    case NoBody => []
    case Fixed(data) => [data]
    case Chunked(chunks, _, _) => ChunkData(chunks)
  }

  function Trailers(b: Body): seq<seq<byte>> {
    if b.Chunked? then b.trailers else []
  }

  function LineTexts(buf: seq<byte>, lines: seq<Line>): seq<seq<byte>> {
    if lines == [] then [] else LineTexts(buf, lines[..|lines| - 1]) + [LineText(buf, lines[|lines| - 1])]
  }

  function RangeText(buf: seq<byte>, r: Range): seq<byte> {
    if r.start + r.length <= |buf| then buf[r.start..r.start + r.length] else []
  }

  function RangeTexts(buf: seq<byte>, rs: seq<Range>): seq<seq<byte>> {
    if rs == [] then [] else RangeTexts(buf, rs[..|rs| - 1]) + [RangeText(buf, rs[|rs| - 1])]
  }

  /** What getContent copies out. */
  function Content(p: Parser): seq<byte> {
    Concat(RangeTexts(p.buf, p.chunks))
  }

  /** The parser stands at `rest`. */
  predicate At(p: Parser, rest: seq<byte>) {
    Ok(p) && p.buf[p.index..] == rest
  }

  lemma RunStep(p: Parser)
    requires Ok(p) && Enabled(p)
    ensures Ok(Step(p)) && Run(p) == Run(Step(p))
  {
    StepOk(p);
  }

  lemma Peek(buf: seq<byte>, i: nat, rest: seq<byte>)
    requires i <= |buf| && buf[i..] == rest && rest != []
    ensures i < |buf| && buf[i] == rest[0] && buf[i + 1..] == rest[1..]
  {
    assert buf[i] == buf[i..][0];
  }

  lemma ScanByte(p: Parser, rest: seq<byte>)
    requires rest != [] && rest[0] != LF && At(p, rest) && InLine(p)
    ensures At(p.(index := p.index + 1), rest[1..])
    ensures Run(p) == Run(p.(index := p.index + 1))
  {
    hide EndLines, NextLine, Ok, Run;
    OkClosed(p);
    Peek(p.buf, p.index, rest);
    RunStep(p);
  }

  lemma OkClosed(p: Parser)
    requires Ok(p) && InLine(p)
    ensures p.lines != [] && p.index <= |p.buf| && ClosedUpTo(ClosedLines(p), p.index)
  {
  }

  lemma {:induction false} ScanText(p: Parser, text: seq<byte>, rest: seq<byte>)
    requires At(p, text + rest) && InLine(p) && LF !in text
    ensures At(p.(index := p.index + |text|), rest)
    ensures Run(p) == Run(p.(index := p.index + |text|))
    decreases |text|
  {
    hide At, Ok, Run;
    if text == [] {
      assert text + rest == rest;
    } else {
      assert (text + rest)[1..] == text[1..] + rest;
      ScanByte(p, text + rest);
      ScanText(p.(index := p.index + 1), text[1..], rest);
    }
  }

  /** The position after a line end, with the buffer the line end leaves behind. */
  lemma NulBehind(buf: seq<byte>, i: nat, rest: seq<byte>)
    requires 0 < i < |buf| && buf[i + 1..] == rest
    ensures var b := buf[i - 1 := NUL][i := NUL]; b[i + 1..] == rest && b[..i - 1] == buf[..i - 1]
  {
  }

  lemma {:induction false} LineTextsFrame(buf: seq<byte>, buf': seq<byte>, lines: seq<Line>, n: nat)
    requires ClosedUpTo(lines, n) && n <= |buf| && n <= |buf'| && buf[..n] == buf'[..n]
    ensures LineTexts(buf, lines) == LineTexts(buf', lines)
    decreases |lines|
  {
    if lines != [] {
      LineTextsFrame(buf, buf', lines[..|lines| - 1], n);
      var l := lines[|lines| - 1];
      assert LineText(buf, l) == buf[..n][l.start..l.start + l.length];
      assert LineText(buf', l) == buf'[..n][l.start..l.start + l.length];
    }
  }

  /** A line is about to be read and the closed ones hold `ls`. */
  predicate Told(p: Parser, ls: seq<seq<byte>>) {
    && InLine(p) && p.lines != [] && LastLine(p) == Open(p.index)
    && LineTexts(p.buf, ClosedLines(p)) == ls
  }

  /** `q` comes from `p` by reading lines: only the bytes from `p.index` on and the line list may differ. */
  predicate ReadFrom(p: Parser, q: Parser) {
    && q == p.(buf := q.buf, index := q.index, lines := q.lines)
    && p.index <= |p.buf| == |q.buf|
    && p.index <= q.index
    && q.buf[..p.index] == p.buf[..p.index]
  }

  lemma TakeTake(a: seq<byte>, b: seq<byte>, n: nat, m: nat)
    requires n <= m <= |a| && m <= |b| && a[..m] == b[..m]
    ensures a[..n] == b[..n]
  {
    assert a[..n] == a[..m][..n];
    assert b[..n] == b[..m][..n];
  }

  lemma ReadFromTransitive(p: Parser, q: Parser, r: Parser)
    requires ReadFrom(p, q) && ReadFrom(q, r)
    ensures ReadFrom(p, r)
  {
    TakeTake(r.buf, q.buf, p.index, q.index);
  }

  lemma LinePieces(buf: seq<byte>, i: nat, text: seq<byte>, rest: seq<byte>)
    requires i <= |buf| && buf[i..] == text + CRLF + rest
    ensures i + |text| + 2 <= |buf|
    ensures buf[i + |text|] == CR && buf[i + |text| + 1] == LF
    ensures buf[i + |text| + 2..] == rest && buf[i..i + |text|] == text
  {
    var all := text + CRLF + rest;
    var n := |text|;
    assert all[n] == CR && all[n + 1] == LF && all[n + 2..] == rest && all[..n] == text;
    assert buf[i..][n] == buf[i + n] && buf[i..][n + 1] == buf[i + n + 1];
    assert buf[i..][n + 2..] == buf[i + n + 2..];
    assert buf[i..][..n] == buf[i..i + n];
  }

  /** Up to the LF that ends a line. */
  lemma ScanToLineEnd(p: Parser, text: seq<byte>, rest: seq<byte>)
    requires At(p, text + CRLF + rest) && InLine(p) && LF !in text
    ensures p.index + |text| + 1 < |p.buf|
    ensures var p' := p.(index := p.index + |text| + 1);
      && AtLineEnd(p') && Run(p) == Run(p')
      && p.buf[p'.index + 1..] == rest
      && p.buf[p.index..p.index + |text|] == text
  {
    hide Run, Ok;
    OkClosed(p);
    LinePieces(p.buf, p.index, text, rest);
    assert text + CRLF + rest == (text + [CR]) + ([LF] + rest);
    ScanText(p, text + [CR], [LF] + rest);
  }

  /** The buffer after a line of length n at i was closed. */
  lemma ClosedLineText(buf: seq<byte>, i: nat, n: nat)
    requires i + n + 1 < |buf|
    ensures var b := buf[i + n := NUL][i + n + 1 := NUL];
      b[i..i + n] == buf[i..i + n] && b[..i] == buf[..i]
  {
  }

  lemma LineRunStep(p: Parser)
    requires Ok(p) && Enabled(p) && InLine(p)
    ensures Ok(LineByte(p)) && Run(p) == Run(LineByte(p))
  {
    hide LineByte;
    RunStep(p);
  }

  lemma NextLineFields(p: Parser)
    requires AtLineEnd(p) && LastLine(p).start < p.index - 1
    ensures var q := NextLine(p); var start := LastLine(p).start;
      && q == p.(buf := p.buf[p.index - 1 := NUL][p.index := NUL], index := p.index + 1, lines := q.lines)
      && q.lines == ClosedLines(p) + [Closed(start, p.index - 1 - start), Open(p.index + 1)]
      && ClosedLines(q) == ClosedLines(p) + [Closed(start, p.index - 1 - start)]
      && LastLine(q) == Open(q.index)
      && Ok(q) && Run(p) == Run(q)
  {
    hide Run, Ok;
    LineRunStep(p);
  }

  lemma LineTextsSnoc(buf: seq<byte>, lines: seq<Line>, l: Line)
    ensures LineTexts(buf, lines + [l]) == LineTexts(buf, lines) + [LineText(buf, l)]
  {
    assert (lines + [l])[..|lines|] == lines;
  }

  /** The line that ends with the NUL pair at `i + n` is one more line told. */
  lemma ToldMore(p: Parser, q: Parser, told: seq<seq<byte>>, text: seq<byte>)
    requires Ok(p) && Told(p, told) && p.index + |text| + 1 < |p.buf| == |q.buf|
    requires q.buf == p.buf[p.index + |text| := NUL][p.index + |text| + 1 := NUL]
    requires p.buf[p.index..p.index + |text|] == text
    requires InLine(q) && q.lines != [] && LastLine(q) == Open(q.index)
    requires ClosedLines(q) == ClosedLines(p) + [Closed(p.index, |text|)]
    ensures Told(q, told + [text])
  {
    OkClosed(p);
    hide Ok, LineTexts;
    ClosedLineText(p.buf, p.index, |text|);
    LineTextsFrame(p.buf, q.buf, ClosedLines(p), p.index);
    LineTextsSnoc(q.buf, ClosedLines(p), Closed(p.index, |text|));
  }

  /** One non-empty line: its text is recorded and the next line is opened behind it. */
  lemma ScanLine(p: Parser, told: seq<seq<byte>>, text: seq<byte>, rest: seq<byte>) returns (q: Parser)
    requires At(p, text + CRLF + rest) && Told(p, told) && text != [] && LF !in text
    ensures At(q, rest) && Told(q, told + [text]) && ReadFrom(p, q) && Run(p) == Run(q)
  {
    hide Run, Ok, NextLine, LineTexts;
    ScanToLineEnd(p, text, rest);
    var p' := p.(index := p.index + |text| + 1);
    NextLineFields(p');
    q := NextLine(p');
    NulBehind(p.buf, p'.index, rest);
    ToldMore(p, q, told, text);
    hide Told;
    ClosedLineText(p.buf, p.index, |text|);
  }

  /** A list of lines. */
  lemma {:induction false} ScanLines(p: Parser, told: seq<seq<byte>>, ls: seq<seq<byte>>, rest: seq<byte>)
    returns (q: Parser)
    requires At(p, EncodeLines(ls) + rest) && Told(p, told) && LinesValid(ls)
    ensures At(q, rest) && Told(q, told + ls) && ReadFrom(p, q) && Run(p) == Run(q)
    decreases |ls|
  {
    hide Run, Ok;
    if ls == [] {
      assert EncodeLines(ls) + rest == rest;
      assert told + ls == told;
      OkClosed(p);
      q := p;
    } else {
      var more := EncodeLines(ls[1..]) + rest;
      Assoc(ls[0] + CRLF, EncodeLines(ls[1..]), rest);
      var m := ScanLine(p, told, ls[0], more);
      q := ScanLines(m, told + [ls[0]], ls[1..], rest);
      assert told + ls == told + [ls[0]] + ls[1..];
      ReadFromTransitive(p, m, q);
    }
  }

  lemma EndLinesFields(p: Parser)
    requires AtLineEnd(p) && LastLine(p).start == p.index - 1
    ensures var q := EndLines(p);
      && q.index == p.index + 1 && q.lines == ClosedLines(p)
      && q.buf == p.buf[p.index - 1 := NUL][p.index := NUL]
      && q.chunks == p.chunks
  {
    hide DecodeLines;
    CloseLineOk(p);
  }

  /** The empty line: it is not recorded, and the block is over. */
  lemma ScanBlank(p: Parser, told: seq<seq<byte>>, rest: seq<byte>)
    requires At(p, CRLF + rest) && Told(p, told)
    ensures p.index + 1 < |p.buf|
    ensures var p' := p.(index := p.index + 1);
      && AtLineEnd(p') && LastLine(p').start == p.index
      && Ok(EndLines(p')) && Run(p) == Run(EndLines(p'))
      && EndLines(p').index == p.index + 2
      && EndLines(p').lines == ClosedLines(p)
      && LineTexts(EndLines(p').buf, EndLines(p').lines) == told
      && EndLines(p').buf[p.index + 2..] == rest
      && EndLines(p').buf[..p.index] == p.buf[..p.index]
      && EndLines(p').chunks == p.chunks
  {
    hide Run, Ok, EndLines;
    assert CRLF + rest == [] + CRLF + rest;
    ScanToLineEnd(p, [], rest);
    var p' := p.(index := p.index + 1);
    LineRunStep(p');
    EndLinesFields(p');
    NulBehind(p.buf, p'.index, rest);
    OkClosed(p);
    LineTextsFrame(p.buf, EndLines(p').buf, ClosedLines(p), p.index);
  }

  lemma {:induction false} DecodeSnoc(buf: seq<byte>, lines: seq<Line>, n: nat, flags: Flags)
    requires ClosedUpTo(lines, n) && lines != []
    ensures DecodeLines(buf, lines, n, flags)
         == ApplyField(DecodeLines(buf, lines[..|lines| - 1], n, flags),
                       DecodeField(LineText(buf, lines[|lines| - 1])))
    decreases |lines|
  {
    hide ApplyField, DecodeField, LineText;
    if |lines| > 1 {
      var init := lines[..|lines| - 1];
      assert lines[1..][..|lines| - 2] == init[1..];
      DecodeSnoc(buf, lines[1..], n, ApplyField(flags, DecodeField(LineText(buf, lines[0]))));
    }
  }

  /** Decoding the recorded lines of a header is decoding their texts. */
  lemma {:induction false} DecodeIsFlagsOf(buf: seq<byte>, lines: seq<Line>, n: nat)
    requires ClosedUpTo(lines, n)
    ensures DecodeLines(buf, lines, n, DEFAULT_FLAGS) == FlagsOf(LineTexts(buf, lines))
    decreases |lines|
  {
    hide ApplyField, DecodeField, LineText;
    if lines != [] {
      DecodeSnoc(buf, lines, n, DEFAULT_FLAGS);
      DecodeIsFlagsOf(buf, lines[..|lines| - 1], n);
      var texts := LineTexts(buf, lines);
      assert texts[..|texts| - 1] == LineTexts(buf, lines[..|lines| - 1]);
    }
  }

  function PhaseOf(flags: Flags): Phase {
    if flags.chunked then ChunkHeader else if flags.contentLength > 0 then ReadBody else Done
  }

  /** The parser right behind a header block that holds the lines `ls`. */
  predicate BehindHeader(p: Parser, ls: seq<seq<byte>>, rest: seq<byte>) {
    && At(p, rest)
    && p.flags == FlagsOf(ls) && p.phase == PhaseOf(p.flags)
    && LineTexts(p.buf, p.lines) == ls
    && p.headerSize == p.index && p.chunks == []
    && p.chunkSize == 0 && !p.sizeStart && !p.sizeDone
  }

  lemma {:induction false} FirstByte(ls: seq<seq<byte>>, rest: seq<byte>)
    requires LinesValid(ls)
    ensures EncodeLines(ls) + (CRLF + rest) != [] && (EncodeLines(ls) + (CRLF + rest))[0] != LF
  {
    if ls != [] {
      assert ls[0][0] in ls[0];
    }
  }

  lemma StartHeader(ls: seq<seq<byte>>, rest: seq<byte>) returns (p: Parser)
    requires LinesValid(ls)
    ensures var s := EncodeLines(ls) + (CRLF + rest);
      && p == Fresh(s).(phase := ReadHeader, lines := [Open(0)])
      && At(p, s) && Told(p, []) && Ok(Fresh(s)) && Run(Fresh(s)) == Run(p)
  {
    FirstByte(ls, rest);
    var s := EncodeLines(ls) + (CRLF + rest);
    RunStep(Fresh(s));
    p := Step(Fresh(s));
    assert [] + [Open(0)] == [Open(0)];
  }

  /** The end of a header block sets the flags and the phase from the recorded lines. */
  lemma EndHeaderFields(p: Parser)
    requires AtLineEnd(p) && LastLine(p).start == p.index - 1 && p.phase == ReadHeader
    requires p.flags == DEFAULT_FLAGS && p.chunkSize == 0 && !p.sizeStart && !p.sizeDone
    ensures var q := EndLines(p);
      && q.flags == FlagsOf(LineTexts(q.buf, q.lines)) && q.phase == PhaseOf(q.flags)
      && q.headerSize == q.index && q.chunkSize == 0 && !q.sizeStart && !q.sizeDone
  {
    hide DecodeLines, FlagsOf, LineTexts, Ok;
    OkClosed(p);
    CloseLineOk(p);
    var d := DropLastLine(CloseLine(p)).(index := p.index + 1, headerSize := p.index + 1);
    DecodeIsFlagsOf(d.buf, d.lines, d.headerSize);
  }

  /** The empty line behind the lines of a header. */
  lemma EndHeaderRun(q: Parser, ls: seq<seq<byte>>, rest: seq<byte>) returns (r: Parser)
    requires At(q, CRLF + rest) && Told(q, ls) && q.phase == ReadHeader
    requires q.flags == DEFAULT_FLAGS && q.chunks == [] && q.chunkSize == 0 && !q.sizeStart && !q.sizeDone
    ensures Ok(r) && BehindHeader(r, ls, rest) && Run(q) == Run(r) && |r.buf| == |q.buf|
    ensures 0 < r.index <= |r.buf| && r.buf[r.index - 1] == NUL
  {
    hide Run, Ok, EndLines, LineTexts, FlagsOf;
    ScanBlank(q, ls, rest);
    OkClosed(q);
    var p := q.(index := q.index + 1);
    EndHeaderFields(p);
    EndLinesFields(p);
    BlankNul(p);
    r := EndLines(p);
  }

  /** Any list of non-empty lines without LF is recovered from its header block, and selects what it says. */
  lemma HeaderRun(ls: seq<seq<byte>>, rest: seq<byte>) returns (r: Parser)
    requires LinesValid(ls)
    ensures Ok(r) && BehindHeader(r, ls, rest) && 0 < r.index <= |r.buf| && r.buf[r.index - 1] == NUL
    ensures Ok(Fresh(EncodeHeader(ls) + rest)) && Run(Fresh(EncodeHeader(ls) + rest)) == Run(r)
    ensures |r.buf| == |EncodeHeader(ls) + rest|
  {
    hide Run, Ok, Told, BehindHeader, At, LinesValid;
    Assoc(EncodeLines(ls), CRLF, rest);
    var p := StartHeader(ls, rest);
    var q := ScanLines(p, [], ls, CRLF + rest);
    assert [] + ls == ls;
    r := EndHeaderRun(q, ls, rest);
  }

  lemma BlankNul(p: Parser)
    requires AtLineEnd(p) && LastLine(p).start == p.index - 1
    ensures var q := EndLines(p); 0 < q.index <= |q.buf| && q.buf[q.index - 1] == NUL
  {
    hide EndLines;
    EndLinesFields(p);
  }

  lemma RangeTextsSnoc(buf: seq<byte>, rs: seq<Range>, r: Range)
    ensures RangeTexts(buf, rs + [r]) == RangeTexts(buf, rs) + [RangeText(buf, r)]
  {
    assert (rs + [r])[..|rs|] == rs;
  }

  predicate RangesWithin(rs: seq<Range>, n: nat) {
    forall i :: 0 <= i < |rs| ==> rs[i].start + rs[i].length <= n
  }

  lemma {:induction false} RangeTextsFrame(buf: seq<byte>, buf': seq<byte>, rs: seq<Range>, n: nat)
    requires RangesWithin(rs, n) && n <= |buf| && n <= |buf'| && buf[..n] == buf'[..n]
    ensures RangeTexts(buf, rs) == RangeTexts(buf', rs)
    decreases |rs|
  {
    if rs != [] {
      RangeTextsFrame(buf, buf', rs[..|rs| - 1], n);
      var r := rs[|rs| - 1];
      assert RangeText(buf, r) == buf[..n][r.start..r.start + r.length];
      assert RangeText(buf', r) == buf'[..n][r.start..r.start + r.length];
    }
  }

  /** What has been recorded so far: the flags, the texts of the lines and the texts of the chunks. */
  datatype Record = Record(flags: Flags, lines: seq<seq<byte>>, chunks: seq<seq<byte>>)

  predicate Holds(p: Parser, rec: Record) {
    && p.flags == rec.flags
    && p.index <= |p.buf| && RangesWithin(p.chunks, p.index) && RangeTexts(p.buf, p.chunks) == rec.chunks
    && (InLine(p) ==> p.lines != [])
    && ClosedUpTo(ClosedLines(p), p.index) && LineTexts(p.buf, ClosedLines(p)) == rec.lines
  }

  /** The parser is about to read a chunk-size line. */
  predicate Chunking(p: Parser, rec: Record) {
    && p.phase == ChunkHeader && p.chunkSize == 0 && !p.sizeStart && !p.sizeDone
    && Holds(p, rec)
  }

  lemma SizeRunStep(p: Parser, rest: seq<byte>)
    requires rest != [] && At(p, rest) && p.phase == ChunkHeader
    ensures 0 < p.index < |p.buf| && p.buf[p.index] == rest[0] && p.buf[p.index + 1..] == rest[1..]
    ensures Ok(SizeByte(p)) && Run(p) == Run(SizeByte(p))
  {
    Peek(p.buf, p.index, rest);
    RunStep(p);
  }

  /** Hex digits accumulate to their value. */
  lemma {:induction false} ScanDigits(p: Parser, ds: seq<byte>, rest: seq<byte>)
    requires At(p, ds + rest) && p.phase == ChunkHeader && !p.sizeDone
    requires forall i :: 0 <= i < |ds| ==> IsHex(ds[i])
    requires HexValue(ds, p.chunkSize) < SIZE_MOD
    ensures var q := p.(index := p.index + |ds|, chunkSize := HexValue(ds, p.chunkSize),
                        sizeStart := p.sizeStart || ds != []);
      At(q, rest) && Run(p) == Run(q)
    decreases |ds|
  {
    hide Run, Ok, SizeEnd;
    if ds == [] {
      assert ds + rest == rest;
    } else {
      SizeRunStep(p, ds + rest);
      assert (ds + rest)[1..] == ds[1..] + rest;
      HexGrows(ds[1..], p.chunkSize * 16 + HexDigit(ds[0]));
      var q := SizeByte(p);
      assert q == p.(index := p.index + 1, chunkSize := p.chunkSize * 16 + HexDigit(ds[0]), sizeStart := true);
      ScanDigits(q, ds[1..], rest);
    }
  }

  lemma {:induction false} HexGrows(ds: seq<byte>, acc: nat)
    requires forall i :: 0 <= i < |ds| ==> IsHex(ds[i])
    ensures HexValue(ds, acc) >= acc
    decreases |ds|
  {
    if ds != [] {
      HexGrows(ds[1..], acc * 16 + HexDigit(ds[0]));
    }
  }

  /** The rest of a size line is skipped. */
  lemma {:induction false} ScanExt(p: Parser, text: seq<byte>, rest: seq<byte>)
    requires At(p, text + rest) && p.phase == ChunkHeader && LF !in text
    requires p.sizeDone || (p.sizeStart && text != [] && !IsHex(text[0]))
    ensures var q := p.(index := p.index + |text|, sizeDone := true); At(q, rest) && Run(p) == Run(q)
    decreases |text|
  {
    hide Run, Ok, SizeEnd;
    if text == [] {
      assert text + rest == rest;
      assert p.(index := p.index + |text|, sizeDone := true) == p;
    } else {
      SizeRunStep(p, text + rest);
      assert (text + rest)[1..] == text[1..] + rest;
      var q := SizeByte(p);
      assert q == p.(index := p.index + 1, sizeDone := true);
      ScanExt(q, text[1..], rest);
    }
  }

  /** The parser at the LF of a size line. */
  function AtSizeEnd(p: Parser, c: Chunk): Parser {
    p.(index := p.index + |c.digits| + |c.ext| + 1, chunkSize := |c.data|, sizeStart := true, sizeDone := true)
  }

  lemma ScanSize(p: Parser, c: Chunk, rest: seq<byte>)
    requires At(p, EncodeSize(c) + rest) && p.phase == ChunkHeader && p.chunkSize == 0 && !p.sizeDone
    requires SizeValid(c)
    ensures var e := AtSizeEnd(p, c);
      && At(e, [LF] + rest) && 0 < e.index < |e.buf| && Run(p) == Run(e)
      && e.buf[e.index] == LF && e.buf[e.index - 1] == CR && e.buf[e.index + 1..] == rest
  {
    hide Run, Ok;
    assert EncodeSize(c) + rest == c.digits + (c.ext + [CR] + ([LF] + rest));
    ScanDigits(p, c.digits, c.ext + [CR] + ([LF] + rest));
    var m := p.(index := p.index + |c.digits|, chunkSize := |c.data|, sizeStart := true);
    ScanExt(m, c.ext + [CR], [LF] + rest);
    var e := AtSizeEnd(p, c);
    SizeRunStep(e, [LF] + rest);
    SizePieces(p.buf, p.index, c, rest);
  }

  lemma SizePieces(buf: seq<byte>, i: nat, c: Chunk, rest: seq<byte>)
    requires i <= |buf| && buf[i..] == EncodeSize(c) + rest
    ensures i + |c.digits| + |c.ext| + 2 <= |buf| && buf[i + |c.digits| + |c.ext|] == CR
  {
    var k := |c.digits| + |c.ext|;
    assert (EncodeSize(c) + rest)[k] == CR;
    assert buf[i..][k] == buf[i + k];
  }

  /** Overwriting bytes at and behind the position changes nothing recorded. */
  lemma HoldsFrame(p: Parser, q: Parser, rec: Record)
    requires Holds(p, rec) && (InLine(p) <==> InLine(q))
    requires q.flags == p.flags && q.lines == p.lines && q.chunks == p.chunks
    requires p.index <= q.index <= |q.buf| && q.buf[..p.index] == p.buf[..p.index]
    ensures Holds(q, rec)
  {
    RangeTextsFrame(p.buf, q.buf, p.chunks, p.index);
    LineTextsFrame(p.buf, q.buf, ClosedLines(p), p.index);
  }

  lemma SizeEndHolds(p: Parser, c: Chunk, rec: Record)
    requires Chunking(p, rec) && AtSizeEnd(p, c).index < |p.buf|
    ensures var q := SizeEnd(AtSizeEnd(p, c));
      && Holds(q, rec) && q.index == p.index + |c.digits| + |c.ext| + 2
      && (c.data != [] ==> q.phase == ChunkBody && q.chunkSize == |c.data| && q.lines == p.lines)
      && (c.data == [] ==> q.phase == ChunkFooter && q.lines == p.lines + [Open(q.index)])
  {
    var e := AtSizeEnd(p, c);
    var q := SizeEnd(e);
    HoldsFrame(p, p.(buf := q.buf, index := q.index), rec);
    assert ClosedLines(q) == p.lines;
  }

  lemma SizeEndFields(p: Parser)
    requires 0 < p.index < |p.buf|
    ensures SizeEnd(p).buf == p.buf[p.index - 1 := NUL][p.index := NUL]
    ensures SizeEnd(p).index == p.index + 1 && SizeEnd(p).chunks == p.chunks
  {
  }

  /** A whole size line: a chunk follows, or the trailer when the size is zero. */
  lemma ScanSizeLine(p: Parser, c: Chunk, rec: Record, rest: seq<byte>) returns (q: Parser)
    requires At(p, EncodeSize(c) + rest) && Chunking(p, rec) && SizeValid(c)
    ensures At(q, rest) && Holds(q, rec) && Run(p) == Run(q)
    ensures c.data != [] ==> q.phase == ChunkBody && q.chunkSize == |c.data| && q.lines == p.lines
    ensures c.data == [] ==> q.phase == ChunkFooter && q.lines == p.lines + [Open(q.index)]
  {
    hide Run, Ok, SizeEnd;
    ScanSize(p, c, rest);
    var e := AtSizeEnd(p, c);
    SizeRunStep(e, [LF] + rest);
    q := SizeEnd(e);
    SizeEndHolds(p, c, rec);
    SizeEndFields(e);
    NulBehind(e.buf, e.index, rest);
  }

  lemma ChunkRunStep(p: Parser)
    requires Ok(p) && p.phase == ChunkBody && p.chunkSize + 2 < SIZE_MOD && p.index + p.chunkSize + 2 <= |p.buf|
    ensures Ok(ChunkStep(p)) && Run(p) == Run(ChunkStep(p))
  {
    RunStep(p);
  }

  lemma ChunkHolds(p: Parser, data: seq<byte>, rec: Record)
    requires Holds(p, rec) && p.phase == ChunkBody && p.chunkSize == |data| && |data| + 2 < SIZE_MOD
    requires p.index + |data| + 2 <= |p.buf| && p.buf[p.index..p.index + |data|] == data
    ensures Chunking(ChunkStep(p), rec.(chunks := rec.chunks + [data]))
  {
    RangeTextsSnoc(p.buf, p.chunks, Range(p.index, |data|));
    assert ClosedLines(ChunkStep(p)) == ClosedLines(p);
  }

  /** The chunk itself, with the CR LF behind it. */
  lemma TakeChunk(p: Parser, data: seq<byte>, rec: Record, rest: seq<byte>)
    requires At(p, data + CRLF + rest) && Holds(p, rec)
    requires p.phase == ChunkBody && p.chunkSize == |data| && |data| + 2 < SIZE_MOD
    ensures var r := ChunkStep(p);
      At(r, rest) && Chunking(r, rec.(chunks := rec.chunks + [data])) && Run(p) == Run(r)
  {
    hide Run, Ok, Chunking;
    LinePieces(p.buf, p.index, data, rest);
    ChunkRunStep(p);
    ChunkHolds(p, data, rec);
  }

  /** A list of chunks, each with its size line. */
  lemma {:induction false} ScanChunks(p: Parser, cs: seq<Chunk>, rec: Record, rest: seq<byte>) returns (q: Parser)
    requires At(p, EncodeChunks(cs) + rest) && Chunking(p, rec)
    requires forall i :: 0 <= i < |cs| ==> SizeValid(cs[i]) && cs[i].data != []
    ensures At(q, rest) && Chunking(q, rec.(chunks := rec.chunks + ChunkData(cs))) && Run(p) == Run(q)
    decreases |cs|
  {
    hide Run, Ok, Chunking, Holds, ChunkStep, SizeValid;
    if cs == [] {
      assert EncodeChunks(cs) + rest == rest;
      assert rec.chunks + ChunkData(cs) == rec.chunks;
      q := p;
    } else {
      var c, more := cs[0], EncodeChunks(cs[1..]) + rest;
      Assoc(EncodeSize(c) + (c.data + CRLF), EncodeChunks(cs[1..]), rest);
      Assoc(EncodeSize(c), c.data + CRLF, more);
      var m := ScanSizeLine(p, c, rec, c.data + CRLF + more);
      SizeBound(c);
      TakeChunk(m, c.data, rec, more);
      q := ScanChunks(ChunkStep(m), cs[1..], rec.(chunks := rec.chunks + [c.data]), rest);
      assert rec.chunks + ChunkData(cs) == rec.chunks + [c.data] + ChunkData(cs[1..]);
    }
  }

  lemma SizeBound(c: Chunk)
    requires SizeValid(c)
    ensures |c.data| + 2 < SIZE_MOD
  {
  }

  /** A finished parser that holds exactly the message and has not consumed `rest`. */
  predicate Delivered(p: Parser, m: Message, rest: seq<byte>) {
    && p.phase == Done && At(p, rest)
    && p.flags == FlagsOf(m.lines)
    && LineTexts(p.buf, p.lines) == m.lines + Trailers(m.body)
    && RangesWithin(p.chunks, p.index) && RangeTexts(p.buf, p.chunks) == Payload(m.body)
  }

  lemma ScanTrailer(p: Parser, rec: Record, trailers: seq<seq<byte>>, rest: seq<byte>) returns (r: Parser)
    requires At(p, EncodeLines(trailers) + (CRLF + rest)) && Holds(p, rec) && LinesValid(trailers)
    requires p.phase == ChunkFooter && LastLine(p) == Open(p.index)
    ensures At(r, rest) && r.phase == Done && r.flags == rec.flags && Run(p) == Run(r)
    ensures LineTexts(r.buf, r.lines) == rec.lines + trailers
    ensures RangesWithin(r.chunks, r.index) && RangeTexts(r.buf, r.chunks) == rec.chunks
  {
    hide Run, Ok, EndLines, LineTexts, RangeTexts, NextLine;
    var t := ScanLines(p, rec.lines, trailers, CRLF + rest);
    OkClosed(t);
    ScanBlank(t, rec.lines + trailers, rest);
    var t' := t.(index := t.index + 1);
    r := EndLines(t');
    EndTrailerFields(t');
    TakeTake(r.buf, t.buf, p.index, t.index);
    RangeTextsFrame(p.buf, r.buf, p.chunks, p.index);
  }

  lemma EndTrailerFields(p: Parser)
    requires AtLineEnd(p) && p.phase == ChunkFooter && LastLine(p).start == p.index - 1
    ensures EndLines(p).phase == Done && EndLines(p).flags == p.flags
  {
    CloseLineOk(p);
  }

  lemma ScanChunkedBody(p: Parser, ls: seq<seq<byte>>, b: Body, rest: seq<byte>) returns (r: Parser)
    requires BehindHeader(p, ls, EncodeBody(b) + rest) && b.Chunked? && BodyValid(FlagsOf(ls), b)
    ensures Delivered(r, Message(ls, b), rest) && Run(p) == Run(r)
  {
    hide Run, Ok, SizeValid, Holds, LineTexts, RangeTexts, FlagsOf;
    var rec := Record(p.flags, ls, []);
    assert Chunking(p, rec) by {
      BehindIsChunking(p, ls, EncodeBody(b) + rest);
    }
    var tail := EncodeLines(b.trailers) + (CRLF + rest);
    ChunkedEncoding(b, rest);
    var q := ScanChunks(p, b.chunks, rec, EncodeSize(b.last) + tail);
    assert [] + ChunkData(b.chunks) == ChunkData(b.chunks);
    var rec' := Record(p.flags, ls, ChunkData(b.chunks));
    var t := ScanSizeLine(q, b.last, rec', tail);
    r := ScanTrailer(t, rec', b.trailers, rest);
  }

  lemma ChunkedEncoding(b: Body, rest: seq<byte>)
    requires b.Chunked?
    ensures EncodeBody(b) + rest
         == EncodeChunks(b.chunks) + (EncodeSize(b.last) + (EncodeLines(b.trailers) + (CRLF + rest)))
  {
    Assoc(EncodeChunks(b.chunks), EncodeSize(b.last) + (EncodeLines(b.trailers) + CRLF), rest);
    Assoc(EncodeSize(b.last), EncodeLines(b.trailers) + CRLF, rest);
    Assoc(EncodeLines(b.trailers), CRLF, rest);
  }

  lemma BehindIsChunking(p: Parser, ls: seq<seq<byte>>, rest: seq<byte>)
    requires BehindHeader(p, ls, rest) && p.phase == ChunkHeader
    ensures Chunking(p, Record(p.flags, ls, []))
  {
  }

  lemma BodyStepTexts(p: Parser, data: seq<byte>)
    requires p.chunks == [] && p.flags.contentLength == |data|
    requires p.index + |data| <= |p.buf| && p.buf[p.index..p.index + |data|] == data
    ensures RangeTexts(BodyStep(p).buf, BodyStep(p).chunks) == [data]
  {
    RangeTextsSnoc(p.buf, [], Range(p.index, |data|));
    assert [] + [data] == [data];
  }

  lemma BodyRunStep(p: Parser)
    requires Ok(p) && p.phase == ReadBody && 0 < p.flags.contentLength && p.index + p.flags.contentLength <= |p.buf|
    ensures Ok(BodyStep(p)) && Run(p) == Run(BodyStep(p))
  {
    RunStep(p);
  }

  lemma TakeBody(p: Parser, ls: seq<seq<byte>>, b: Body, rest: seq<byte>)
    requires BehindHeader(p, ls, EncodeBody(b) + rest) && b.Fixed? && BodyValid(FlagsOf(ls), b)
    ensures Delivered(BodyStep(p), Message(ls, b), rest) && Run(p) == Run(BodyStep(p))
  {
    hide Run, Ok, LineTexts, RangeTexts, FlagsOf;
    OkIndex(p);
    BodyPieces(p.buf, p.index, b.data, rest);
    BodyRunStep(p);
    BodyStepTexts(p, b.data);
    assert ls + [] == ls;
  }

  lemma BodyPieces(buf: seq<byte>, i: nat, data: seq<byte>, rest: seq<byte>)
    requires i <= |buf| && buf[i..] == data + rest
    ensures i + |data| <= |buf| && buf[i..i + |data|] == data && buf[i + |data|..] == rest
  {
    assert buf[i..][..|data|] == buf[i..i + |data|];
    assert buf[i..][|data|..] == buf[i + |data|..];
  }

  /** Whatever valid message the peer encodes - any header lines, and no body, a body of the announced length, or
      chunks with sizes in either letter case, extensions and trailers - the framer finishes with exactly its lines,
      its flags and its pieces of content, and leaves the bytes behind it alone. */
  lemma MessageRoundTrip(m: Message, rest: seq<byte>)
    requires Valid(m)
    ensures Ok(Fresh(Encode(m) + rest)) && Delivered(Run(Fresh(Encode(m) + rest)), m, rest)
    ensures Run(Fresh(Encode(m) + rest)).index == |Encode(m)|
  {
    hide Ok, Run, Enabled, LineTexts, RangeTexts, FlagsOf;
    Assoc(EncodeHeader(m.lines), EncodeBody(m.body), rest);
    var p := HeaderRun(m.lines, EncodeBody(m.body) + rest);
    var r := p;
    match m.body {
      case NoBody =>
        assert [] + rest == rest;
        assert m.lines + [] == m.lines;
        EmptyRangeTexts(p.buf);
      case Fixed(_) =>
        TakeBody(p, m.lines, m.body, rest);
        r := BodyStep(p);
      case Chunked(_, _, _) =>
        r := ScanChunkedBody(p, m.lines, m.body, rest);
    }
    RunDone(r);
  }

  lemma RunDone(p: Parser)
    requires Ok(p) && p.phase == Done
    ensures Run(p) == p && p.index <= |p.buf|
  {
  }

  lemma OkIndex(p: Parser)
    requires Ok(p)
    ensures p.index <= |p.buf|
  {
  }

  lemma EmptyRangeTexts(buf: seq<byte>)
    ensures RangeTexts(buf, []) == []
  {
  }
}
