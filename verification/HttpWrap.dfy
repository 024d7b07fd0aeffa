/** A chunk size that does not fit: the concrete message on which the layout of the framer breaks. */
module HttpWraps {
  import opened Bytes
  import opened HttpHeader
  import opened HttpParser
  import opened HttpFraming
  import L = HttpLayout
  import F = HttpFields
  import opened HttpDigits

  const FF: byte := 70

  lemma FourMore(ds: seq<byte>, last: byte) returns (r: seq<byte>)
    requires AllHex(ds) && IsHex(last)
    ensures AllHex(r) && |r| == |ds| + 4 && HexValue(r, 0) == HexValue(ds, 0) * 0x1_0000 + 0xFFF0 + HexDigit(last)
  {
    hide HexValue;
    ValueSnoc(ds, FF, 0);
    ValueSnoc(ds + [FF], FF, 0);
    ValueSnoc(ds + [FF] + [FF], FF, 0);
    r := ds + [FF] + [FF] + [FF] + [last];
    ValueSnoc(ds + [FF] + [FF] + [FF], last, 0);
  }

  /** FFFFFFFFFFFFFFFE. */
  lemma HugeDigits() returns (ds: seq<byte>)
    ensures AllHex(ds) && |ds| == 16 && HexValue(ds, 0) == SIZE_MOD - 2
  {
    assert HexValue([], 0) == 0;
    hide HexValue;
    ds := FourMore([], FF);
    ds := FourMore(ds, FF);
    ds := FourMore(ds, FF);
    ds := FourMore(ds, 69);
  }

  lemma OneLine(line: seq<byte>)
    requires line != [] && LF !in line
    ensures LinesValid([line]) && |EncodeHeader([line])| == |line| + 4
  {
    assert EncodeLines([line][1..]) == [];
  }

  lemma PlainFieldLine()
    ensures var line := F.FieldLine([], TRANSFER_ENCODING, [], [], CHUNKED, []);
      line == TRANSFER_ENCODING + [COLON] + CHUNKED && |line| == 25 && LF !in line
  {
    assert LF !in TRANSFER_ENCODING && LF !in CHUNKED;
  }

  lemma ChunkedHeader() returns (ls: seq<seq<byte>>)
    ensures LinesValid(ls) && FlagsOf(ls).chunked && |EncodeHeader(ls)| < 40
  {
    hide FlagsOf, F.FieldLine, LinesValid, EncodeHeader;
    var line := F.FieldLine([], TRANSFER_ENCODING, [], [], CHUNKED, []);
    ls := [line];
    PlainFieldLine();
    OneLine(line);
    F.TransferEncodingSelects([], [], TRANSFER_ENCODING, [], [], CHUNKED, []);
    assert [] + ls == ls;
  }

  /** A parser in the chunk body whose size plus 2 wraps to 0 records a chunk that is not there. */
  lemma WrappedChunk(p: Parser)
    requires Ok(p) && p.phase == ChunkBody && p.index < |p.buf| && p.chunkSize == SIZE_MOD - 2
    ensures !L.SizesFit(Run(p).chunks)
  {
    RunStep(p);
    L.StepKeepsChunks(p);
    L.RunKeepsChunks(Step(p));
    assert Range(p.index, p.chunkSize) in Run(p).chunks;
  }

  lemma SizeEndAt(p: Parser, rest: seq<byte>)
    requires At(p, CRLF + rest) && p.phase == ChunkHeader && p.sizeStart && p.chunkSize > 0
    ensures var q := SizeByte(p.(index := p.index + 1, sizeDone := true));
      0 < p.index + 1 < |p.buf| && Ok(q) && Run(p) == Run(q) && q.phase == ChunkBody && q.chunkSize == p.chunkSize
      && |q.buf| == |p.buf| && q.index == p.index + 2
  {
    hide Run, Ok;
    assert CRLF + rest == [CR] + ([LF] + rest);
    ScanExt(p, [CR], [LF] + rest);
    var e := p.(index := p.index + 1, sizeDone := true);
    SizeRunStep(e, [LF] + rest);
    assert p.buf[p.index..][0] == CR;
  }

  /** The layout does not hold of every stream: on a message of less than 60 bytes with the chunk size FFFFFFFFFFFFFFFE
      the framer records a chunk that reaches far behind the received bytes. */
  lemma HugeChunkBreaksLayout() returns (stream: seq<byte>)
    ensures |stream| < 60 && !L.SizesFit(Run(Fresh(stream)).chunks)
    ensures !L.Layout(Run(Fresh(stream)), stream)
  {
    hide Run, Ok, HexValue, FlagsOf;
    var ls := ChunkedHeader();
    var ds := HugeDigits();
    var rest := ds + (CRLF + [LF]);
    stream := EncodeHeader(ls) + rest;
    var p := HeaderRun(ls, rest);
    OkIndex(p);
    ScanDigits(p, ds, CRLF + [LF]);
    var q := p.(index := p.index + |ds|, chunkSize := HexValue(ds, p.chunkSize), sizeStart := true);
    SizeEndAt(q, [LF]);
    var r := SizeByte(q.(index := q.index + 1, sizeDone := true));
    assert |p.buf| == p.index + |rest|;
    WrappedChunk(r);
    L.LayoutByLengths(stream);
  }
}
