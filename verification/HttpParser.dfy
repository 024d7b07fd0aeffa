/** The HTTP framer of ChttpContext as a pure machine over the received bytes.

    One `Step` is one iteration of a scanning loop (one byte) or one `goto _again`; `Run` is a whole call of
    `analysis` on a context that has not overflowed. `buf` is the receive buffer up to the received length, with
    the NULs the parser has written into it. */
module HttpParser {
  import opened Bytes
  import opened HttpHeader

  datatype Phase = Uninit | Start | ReadHeader | ReadBody | ChunkHeader | ChunkBody | ChunkFooter | Done | Bad

  /** A line whose length is still (size_t)-1 is open. */
  datatype Line = Open(start: nat) | Closed(start: nat, length: nat)

  datatype Range = Range(start: nat, length: nat)

  datatype Parser = Parser(
    buf: seq<byte>,
    phase: Phase,
    index: nat,
    lines: seq<Line>,
    headerSize: nat,
    flags: Flags,
    chunkSize: nat,
    sizeStart: bool,
    sizeDone: bool,
    chunks: seq<Range>)

  /** A context that was initialised with some received bytes and has looked at none of them. */
  function Fresh(buf: seq<byte>): Parser {
    Parser(buf, Start, 0, [], 0, DEFAULT_FLAGS, 0, false, false, [])
  }

  function LastLine(p: Parser): Line
    requires p.lines != []
  {
    p.lines[|p.lines| - 1]
  }

  /** The phases that write into the last line, which is then open. */
  predicate InLine(p: Parser) {
    p.phase == ReadHeader || p.phase == ChunkFooter
  }

  predicate Finished(p: Parser) {
    p.phase == Done || p.phase == Bad
  }

  /** The open line starts at or before the scan position; when it starts there, the byte before is a NUL the
      parser wrote, so an LF there is never taken for the end of an empty line. */
  predicate OpenLineOk(p: Parser) {
    && p.lines != []
    && LastLine(p).Open?
    && LastLine(p).start <= p.index <= |p.buf|
    && (LastLine(p).start == p.index > 0 ==> p.buf[p.index - 1] == NUL)
  }

  predicate ClosedUpTo(lines: seq<Line>, bound: nat) {
    forall i :: 0 <= i < |lines| ==> lines[i].Closed? && lines[i].start + lines[i].length + 2 <= bound
  }

  /** The lines that are closed: all of them, or all but the last while a line is being read. */
  function ClosedLines(p: Parser): seq<Line>
    requires InLine(p) ==> p.lines != []
  {
    if InLine(p) then p.lines[..|p.lines| - 1] else p.lines
  }

  /** What every reachable parser satisfies once it is initialised. */
  predicate Ok(p: Parser) {
    && p.phase != Uninit
    && p.index <= |p.buf|
    && p.chunkSize < SIZE_MOD
    && (p.phase == Start ==> p.index == 0 && p.lines == [])
    && (InLine(p) ==> OpenLineOk(p))
    && (p.phase == ReadHeader && p.index == 0 ==> p.buf != [] && p.buf[0] != LF)
    && (p.phase != Start && p.phase != ReadHeader && p.phase != Bad ==> p.index > 0)
    && (p.phase != Bad ==> ClosedUpTo(ClosedLines(p), p.index))
  }

  /** The number of bytes a chunk body waits for: `m_nowChunkSize + 2` in `size_t` arithmetic. */
  function ChunkNeed(p: Parser): nat {
    (p.chunkSize + 2) % SIZE_MOD
  }

  /** The loop has something to do. */
  predicate Enabled(p: Parser) {
    && p.phase != Uninit && !Finished(p)
    && p.index < |p.buf|
    && (p.phase == ReadBody ==> |p.buf| - p.index >= p.flags.contentLength)
    && (p.phase == ChunkBody ==> |p.buf| - p.index >= ChunkNeed(p))
  }

  function Start1(p: Parser): Parser
    requires p.buf != []
  {
    if p.index != 0 || p.buf[0] == LF then p.(phase := Bad)
    else p.(phase := ReadHeader, lines := p.lines + [Open(0)])
  }

  /** Overwrites the CR LF that ends at `index` and closes the open line. */
  function CloseLine(p: Parser): Parser
    requires p.lines != [] && 0 < p.index < |p.buf| && LastLine(p).start < p.index
  {
    var last := LastLine(p);
    p.(buf := p.buf[p.index - 1 := NUL][p.index := NUL],
      lines := p.lines[..|p.lines| - 1] + [Closed(last.start, p.index - 1 - last.start)])
  }

  function DropLastLine(p: Parser): Parser
    requires p.lines != []
  {
    p.(lines := p.lines[..|p.lines| - 1])
  }

  /** The phase that the flags of a complete header select. */
  function Select(p: Parser, flags: Flags): Parser {
    if flags.chunked then
      p.(flags := flags, phase := ChunkHeader, chunkSize := 0, sizeStart := false, sizeDone := false)
    else
      p.(flags := flags, phase := if flags.contentLength > 0 then ReadBody else Done)
  }

  /** decoderHeaderAndUpdateState: flags from the header lines, then the phase they select. */
  function EnterBody(p: Parser): Parser {
    Select(p, DecodeLines(p.buf, p.lines, p.headerSize, p.flags))
  }

  /** The bytes of a closed line; a range outside the buffer, which a reachable parser never has, reads as empty. */
  function LineText(buf: seq<byte>, line: Line): seq<byte> {
    if line.Closed? && line.start + line.length <= |buf| then buf[line.start..line.start + line.length] else []
  }

  function DecodeLines(buf: seq<byte>, lines: seq<Line>, headerSize: nat, flags: Flags): Flags {
    if lines == [] || lines[0].start > headerSize then flags
    else
      var flags' := if lines[0].Open? then flags else ApplyField(flags, DecodeField(LineText(buf, lines[0])));
      DecodeLines(buf, lines[1..], headerSize, flags')
  }

  /** A CR LF ends at `index` in the phase that reads header or trailer lines. */
  predicate AtLineEnd(p: Parser) {
    && Ok(p) && Enabled(p) && InLine(p)
    && p.buf[p.index] == LF && p.buf[p.index - 1] == CR
  }

  /** The line that ended was not empty: open the next one. */
  function NextLine(p: Parser): Parser
    requires p.lines != [] && 0 < p.index < |p.buf| && LastLine(p).start < p.index
  {
    var c := CloseLine(p);
    c.(index := p.index + 1, lines := c.lines + [Open(p.index + 1)])
  }

  /** The line that ended was empty: the header or the trailer is complete. */
  function EndLines(p: Parser): Parser
    requires p.lines != [] && 0 < p.index < |p.buf| && LastLine(p).start < p.index
  {
    var d := DropLastLine(CloseLine(p)).(index := p.index + 1);
    if p.phase == ReadHeader then EnterBody(d.(headerSize := p.index + 1)) else d.(phase := Done)
  }

  /** One byte of the header or of the trailer. */
  function LineByte(p: Parser): Parser
    requires Ok(p) && Enabled(p) && InLine(p)
  {
    if p.buf[p.index] != LF then p.(index := p.index + 1)
    else if p.buf[p.index - 1] != CR then p.(phase := Bad)
    else if p.index - 1 > LastLine(p).start then NextLine(p)
    else EndLines(p)
  }

  function BodyStep(p: Parser): Parser {
    p.(chunks := p.chunks + [Range(p.index, p.flags.contentLength)],
      index := p.index + p.flags.contentLength, phase := Done)
  }

  predicate IsHex(b: byte) {
    48 <= b <= 57 || 97 <= b <= 102 || 65 <= b <= 70
  }

  function HexDigit(b: byte): nat
    requires IsHex(b)
  {
    if b <= 57 then b - 48 else if b >= 97 then b - 87 else b - 55
  }

  /** The chunk-size line ends at `index`: a chunk follows, or the trailer when the size is zero. */
  function SizeEnd(p: Parser): Parser
    requires 0 < p.index < |p.buf|
  {
    var q := p.(buf := p.buf[p.index - 1 := NUL][p.index := NUL], index := p.index + 1);
    if p.chunkSize > 0 then q.(phase := ChunkBody)
    else q.(phase := ChunkFooter, lines := p.lines + [Open(p.index + 1)])
  }

  /** One byte of a chunk-size line. */
  function SizeByte(p: Parser): Parser
    requires 0 < p.index < |p.buf|
  {
    var b := p.buf[p.index];
    if b == LF then
      if p.buf[p.index - 1] != CR then p.(phase := Bad) else SizeEnd(p)
    else if p.sizeDone then p.(index := p.index + 1)
    else if IsHex(b) then
      p.(chunkSize := (p.chunkSize * 16 + HexDigit(b)) % SIZE_MOD, sizeStart := true, index := p.index + 1)
    else p.(sizeDone := p.sizeStart || !IsSpace(b), index := p.index + 1)
  }

  function ChunkStep(p: Parser): Parser {
    p.(chunks := p.chunks + [Range(p.index, p.chunkSize)], index := p.index + ChunkNeed(p),
      phase := ChunkHeader, chunkSize := 0, sizeStart := false, sizeDone := false)
  }

  function Step(p: Parser): Parser
    requires Ok(p) && Enabled(p)
  {
    match p.phase
    case Start => Start1(p)
    case ReadHeader => LineByte(p)
    case ReadBody => BodyStep(p)
    case ChunkHeader => SizeByte(p)
    case ChunkBody => ChunkStep(p)
    case ChunkFooter => LineByte(p)
    case _ => p
  }

  /** Phases that can follow each other without consuming a byte, latest first. */
  function Rank(phase: Phase): nat {
    match phase
    case Done => 0
    case Bad => 0
    case Start => 2
    case ChunkBody => 2
    case _ => 1
  }

  lemma CloseLineOk(p: Parser)
    requires AtLineEnd(p)
    ensures LastLine(p).start < p.index
    ensures ClosedUpTo(CloseLine(p).lines, p.index + 1)
    ensures DropLastLine(CloseLine(p)).lines == ClosedLines(p)
    ensures ClosedUpTo(ClosedLines(p), p.index + 1)
    ensures CloseLine(p).buf[p.index] == NUL
  {
    var c := CloseLine(p);
    assert c.lines == ClosedLines(p) + [LastLine(c)];
  }

  lemma NextLineOk(p: Parser)
    requires AtLineEnd(p) && LastLine(p).start < p.index - 1
    ensures Ok(NextLine(p)) && |NextLine(p).buf| == |p.buf|
  {
    CloseLineOk(p);
    assert ClosedLines(NextLine(p)) == CloseLine(p).lines;
  }

  lemma EndLinesOk(p: Parser)
    requires AtLineEnd(p) && LastLine(p).start == p.index - 1
    ensures Ok(EndLines(p)) && |EndLines(p).buf| == |p.buf| && EndLines(p).index == p.index + 1
  {
    hide DecodeLines;
    CloseLineOk(p);
  }

  lemma LineByteOk(p: Parser)
    requires Ok(p) && Enabled(p) && InLine(p)
    ensures Ok(LineByte(p)) && |LineByte(p).buf| == |p.buf|
    ensures LineByte(p).index > p.index || (LineByte(p).index == p.index && LineByte(p).phase == Bad)
  {
    if AtLineEnd(p) {
      CloseLineOk(p);
      if p.index - 1 > LastLine(p).start {
        NextLineOk(p);
      } else {
        EndLinesOk(p);
      }
    } else {
      assert ClosedLines(LineByte(p)) == ClosedLines(p) || LineByte(p).phase == Bad;
    }
  }

  lemma SizeEndOk(p: Parser)
    requires Ok(p) && p.phase == ChunkHeader && p.index < |p.buf|
    ensures Ok(SizeEnd(p)) && |SizeEnd(p).buf| == |p.buf| && SizeEnd(p).index == p.index + 1
  {
    assert ClosedLines(SizeEnd(p)) == p.lines;
  }

  lemma SizeByteOk(p: Parser)
    requires Ok(p) && Enabled(p) && p.phase == ChunkHeader
    ensures Ok(SizeByte(p)) && |SizeByte(p).buf| == |p.buf|
    ensures SizeByte(p).index > p.index || (SizeByte(p).index == p.index && SizeByte(p).phase == Bad)
  {
    hide SizeEnd;
    SizeEndOk(p);
    assert p.buf[p.index] != LF ==> ClosedLines(SizeByte(p)) == p.lines;
  }

  /** Every step keeps the invariant and moves on in the order (unread bytes, rank). */
  lemma StepOk(p: Parser)
    requires Ok(p) && Enabled(p)
    ensures Ok(Step(p)) && |Step(p).buf| == |p.buf|
    ensures Step(p).index > p.index || (Step(p).index == p.index && Rank(Step(p).phase) < Rank(p.phase))
  {
    hide LineByte, SizeByte, Start1, BodyStep, ChunkStep;
    match p.phase
    case Start => Start1Ok(p);
    case ReadBody => BodyStepOk(p);
    case ChunkHeader => SizeByteOk(p);
    case ChunkBody => ChunkStepOk(p);
    case _ => LineByteOk(p);
  }

  lemma Start1Ok(p: Parser)
    requires Ok(p) && Enabled(p) && p.phase == Start
    ensures Ok(Start1(p)) && Start1(p).buf == p.buf && Start1(p).index == p.index && Rank(Start1(p).phase) < 2
  {
  }

  lemma BodyStepOk(p: Parser)
    requires Ok(p) && Enabled(p) && p.phase == ReadBody
    ensures Ok(BodyStep(p)) && BodyStep(p).buf == p.buf
    ensures BodyStep(p).index >= p.index && BodyStep(p).phase == Done
  {
  }

  lemma ChunkStepOk(p: Parser)
    requires Ok(p) && Enabled(p) && p.phase == ChunkBody
    ensures Ok(ChunkStep(p)) && ChunkStep(p).buf == p.buf
    ensures ChunkStep(p).index >= p.index && ChunkStep(p).phase == ChunkHeader
  {
  }

  /** One whole call of `analysis`. */
  function Run(p: Parser): (r: Parser)
    requires Ok(p)
    ensures Ok(r) && !Enabled(r) && |r.buf| == |p.buf|
    decreases |p.buf| - p.index, Rank(p.phase)
  {
    if Enabled(p) then
      StepOk(p);
      Run(Step(p))
    else p
  }
}
