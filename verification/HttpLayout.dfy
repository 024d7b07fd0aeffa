/** Where the framer's recorded ranges lie and which bytes it overwrites. */
module HttpLayout {
  import opened Bytes
  import opened HttpParser

  /** Byte `k` belongs to a CR LF pair that lies before `bound`. */
  predicate InPair(orig: seq<byte>, k: nat, bound: nat)
    requires k < |orig|
  {
    || (orig[k] == CR && k + 1 < bound && k + 1 < |orig| && orig[k + 1] == LF)
    || (orig[k] == LF && 0 < k < bound && orig[k - 1] == CR)
  }

  /** The parser has only written NULs, and only over CR LF pairs before `bound`. */
  predicate Clean(buf: seq<byte>, orig: seq<byte>, bound: nat) {
    && |buf| == |orig|
    && forall k :: 0 <= k < |buf| ==> buf[k] == orig[k] || (buf[k] == NUL && InPair(orig, k, bound))
  }

  predicate Untouched(buf: seq<byte>, orig: seq<byte>, chunks: seq<Range>) {
    && |buf| == |orig|
    && forall c, k :: c in chunks && c.start <= k < c.start + c.length && k < |buf| ==> buf[k] == orig[k]
  }

  function LineEnd(l: Line): nat {
    if l.Closed? then l.start + l.length + 2 else l.start
  }

  predicate LinesApart(lines: seq<Line>) {
    forall i, j :: 0 <= i < j < |lines| ==> lines[i].Closed? && LineEnd(lines[i]) <= lines[j].start
  }

  function ChunkEnd(c: Range): nat {
    c.start + c.length
  }

  predicate ChunksApart(chunks: seq<Range>) {
    forall i, j :: 0 <= i < j < |chunks| ==> ChunkEnd(chunks[i]) + 2 <= chunks[j].start
  }

  predicate ChunksWithin(chunks: seq<Range>, bound: int) {
    forall c :: c in chunks ==> ChunkEnd(c) <= bound
  }

  predicate LinesAndChunksApart(lines: seq<Line>, chunks: seq<Range>) {
    forall l, c :: l in lines && c in chunks ==> LineEnd(l) <= c.start || ChunkEnd(c) + 2 <= l.start
  }

  predicate RangesOk(p: Parser)
    requires InLine(p) ==> p.lines != []
  {
    && LinesApart(p.lines)
    && LinesAndChunksApart(ClosedLines(p), p.chunks)
    && (InLine(p) ==> ChunksWithin(p.chunks, LastLine(p).start - 2))
    && (p.phase != Done ==> ChunksWithin(p.chunks, p.index - 2))
  }

  /** The layout of a parser that was given the bytes `orig`. */
  predicate Layout(p: Parser, orig: seq<byte>)
    requires InLine(p) ==> p.lines != []
  {
    && Clean(p.buf, orig, p.index)
    && Untouched(p.buf, orig, p.chunks)
    && ChunksApart(p.chunks)
    && ChunksWithin(p.chunks, p.index)
    && (p.phase != Bad ==> RangesOk(p))
  }

  /** Every chunk size, and the size plus 2, is a `size_t`. */
  predicate SizesFit(chunks: seq<Range>) {
    forall c :: c in chunks ==> c.length + 2 < SIZE_MOD
  }

  lemma CleanGrow(buf: seq<byte>, orig: seq<byte>, bound: nat, bound': nat)
    requires Clean(buf, orig, bound) && bound <= bound'
    ensures Clean(buf, orig, bound')
  {
  }

  lemma CleanNul(buf: seq<byte>, orig: seq<byte>, i: nat)
    requires Clean(buf, orig, i) && 0 < i < |buf| && buf[i] == LF && buf[i - 1] == CR
    ensures Clean(buf[i - 1 := NUL][i := NUL], orig, i + 1)
  {
    assert buf[i] == orig[i] && buf[i - 1] == orig[i - 1];
    assert InPair(orig, i, i + 1) && InPair(orig, i - 1, i + 1);
  }

  lemma UntouchedNul(buf: seq<byte>, orig: seq<byte>, chunks: seq<Range>, i: nat)
    requires Untouched(buf, orig, chunks) && ChunksWithin(chunks, i - 1) && 0 < i < |buf|
    ensures Untouched(buf[i - 1 := NUL][i := NUL], orig, chunks)
  {
  }

  /** Closing the line over its CR LF keeps everything apart. */
  lemma CloseLineLayout(p: Parser, orig: seq<byte>)
    requires AtLineEnd(p) && Layout(p, orig)
    ensures LastLine(p).start < p.index
    ensures var c := CloseLine(p);
      && Clean(c.buf, orig, p.index + 1) && Untouched(c.buf, orig, p.chunks)
      && LinesApart(c.lines) && LinesAndChunksApart(c.lines, p.chunks)
      && ClosedUpTo(c.lines, p.index + 1)
      && c.lines[..|c.lines| - 1] == ClosedLines(p)
  {
    CloseLineOk(p);
    CleanNul(p.buf, orig, p.index);
    UntouchedNul(p.buf, orig, p.chunks, p.index);
    var c := CloseLine(p);
    assert c.lines == ClosedLines(p) + [LastLine(c)];
  }

  lemma NextLineLayout(p: Parser, orig: seq<byte>)
    requires AtLineEnd(p) && LastLine(p).start < p.index - 1 && Layout(p, orig)
    ensures Layout(NextLine(p), orig)
  {
    CloseLineLayout(p, orig);
    assert ClosedLines(NextLine(p)) == CloseLine(p).lines;
  }

  lemma EndLinesLayout(p: Parser, orig: seq<byte>)
    requires AtLineEnd(p) && LastLine(p).start == p.index - 1 && Layout(p, orig)
    ensures Layout(EndLines(p), orig)
  {
    hide DecodeLines;
    CloseLineLayout(p, orig);
    assert EndLines(p).lines == ClosedLines(p);
  }

  lemma LineByteLayout(p: Parser, orig: seq<byte>)
    requires Ok(p) && Enabled(p) && InLine(p) && Layout(p, orig)
    ensures Ok(LineByte(p)) && Layout(LineByte(p), orig)
  {
    hide EndLines, NextLine;
    LineByteOk(p);
    if AtLineEnd(p) {
      CloseLineOk(p);
      if p.index - 1 > LastLine(p).start {
        NextLineLayout(p, orig);
      } else {
        EndLinesLayout(p, orig);
      }
    } else if p.buf[p.index] != LF {
      CleanGrow(p.buf, orig, p.index, p.index + 1);
      assert ClosedLines(LineByte(p)) == ClosedLines(p);
    }
  }

  lemma SizeEndLayout(p: Parser, orig: seq<byte>)
    requires Ok(p) && p.phase == ChunkHeader && Layout(p, orig)
    requires 0 < p.index < |p.buf| && p.buf[p.index] == LF && p.buf[p.index - 1] == CR
    ensures Layout(SizeEnd(p), orig)
  {
    CleanNul(p.buf, orig, p.index);
    UntouchedNul(p.buf, orig, p.chunks, p.index);
    var q := SizeEnd(p);
    assert ClosedLines(q) == p.lines;
  }

  lemma SizeByteLayout(p: Parser, orig: seq<byte>)
    requires Ok(p) && Enabled(p) && p.phase == ChunkHeader && Layout(p, orig)
    ensures Ok(SizeByte(p)) && Layout(SizeByte(p), orig)
  {
    hide SizeEnd;
    SizeByteOk(p);
    if p.buf[p.index] != LF {
      CleanGrow(p.buf, orig, p.index, p.index + 1);
      assert ClosedLines(SizeByte(p)) == ClosedLines(p);
    } else if p.buf[p.index - 1] == CR {
      SizeEndLayout(p, orig);
    }
  }

  lemma NewChunkLayout(p: Parser, orig: seq<byte>, n: nat, skip: nat)
    requires Ok(p) && Layout(p, orig) && (p.phase == ReadBody || p.phase == ChunkBody)
    requires n <= skip <= |p.buf| - p.index
    ensures var chunks := p.chunks + [Range(p.index, n)];
      && Clean(p.buf, orig, p.index + skip)
      && Untouched(p.buf, orig, chunks) && ChunksApart(chunks) && ChunksWithin(chunks, p.index + n)
      && LinesAndChunksApart(p.lines, chunks)
  {
    CleanGrow(p.buf, orig, p.index, p.index + skip);
    assert forall k :: p.index <= k < |p.buf| ==> p.buf[k] == orig[k];
  }

  lemma BodyStepLayout(p: Parser, orig: seq<byte>)
    requires Ok(p) && Enabled(p) && p.phase == ReadBody && Layout(p, orig)
    ensures Layout(BodyStep(p), orig)
  {
    NewChunkLayout(p, orig, p.flags.contentLength, p.flags.contentLength);
  }

  lemma ChunkStepLayout(p: Parser, orig: seq<byte>)
    requires Ok(p) && Enabled(p) && p.phase == ChunkBody && Layout(p, orig)
    requires p.chunkSize + 2 < SIZE_MOD
    ensures Layout(ChunkStep(p), orig)
  {
    NewChunkLayout(p, orig, p.chunkSize, p.chunkSize + 2);
  }

  lemma Start1Layout(p: Parser, orig: seq<byte>)
    requires Ok(p) && Enabled(p) && p.phase == Start && Layout(p, orig)
    ensures Ok(Start1(p)) && Layout(Start1(p), orig)
  {
    StepOk(p);
    assert Start1(p).phase != Bad ==> ClosedLines(Start1(p)) == [];
  }

  lemma StepLayout(p: Parser, orig: seq<byte>)
    requires Ok(p) && Enabled(p) && Layout(p, orig)
    requires p.phase == ChunkBody ==> p.chunkSize + 2 < SIZE_MOD
    ensures Ok(Step(p)) && Layout(Step(p), orig)
  {
    hide LineByte, SizeByte, ChunkStep, BodyStep, Start1, Layout;
    StepOk(p);
    match p.phase
    case ReadHeader => LineByteLayout(p, orig);
    case ChunkFooter => LineByteLayout(p, orig);
    case ChunkHeader => SizeByteLayout(p, orig);
    case ReadBody => BodyStepLayout(p, orig);
    case ChunkBody => ChunkStepLayout(p, orig);
    case Start => Start1Layout(p, orig);
    case _ =>
  }

  lemma LineByteKeepsChunks(p: Parser)
    requires Ok(p) && Enabled(p) && InLine(p)
    ensures LineByte(p).chunks == p.chunks
  {
    hide DecodeLines;
  }

  lemma SizeByteKeepsChunks(p: Parser)
    requires 0 < p.index < |p.buf|
    ensures SizeByte(p).chunks == p.chunks
  {
  }

  lemma StepKeepsChunks(p: Parser)
    requires Ok(p) && Enabled(p)
    ensures p.chunks <= Step(p).chunks
    ensures p.phase == ChunkBody ==> Range(p.index, p.chunkSize) in Step(p).chunks
  {
    hide LineByte, SizeByte;
    if InLine(p) {
      LineByteKeepsChunks(p);
    } else if p.phase == ChunkHeader {
      SizeByteKeepsChunks(p);
    }
  }

  lemma {:induction false} RunKeepsChunks(p: Parser)
    requires Ok(p)
    ensures p.chunks <= Run(p).chunks
    decreases |p.buf| - p.index, Rank(p.phase)
  {
    if Enabled(p) {
      StepOk(p);
      StepKeepsChunks(p);
      RunKeepsChunks(Step(p));
    }
  }

  lemma {:induction false} RunLayout(p: Parser, orig: seq<byte>)
    requires Ok(p) && Layout(p, orig) && SizesFit(Run(p).chunks)
    ensures Layout(Run(p), orig)
    decreases |p.buf| - p.index, Rank(p.phase)
  {
    if Enabled(p) {
      StepOk(p);
      StepKeepsChunks(p);
      RunKeepsChunks(Step(p));
      StepLayout(p, orig);
      RunLayout(Step(p), orig);
    }
  }

  /** The layout holds as long as the recorded lengths fit. */
  lemma LayoutByLengths(stream: seq<byte>)
    requires |stream| < SIZE_MOD - 2
    ensures Layout(Run(Fresh(stream)), stream) <==> SizesFit(Run(Fresh(stream)).chunks)
  {
    if SizesFit(Run(Fresh(stream)).chunks) {
      RunLayout(Fresh(stream), stream);
    }
  }
}
