/** Packet boundaries do not matter to the HTTP framer. */
module HttpBoundary {
  import opened Bytes
  import opened HttpHeader
  import opened HttpParser

  /** Received bytes arrive behind the ones the parser already has. */
  function Append(p: Parser, x: seq<byte>): Parser {
    p.(buf := p.buf + x)
  }

  lemma AppendOk(p: Parser, x: seq<byte>)
    requires Ok(p)
    ensures Ok(Append(p, x))
    ensures Enabled(p) ==> Enabled(Append(p, x))
    ensures Finished(p) ==> !Enabled(Append(p, x))
  {
  }

  lemma AppendAppend(p: Parser, x: seq<byte>, y: seq<byte>)
    ensures Append(Append(p, x), y) == Append(p, x + y)
    ensures Append(p, []) == p
  {
    Assoc(p.buf, x, y);
    assert p.buf + [] == p.buf;
  }

  lemma LineTextAppend(buf: seq<byte>, x: seq<byte>, line: Line)
    requires line.Closed? && line.start + line.length <= |buf|
    ensures LineText(buf + x, line) == LineText(buf, line)
  {
  }

  lemma {:induction false} DecodeAppend(buf: seq<byte>, x: seq<byte>, lines: seq<Line>, n: nat, flags: Flags)
    requires ClosedUpTo(lines, |buf|)
    ensures DecodeLines(buf + x, lines, n, flags) == DecodeLines(buf, lines, n, flags)
    decreases |lines|
  {
    if lines != [] && lines[0].start <= n {
      LineTextAppend(buf, x, lines[0]);
      DecodeAppend(buf, x, lines[1..], n, ApplyField(flags, DecodeField(LineText(buf, lines[0]))));
    }
  }

  lemma NulAppend(buf: seq<byte>, x: seq<byte>, i: nat)
    requires 0 < i < |buf|
    ensures (buf + x)[i - 1 := NUL][i := NUL] == buf[i - 1 := NUL][i := NUL] + x
  {
  }

  lemma CloseLineAppend(p: Parser, x: seq<byte>)
    requires AtLineEnd(p)
    ensures LastLine(p).start < p.index
    ensures CloseLine(Append(p, x)) == Append(CloseLine(p), x)
    ensures DropLastLine(CloseLine(p)).lines == ClosedLines(p)
  {
    CloseLineOk(p);
    NulAppend(p.buf, x, p.index);
  }

  lemma EnterBodyAppend(p: Parser, x: seq<byte>)
    requires ClosedUpTo(p.lines, |p.buf|)
    ensures EnterBody(Append(p, x)) == Append(EnterBody(p), x)
  {
    DecodeAppend(p.buf, x, p.lines, p.headerSize, p.flags);
  }

  lemma EndLinesAppend(p: Parser, x: seq<byte>)
    requires AtLineEnd(p) && LastLine(p).start == p.index - 1
    ensures EndLines(Append(p, x)) == Append(EndLines(p), x)
  {
    hide DecodeLines;
    CloseLineAppend(p, x);
    var d := DropLastLine(CloseLine(p)).(index := p.index + 1, headerSize := p.index + 1);
    EnterBodyAppend(d, x);
  }

  lemma LineByteAppend(p: Parser, x: seq<byte>)
    requires Ok(p) && Enabled(p) && InLine(p) && Ok(Append(p, x)) && Enabled(Append(p, x))
    ensures LineByte(Append(p, x)) == Append(LineByte(p), x)
  {
    hide DecodeLines, EnterBody;
    if AtLineEnd(p) {
      CloseLineAppend(p, x);
      if p.index - 1 == LastLine(p).start {
        EndLinesAppend(p, x);
      }
    }
  }

  lemma SizeByteAppend(p: Parser, x: seq<byte>)
    requires 0 < p.index < |p.buf|
    ensures SizeByte(Append(p, x)) == Append(SizeByte(p), x)
  {
    NulAppend(p.buf, x, p.index);
  }

  /** A step taken on a prefix of the stream is the step taken on the whole stream. */
  lemma StepAppend(p: Parser, x: seq<byte>)
    requires Ok(p) && Enabled(p)
    ensures Ok(Append(p, x)) && Enabled(Append(p, x))
    ensures Step(Append(p, x)) == Append(Step(p), x)
  {
    hide LineByte, SizeByte;
    AppendOk(p, x);
    if InLine(p) {
      LineByteAppend(p, x);
    } else if p.phase == ChunkHeader {
      SizeByteAppend(p, x);
    }
  }

  /** Running on what has arrived and then on the rest is running once on everything. */
  lemma {:induction false} RunAppend(p: Parser, x: seq<byte>)
    requires Ok(p)
    ensures Ok(Append(p, x)) && Ok(Append(Run(p), x))
    ensures Run(Append(Run(p), x)) == Run(Append(p, x))
    decreases |p.buf| - p.index, Rank(p.phase)
  {
    AppendOk(p, x);
    AppendOk(Run(p), x);
    if Enabled(p) {
      StepOk(p);
      StepAppend(p, x);
      RunAppend(Step(p), x);
    }
  }

  /** merge and analysis after every packet. */
  function Feed(p: Parser, packets: seq<seq<byte>>): (r: Parser)
    requires Ok(p)
    ensures Ok(r)
    decreases |packets|
  {
    if packets == [] then p
    else
      AppendOk(p, packets[0]);
      Feed(Run(Append(p, packets[0])), packets[1..])
  }

  lemma {:induction false} FeedIsRun(p: Parser, packets: seq<seq<byte>>)
    requires Ok(p) && !Enabled(p)
    ensures Ok(Append(p, Concat(packets)))
    ensures Feed(p, packets) == Run(Append(p, Concat(packets)))
    decreases |packets|
  {
    AppendOk(p, Concat(packets));
    if packets == [] {
      AppendAppend(p, [], []);
    } else {
      var x, rest := packets[0], Concat(packets[1..]);
      AppendOk(p, x);
      FeedIsRun(Run(Append(p, x)), packets[1..]);
      RunAppend(Append(p, x), rest);
      AppendAppend(p, x, rest);
    }
  }

  lemma FreshOk(buf: seq<byte>)
    ensures Ok(Fresh(buf))
    ensures buf == [] ==> !Enabled(Fresh(buf))
  {
  }

  /** The state after a stream, from the phase and flags down to every byte of the buffer, is the one a single
      call on the whole stream reaches: it depends on the bytes and not on where the packets were cut. */
  lemma PacketBoundariesDoNotMatter(packets: seq<seq<byte>>, packets': seq<seq<byte>>)
    requires Concat(packets) == Concat(packets')
    ensures Feed(Fresh([]), packets) == Feed(Fresh([]), packets') == Run(Fresh(Concat(packets)))
  {
    FreshOk([]);
    FeedIsRun(Fresh([]), packets);
    FeedIsRun(Fresh([]), packets');
    assert [] + Concat(packets) == Concat(packets);
  }
}
