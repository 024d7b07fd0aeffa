/** What the framer makes of any stream, read off its original bytes: the grammar it accepts, which is more lenient than
    the one of section 4.1 of RFC 7230. */
module HttpGrammars {
  import opened Bytes
  import opened HttpHeader
  import opened HttpParser
  import opened HttpFraming
  import opened HttpHeaderScan
  import opened HttpSizes

  /** A message ends after so many bytes, or never will, or more bytes have to come. */
  datatype Outcome = Ends(n: nat) | Fails | Waits

  function After(n: nat, o: Outcome): Outcome {
    if o.Ends? then Ends(n + o.n) else o
  }

  /** A trailer: lines up to an empty one, like a header. */
  function TrailerOutcome(tail: seq<byte>): Outcome {
    match SplitHeader(tail)
    case Complete(ls, _) => Ends(|EncodeHeader(ls)|)
    case Broken(_, _, _) => Fails
    case Partial(_, _) => Waits
  }

  /** Chunks from a size line on: any text whose line end is a CR LF, of which the hex digits behind leading spaces are
      the size modulo 2^64. `prev` is the byte in front of the line. */
  function ChunksOutcome(prev: byte, rest: seq<byte>): Outcome
    decreases |rest|, 0
  {
    var f := FirstLF(rest);
    if f == |rest| then Waits
    else if (if f == 0 then prev else rest[f - 1]) != CR then Fails
    else After(f + 1, ChunkOutcome(SizeValue(rest[..f]) % SIZE_MOD, rest[f + 1..]))
  }

  /** Behind a size line: the chunk and any two bytes, the sum taken modulo 2^64, then more chunks; or the trailer. */
  function ChunkOutcome(n: nat, tail: seq<byte>): Outcome
    decreases |tail|, 1
  {
    var need := (n + 2) % SIZE_MOD;
    if n == 0 then TrailerOutcome(tail)
    else if tail == [] || |tail| < need then Waits
    else After(need, ChunksOutcome(if need == 0 then LF else tail[need - 1], tail[need..]))
  }

  /** A header, and the body that it announces. */
  function MessageOutcome(s: seq<byte>): Outcome {
    match SplitHeader(s)
    case Broken(_, _, _) => Fails
    case Partial(_, _) => Waits
    case Complete(ls, rest) =>
      var flags := FlagsOf(ls);
      After(|EncodeHeader(ls)|,
        if flags.chunked then ChunksOutcome(LF, rest)
        else if flags.contentLength <= |rest| then Ends(flags.contentLength)
        else Waits)
  }

  /** The verdict of a whole call of `analysis`. */
  predicate Verdict(r: Parser, from: nat, o: Outcome) {
    && (r.phase == Done <==> o.Ends?) && (r.phase == Bad <==> o.Fails?)
    && (o.Ends? ==> r.index == from + o.n)
  }

  lemma VerdictAfter(r: Parser, from: nat, n: nat, o: Outcome)
    requires Verdict(r, from + n, o)
    ensures Verdict(r, from, After(n, o))
  {
  }

  /** The parser at the beginning of the trailer. */
  predicate AtTrailer(e: Parser, tail: seq<byte>) {
    At(e, tail) && e.phase == ChunkFooter && e.lines != [] && LastLine(e) == Open(e.index)
  }

  lemma TrailerLines(e: Parser, ls: seq<seq<byte>>, rest: seq<byte>) returns (m: Parser)
    requires AtTrailer(e, EncodeLines(ls) + rest) && LinesValid(ls)
    ensures Ok(e) && At(m, rest) && m.phase == ChunkFooter && m.lines != [] && LastLine(m) == Open(m.index)
    ensures Run(e) == Run(m) && m.index == e.index + |EncodeLines(ls)|
  {
    hide Run, Ok, LineTexts;
    m := ScanLines(e, LineTexts(e.buf, ClosedLines(e)), ls, rest);
    SameEnd(e, m, EncodeLines(ls), rest);
  }

  lemma SameEnd(e: Parser, m: Parser, text: seq<byte>, rest: seq<byte>)
    requires At(e, text + rest) && At(m, rest) && |e.buf| == |m.buf|
    ensures m.index == e.index + |text|
  {
  }

  lemma TrailerComplete(e: Parser, ls: seq<seq<byte>>, rest: seq<byte>)
    requires AtTrailer(e, EncodeLines(ls) + (CRLF + rest)) && LinesValid(ls)
    ensures Ok(e) && Run(e).phase == Done && Run(e).index == e.index + |EncodeHeader(ls)|
  {
    hide Run, Ok, LineTexts, EndLines;
    var m := TrailerLines(e, ls, CRLF + rest);
    ScanBlank(m, LineTexts(m.buf, ClosedLines(m)), rest);
    var p := m.(index := m.index + 1);
    EndTrailerFields(p);
    RunDone(EndLines(p));
  }

  lemma BadLine(q: Parser, rest: seq<byte>)
    requires At(q, [LF] + rest) && InLine(q) && 0 < q.index < |q.buf| && q.buf[q.index - 1] != CR
    ensures Run(q).phase == Bad
  {
    Peek(q.buf, q.index, [LF] + rest);
    RunStep(q);
  }

  lemma FooterBehind(p: Parser)
    requires Ok(p) && p.phase == ChunkFooter
    ensures p.index > 0
  {
  }

  lemma TrailerBroken(e: Parser, ls: seq<seq<byte>>, text: seq<byte>, rest: seq<byte>)
    requires AtTrailer(e, EncodeLines(ls) + (text + ([LF] + rest))) && LinesValid(ls)
    requires LF !in text && (text == [] || text[|text| - 1] != CR)
    ensures Ok(e) && Run(e).phase == Bad
  {
    var m := TrailerLines(e, ls, text + ([LF] + rest));
    FooterBehind(m);
    hide Run, Ok;
    ScanText(m, text, [LF] + rest);
    var q := m.(index := m.index + |text|);
    OkClosed(m);
    OkClosed(q);
    if text != [] {
      LastOfText(m.buf, m.index, text, [LF] + rest);
    } else {
      OpenAfterNul(m);
    }
    Peek(q.buf, q.index, [LF] + rest);
    BadLine(q, rest);
  }

  lemma TrailerPartial(e: Parser, ls: seq<seq<byte>>, text: seq<byte>)
    requires AtTrailer(e, EncodeLines(ls) + text) && LinesValid(ls) && LF !in text
    ensures Ok(e) && Run(e).phase == ChunkFooter
  {
    hide Run, Ok;
    var m := TrailerLines(e, ls, text);
    assert text + [] == text;
    ScanText(m, text, []);
    Idle(m.(index := m.index + |text|));
  }

  lemma TrailerVerdict(e: Parser, tail: seq<byte>)
    requires AtTrailer(e, tail)
    ensures Ok(e) && Verdict(Run(e), e.index, TrailerOutcome(tail))
  {
    hide Run, Ok, SplitHeader;
    SplitJoins(tail);
    match SplitHeader(tail)
    case Complete(ls, rest) => TrailerComplete(e, ls, rest);
    case Broken(ls, text, rest) => TrailerBroken(e, ls, text, rest);
    case Partial(ls, text) => TrailerPartial(e, ls, text);
  }

  /** Any chunk, also one whose size plus 2 wraps. */
  lemma NextPiece(e: Parser, rest: seq<byte>) returns (n: Parser)
    requires At(e, rest) && e.phase == ChunkBody && rest != [] && ChunkNeed(e) <= |rest|
    requires 0 < e.index <= |e.buf| && e.buf[e.index - 1] == NUL
    ensures var k := ChunkNeed(e);
      && AtSize(n, if k == 0 then LF else rest[k - 1], rest[k..]) && n.index == e.index + k
      && Ok(e) && Run(e) == Run(n)
  {
    hide Run, Ok, ChunkNeed;
    var k := ChunkNeed(e);
    PieceStep(e);
    n := ChunkStep(e);
    if k > 0 {
      Behind(e.buf, e.index, rest, k);
    } else {
      assert rest[0..] == rest;
    }
  }

  lemma PieceStep(e: Parser)
    requires Ok(e) && e.phase == ChunkBody && e.index < |e.buf| && ChunkNeed(e) <= |e.buf| - e.index
    ensures Ok(ChunkStep(e)) && Run(e) == Run(ChunkStep(e))
  {
    RunStep(e);
  }

  lemma NoLineVerdict(p: Parser, prev: byte, rest: seq<byte>)
    requires AtSize(p, prev, rest) && FirstLF(rest) == |rest|
    ensures Ok(p) && Verdict(Run(p), p.index, Waits)
  {
    hide Run, Ok, FirstLF;
    NoLine(p, prev, rest);
  }

  lemma {:induction false} ChunksVerdict(p: Parser, prev: byte, rest: seq<byte>)
    requires AtSize(p, prev, rest)
    ensures Ok(p) && Verdict(Run(p), p.index, ChunksOutcome(prev, rest))
    decreases |rest|, 0
  {
    hide Run, Ok, FirstLF, SizeValue, ChunkOutcome, Finished;
    CutAtLF(rest);
    var f := FirstLF(rest);
    if f == |rest| {
      NoLineVerdict(p, prev, rest);
    } else {
      var q := ToLineEnd(p, prev, rest);
      var tail := rest[f + 1..];
      if q.buf[q.index - 1] != CR {
        BadSize(q, tail);
      } else {
        var e := AfterSize(q, tail);
        ChunkVerdict(e, tail);
        VerdictAfter(Run(e), p.index, f + 1, ChunkOutcome(e.chunkSize, tail));
      }
    }
  }

  lemma {:induction false} ChunkVerdict(e: Parser, tail: seq<byte>)
    requires At(e, tail) && 0 < e.index <= |e.buf| && e.buf[e.index - 1] == NUL
    requires e.phase == if e.chunkSize > 0 then ChunkBody else ChunkFooter
    requires e.phase == ChunkFooter ==> e.lines != [] && LastLine(e) == Open(e.index)
    ensures Ok(e) && Verdict(Run(e), e.index, ChunkOutcome(e.chunkSize, tail))
    decreases |tail|, 1
  {
    hide Run, Ok, ChunksOutcome;
    var need := ChunkNeed(e);
    if e.chunkSize == 0 {
      TrailerVerdict(e, tail);
    } else if tail == [] || |tail| < need {
      NoRoom(e, tail);
    } else {
      var p := NextPiece(e, tail);
      var prev := if need == 0 then LF else tail[need - 1];
      ChunksVerdict(p, prev, tail[need..]);
      VerdictAfter(Run(p), e.index, need, ChunksOutcome(prev, tail[need..]));
    }
  }

  lemma FixedVerdict(p: Parser, ls: seq<seq<byte>>, rest: seq<byte>)
    requires BehindHeader(p, ls, rest) && !FlagsOf(ls).chunked
    ensures Ok(p) && Verdict(Run(p), p.index,
      if FlagsOf(ls).contentLength <= |rest| then Ends(FlagsOf(ls).contentLength) else Waits)
  {
    hide FlagsOf;
    if Enabled(p) {
      RunStep(p);
    }
  }

  lemma HeaderVerdict(s: seq<byte>)
    requires !SplitHeader(s).Complete?
    ensures Ok(Fresh(s)) && Verdict(Run(Fresh(s)), 0, MessageOutcome(s))
  {
    hide Run, Ok, SplitHeader;
    HeaderScanIsSplit(s);
  }

  /** The framer finishes, goes bad, or waits on a stream exactly as the grammar says, and finishes right behind the
      message. */
  lemma MessageVerdict(s: seq<byte>)
    ensures Ok(Fresh(s)) && Verdict(Run(Fresh(s)), 0, MessageOutcome(s))
  {
    hide Run, Ok, SplitHeader, FlagsOf, ChunksOutcome;
    SplitJoins(s);
    match SplitHeader(s)
    case Complete(ls, rest) =>
      Assoc(EncodeLines(ls), CRLF, rest);
      var p := HeaderRun(ls, rest);
      HeaderLength(p, ls, rest);
      if FlagsOf(ls).chunked {
        ChunksVerdict(p, LF, rest);
        VerdictAfter(Run(p), 0, p.index, ChunksOutcome(LF, rest));
      } else {
        FixedVerdict(p, ls, rest);
      }
    case _ => HeaderVerdict(s);
  }

  lemma HeaderLength(p: Parser, ls: seq<seq<byte>>, rest: seq<byte>)
    requires At(p, rest) && |p.buf| == |EncodeHeader(ls) + rest|
    ensures p.index == |EncodeHeader(ls)|
  {
  }
}
