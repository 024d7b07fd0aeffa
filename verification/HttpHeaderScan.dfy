/** The header phase against a reference split of the original bytes. */
module HttpHeaderScan {
  import opened Bytes
  import opened HttpHeader
  import opened HttpParser
  import opened HttpFraming

  /** How a stream reads as a header block: complete lines, then an empty line, a bare LF, or neither yet. */
  datatype Shape =
    | Complete(lines: seq<seq<byte>>, rest: seq<byte>)
    | Broken(lines: seq<seq<byte>>, text: seq<byte>, rest: seq<byte>)
    | Partial(lines: seq<seq<byte>>, text: seq<byte>)

  function FirstLF(s: seq<byte>): (f: nat)
    ensures f <= |s|
    ensures f < |s| ==> s[f] == LF
    ensures LF !in s[..f]
  {
    if s == [] || s[0] == LF then 0
    else
      var f := 1 + FirstLF(s[1..]);
      assert s[..f] == [s[0]] + s[1..][..f - 1];
      f
  }

  function Prepend(line: seq<byte>, shape: Shape): Shape {
    shape.(lines := [line] + shape.lines)
  }

  /** The reference: cut at each LF that follows a CR. */
  function SplitHeader(s: seq<byte>): Shape
    decreases |s|
  {
    var f := FirstLF(s);
    if f == |s| then Partial([], s)
    else if f == 0 || s[f - 1] != CR then Broken([], s[..f], s[f + 1..])
    else if f == 1 then Complete([], s[2..])
    else Prepend(s[..f - 1], SplitHeader(s[f + 1..]))
  }

  function Join(shape: Shape): seq<byte> {
    match shape
    case Complete(ls, rest) => EncodeLines(ls) + (CRLF + rest)
    case Broken(ls, text, rest) => EncodeLines(ls) + (text + ([LF] + rest))
    case Partial(ls, text) => EncodeLines(ls) + text
  }

  /** A bare LF is one whose line does not end in CR. */
  predicate ShapeValid(shape: Shape) {
    && LinesValid(shape.lines)
    && (shape.Broken? ==> LF !in shape.text && (shape.text == [] || shape.text[|shape.text| - 1] != CR))
    && (shape.Partial? ==> LF !in shape.text)
  }

  lemma JoinEmpty(shape: Shape)
    requires shape.lines == []
    ensures shape.Complete? ==> Join(shape) == [] + (CRLF + shape.rest)
    ensures shape.Partial? ==> Join(shape) == [] + shape.text
  {
  }

  lemma JoinPrepend(line: seq<byte>, shape: Shape)
    ensures Join(Prepend(line, shape)) == line + CRLF + Join(shape)
  {
    var ls := [line] + shape.lines;
    assert ls[0] == line && ls[1..] == shape.lines;
    match shape
    case Complete(_, rest) => Assoc(line + CRLF, EncodeLines(shape.lines), CRLF + rest);
    case Broken(_, text, rest) => Assoc(line + CRLF, EncodeLines(shape.lines), text + ([LF] + rest));
    case Partial(_, text) => Assoc(line + CRLF, EncodeLines(shape.lines), text);
  }

  lemma CutAt(s: seq<byte>, f: nat)
    requires f < |s| && s[f] == LF
    ensures s == [] + (s[..f] + ([LF] + s[f + 1..]))
  {
  }

  lemma CutLine(s: seq<byte>, f: nat)
    requires 0 < f < |s| && s[f] == LF && s[f - 1] == CR
    ensures s == s[..f - 1] + CRLF + s[f + 1..]
  {
  }

  lemma ShorterText(s: seq<byte>, f: nat, g: nat)
    requires g <= f <= |s| && LF !in s[..f]
    ensures LF !in s[..g]
  {
    assert s[..g] == s[..f][..g];
  }

  lemma SplitPartial(s: seq<byte>)
    requires FirstLF(s) == |s|
    ensures SplitHeader(s) == Partial([], s) && LF !in s && s == [] + s
  {
    assert s[..|s|] == s;
  }

  lemma BrokenShape(text: seq<byte>, rest: seq<byte>)
    requires LF !in text && (text == [] || text[|text| - 1] != CR)
    ensures Join(Broken([], text, rest)) == [] + (text + ([LF] + rest)) && ShapeValid(Broken([], text, rest))
  {
  }

  lemma SplitIsBroken(s: seq<byte>)
    requires var f := FirstLF(s); f < |s| && (f == 0 || s[f - 1] != CR)
    ensures var f := FirstLF(s);
      && SplitHeader(s) == Broken([], s[..f], s[f + 1..])
      && LF !in s[..f] && s[f] == LF && (f > 0 ==> s[..f][f - 1] != CR)
  {
  }

  lemma SplitBroken(s: seq<byte>)
    requires var f := FirstLF(s); f < |s| && (f == 0 || s[f - 1] != CR)
    ensures Join(SplitHeader(s)) == s && ShapeValid(SplitHeader(s))
  {
    hide Join, ShapeValid, SplitHeader, FirstLF;
    var f := FirstLF(s);
    SplitIsBroken(s);
    CutAt(s, f);
    BrokenShape(s[..f], s[f + 1..]);
  }

  lemma SplitComplete(s: seq<byte>)
    requires FirstLF(s) == 1 < |s| && s[0] == CR
    ensures SplitHeader(s) == Complete([], s[2..]) && s == [] + (CRLF + s[2..])
  {
  }

  lemma SplitGoesOn(s: seq<byte>)
    requires var f := FirstLF(s); 1 < f < |s| && s[f - 1] == CR
    ensures var f := FirstLF(s);
      && SplitHeader(s) == Prepend(s[..f - 1], SplitHeader(s[f + 1..]))
      && LF !in s[..f - 1]
      && s == s[..f - 1] + CRLF + s[f + 1..]
  {
    var f := FirstLF(s);
    CutLine(s, f);
    ShorterText(s, f, f - 1);
  }

  /** The reference split loses nothing: every stream is one of the three shapes, put together again. */
  lemma {:induction false} SplitJoins(s: seq<byte>)
    ensures Join(SplitHeader(s)) == s && ShapeValid(SplitHeader(s))
    decreases |s|
  {
    hide SplitHeader, Join;
    var f := FirstLF(s);
    if f == |s| {
      SplitPartial(s);
      JoinEmpty(SplitHeader(s));
    } else if f == 0 || s[f - 1] != CR {
      SplitBroken(s);
    } else if f == 1 {
      SplitComplete(s);
      JoinEmpty(SplitHeader(s));
    } else {
      SplitGoesOn(s);
      SplitJoins(s[f + 1..]);
      JoinPrepend(s[..f - 1], SplitHeader(s[f + 1..]));
    }
  }

  lemma {:induction false} RunKeepsHeaderSize(p: Parser)
    requires Ok(p) && p.phase != Start && p.phase != ReadHeader
    ensures Run(p).headerSize == p.headerSize && Run(p).flags == p.flags
    decreases |p.buf| - p.index, Rank(p.phase)
  {
    if Enabled(p) {
      RunStep(p);
      StepKeepsHeader(p);
      StepOk(p);
      RunKeepsHeaderSize(Step(p));
    }
  }

  lemma StepKeepsHeader(p: Parser)
    requires Ok(p) && Enabled(p) && p.phase != Start && p.phase != ReadHeader
    ensures Step(p).phase != Start && Step(p).phase != ReadHeader
    ensures Step(p).headerSize == p.headerSize && Step(p).flags == p.flags
  {
  }

  /** The parser after complete lines and the start of another one. */
  lemma ScanIntoLine(ls: seq<seq<byte>>, text: seq<byte>, rest: seq<byte>) returns (m: Parser, q: Parser)
    requires LinesValid(ls) && LF !in text && text + rest != [] && (ls != [] || (text + rest)[0] != LF)
    ensures q == m.(index := m.index + |text|)
    ensures At(m, text + rest) && Told(m, ls)
    ensures At(q, rest) && q.phase == ReadHeader && q.headerSize == 0
    ensures var s := EncodeLines(ls) + (text + rest);
      Ok(Fresh(s)) && Run(Fresh(s)) == Run(q) && |q.buf| == |s|
  {
    hide Run, Ok;
    EnterHeader(ls, text + rest);
    var s := EncodeLines(ls) + (text + rest);
    m := ScanLines(Fresh(s).(phase := ReadHeader, lines := [Open(0)]), [], ls, text + rest);
    assert [] + ls == ls;
    ScanText(m, text, rest);
    q := m.(index := m.index + |text|);
  }

  lemma OpenAfterNul(p: Parser)
    requires Ok(p) && InLine(p) && p.lines != [] && LastLine(p) == Open(p.index) && p.index > 0
    ensures p.index <= |p.buf| && p.buf[p.index - 1] == NUL
  {
  }

  lemma EnterHeader(ls: seq<seq<byte>>, tail: seq<byte>)
    requires LinesValid(ls) && tail != [] && (ls != [] || tail[0] != LF)
    ensures var s := EncodeLines(ls) + tail; var p := Fresh(s).(phase := ReadHeader, lines := [Open(0)]);
      Ok(Fresh(s)) && At(p, s) && Told(p, []) && Run(Fresh(s)) == Run(p)
  {
    var s := EncodeLines(ls) + tail;
    if ls != [] {
      assert ls[0][0] in ls[0];
      assert s[0] == ls[0][0];
    } else {
      assert s == tail;
    }
    RunStep(Fresh(s));
    assert [] + [Open(0)] == [Open(0)];
  }

  lemma LastOfText(buf: seq<byte>, i: nat, text: seq<byte>, rest: seq<byte>)
    requires i <= |buf| && buf[i..] == text + rest && text != []
    ensures i + |text| <= |buf| && buf[i + |text| - 1] == text[|text| - 1]
  {
    assert buf[i..][|text| - 1] == buf[i + |text| - 1];
  }

  /** The byte that a bare LF follows is not CR in the buffer either: it may be a NUL the parser wrote over the LF
      before it, but never one over a CR. */
  lemma BareLF(ls: seq<seq<byte>>, text: seq<byte>, rest: seq<byte>)
    requires LinesValid(ls) && LF !in text && (text == [] || text[|text| - 1] != CR)
    ensures var s := EncodeLines(ls) + (text + ([LF] + rest));
      Ok(Fresh(s)) && Run(Fresh(s)).phase == Bad && Run(Fresh(s)).headerSize == 0
  {
    hide Run, Ok;
    var s := EncodeLines(ls) + (text + ([LF] + rest));
    if ls == [] && text == [] {
      assert s == [LF] + rest;
      BadStart(s);
    } else {
      var m, q := ScanIntoLine(ls, text, [LF] + rest);
      OkClosed(m);
      OkClosed(q);
      if text != [] {
        LastOfText(m.buf, m.index, text, [LF] + rest);
      } else {
        assert text + ([LF] + rest) == [LF] + rest;
        TooEarly(m, rest);
        OpenAfterNul(m);
      }
      Peek(q.buf, q.index, [LF] + rest);
      BadStep(q);
    }
  }

  lemma TooEarly(p: Parser, rest: seq<byte>)
    requires At(p, [LF] + rest) && p.phase == ReadHeader
    ensures p.index > 0
  {
  }

  lemma BadStart(s: seq<byte>)
    requires s != [] && s[0] == LF
    ensures Ok(Fresh(s)) && Run(Fresh(s)).phase == Bad && Run(Fresh(s)).headerSize == 0
  {
    RunStep(Fresh(s));
  }

  lemma BadStep(p: Parser)
    requires Ok(p) && p.phase == ReadHeader && 0 < p.index < |p.buf| && p.buf[p.index] == LF && p.buf[p.index - 1] != CR
    ensures Run(p).phase == Bad && Run(p).headerSize == p.headerSize
  {
    RunStep(p);
  }

  lemma Unfinished(ls: seq<seq<byte>>, text: seq<byte>)
    requires LinesValid(ls) && LF !in text
    ensures var s := EncodeLines(ls) + text;
      && Ok(Fresh(s)) && !Finished(Run(Fresh(s))) && Run(Fresh(s)).headerSize == 0 && Run(Fresh(s)).index == |s|
      && (s != [] ==> Reading(Run(Fresh(s)), ls))
  {
    hide Run, Ok, LineTexts;
    var s := EncodeLines(ls) + text;
    assert text + [] == text;
    if text != [] {
      assert text[0] in text;
      var m, q := ScanIntoLine(ls, text, []);
      Waiting(q, ls);
      ReadingOn(m, q, ls, text);
    } else if ls != [] {
      UnfinishedAtLineEnd(ls);
      assert s == EncodeLines(ls);
    } else {
      assert s == [];
      StartWaits();
    }
  }

  /** The parser has recorded the lines `ls` and is in the line behind them. */
  predicate Reading(p: Parser, ls: seq<seq<byte>>) {
    && p.phase == ReadHeader && p.lines != []
    && LineTexts(p.buf, ClosedLines(p)) == ls && LastLine(p) == Open(|EncodeLines(ls)|)
  }

  lemma ReadingOn(m: Parser, q: Parser, ls: seq<seq<byte>>, text: seq<byte>)
    requires Told(m, ls) && At(m, text) && q == m.(index := m.index + |text|) && q.phase == ReadHeader
    requires |m.buf| == |EncodeLines(ls) + text|
    ensures Reading(q, ls)
  {
    OkClosed(m);
    assert |m.buf[m.index..]| == |text|;
  }

  lemma StartWaits()
    ensures Ok(Fresh([])) && Run(Fresh([])) == Fresh([])
  {
  }

  lemma Waiting(p: Parser, ls: seq<seq<byte>>)
    requires At(p, []) && p.phase == ReadHeader && p.headerSize == 0 && p.lines != []
    ensures Run(p) == p && p.index == |p.buf|
  {
  }

  /** The stream stops right behind a line. */
  lemma UnfinishedAtLineEnd(ls: seq<seq<byte>>)
    requires LinesValid(ls) && ls != []
    ensures var s := EncodeLines(ls); var r := Run(Fresh(s));
      && Ok(Fresh(s)) && !Finished(r) && r.headerSize == 0 && r.index == |s| == |r.buf| && Reading(r, ls)
  {
    hide Run, Ok;
    var s := EncodeLines(ls);
    assert s + [] == s;
    EnterHeaderAtLine(ls);
    var m := ScanLines(Fresh(s).(phase := ReadHeader, lines := [Open(0)]), [], ls, []);
    assert [] + ls == ls;
    Waiting(m, ls);
  }

  lemma EnterHeaderAtLine(ls: seq<seq<byte>>)
    requires LinesValid(ls) && ls != []
    ensures var s := EncodeLines(ls); var p := Fresh(s).(phase := ReadHeader, lines := [Open(0)]);
      Ok(Fresh(s)) && At(p, s + []) && Told(p, []) && Run(Fresh(s)) == Run(p)
  {
    var s := EncodeLines(ls);
    assert s + [] == s;
    assert ls[0][0] in ls[0];
    assert s[0] == ls[0][0];
    RunStep(Fresh(s));
    assert [] + [Open(0)] == [Open(0)];
  }

  /** What the header phase makes of a stream, read off the reference split of its original bytes. */
  predicate Verdict(r: Parser, shape: Shape) {
    match shape
    case Complete(ls, _) => r.headerSize == |EncodeHeader(ls)| && r.flags == FlagsOf(ls)
    case Broken(_, _, _) => r.phase == Bad && r.headerSize == 0
    case Partial(ls, text) =>
      && !Finished(r) && r.headerSize == 0 && r.index == |r.buf|
      && (EncodeLines(ls) + text != [] ==> Reading(r, ls))
  }

  /** The header phase ends with the lines of the reference split, goes bad, or waits for more bytes exactly when the
      reference split finds the empty line, a bare LF before it, or neither. */
  lemma HeaderScanIsSplit(s: seq<byte>)
    ensures Ok(Fresh(s)) && Verdict(Run(Fresh(s)), SplitHeader(s))
    ensures Join(SplitHeader(s)) == s && ShapeValid(SplitHeader(s))
    ensures var shape := SplitHeader(s); shape.Complete? ==>
      exists p :: Ok(p) && BehindHeader(p, shape.lines, shape.rest) && Run(Fresh(s)) == Run(p)
  {
    hide Run, Ok, SplitHeader, FlagsOf;
    SplitJoins(s);
    match SplitHeader(s)
    case Complete(ls, rest) =>
      Assoc(EncodeLines(ls), CRLF, rest);
      var p := HeaderRun(ls, rest);
      BehindHeaderSize(p, ls, rest);
    case Broken(ls, text, rest) => BareLF(ls, text, rest);
    case Partial(ls, text) => Unfinished(ls, text);
  }

  lemma BehindHeaderSize(p: Parser, ls: seq<seq<byte>>, rest: seq<byte>)
    requires BehindHeader(p, ls, rest) && |p.buf| == |EncodeHeader(ls) + rest|
    ensures Ok(p) && Run(p).headerSize == |EncodeHeader(ls)| && Run(p).flags == FlagsOf(ls)
  {
    RunKeepsHeaderSize(p);
  }
}
