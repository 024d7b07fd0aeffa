/** Pipelined messages: the messages of a stream, and what is still to come for a parser in the middle of one. */
module HttpPipeline {
  import opened Bytes
  import opened HttpHeader
  import opened HttpParser
  import opened HttpBoundary
  import opened HttpFraming

  /** The finished message as `extract` copies it out. */
  function Extract(p: Parser): Parser
    requires p.index <= |p.buf|
  {
    p.(buf := p.buf[..p.index], chunkSize := 0, sizeStart := false, sizeDone := false)
  }

  /** The reference: parse the whole stream once from its first byte, then again from the first byte behind the
      message, as long as the messages keep the connection alive. */
  function MessagesOf(s: seq<byte>): seq<Parser>
    decreases |s|
  {
    FreshOk(s);
    var r := Run(Fresh(s));
    if r.phase != Done then []
    else [Extract(r)] + (if r.flags.keepAlive then MessagesOf(s[r.index..]) else [])
  }

  /** The messages a parser will still deliver from the bytes it holds. */
  function Pending(p: Parser): seq<Parser>
    requires Ok(p)
  {
    var r := Run(p);
    if r.phase != Done then []
    else [Extract(r)] + (if r.flags.keepAlive then MessagesOf(r.buf[r.index..]) else [])
  }

  lemma LineByteTail(p: Parser)
    requires Ok(p) && Enabled(p) && InLine(p)
    ensures LineByte(p).index <= |p.buf| == |LineByte(p).buf|
    ensures LineByte(p).buf[LineByte(p).index..] == p.buf[LineByte(p).index..]
  {
    hide EndLines, NextLine;
    if AtLineEnd(p) {
      CloseLineOk(p);
      NulBehind(p.buf, p.index, p.buf[p.index + 1..]);
      if p.index - 1 > LastLine(p).start {
        NextLineFields(p);
      } else {
        EndLinesFields(p);
      }
    }
  }

  lemma SizeByteTail(p: Parser)
    requires 0 < p.index < |p.buf|
    ensures SizeByte(p).index <= |p.buf| == |SizeByte(p).buf|
    ensures SizeByte(p).buf[SizeByte(p).index..] == p.buf[SizeByte(p).index..]
  {
    NulBehind(p.buf, p.index, p.buf[p.index + 1..]);
  }

  lemma StepTail(p: Parser)
    requires Ok(p) && Enabled(p)
    ensures Ok(Step(p)) && Step(p).index <= |p.buf| == |Step(p).buf|
    ensures Step(p).buf[Step(p).index..] == p.buf[Step(p).index..]
  {
    hide LineByte, SizeByte;
    StepOk(p);
    if InLine(p) {
      LineByteTail(p);
    } else if p.phase == ChunkHeader {
      SizeByteTail(p);
    }
  }

  /** Nothing behind the scan position is ever written, so what `clear` moves down is what the peer sent. */
  lemma {:induction false} RunTail(p: Parser)
    requires Ok(p)
    ensures p.index <= Run(p).index && Run(p).buf[Run(p).index..] == p.buf[Run(p).index..]
    decreases |p.buf| - p.index, Rank(p.phase)
  {
    hide Step;
    if Enabled(p) {
      StepOk(p);
      StepTail(p);
      RunTail(Step(p));
      TailTail(Step(p).buf, p.buf, Step(p).index, Run(p).index);
    }
  }

  lemma TailTail(a: seq<byte>, b: seq<byte>, i: nat, j: nat)
    requires |a| == |b| && i <= j <= |a| && a[i..] == b[i..]
    ensures a[j..] == b[j..]
  {
    assert a[j..] == a[i..][j - i..];
    assert b[j..] == b[i..][j - i..];
  }

  lemma PendingFresh(s: seq<byte>)
    ensures Ok(Fresh(s)) && Pending(Fresh(s)) == MessagesOf(s)
  {
    FreshOk(s);
    RunTail(Fresh(s));
  }

  /** Analysing before or after more bytes arrive makes no difference to what is still to come. */
  lemma PendingRunAppend(p: Parser, x: seq<byte>)
    requires Ok(p)
    ensures Ok(Append(p, x)) && Ok(Append(Run(p), x))
    ensures Pending(Append(Run(p), x)) == Pending(Append(p, x))
  {
    RunAppend(p, x);
  }

  /** A finished message does not change when more bytes arrive behind it. */
  lemma PendingDone(p: Parser, x: seq<byte>)
    requires Ok(p) && p.phase == Done
    ensures Ok(Append(p, x)) && Run(Append(p, x)) == Append(p, x)
    ensures Extract(Append(p, x)) == Extract(p)
    ensures Pending(Append(p, x))
         == [Extract(p)] + (if p.flags.keepAlive then MessagesOf(p.buf[p.index..] + x) else [])
  {
    AppendOk(p, x);
    assert (p.buf + x)[..p.index] == p.buf[..p.index];
    assert (p.buf + x)[p.index..] == p.buf[p.index..] + x;
  }

  /** More bytes never change the messages a stream already has. */
  lemma {:induction false} MessagesPrefix(s: seq<byte>, x: seq<byte>)
    ensures MessagesOf(s) <= MessagesOf(s + x)
    decreases |s|
  {
    FreshOk(s);
    var r := Run(Fresh(s));
    if r.phase == Done {
      PendingFresh(s + x);
      assert Append(Fresh(s), x) == Fresh(s + x);
      PendingRunAppend(Fresh(s), x);
      PendingDone(r, x);
      RunTail(Fresh(s));
      if r.flags.keepAlive {
        MessagesPrefix(s[r.index..], x);
      }
    }
  }

  function EncodeAll(ms: seq<Message>): seq<byte> {
    if ms == [] then [] else Encode(ms[0]) + EncodeAll(ms[1..])
  }

  predicate KeepAlive(m: Message) {
    FlagsOf(m.lines).keepAlive
  }

  /** The extracted parser carries exactly this message. */
  predicate Carries(p: Parser, m: Message) {
    && p.phase == Done
    && p.flags == FlagsOf(m.lines)
    && LineTexts(p.buf, p.lines) == m.lines + Trailers(m.body)
    && RangeTexts(p.buf, p.chunks) == Payload(m.body)
    && Content(p) == Concat(Payload(m.body))
  }

  predicate CarryAll(ps: seq<Parser>, ms: seq<Message>) {
    |ps| == |ms| && forall i :: 0 <= i < |ps| ==> Carries(ps[i], ms[i])
  }

  lemma ExtractCarries(p: Parser, m: Message, rest: seq<byte>)
    requires Ok(p) && Delivered(p, m, rest)
    ensures Carries(Extract(p), m)
  {
    var q := Extract(p);
    assert q.buf[..p.index] == p.buf[..p.index];
    LineTextsFrame(p.buf, q.buf, p.lines, p.index);
    RangeTextsFrame(p.buf, q.buf, p.chunks, p.index);
  }

  /** A pipelined sequence of keep-alive messages is delivered message by message, exactly, whatever follows it. */
  lemma {:induction false} PipelineRoundTrip(ms: seq<Message>, rest: seq<byte>)
    requires forall i :: 0 <= i < |ms| ==> Valid(ms[i]) && KeepAlive(ms[i])
    ensures var got := MessagesOf(EncodeAll(ms) + rest);
      && |ms| <= |got| && CarryAll(got[..|ms|], ms)
      && got[|ms|..] == MessagesOf(rest)
    decreases |ms|
  {
    hide Ok, Valid, Carries, Delivered;
    var s := EncodeAll(ms) + rest;
    if ms == [] {
      assert s == rest;
    } else {
      var more := EncodeAll(ms[1..]) + rest;
      Assoc(Encode(ms[0]), EncodeAll(ms[1..]), rest);
      MessageRoundTrip(ms[0], more);
      DeliveredParts(Run(Fresh(s)), ms[0], more);
      ExtractCarries(Run(Fresh(s)), ms[0], more);
      assert s[|Encode(ms[0])|..] == more;
      PipelineRoundTrip(ms[1..], rest);
    }
  }

  lemma DeliveredParts(p: Parser, m: Message, rest: seq<byte>)
    requires Delivered(p, m, rest)
    ensures Ok(p) && p.phase == Done && p.flags == FlagsOf(m.lines) && p.index <= |p.buf|
  {
  }
}
