/** The content of a message, piece by piece, as getContent copies it. */
module HttpContents {
  import opened Bytes
  import opened HttpParser
  import opened HttpFraming
  import opened HttpLayout
  import opened HttpSizes

  /** The first `i` pieces. */
  function Copied(p: Parser, i: nat): seq<byte>
    requires i <= |p.chunks|
  {
    Concat(RangeTexts(p.buf, p.chunks[..i]))
  }

  /** The pieces lie apart from each other inside the received bytes. */
  predicate Inside(p: Parser) {
    ChunksApart(p.chunks) && ChunksWithin(p.chunks, |p.buf|)
  }

  lemma CopiedEnds(p: Parser)
    ensures Copied(p, 0) == [] && Copied(p, |p.chunks|) == Content(p)
  {
    assert p.chunks[..|p.chunks|] == p.chunks;
  }

  lemma CopiedSnoc(p: Parser, i: nat)
    requires i < |p.chunks|
    ensures Copied(p, i + 1) == Copied(p, i) + RangeText(p.buf, p.chunks[i])
  {
    assert p.chunks[..i + 1] == p.chunks[..i] + [p.chunks[i]];
    RangeTextsSnoc(p.buf, p.chunks[..i], p.chunks[i]);
    ConcatSnoc(RangeTexts(p.buf, p.chunks[..i]), RangeText(p.buf, p.chunks[i]));
  }

  lemma PieceLength(p: Parser, i: nat)
    requires i < |p.chunks| && Inside(p)
    ensures ChunkEnd(p.chunks[i]) <= |p.buf| && |RangeText(p.buf, p.chunks[i])| == p.chunks[i].length
  {
    assert p.chunks[i] in p.chunks;
  }

  /** The sum of the lengths never exceeds the end of the last piece, so it does not wrap. */
  lemma {:induction false} CopiedBound(p: Parser, i: nat)
    requires i <= |p.chunks| && Inside(p)
    ensures |Copied(p, i)| <= if i == 0 then 0 else ChunkEnd(p.chunks[i - 1])
    decreases i
  {
    hide Copied;
    if i == 0 {
      CopiedEnds(p);
    } else {
      CopiedSnoc(p, i - 1);
      PieceLength(p, i - 1);
      CopiedBound(p, i - 1);
    }
  }

  lemma {:induction false} CopiedGrows(p: Parser, i: nat, j: nat)
    requires i <= j <= |p.chunks|
    ensures |Copied(p, i)| <= |Copied(p, j)|
    decreases j - i
  {
    if i < j {
      CopiedSnoc(p, i);
      CopiedGrows(p, i + 1, j);
    }
  }

  /** One more piece. */
  lemma CopiedNext(p: Parser, i: nat)
    requires i < |p.chunks| && Inside(p)
    ensures ChunkEnd(p.chunks[i]) <= |p.buf|
    ensures Copied(p, i + 1) == Copied(p, i) + p.buf[p.chunks[i].start..ChunkEnd(p.chunks[i])]
    ensures |Copied(p, i + 1)| == |Copied(p, i)| + p.chunks[i].length
    ensures |Copied(p, i + 1)| <= |p.buf| && |Copied(p, i + 1)| <= |Content(p)|
  {
    hide Copied, Content;
    CopiedSnoc(p, i);
    PieceLength(p, i);
    CopiedBound(p, i + 1);
    CopiedGrows(p, i + 1, |p.chunks|);
    CopiedEnds(p);
  }

  /** What getContent copies lies inside the received bytes exactly on the streams without an oversized chunk. */
  lemma ContentReadable(stream: seq<byte>)
    requires |stream| + 2 < SIZE_MOD
    ensures Inside(Run(Fresh(stream))) <==> !OversizedChunk(stream)
  {
    hide Run, OversizedChunk;
    SizesFitIff(stream);
    RunLength(stream);
    if SizesFit(Run(Fresh(stream)).chunks) {
      RunLayout(Fresh(stream), stream);
    }
  }

  lemma RunLength(stream: seq<byte>)
    ensures Ok(Fresh(stream)) && |Run(Fresh(stream)).buf| == |stream| && Ok(Run(Fresh(stream)))
  {
  }

  /** getContent gives back what the peer sent: of every valid message, whatever follows it, all pieces lie inside the
      received bytes, and the content is the body that was encoded, chunk after chunk. */
  lemma ContentRoundTrip(m: Message, rest: seq<byte>)
    requires Valid(m) && |Encode(m) + rest| + 2 < SIZE_MOD
    ensures var r := Run(Fresh(Encode(m) + rest));
      r.phase == Done && Inside(r) && Content(r) == Concat(Payload(m.body))
  {
    hide Run, Valid, Ok, RangeTexts, LineTexts;
    var stream := Encode(m) + rest;
    MessageRoundTrip(m, rest);
    RunLength(stream);
    var r := Run(Fresh(stream));
    assert SizesFit(r.chunks) by {
      RangesFit(r);
    }
    LayoutByLengths(stream);
  }

  lemma RangesFit(p: Parser)
    requires Ok(p) && RangesWithin(p.chunks, p.index) && |p.buf| + 2 < SIZE_MOD
    ensures SizesFit(p.chunks)
  {
  }
}
