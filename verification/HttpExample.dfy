/** One request byte by byte: a post with mixed letter cases, blanks, a field that the framer does not know behind the
    one that selects chunked coding, and a chunk with a leading zero, a letter digit and an extension. */
module HttpExamples {
  import opened Bytes
  import opened HttpHeader
  import opened HttpParser
  import opened HttpFraming
  import opened HttpReferences

  const REQUEST: seq<byte> := Ascii("POST / HTTP/1.1")
  const CODING: seq<byte> := Ascii("TRANSFER-encoding : Chunked ")
  const HOST: seq<byte> := Ascii("Host:a")
  const CLOSING: seq<byte> := Ascii("connection: close")
  const DATA: seq<byte> := Ascii("0123456789")

  const END: seq<byte> := [13, 10]

  function Lines(): seq<seq<byte>> {
    [REQUEST, CODING, HOST, CLOSING]
  }

  /** The bytes on the wire. */
  function Wire(): seq<byte> {
    REQUEST + END + (CODING + END + (HOST + END + (CLOSING + END + [])))
    + END
    + (Ascii("0a") + Ascii(";x") + END + (DATA + END) + []
       + (Ascii("0") + [] + END + ([] + END)))
  }

  function TheMessage(): Message {
    Message(Lines(), Chunked([Chunk(Ascii("0a"), Ascii(";x"), DATA)], Chunk(Ascii("0"), [], []), []))
  }

  lemma NoColon(line: seq<byte>, lower: string)
    requires 58 !in line
    ensures !Named(line, lower)
  {
  }

  lemma OneName(line: seq<byte>, name: seq<byte>, value: seq<byte>, text: seq<byte>, lower: string, word: string)
    requires IsField(line, name, value, text)
    ensures Named(line, lower) <==> Spells(lower, name)
    ensures Says(line, lower, word) <==> Spells(lower, name) && Spells(word, value)
  {
    hide IsField, Spells, DecodeField;
    DecodeIff(line, name, value, text);
    forall n, v, t | IsField(line, n, v, t)
      ensures n == name && v == value && t == text
    {
      DecodeIff(line, n, v, t);
    }
  }

  lemma CodingField()
    ensures IsField(CODING, Ascii("TRANSFER-encoding"), Ascii("Chunked"), Ascii("Chunked "))
  {
    assert Parts(CODING, Ascii("TRANSFER-encoding"), Ascii("Chunked"), Ascii("Chunked "), [], [32], [32], [32]);
  }

  lemma HostField()
    ensures IsField(HOST, Ascii("Host"), Ascii("a"), Ascii("a"))
  {
    assert Parts(HOST, Ascii("Host"), Ascii("a"), Ascii("a"), [], [], [], []);
  }

  lemma ClosingField()
    ensures IsField(CLOSING, Ascii("connection"), Ascii("close"), Ascii("close"))
  {
    assert Parts(CLOSING, Ascii("connection"), Ascii("close"), Ascii("close"), [], [], [32], []);
  }

  lemma CodingSays()
    ensures Named(CODING, "transfer-encoding") && Says(CODING, "transfer-encoding", "chunked")
    ensures !Named(CODING, "connection") && !Named(CODING, "content-length")
  {
    hide Named, Says, IsField;
    CodingField();
    OneName(CODING, Ascii("TRANSFER-encoding"), Ascii("Chunked"), Ascii("Chunked "), "transfer-encoding", "chunked");
    OneName(CODING, Ascii("TRANSFER-encoding"), Ascii("Chunked"), Ascii("Chunked "), "connection", "");
    OneName(CODING, Ascii("TRANSFER-encoding"), Ascii("Chunked"), Ascii("Chunked "), "content-length", "");
  }

  lemma HostSays(lower: string)
    requires |lower| > 4
    ensures !Named(HOST, lower) && !Named(REQUEST, lower)
  {
    HostField();
    OneName(HOST, Ascii("Host"), Ascii("a"), Ascii("a"), lower, "");
    NoColon(REQUEST, lower);
  }

  lemma ClosingSays()
    ensures Named(CLOSING, "connection") && !Says(CLOSING, "connection", "keep-alive")
    ensures !Named(CLOSING, "transfer-encoding") && !Named(CLOSING, "content-length")
  {
    hide Named, Says, IsField;
    ClosingField();
    OneName(CLOSING, Ascii("connection"), Ascii("close"), Ascii("close"), "connection", "keep-alive");
    OneName(CLOSING, Ascii("connection"), Ascii("close"), Ascii("close"), "transfer-encoding", "");
    OneName(CLOSING, Ascii("connection"), Ascii("close"), Ascii("close"), "content-length", "");
  }

  /** The unknown field behind it leaves the coding alone. */
  lemma FlagsAre()
    ensures FlagsOf(Lines()) == Flags(false, true, 0)
  {
    hide Named, Says, FlagsOf;
    CodingSays();
    HostSays("connection");
    HostSays("transfer-encoding");
    HostSays("content-length");
    ClosingSays();
    HeaderSelects(Lines());
    assert LastNamed(Lines(), "connection") == 3;
    assert LastNamed(Lines(), "transfer-encoding") == 1;
    assert LastNamed(Lines(), "content-length") == -1;
  }

  lemma ChunksValid()
    ensures SizeValid(Chunk(Ascii("0a"), Ascii(";x"), DATA)) && SizeValid(Chunk(Ascii("0"), [], []))
  {
    var ds := Ascii("0a");
    assert ds == [48, 97] && ds[1..] == [97] && ds[1..][1..] == [] && Ascii("0")[1..] == [];
    assert HexValue(ds[1..], 0) == HexValue(ds[1..][1..], 10);
  }

  lemma OnTheWire()
    ensures Encode(TheMessage()) == Wire()
  {
    var ls := Lines();
    assert ls[1..] == [CODING, HOST, CLOSING] && ls[1..][1..] == [HOST, CLOSING] && ls[1..][1..][1..] == [CLOSING];
    assert EncodeLines(ls[1..][1..][1..]) == CLOSING + END + [];
    var cs := [Chunk(Ascii("0a"), Ascii(";x"), DATA)];
    assert cs[1..] == [];
  }

  lemma MessageIsValid()
    ensures Valid(TheMessage())
  {
    FlagsAre();
    ChunksValid();
    hide SizeValid, FlagsOf;
  }

  lemma MessageParts()
    ensures var m := TheMessage(); Payload(m.body) == [DATA] && m.lines + Trailers(m.body) == Lines()
  {
  }

  /** The framer finishes on these bytes, whatever follows them, with exactly the four lines and the ten bytes of
      content, and the connection is to be closed. */
  lemma ExampleDelivered(rest: seq<byte>)
    ensures var s := Wire() + rest;
      && Ok(Fresh(s)) && Run(Fresh(s)).phase == Done && Run(Fresh(s)).index == |Wire()|
      && Run(Fresh(s)).flags == Flags(false, true, 0)
      && LineTexts(Run(Fresh(s)).buf, Run(Fresh(s)).lines) == Lines()
      && RangeTexts(Run(Fresh(s)).buf, Run(Fresh(s)).chunks) == [DATA]
  {
    hide *;
    FlagsAre();
    MessageIsValid();
    MessageParts();
    OnTheWire();
    MessageRoundTrip(TheMessage(), rest);
    DeliveredWhat(Run(Fresh(Wire() + rest)), rest);
  }

  lemma DeliveredWhat(p: Parser, rest: seq<byte>)
    requires Delivered(p, TheMessage(), rest)
    ensures p.phase == Done && p.flags == FlagsOf(Lines())
    ensures var m := TheMessage();
      LineTexts(p.buf, p.lines) == m.lines + Trailers(m.body) && RangeTexts(p.buf, p.chunks) == Payload(m.body)
  {
    hide FlagsOf, LineTexts, RangeTexts, Payload;
  }
}
