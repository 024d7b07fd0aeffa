/** What getParameter hands out, by the form of the lines: which pairs of a message, and in which order. */
module HttpParameters {
  import opened Bytes
  import opened HttpHeader
  import opened HttpReferences
  import P = HttpParser
  import F = HttpFraming
  import C = HttpContexts

  type Pairs = seq<(seq<byte>, seq<byte>)>

  /** The line has a name and a value and yields this pair, or it has not and yields nothing. */
  ghost predicate Yields(line: seq<byte>, pairs: Pairs) {
    || (pairs == [] && forall name, value, text :: !IsField(line, name, value, text))
    || (|pairs| == 1 && exists text :: IsField(line, pairs[0].0, pairs[0].1, text))
  }

  function Joined(parts: seq<Pairs>): Pairs {
    if parts == [] then [] else parts[0] + Joined(parts[1..])
  }

  lemma {:induction false} JoinedSnoc(parts: seq<Pairs>, last: Pairs)
    ensures Joined(parts + [last]) == Joined(parts) + last
  {
    if parts == [] {
      assert [] + [last] == [last] && [last][1..] == [];
    } else {
      assert (parts + [last])[1..] == parts[1..] + [last];
      JoinedSnoc(parts[1..], last);
    }
  }

  lemma LineYields(line: seq<byte>, pairs: Pairs)
    ensures Yields(line, pairs) <==> C.ParameterOf(line) == pairs
  {
    hide IsField, DecodeField;
    var f := DecodeField(line);
    forall name, value, text
      ensures IsField(line, name, value, text) <==> f == Field(name, value, text)
    {
      DecodeIff(line, name, value, text);
    }
    if f.Field? {
      assert IsField(line, f.name, f.value, f.text);
    }
    if |pairs| == 1 && f.Field? {
      assert pairs == [(pairs[0].0, pairs[0].1)];
    }
  }

  /** The parameters of a list of lines are the pairs that its lines yield, line by line. */
  lemma {:induction false} ParametersAre(ls: seq<seq<byte>>, parts: seq<Pairs>)
    requires |parts| == |ls| && forall i :: 0 <= i < |ls| ==> Yields(ls[i], parts[i])
    ensures C.Parameters(ls) == Joined(parts)
    decreases |ls|
  {
    hide Yields;
    if ls != [] {
      var n := |ls| - 1;
      ParametersAre(ls[..n], parts[..n]);
      LineYields(ls[n], parts[n]);
      JoinedSnoc(parts[..n], parts[n]);
      assert parts[..n] + [parts[n]] == parts;
    }
  }

  /** Of every valid message, whatever follows it, getParameter hands out what the lines that the peer sent yield, the
      trailers behind the header. */
  lemma MessageParameters(m: F.Message, rest: seq<byte>, parts: seq<Pairs>)
    requires F.Valid(m)
    requires var ls := m.lines + F.Trailers(m.body);
      |parts| == |ls| && forall i :: 0 <= i < |ls| ==> Yields(ls[i], parts[i])
    ensures var s := F.Encode(m) + rest;
      && P.Ok(P.Fresh(s)) && P.Run(P.Fresh(s)).phase == P.Done
      && C.Parameters(F.LineTexts(P.Run(P.Fresh(s)).buf, P.Run(P.Fresh(s)).lines)) == Joined(parts)
  {
    hide P.Ok, P.Run, F.Valid, Yields, F.LineTexts, F.RangeTexts, HttpHeader.FlagsOf;
    F.MessageRoundTrip(m, rest);
    ParametersAre(m.lines + F.Trailers(m.body), parts);
  }
}
