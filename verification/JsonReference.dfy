/** Messages once more by counting bytes, with every byte spelled out: what the framer delivers, without the names of
    the parser. */
module JsonReferences {
  import opened Bytes
  import opened JsonParser
  import opened JsonFraming

  /** From the first bracket to the first place where as many brackets have been closed as opened. */
  predicate Bracketed(m: seq<byte>, open: byte, close: byte) {
    && m != [] && m[0] == open
    && multiset(m)[open] == multiset(m)[close]
    && forall k :: 0 < k < |m| ==> multiset(m[..k])[open] > multiset(m[..k])[close]
  }

  /** An object in braces or an array in square brackets. */
  predicate IsText(m: seq<byte>) {
    Bracketed(m, 123, 125) || Bracketed(m, 91, 93)
  }

  predicate White(s: seq<byte>) {
    forall i :: 0 <= i < |s| ==> s[i] in {9, 10, 11, 12, 13, 32}
  }

  lemma {:induction false} NetCounts(s: seq<byte>)
    ensures Net(Object, s) == multiset(s)[123] as int - multiset(s)[125]
    ensures Net(Array, s) == multiset(s)[91] as int - multiset(s)[93]
  {
    if s != [] {
      NetCounts(s[..|s| - 1]);
      assert s == s[..|s| - 1] + [s[|s| - 1]];
    }
  }

  lemma BalancedCounts(m: seq<byte>)
    ensures Balanced(Object, m) <==> Bracketed(m, 123, 125)
    ensures Balanced(Array, m) <==> Bracketed(m, 91, 93)
  {
    hide Net;
    NetCounts(m);
    forall k | 0 < k < |m|
      ensures Net(Object, m[..k]) == multiset(m[..k])[123] as int - multiset(m[..k])[125]
      ensures Net(Array, m[..k]) == multiset(m[..k])[91] as int - multiset(m[..k])[93]
    {
      NetCounts(m[..k]);
    }
  }

  /** A message ends with the bracket that closes the one it starts with. */
  lemma LastCloses(m: seq<byte>, open: byte, close: byte)
    requires Bracketed(m, open, close) && open != close
    ensures |m| >= 2 && m[|m| - 1] == close
  {
    var n := |m| - 1;
    assert m == m[..n] + [m[n]];
  }

  lemma MessageIsText(m: seq<byte>)
    ensures IsMessage(m) <==> IsText(m)
    ensures IsText(m) ==>
      |m| >= 2 && ((m[0] == 123 && m[|m| - 1] == 125) || (m[0] == 91 && m[|m| - 1] == 93))
  {
    hide Bracketed, Balanced;
    BalancedCounts(m);
    if Bracketed(m, 123, 125) {
      LastCloses(m, 123, 125);
      First(m, 123, 125);
    }
    if Bracketed(m, 91, 93) {
      LastCloses(m, 91, 93);
      First(m, 91, 93);
    }
  }

  lemma First(m: seq<byte>, open: byte, close: byte)
    requires Bracketed(m, open, close)
    ensures m != [] && m[0] == open
  {
  }

  /** The stream begins with white space and an object or an array. */
  ghost predicate HasText(s: seq<byte>) {
    exists gap, m, rest :: s == gap + m + rest && White(gap) && IsText(m)
  }

  /** The first byte that is no white space. */
  function FirstSolid(s: seq<byte>): (r: nat)
    ensures r <= |s| && White(s[..r]) && (r < |s| ==> s[r] !in {9, 10, 11, 12, 13, 32})
  {
    if s == [] || s[0] !in {9, 10, 11, 12, 13, 32} then 0
    else
      assert s[..FirstSolid(s[1..]) + 1] == [s[0]] + s[1..][..FirstSolid(s[1..])];
      FirstSolid(s[1..]) + 1
  }

  /** For every stream: the framer finishes exactly if it begins with white space and an object or an array. It goes bad
      exactly if the first byte behind the white space is no opening bracket, and it waits otherwise. */
  lemma JsonVerdict(s: seq<byte>)
    ensures Run(Fresh(s)).phase == Done <==> HasText(s)
    ensures var f := FirstSolid(s); Run(Fresh(s)).phase == Bad <==> f < |s| && s[f] != 123 && s[f] != 91
  {
    hide Run, IsMessage, IsText, Bracketed;
    DoneIff(s);
    if HasText(s) {
      var gap, m, rest :| s == gap + m + rest && White(gap) && IsText(m);
      MessageIsText(m);
      assert AllSpace(gap);
    }
    if HasMessage(s) {
      var gap, m, rest :| s == gap + m + rest && AllSpace(gap) && IsMessage(m);
      MessageIsText(m);
      assert White(gap);
    }
    BadIff(s);
  }

  lemma {:induction false} InsideNeverBad(p: Parser)
    requires Ok(p) && InMessage(p)
    ensures Run(p).phase != Bad
    decreases |p.buf| - p.index
  {
    if Enabled(p) {
      StepOk(p);
      if Step(p).phase != Done {
        InsideNeverBad(Step(p));
      }
    }
  }

  lemma BadIff(s: seq<byte>)
    ensures var f := FirstSolid(s); Run(Fresh(s)).phase == Bad <==> f < |s| && s[f] != 123 && s[f] != 91
  {
    hide Run;
    var f := FirstSolid(s);
    forall k | 0 <= k < f
      ensures IsSpace(s[k])
    {
      assert s[..f][k] in {9, 10, 11, 12, 13, 32};
    }
    ScanSpaces(s, 0, f);
    assert Fresh(s) == Fresh(s).(index := 0);
    AtSolid(s, f);
  }

  lemma AtSolid(s: seq<byte>, f: nat)
    requires f <= |s| && (f < |s| ==> s[f] !in {9, 10, 11, 12, 13, 32})
    ensures Ok(Fresh(s).(index := f))
    ensures Run(Fresh(s).(index := f)).phase == Bad <==> f < |s| && s[f] != 123 && s[f] != 91
  {
    var p := Fresh(s).(index := f);
    if f < |s| {
      RunStep(p);
      if InMessage(Step(p)) {
        InsideNeverBad(Step(p));
      } else {
        assert Run(Step(p)) == Step(p);
      }
    }
  }

  /** Two bytes are enough. */
  lemma EmptyTexts(rest: seq<byte>)
    ensures Run(Fresh([123, 125] + rest)) == Parser([123, 125] + rest, Done, 2, 0, 0)
    ensures Run(Fresh([91, 93] + rest)) == Parser([91, 93] + rest, Done, 2, 0, 0)
  {
    hide Run;
    var brace, bracket: byte := 123, 91;
    assert Bracketed([123, 125], 123, 125) by {
      assert [123, 125][..1] == [brace];
    }
    assert Bracketed([91, 93], 91, 93) by {
      assert [91, 93][..1] == [bracket];
    }
    MessageIsText([123, 125]);
    MessageIsText([91, 93]);
    OneMessage([], [123, 125], rest);
    OneMessage([], [91, 93], rest);
    assert [] + [123, 125] + rest == [123, 125] + rest && [] + [91, 93] + rest == [91, 93] + rest;
  }
}
