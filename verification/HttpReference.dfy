/** Header lines as text: which lines carry a field, and what a whole header selects, with every name, value, space and
    digit spelled out. */
module HttpReferences {
  import opened Bytes
  import opened HttpHeader
  import opened HttpFields

  /** The bytes of an ASCII text. */
  function Ascii(s: string): seq<byte>
    requires forall i :: 0 <= i < |s| ==> s[i] < 128 as char
  {
    seq(|s|, i requires 0 <= i < |s| => s[i] as byte)
  }

  /** A text without capitals. */
  predicate LowerCase(s: string) {
    forall i :: 0 <= i < |s| ==> s[i] < 'A' || 'Z' < s[i] < 128 as char
  }

  /** The text in any letter case. */
  predicate Spells(lower: string, text: seq<byte>) {
    && |lower| == |text|
    && forall i :: 0 <= i < |text| ==>
      text[i] == lower[i] as int || ('a' <= lower[i] <= 'z' && text[i] as int == lower[i] as int - 32)
  }

  predicate Blank(b: byte) {
    b in {9, 10, 11, 12, 13, 32}
  }

  predicate Blanks(s: seq<byte>) {
    forall i :: 0 <= i < |s| ==> Blank(s[i])
  }

  predicate Solid(s: seq<byte>) {
    s != [] && !Blank(s[0]) && !Blank(s[|s| - 1])
  }

  /** The line is a name, a colon and a value, with blanks around both; the name has no colon and no NUL, which the
      value may have. `text` is the value with all behind it. */
  ghost predicate IsField(line: seq<byte>, name: seq<byte>, value: seq<byte>, text: seq<byte>) {
    exists a, b, c, d :: Parts(line, name, value, text, a, b, c, d)
  }

  predicate Parts(line: seq<byte>, name: seq<byte>, value: seq<byte>, text: seq<byte>, a: seq<byte>, b: seq<byte>,
      c: seq<byte>, d: seq<byte>)
  {
    && line == a + name + b + [58] + c + text && text == value + d
    && Blanks(a) && Blanks(b) && Blanks(c) && Blanks(d)
    && Solid(name) && 58 !in name && 0 !in name && Solid(value)
  }

  lemma {:induction false} SkippedSpaces(line: seq<byte>, i: nat)
    requires i <= |line|
    ensures AllSpace(line[i..SkipSpaces(line, i)])
    decreases |line| - i
  {
    if i < |line| && IsSpace(line[i]) {
      SkippedSpaces(line, i + 1);
      assert line[i..SkipSpaces(line, i)] == [line[i]] + line[i + 1..SkipSpaces(line, i)];
    }
  }

  lemma {:induction false} TrimmedSpaces(line: seq<byte>, hi: nat)
    requires hi <= |line|
    ensures AllSpace(line[TrimEnd(line, hi)..hi])
  {
    if hi > 0 && IsSpace(line[hi - 1]) {
      TrimmedSpaces(line, hi - 1);
      var low := TrimEnd(line, hi);
      assert line[low..hi] == line[low..hi - 1] + [line[hi - 1]];
    }
  }

  lemma {:induction false} BeforeColon(line: seq<byte>, i: nat)
    requires i <= |line| && FindColon(line, i) < |line|
    ensures COLON !in line[i..FindColon(line, i)] && NUL !in line[i..FindColon(line, i)]
    decreases |line| - i
  {
    if line[i] != COLON {
      BeforeColon(line, i + 1);
      assert line[i..FindColon(line, i)] == [line[i]] + line[i + 1..FindColon(line, i)];
    }
  }

  /** A line cut at five places. */
  lemma Cut(line: seq<byte>, i: nat, j: nat, k: nat, m: nat, n: nat)
    requires i < j <= k < m <= n <= |line| && m < |line|
    ensures line == line[..i] + line[i..j] + line[j..k] + [line[k]] + line[k + 1..m] + line[m..]
    ensures n >= m ==> line[m..] == line[m..n] + line[n..]
  {
  }

  /** The four scans and the search cut the line into the parts of a field. */
  lemma ScannedParts(line: seq<byte>, i: nat, j: nat, k: nat, m: nat, n: nat)
    requires i < j <= k < m < n <= |line| && line[k] == COLON
    requires AllSpace(line[..i]) && AllSpace(line[j..k]) && AllSpace(line[k + 1..m]) && AllSpace(line[n..])
    requires !IsSpace(line[i]) && !IsSpace(line[j - 1]) && !IsSpace(line[m]) && !IsSpace(line[n - 1])
    requires COLON !in line[i..k] && NUL !in line[i..k]
    ensures IsField(line, line[i..j], line[m..n], line[m..])
  {
    Cut(line, i, j, k, m, n);
    assert line[i..k] == line[i..j] + line[j..k];
    assert Parts(line, line[i..j], line[m..n], line[m..], line[..i], line[j..k], line[k + 1..m], line[n..]);
  }

  lemma FieldThere(line: seq<byte>)
    requires DecodeField(line).Field?
    ensures var i := SkipSpaces(line, 0); var k := FindColon(line, i);
      i < k < |line| && SkipSpaces(line, k + 1) < |line|
  {
    hide SkipSpaces, FindColon, TrimEnd;
  }

  /** Where the scans stop on a line with a field. */
  lemma DecodedScans(line: seq<byte>) returns (i: nat, j: nat, k: nat, m: nat, n: nat)
    requires DecodeField(line).Field?
    ensures i < j <= k < m < n <= |line| && Scans(line, i, j, k, m, n) && line[k] == COLON
    ensures !IsSpace(line[i]) && !IsSpace(line[j - 1]) && !IsSpace(line[m]) && !IsSpace(line[n - 1])
    ensures DecodeField(line) == Field(line[i..j], line[m..n], line[m..])
  {
    hide SkipSpaces, FindColon, TrimEnd, DecodeField, IsSpace;
    FieldThere(line);
    i := SkipSpaces(line, 0);
    k := FindColon(line, i);
    m := SkipSpaces(line, k + 1);
    TrimBound(line, k, i);
    TrimBound(line, |line|, m);
    j, n := TrimEnd(line, k), TrimEnd(line, |line|);
    DecodeBy(line, i, j, k, m, n, Field(line[i..j], line[m..n], line[m..]));
  }

  lemma DecodedIsField(line: seq<byte>)
    requires DecodeField(line).Field?
    ensures var f := DecodeField(line); IsField(line, f.name, f.value, f.text)
  {
    hide SkipSpaces, FindColon, TrimEnd, IsField, DecodeField, IsSpace;
    var i, j, k, m, n := DecodedScans(line);
    SkippedSpaces(line, 0);
    TrimmedSpaces(line, k);
    BeforeColon(line, i);
    SkippedSpaces(line, k + 1);
    TrimmedSpaces(line, |line|);
    assert line[0..i] == line[..i] && line[n..|line|] == line[n..];
    ScannedParts(line, i, j, k, m, n);
  }

  /** A line carries a field exactly if it has this form, and then exactly that field. */
  lemma DecodeIff(line: seq<byte>, name: seq<byte>, value: seq<byte>, text: seq<byte>)
    ensures IsField(line, name, value, text) <==> DecodeField(line) == Field(name, value, text)
  {
    hide DecodeField;
    if DecodeField(line).Field? {
      DecodedIsField(line);
    }
    if IsField(line, name, value, text) {
      var a, b, c, d :| Parts(line, name, value, text, a, b, c, d);
      FieldRoundTrip(a, name, b, c, value, d);
    }
  }

  /** Equality up to letter case is the same from both sides. */
  lemma SpellsIff(lower: string, word: seq<byte>, text: seq<byte>)
    requires LowerCase(lower) && Spells(lower, word)
    ensures Spells(lower, text) <==> SameText(word, text)
  {
    if |text| == |lower| {
      forall i | 0 <= i < |text|
        ensures Lower(word[i]) == lower[i] as int
        ensures (text[i] == lower[i] as int || ('a' <= lower[i] <= 'z' && text[i] as int == lower[i] as int - 32))
            <==> Lower(text[i]) == lower[i] as int
      {
      }
    }
  }

  /** The line carries a field of this name. */
  ghost predicate Named(line: seq<byte>, lower: string) {
    exists name, value, text :: IsField(line, name, value, text) && Spells(lower, name)
  }

  /** And the field has this value. */
  ghost predicate Says(line: seq<byte>, lower: string, word: string) {
    exists name, value, text :: IsField(line, name, value, text) && Spells(lower, name) && Spells(word, value)
  }

  /** The last line with a field of this name, or -1. */
  ghost function LastNamed(ls: seq<seq<byte>>, lower: string): (r: int)
    ensures -1 <= r < |ls|
    ensures r >= 0 ==> Named(ls[r], lower)
    ensures forall j :: r < j < |ls| ==> !Named(ls[j], lower)
  {
    if ls == [] then -1
    else if Named(ls[|ls| - 1], lower) then |ls| - 1
    else LastNamed(ls[..|ls| - 1], lower)
  }

  /** The field of a line, once more by its form. */
  lemma NamedIff(line: seq<byte>, lower: string, word: seq<byte>)
    requires LowerCase(lower) && Spells(lower, word)
    ensures var f := DecodeField(line); Named(line, lower) <==> f.Field? && SameText(word, f.name)
  {
    hide DecodeField, IsField, Spells, SameText;
    var f := DecodeField(line);
    if f.Field? {
      DecodeIff(line, f.name, f.value, f.text);
      SpellsIff(lower, word, f.name);
    }
    if Named(line, lower) {
      var name, value, text :| IsField(line, name, value, text) && Spells(lower, name);
      DecodeIff(line, name, value, text);
    }
  }

  lemma SaysIff(line: seq<byte>, lower: string, word: seq<byte>, lowerValue: string, wordValue: seq<byte>)
    requires LowerCase(lower) && Spells(lower, word) && LowerCase(lowerValue) && Spells(lowerValue, wordValue)
    ensures var f := DecodeField(line);
      Says(line, lower, lowerValue) <==> f.Field? && SameText(word, f.name) && SameText(wordValue, f.value)
  {
    hide DecodeField, IsField, Spells, SameText;
    var f := DecodeField(line);
    if f.Field? {
      DecodeIff(line, f.name, f.value, f.text);
      SpellsIff(lower, word, f.name);
      SpellsIff(lowerValue, wordValue, f.value);
    }
    if Says(line, lower, lowerValue) {
      var name, value, text :| IsField(line, name, value, text) && Spells(lower, name) && Spells(lowerValue, value);
      DecodeIff(line, name, value, text);
    }
  }

  /** The names and values that the code knows. */
  lemma ConnectionWord()
    ensures LowerCase("connection") && Spells("connection", CONNECTION)
  {
  }

  lemma ContentLengthWord()
    ensures LowerCase("content-length") && Spells("content-length", CONTENT_LENGTH)
  {
  }

  lemma TransferEncodingWord()
    ensures LowerCase("transfer-encoding") && Spells("transfer-encoding", TRANSFER_ENCODING)
  {
  }

  lemma KeepAliveWord()
    ensures LowerCase("keep-alive") && Spells("keep-alive", KEEP_ALIVE)
  {
  }

  lemma ChunkedWord()
    ensures LowerCase("chunked") && Spells("chunked", CHUNKED)
  {
  }

  /** What one line does to the flags, by what it says. */
  ghost predicate Applies(line: seq<byte>, before: Flags, after: Flags) {
    && after.keepAlive
      == (if Named(line, "connection") then Says(line, "connection", "keep-alive") else before.keepAlive)
    && after.chunked
      == (if Named(line, "transfer-encoding") then Says(line, "transfer-encoding", "chunked") else before.chunked)
    && (!Named(line, "content-length") ==> after.contentLength == before.contentLength)
    && (Named(line, "content-length") ==>
      forall name, value, text :: IsField(line, name, value, text) ==>
        after.contentLength == Atoi(text) % SIZE_MOD)
  }

  lemma OneLine(line: seq<byte>, before: Flags)
    ensures Applies(line, before, ApplyField(before, DecodeField(line)))
  {
    ConnectionWord();
    ContentLengthWord();
    TransferEncodingWord();
    KeepAliveWord();
    ChunkedWord();
    NamedIff(line, "connection", CONNECTION);
    NamedIff(line, "content-length", CONTENT_LENGTH);
    NamedIff(line, "transfer-encoding", TRANSFER_ENCODING);
    SaysIff(line, "connection", CONNECTION, "keep-alive", KEEP_ALIVE);
    SaysIff(line, "transfer-encoding", TRANSFER_ENCODING, "chunked", CHUNKED);
    forall name, value, text | IsField(line, name, value, text)
      ensures DecodeField(line) == Field(name, value, text)
    {
      DecodeIff(line, name, value, text);
    }
    DifferentNames(DecodeField(line));
    hide DecodeField, IsField, Named, Says, SameText, Spells, Atoi;
  }

  lemma DifferentNames(f: Field)
    ensures f.Field? ==>
      && !(SameText(CONNECTION, f.name) && SameText(CONTENT_LENGTH, f.name))
      && !(SameText(CONNECTION, f.name) && SameText(TRANSFER_ENCODING, f.name))
      && !(SameText(CONTENT_LENGTH, f.name) && SameText(TRANSFER_ENCODING, f.name))
  {
  }

  /** The flags of a whole header: for each of the three names the last field of that name decides, wherever it stands
      and whatever else there is, and without one the connection is kept alive and there is no body. */
  ghost predicate Selects(ls: seq<seq<byte>>, flags: Flags) {
    var c, t, n := LastNamed(ls, "connection"), LastNamed(ls, "transfer-encoding"), LastNamed(ls, "content-length");
    && (flags.keepAlive <==> c < 0 || Says(ls[c], "connection", "keep-alive"))
    && (flags.chunked <==> t >= 0 && Says(ls[t], "transfer-encoding", "chunked"))
    && (n < 0 ==> flags.contentLength == 0)
    && (n >= 0 ==>
      forall name, value, text :: IsField(ls[n], name, value, text) ==>
        flags.contentLength == Atoi(text) % 0x1_0000_0000_0000_0000)
  }

  lemma {:induction false} HeaderSelects(ls: seq<seq<byte>>)
    ensures Selects(ls, FlagsOf(ls))
  {
    hide Named, Says, IsField, ApplyField, DecodeField, Atoi;
    if ls != [] {
      var init, line := ls[..|ls| - 1], ls[|ls| - 1];
      HeaderSelects(init);
      OneLine(line, FlagsOf(init));
    }
  }

  /** A line with none of the three names, or without a name and a value, changes nothing. */
  lemma OtherLinesKeep(ls: seq<seq<byte>>, line: seq<byte>)
    requires !Named(line, "connection") && !Named(line, "content-length") && !Named(line, "transfer-encoding")
    ensures FlagsOf(ls + [line]) == FlagsOf(ls)
  {
    hide Named, Says, IsField, ApplyField, DecodeField, Atoi;
    assert (ls + [line])[..|ls|] == ls;
    OneLine(line, FlagsOf(ls));
  }

  /** A header without any of the three: the connection is kept alive, and there is no body. */
  lemma DefaultFlags(ls: seq<seq<byte>>)
    requires forall i :: 0 <= i < |ls| ==>
      !Named(ls[i], "connection") && !Named(ls[i], "content-length") && !Named(ls[i], "transfer-encoding")
    ensures FlagsOf(ls) == Flags(true, false, 0)
  {
    hide Named, Says, IsField, FlagsOf, LastNamed, Atoi;
    HeaderSelects(ls);
  }
}
