/** Decoding of one header line: the pointer scans of ChttpContext, stated on the bytes of the line.
    A recorded line is always followed by a NUL, so a C-string scan that starts inside the line stops at
    the end of the line at the latest, and earlier at a NUL the peer sent. */
module HttpHeader {
  import opened Bytes

  /** What the header block selects. `contentLength` holds a `size_t`. */
  datatype Flags = Flags(keepAlive: bool, chunked: bool, contentLength: nat)

  const DEFAULT_FLAGS := Flags(true, false, 0)

  datatype Field = NoField | Field(name: seq<byte>, value: seq<byte>, text: seq<byte>)

  const CONNECTION: seq<byte> := [67, 111, 110, 110, 101, 99, 116, 105, 111, 110]
  const KEEP_ALIVE: seq<byte> := [75, 101, 101, 112, 45, 65, 108, 105, 118, 101]
  const CONTENT_LENGTH: seq<byte> := [67, 111, 110, 116, 101, 110, 116, 45, 76, 101, 110, 103, 116, 104]
  const TRANSFER_ENCODING: seq<byte> :=
    [84, 114, 97, 110, 115, 102, 101, 114, 45, 69, 110, 99, 111, 100, 105, 110, 103]
  const CHUNKED: seq<byte> := [99, 104, 117, 110, 107, 101, 100]

  /** First position at or after `i` that does not hold a space. */
  function SkipSpaces(line: seq<byte>, i: nat): (r: nat)
    requires i <= |line|
    ensures i <= r <= |line|
    ensures r < |line| ==> !IsSpace(line[r])
    decreases |line| - i
  {
    if i < |line| && IsSpace(line[i]) then SkipSpaces(line, i + 1) else i
  }

  /** End of the text that is left when the spaces before `hi` are dropped. */
  function TrimEnd(line: seq<byte>, hi: nat): (r: nat)
    requires hi <= |line|
    ensures r <= hi
    ensures r > 0 ==> !IsSpace(line[r - 1])
  {
    if hi > 0 && IsSpace(line[hi - 1]) then TrimEnd(line, hi - 1) else hi
  }

  /** strchr(line + i, ':'), with |line| for a null result. */
  function FindColon(line: seq<byte>, i: nat): (r: nat)
    requires i <= |line|
    ensures i <= r <= |line|
    ensures r < |line| ==> line[r] == COLON
    decreases |line| - i
  {
    if i == |line| || line[i] == NUL then |line|
    else if line[i] == COLON then i
    else FindColon(line, i + 1)
  }

  /** The name and value a line carries; `text` is the C string that starts at the value. */
  function DecodeField(line: seq<byte>): Field {
    var nameHead := SkipSpaces(line, 0);
    var colon := FindColon(line, nameHead);
    if colon == |line| || colon == nameHead then NoField
    else
      var nameTail := TrimEnd(line, colon);
      var valueHead := SkipSpaces(line, colon + 1);
      if valueHead == |line| then NoField
      else
        var valueTail := TrimEnd(line, |line|);
        TrimBound(line, colon, nameHead);
        TrimBound(line, |line|, valueHead);
        Field(line[nameHead..nameTail], line[valueHead..valueTail], line[valueHead..])
  }

  /** Trimming stops after a byte that is not a space. */
  lemma {:induction false} TrimBound(line: seq<byte>, hi: nat, k: nat)
    requires k < hi <= |line| && !IsSpace(line[k])
    ensures k < TrimEnd(line, hi)
  {
    if IsSpace(line[hi - 1]) {
      TrimBound(line, hi - 1, k);
    }
  }

  predicate IsDigit(b: byte) {
    48 <= b <= 57
  }

  function DigitsFrom(t: seq<byte>, acc: nat): nat {
    if t != [] && IsDigit(t[0]) then DigitsFrom(t[1..], acc * 10 + (t[0] - 48)) else acc
  }

  /** atoi on a text without leading spaces. */
  function Atoi(t: seq<byte>): int {
    if t != [] && t[0] == 45 then -(DigitsFrom(t[1..], 0) as int)
    else if t != [] && t[0] == 43 then DigitsFrom(t[1..], 0)
    else DigitsFrom(t, 0)
  }

  function ApplyField(flags: Flags, f: Field): Flags {
    if f.NoField? then flags
    else if SameText(CONNECTION, f.name) then flags.(keepAlive := SameText(KEEP_ALIVE, f.value))
    else if SameText(CONTENT_LENGTH, f.name) then flags.(contentLength := Atoi(f.text) % SIZE_MOD)
    else if SameText(TRANSFER_ENCODING, f.name) then flags.(chunked := SameText(CHUNKED, f.value))
    else flags
  }

  /** What a list of header lines selects, the last word of each field winning. */
  function FlagsOf(ls: seq<seq<byte>>): Flags {
    if ls == [] then DEFAULT_FLAGS
    else ApplyField(FlagsOf(ls[..|ls| - 1]), DecodeField(ls[|ls| - 1]))
  }

  /** A text that trimming leaves alone. */
  predicate Trimmed(s: seq<byte>) {
    s != [] && !IsSpace(s[0]) && !IsSpace(s[|s| - 1])
  }

  lemma {:induction false} SkipGap(u: seq<byte>, gap: seq<byte>, rest: seq<byte>)
    requires AllSpace(gap) && (rest != [] ==> !IsSpace(rest[0]))
    ensures SkipSpaces(u + gap + rest, |u|) == |u| + |gap|
    decreases |gap|
  {
    if gap != [] {
      var u' := u + [gap[0]];
      assert u' + gap[1..] + rest == u + gap + rest;
      SkipGap(u', gap[1..], rest);
    }
  }

  lemma {:induction false} TrimGap(u: seq<byte>, gap: seq<byte>, rest: seq<byte>)
    requires AllSpace(gap) && u != [] && !IsSpace(u[|u| - 1])
    ensures TrimEnd(u + gap + rest, |u| + |gap|) == |u|
    decreases |gap|
  {
    if gap != [] {
      var n := |gap| - 1;
      assert u + gap[..n] + ([gap[n]] + rest) == u + gap + rest;
      TrimGap(u, gap[..n], [gap[n]] + rest);
    }
  }

  lemma {:induction false} ColonAt(u: seq<byte>, text: seq<byte>, rest: seq<byte>)
    requires COLON !in text && NUL !in text && rest != [] && rest[0] == COLON
    ensures FindColon(u + text + rest, |u|) == |u| + |text|
    decreases |text|
  {
    if text != [] {
      var u' := u + [text[0]];
      assert u' + text[1..] + rest == u + text + rest;
      ColonAt(u', text[1..], rest);
    }
  }

  lemma SpacesAreNoColon(s: seq<byte>)
    requires AllSpace(s)
    ensures COLON !in s && NUL !in s
  {
  }

  lemma NameStart(a: seq<byte>, name: seq<byte>, b: seq<byte>, rest: seq<byte>)
    requires AllSpace(a) && Trimmed(name)
    ensures SkipSpaces(a + name + b + rest, 0) == |a|
  {
    Assoc(a, name, b);
    Assoc(a, name + b, rest);
    assert [] + a == a;
    SkipGap([], a, name + b + rest);
  }

  lemma NameEnd(a: seq<byte>, name: seq<byte>, b: seq<byte>, rest: seq<byte>)
    requires AllSpace(b) && Trimmed(name)
    ensures TrimEnd(a + name + b + rest, |a| + |name| + |b|) == |a| + |name|
  {
    assert (a + name)[|a + name| - 1] == name[|name| - 1];
    TrimGap(a + name, b, rest);
  }

  lemma NameColon(a: seq<byte>, name: seq<byte>, b: seq<byte>, rest: seq<byte>)
    requires AllSpace(b) && rest != [] && rest[0] == COLON
    requires COLON !in name && NUL !in name
    ensures FindColon(a + name + b + rest, |a|) == |a| + |name| + |b|
  {
    SpacesAreNoColon(b);
    Assoc(a, name, b);
    ColonAt(a, name + b, rest);
  }

  lemma ValueSide(left: seq<byte>, c: seq<byte>, value: seq<byte>, d: seq<byte>)
    requires AllSpace(c) && AllSpace(d) && Trimmed(value)
    ensures var line := left + c + (value + d);
      && SkipSpaces(line, |left|) == |left| + |c|
      && TrimEnd(line, |line|) == |left| + |c| + |value|
  {
    SkipGap(left, c, value + d);
    var u := left + c + value;
    Assoc(left + c, value, d);
    assert u + d + [] == u + d;
    assert u[|u| - 1] == value[|value| - 1];
    TrimGap(u, d, []);
  }

  lemma Slice(u: seq<byte>, v: seq<byte>, w: seq<byte>)
    ensures (u + v + w)[|u|..|u| + |v|] == v
  {
  }

  lemma Suffix(u: seq<byte>, v: seq<byte>)
    ensures (u + v)[|u|..] == v
  {
  }

  /** The five scans of a line that holds a field stop at these positions. */
  predicate Scans(line: seq<byte>, head: nat, tail: nat, colon: nat, from: nat, to: nat) {
    && head < tail <= colon < from < to <= |line|
    && SkipSpaces(line, 0) == head && FindColon(line, head) == colon && TrimEnd(line, colon) == tail
    && SkipSpaces(line, colon + 1) == from && TrimEnd(line, |line|) == to
  }

  lemma DecodeBy(line: seq<byte>, head: nat, tail: nat, colon: nat, from: nat, to: nat, f: Field)
    requires f.Field? && Scans(line, head, tail, colon, from, to)
    requires line[head..tail] == f.name && line[from..to] == f.value && line[from..] == f.text
    ensures DecodeField(line) == f
  {
  }

  lemma NameSlice(a: seq<byte>, name: seq<byte>, b: seq<byte>, rest: seq<byte>)
    ensures (a + name + b + rest)[|a|..|a| + |name|] == name
  {
    Assoc(a + name, b, rest);
    Slice(a, name, b + rest);
  }

  lemma ValueSlice(left: seq<byte>, c: seq<byte>, value: seq<byte>, d: seq<byte>)
    ensures (left + c + (value + d))[|left| + |c|..|left| + |c| + |value|] == value
    ensures (left + c + (value + d))[|left| + |c|..] == value + d
  {
    Assoc(left + c, value, d);
    Slice(left + c, value, d);
    Suffix(left + c, value + d);
  }

  /** A line read from both ends: as `a name b rest` and as `left c value d`. */
  lemma FieldFromBothSides(line: seq<byte>, a: seq<byte>, name: seq<byte>, b: seq<byte>, rest: seq<byte>,
      left: seq<byte>, c: seq<byte>, value: seq<byte>, d: seq<byte>)
    requires line == a + name + b + rest && line == left + c + (value + d)
    requires |left| == |a| + |name| + |b| + 1
    requires AllSpace(a) && AllSpace(b) && AllSpace(c) && AllSpace(d)
    requires Trimmed(name) && COLON !in name && NUL !in name
    requires rest != [] && rest[0] == COLON && Trimmed(value)
    ensures DecodeField(line) == Field(name, value, value + d)
  {
    hide SkipSpaces, FindColon, TrimEnd, DecodeField, IsSpace;
    var head, tail, colon, from, to :=
      |a|, |a| + |name|, |left| - 1, |left| + |c|, |left| + |c| + |value|;
    assert SkipSpaces(line, 0) == head by {
      NameStart(a, name, b, rest);
    }
    assert FindColon(line, head) == colon by {
      NameColon(a, name, b, rest);
    }
    assert TrimEnd(line, colon) == tail by {
      NameEnd(a, name, b, rest);
    }
    assert SkipSpaces(line, colon + 1) == from && TrimEnd(line, |line|) == to by {
      ValueSide(left, c, value, d);
    }
    assert line[head..tail] == name by {
      NameSlice(a, name, b, rest);
    }
    assert line[from..to] == value && line[from..] == value + d by {
      ValueSlice(left, c, value, d);
    }
    DecodeBy(line, head, tail, colon, from, to, Field(name, value, value + d));
  }

  /** A name and a value survive being written as a header line with any spaces around them. */
  lemma FieldRoundTrip(a: seq<byte>, name: seq<byte>, b: seq<byte>, c: seq<byte>, value: seq<byte>, d: seq<byte>)
    requires AllSpace(a) && AllSpace(b) && AllSpace(c) && AllSpace(d)
    requires Trimmed(name) && COLON !in name && NUL !in name
    requires Trimmed(value)
    ensures DecodeField(a + name + b + [COLON] + c + (value + d)) == Field(name, value, value + d)
  {
    var left := a + name + b + [COLON];
    var rest := [COLON] + (c + (value + d));
    Assoc(left, c, value + d);
    Assoc(a + name + b, [COLON], c + (value + d));
    FieldFromBothSides(left + c + (value + d), a, name, b, rest, left, c, value, d);
  }
}
