/** The header lines that select the framing of a body, in any letter case and with any spaces. */
module HttpFields {
  import opened Bytes
  import opened HttpHeader

  function Decimal(n: nat): seq<byte> {
    if n < 10 then [48 + n] else Decimal(n / 10) + [48 + n % 10]
  }

  predicate AllDigits(s: seq<byte>) {
    forall i :: 0 <= i < |s| ==> IsDigit(s[i])
  }

  lemma {:induction false} DecimalDigits(n: nat)
    ensures Decimal(n) != [] && AllDigits(Decimal(n))
  {
    if n >= 10 {
      DecimalDigits(n / 10);
    }
  }

  lemma {:induction false} DigitsSplit(s: seq<byte>, t: seq<byte>, acc: nat)
    requires AllDigits(s)
    ensures DigitsFrom(s + t, acc) == DigitsFrom(t, DigitsFrom(s, acc))
    decreases |s|
  {
    if s == [] {
      assert s + t == t;
    } else {
      assert (s + t)[1..] == s[1..] + t;
      DigitsSplit(s[1..], t, acc * 10 + (s[0] - 48));
    }
  }

  lemma {:induction false} DecimalValue(n: nat)
    ensures DigitsFrom(Decimal(n), 0) == n
  {
    if n >= 10 {
      var last: seq<byte> := [48 + n % 10];
      DecimalDigits(n / 10);
      DigitsSplit(Decimal(n / 10), last, 0);
      DecimalValue(n / 10);
      assert last[1..] == [];
    }
  }

  /** A decimal number comes back from atoi whatever follows it that is not one more digit. */
  lemma DecimalRoundTrip(n: nat, d: seq<byte>)
    requires d != [] ==> !IsDigit(d[0])
    ensures Atoi(Decimal(n) + d) == n
  {
    DecimalDigits(n);
    DigitsSplit(Decimal(n), d, 0);
    DecimalValue(n);
    assert (Decimal(n) + d)[0] == Decimal(n)[0];
  }

  predicate IsToken(s: seq<byte>) {
    s != [] && forall i :: 0 <= i < |s| ==> s[i] == 45 || 65 <= s[i] <= 90 || 97 <= s[i] <= 122
  }

  /** A text that equals a token up to letter case has no byte that the scans stop at. */
  lemma TokenText(token: seq<byte>, s: seq<byte>)
    requires IsToken(token) && SameText(token, s)
    ensures Trimmed(s) && COLON !in s && NUL !in s
  {
    forall i | 0 <= i < |s|
      ensures !IsSpace(s[i]) && s[i] != COLON && s[i] != NUL
    {
      assert Lower(token[i]) == Lower(s[i]);
    }
  }

  /** A header line with `name` and `value` in it, and spaces around them. */
  function FieldLine(a: seq<byte>, name: seq<byte>, b: seq<byte>, c: seq<byte>, value: seq<byte>, d: seq<byte>)
    : seq<byte>
  {
    a + name + b + [COLON] + c + (value + d)
  }

  predicate Spaces(a: seq<byte>, b: seq<byte>, c: seq<byte>, d: seq<byte>) {
    AllSpace(a) && AllSpace(b) && AllSpace(c) && AllSpace(d)
  }

  lemma LastField(ls: seq<seq<byte>>, a: seq<byte>, name: seq<byte>, b: seq<byte>, c: seq<byte>, value: seq<byte>,
      d: seq<byte>)
    requires Spaces(a, b, c, d) && Trimmed(name) && COLON !in name && NUL !in name && Trimmed(value)
    ensures FlagsOf(ls + [FieldLine(a, name, b, c, value, d)]) == ApplyField(FlagsOf(ls), Field(name, value, value + d))
  {
    hide DecodeField, ApplyField;
    var line := FieldLine(a, name, b, c, value, d);
    FieldRoundTrip(a, name, b, c, value, d);
    assert (ls + [line])[..|ls|] == ls;
  }

  /** A last line `Transfer-Encoding: chunked` selects chunked coding and changes nothing else. */
  lemma TransferEncodingSelects(ls: seq<seq<byte>>, a: seq<byte>, name: seq<byte>, b: seq<byte>, c: seq<byte>,
      value: seq<byte>, d: seq<byte>)
    requires Spaces(a, b, c, d) && SameText(TRANSFER_ENCODING, name) && SameText(CHUNKED, value)
    ensures FlagsOf(ls + [FieldLine(a, name, b, c, value, d)]) == FlagsOf(ls).(chunked := true)
  {
    TokenText(TRANSFER_ENCODING, name);
    TokenText(CHUNKED, value);
    LastField(ls, a, name, b, c, value, d);
  }

  lemma LengthApplies(flags: Flags, name: seq<byte>, value: seq<byte>, text: seq<byte>)
    requires SameText(CONTENT_LENGTH, name)
    ensures ApplyField(flags, Field(name, value, text)) == flags.(contentLength := Atoi(text) % SIZE_MOD)
  {
  }

  /** A last line `Content-Length: n` selects a body of n bytes and changes nothing else. */
  lemma ContentLengthSelects(ls: seq<seq<byte>>, a: seq<byte>, name: seq<byte>, b: seq<byte>, c: seq<byte>,
      n: nat, d: seq<byte>)
    requires Spaces(a, b, c, d) && SameText(CONTENT_LENGTH, name) && n < 0x8000_0000
    ensures FlagsOf(ls + [FieldLine(a, name, b, c, Decimal(n), d)]) == FlagsOf(ls).(contentLength := n)
  {
    hide FlagsOf, Atoi, FieldLine, Decimal, SameText;
    TokenText(CONTENT_LENGTH, name);
    DecimalDigits(n);
    DecimalRoundTrip(n, d);
    LastField(ls, a, name, b, c, Decimal(n), d);
    LengthApplies(FlagsOf(ls), name, Decimal(n), Decimal(n) + d);
  }

  /** A last line `Connection` keeps the connection alive exactly when its value is keep-alive. */
  lemma ConnectionSelects(ls: seq<seq<byte>>, a: seq<byte>, name: seq<byte>, b: seq<byte>, c: seq<byte>,
      value: seq<byte>, d: seq<byte>)
    requires Spaces(a, b, c, d) && SameText(CONNECTION, name) && Trimmed(value)
    ensures FlagsOf(ls + [FieldLine(a, name, b, c, value, d)])
         == FlagsOf(ls).(keepAlive := SameText(KEEP_ALIVE, value))
  {
    TokenText(CONNECTION, name);
    LastField(ls, a, name, b, c, value, d);
  }
}
