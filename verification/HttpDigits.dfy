/** Numbers as the peer writes them: hex chunk sizes with digits in either letter case, and decimal lengths with a
    sign. */
module HttpDigits {
  import opened Bytes
  import opened HttpHeader
  import opened HttpFields
  import opened HttpParser
  import opened HttpFraming
  import opened HttpSizes
  import opened HttpReferences

  /** One hex digit. */
  function Digit(d: nat, upper: bool): byte
    requires d < 16
  {
    if d < 10 then 48 + d else if upper then 65 + d - 10 else 97 + d - 10
  }

  /** A number in hex; `upper` chooses the letter case of each digit, counted from the last. */
  function Hex(n: nat, upper: nat -> bool, k: nat): seq<byte> {
    if n < 16 then [Digit(n, upper(k))] else Hex(n / 16, upper, k + 1) + [Digit(n % 16, upper(k))]
  }

  predicate AllHex(s: seq<byte>) {
    forall i :: 0 <= i < |s| ==> IsHex(s[i])
  }

  lemma DigitBack(d: nat, upper: bool)
    requires d < 16
    ensures IsHex(Digit(d, upper)) && HexDigit(Digit(d, upper)) == d && !IsSpace(Digit(d, upper))
  {
  }

  lemma {:induction false} ValueSnoc(ds: seq<byte>, b: byte, acc: nat)
    requires AllHex(ds) && IsHex(b)
    ensures AllHex(ds + [b]) && HexValue(ds + [b], acc) == HexValue(ds, acc) * 16 + HexDigit(b)
    decreases |ds|
  {
    hide HexDigit, IsHex;
    if ds == [] {
      assert ds + [b] == [b] && [b][1..] == [];
    } else {
      assert (ds + [b])[1..] == ds[1..] + [b];
      ValueSnoc(ds[1..], b, acc * 16 + HexDigit(ds[0]));
    }
  }

  /** Every number comes back from its hex digits, in either letter case. */
  lemma {:induction false} HexRoundTrip(n: nat, upper: nat -> bool, k: nat)
    ensures Hex(n, upper, k) != [] && AllHex(Hex(n, upper, k)) && HexValue(Hex(n, upper, k), 0) == n
    ensures !IsSpace(Hex(n, upper, k)[0])
    decreases n
  {
    DigitBack(n % 16, upper(k));
    if n < 16 {
      assert Hex(n, upper, k)[1..] == [];
    } else {
      HexRoundTrip(n / 16, upper, k + 1);
      ValueSnoc(Hex(n / 16, upper, k + 1), Digit(n % 16, upper(k)), 0);
    }
  }

  /** No hex digit. */
  predicate EndsDigits(ext: seq<byte>) {
    ext == [] || ext[0] !in Ascii("0123456789abcdefABCDEF")
  }

  lemma HexDigitsAre(b: byte)
    ensures IsHex(b) ==> b in Ascii("0123456789abcdefABCDEF")
  {
    var all := Ascii("0123456789abcdefABCDEF");
    if IsHex(b) {
      assert all[if b <= 57 then b - 48 else if b >= 97 then b - 87 else b - 49] == b;
    }
  }

  lemma {:induction false} PrefixIs(ds: seq<byte>, ext: seq<byte>)
    requires AllHex(ds) && (ext == [] || !IsHex(ext[0]))
    ensures HexPrefix(ds + ext) == ds
    decreases |ds|
  {
    hide IsHex;
    if ds == [] {
      assert ds + ext == ext;
    } else {
      assert (ds + ext)[1..] == ds[1..] + ext;
      PrefixIs(ds[1..], ext);
    }
  }

  lemma {:induction false} SkipBlanks(blanks: seq<byte>, rest: seq<byte>)
    requires Blanks(blanks)
    ensures SizeValue(blanks + rest) == SizeValue(rest)
    decreases |blanks|
  {
    if blanks == [] {
      assert blanks + rest == rest;
    } else {
      assert (blanks + rest)[1..] == blanks[1..] + rest;
      SkipBlanks(blanks[1..], rest);
    }
  }

  /** A size line with blanks, the hex digits of a number in either letter case, and whatever is no further digit: the
      scan reads the number, modulo the word size. */
  lemma SizeRoundTrip(blanks: seq<byte>, n: nat, upper: nat -> bool, ext: seq<byte>)
    requires Blanks(blanks) && EndsDigits(ext)
    ensures var line := blanks + (Hex(n, upper, 0) + ext);
      && SizeValue(line) == n
      && ReadText(Size(0, false, false), line).value == n % 0x1_0000_0000_0000_0000
  {
    hide Hex, IsHex, IsSpace, ReadText;
    var ds := Hex(n, upper, 0);
    HexRoundTrip(n, upper, 0);
    if ext != [] {
      HexDigitsAre(ext[0]);
    }
    PrefixIs(ds, ext);
    SkipBlanks(blanks, ds + ext);
    assert (ds + ext)[0] == ds[0];
    SizeRead(blanks + (ds + ext));
  }

  /** The scan on a buffer: behind the bytes of such a line the framer has the number. */
  lemma SizeScanned(p: Parser, blanks: seq<byte>, n: nat, upper: nat -> bool, ext: seq<byte>, rest: seq<byte>)
    returns (q: Parser)
    requires Blanks(blanks) && EndsDigits(ext) && 10 !in blanks && 10 !in ext
    requires Ok(p) && p.buf[p.index..] == blanks + (Hex(n, upper, 0) + ext) + rest
    requires p.phase == ChunkHeader && p.chunkSize == 0 && !p.sizeStart && !p.sizeDone
    ensures Ok(q) && q.buf[q.index..] == rest && Run(p) == Run(q)
    ensures q.phase == ChunkHeader && q.chunkSize == n % 0x1_0000_0000_0000_0000
  {
    hide Hex, ReadText, SizeValue, Run, Ok;
    var line := blanks + (Hex(n, upper, 0) + ext);
    SizeRoundTrip(blanks, n, upper, ext);
    NoLineFeed(n, upper, 0);
    ScanSizeText(p, line, rest);
    q := Sized(p, |line|, ReadText(SizeOf(p), line));
  }

  lemma NoLineFeed(n: nat, upper: nat -> bool, k: nat)
    ensures 10 !in Hex(n, upper, k)
  {
    HexRoundTrip(n, upper, k);
    assert !IsHex(10);
  }

  /** A decimal length with a sign, and a text that is no number. */
  lemma SignedRoundTrip(n: nat, d: seq<byte>)
    requires d != [] ==> d[0] < 48 || 57 < d[0]
    ensures Atoi([45] + (Decimal(n) + d)) == -(n as int) && Atoi([43] + (Decimal(n) + d)) == n
    ensures d == [] || d[0] !in {43, 45} ==> Atoi(d) == 0
  {
    DecimalDigits(n);
    DigitsSplit(Decimal(n), d, 0);
    DecimalValue(n);
    assert ([45] + (Decimal(n) + d))[1..] == Decimal(n) + d == ([43] + (Decimal(n) + d))[1..];
  }
}
