/** Socket addresses and pairs of them: comparison, hashing in `size_t` arithmetic, and the equality of pairs that
    trusts the hash to tell the protocols apart. */
module NetworkNodes {
  import opened Bytes

  type word = w: int | 0 <= w < 0x1_0000_0000
  type port = p: int | 0 <= p < 0x1_0000

  /** An address that is not set has family 0. Ports and address words are in network order, as stored. */
  datatype Addr =
    | Unset
    | V4(port: port, addr: word)
    | V6(port: port, words: seq<word>, flow: word, scope: word)

  predicate AddrOk(a: Addr) {
    a.V6? ==> |a.words| == 4
  }

  const AF_INET: nat := 2
  const AF_INET6: nat := 10

  function Family(a: Addr): nat {
    match a
    case Unset => 0
    case V4(_, _) => AF_INET
    case V6(_, _, _, _) => AF_INET6
  }

  /** The lexicographic order of sequences. */
  predicate Lex(s: seq<nat>, t: seq<nat>) {
    if s == [] || t == [] then s == [] && t != []
    else if s[0] != t[0] then s[0] < t[0]
    else Lex(s[1..], t[1..])
  }

  /** Everything `operator<` looks at, in its order. */
  function Key(a: Addr): seq<nat> {
    match a
    case Unset => [Family(a)]
    case V4(port, addr) => [Family(a), port, addr]
    case V6(port, words, flow, scope) => [Family(a), port] + Naturals(words) + [flow, scope]
  }

  function Naturals(ws: seq<word>): seq<nat> {
    seq(|ws|, i requires 0 <= i < |ws| => ws[i])
  }

  /** Where `operator<` stands after `i` equal entries. */
  lemma LexNext(s: seq<nat>, t: seq<nat>, i: nat)
    requires i < |s| && i < |t|
    ensures Lex(s[i..], t[i..]) == if s[i] != t[i] then s[i] < t[i] else Lex(s[i + 1..], t[i + 1..])
  {
    assert s[i..][1..] == s[i + 1..] && t[i..][1..] == t[i + 1..];
  }

  lemma KeyV6(a: Addr)
    requires AddrOk(a) && a.V6?
    ensures var k := Key(a);
      |k| == 8 && k[0] == AF_INET6 && k[1] == a.port && k[6] == a.flow && k[7] == a.scope
      && forall i :: 0 <= i < 4 ==> k[2 + i] == a.words[i]
  {
  }

  /** The comparison of two IPv6 addresses, with its loop over the four words. */
  method V6Less(a: Addr, b: Addr) returns (r: bool)
    requires AddrOk(a) && AddrOk(b) && a.V6? && b.V6?
    ensures r <==> Lex(Key(a), Key(b))
  {
    hide Lex, Key;
    ghost var s, t := Key(a), Key(b);
    KeyV6(a);
    KeyV6(b);
    assert s[0..] == s && t[0..] == t;
    LexNext(s, t, 0);
    LexNext(s, t, 1);
    if a.port != b.port {
      return a.port < b.port;
    }
    for i := 0 to 4
      invariant Lex(s, t) == Lex(s[2 + i..], t[2 + i..])
    {
      LexNext(s, t, 2 + i);
      if a.words[i] != b.words[i] {
        return a.words[i] < b.words[i];
      }
    }
    LexNext(s, t, 6);
    if a.flow != b.flow {
      return a.flow < b.flow;
    }
    LexNext(s, t, 7);
    LexNothing(s[8..], t[8..]);
    return a.scope < b.scope;
  }

  lemma LexNothing(s: seq<nat>, t: seq<nat>)
    requires s == [] && t == []
    ensures !Lex(s, t)
  {
  }

  /** Csockaddr::operator<. */
  method AddrLess(a: Addr, b: Addr) returns (r: bool)
    requires AddrOk(a) && AddrOk(b)
    ensures r <==> Lex(Key(a), Key(b))
  {
    if Family(a) != Family(b) {
      return Family(a) < Family(b);
    }
    match a {
      case Unset =>
        return false;
      case V4(port, addr) =>
        var s, t := Key(a), Key(b);
        assert s[0..] == s && t[0..] == t;
        LexNext(s, t, 0);
        LexNext(s, t, 1);
        LexNext(s, t, 2);
        if port != b.port {
          return port < b.port;
        }
        return addr < b.addr;
      case V6(_, _, _, _) =>
        r := V6Less(a, b);
    }
  }

  /** Csockaddr::operator==, with its loop over the four words of an IPv6 address. */
  method AddrEqual(a: Addr, b: Addr) returns (r: bool)
    requires AddrOk(a) && AddrOk(b)
    ensures r <==> a == b
  {
    if Family(a) != Family(b) {
      return false;
    }
    match a {
      case Unset =>
        return true;
      case V4(port, addr) =>
        return port == b.port && addr == b.addr;
      case V6(port, words, flow, scope) =>
        if port != b.port {
          return false;
        }
        for i := 0 to 4
          invariant forall j :: 0 <= j < i ==> words[j] == b.words[j]
        {
          if words[i] != b.words[i] {
            return false;
          }
        }
        assert words == b.words by {
          assert |words| == |b.words| == 4;
        }
        return flow == b.flow && scope == b.scope;
    }
  }

  lemma {:induction false} KeyInjective(a: Addr, b: Addr)
    requires AddrOk(a) && AddrOk(b) && Key(a) == Key(b)
    ensures a == b
  {
    assert Key(a)[0] == Key(b)[0];
    match a
    case Unset =>
    case V4(_, _) => assert Key(a)[1] == Key(b)[1] && Key(a)[2] == Key(b)[2];
    case V6(_, _, _, _) =>
      KeyV6(a);
      KeyV6(b);
      assert forall i :: 0 <= i < 4 ==> a.words[i] == Key(a)[2 + i] == b.words[i];
      assert a.words == b.words;
  }

  lemma {:induction false} LexIrreflexive(s: seq<nat>)
    ensures !Lex(s, s)
    decreases |s|
  {
    if s != [] {
      LexIrreflexive(s[1..]);
    }
  }

  lemma {:induction false} LexTransitive(s: seq<nat>, t: seq<nat>, u: seq<nat>)
    requires Lex(s, t) && Lex(t, u)
    ensures Lex(s, u)
    decreases |s|
  {
    if s != [] && s[0] == t[0] == u[0] {
      LexTransitive(s[1..], t[1..], u[1..]);
    }
  }

  lemma {:induction false} LexTotal(s: seq<nat>, t: seq<nat>)
    requires s != t
    ensures Lex(s, t) || Lex(t, s)
    decreases |s|
  {
    if s != [] && t != [] && s[0] == t[0] {
      assert s == [s[0]] + s[1..] && t == [t[0]] + t[1..];
      LexTotal(s[1..], t[1..]);
    }
  }

  lemma {:induction false} LexSamePrefix(k: seq<nat>, r: seq<nat>, r': seq<nat>)
    ensures Lex(k + r, k + r') == Lex(r, r')
    decreases |k|
  {
    if k == [] {
      assert k + r == r && k + r' == r';
    } else {
      assert (k + r)[1..] == k[1..] + r && (k + r')[1..] == k[1..] + r';
      LexSamePrefix(k[1..], r, r');
    }
  }

  lemma {:induction false} LexPrefix(k: seq<nat>, k': seq<nat>, r: seq<nat>, r': seq<nat>, i: nat)
    requires i < |k| && i < |k'| && k[i] != k'[i]
    ensures Lex(k + r, k' + r') == Lex(k, k')
    decreases i
  {
    if k[0] == k'[0] {
      assert (k + r)[1..] == k[1..] + r && (k' + r')[1..] == k'[1..] + r';
      LexPrefix(k[1..], k'[1..], r, r', i - 1);
    }
  }

  lemma KeyLength(a: Addr)
    requires AddrOk(a)
    ensures |Key(a)| == if a.Unset? then 1 else if a.V4? then 3 else 8
    ensures Key(a)[0] == Family(a)
  {
  }

  /** Keys of different addresses differ where both have an entry. */
  lemma KeysPart(a: Addr, b: Addr) returns (i: nat)
    requires AddrOk(a) && AddrOk(b) && a != b
    ensures i < |Key(a)| && i < |Key(b)| && Key(a)[i] != Key(b)[i]
  {
    KeyLength(a);
    KeyLength(b);
    if Family(a) != Family(b) {
      return 0;
    }
    if forall j :: 0 <= j < |Key(a)| ==> Key(a)[j] == Key(b)[j] {
      assert Key(a) == Key(b);
      KeyInjective(a, b);
    }
    i :| 0 <= i < |Key(a)| && Key(a)[i] != Key(b)[i];
  }

  /** The bitwise or of two numbers. */
  function Or(x: nat, y: nat): nat {
    if x == 0 && y == 0 then 0
    else 2 * Or(x / 2, y / 2) + (if x % 2 == 1 || y % 2 == 1 then 1 else 0)
  }

  lemma {:induction false} OrZero(x: nat)
    ensures Or(x, 0) == x
  {
    if x != 0 {
      OrZero(x / 2);
    }
  }

  lemma HalfShifted(x: nat, k: nat, p: nat)
    requires k > 0 && p < Pow2(k)
    ensures x * Pow2(k) == 2 * (x * Pow2(k - 1)) && p / 2 < Pow2(k - 1)
  {
    assert x * (2 * Pow2(k - 1)) == 2 * (x * Pow2(k - 1));
  }

  /** Or with a number that fits into the low `k` bits, which a shift has cleared, is an addition. */
  lemma {:induction false} OrIsPlus(x: nat, k: nat, p: nat)
    requires p < Pow2(k)
    ensures Or(x * Pow2(k), p) == x * Pow2(k) + p
    decreases k
  {
    if k == 0 {
      OrZero(x);
    } else {
      HalfShifted(x, k, p);
      var n := x * Pow2(k - 1);
      OrIsPlus(x, k - 1, p / 2);
      assert x * Pow2(k) == 2 * n;
      HalfOr(n, p);
    }
  }

  lemma HalfOr(n: nat, p: nat)
    requires Or(n, p / 2) == n + p / 2
    ensures Or(2 * n, p) == 2 * n + p
  {
    assert (2 * n) / 2 == n && (2 * n) % 2 == 0;
  }

  /** hash << 16 | port, on 64 bits. */
  function ShiftIn(hash: nat, p: port): nat {
    Or((hash * 0x1_0000) % SIZE_MOD, p)
  }

  lemma Pow2Is16()
    ensures Pow2(16) == 0x1_0000
  {
    assert Pow2(4) == 16;
    assert Pow2(8) == 256;
    assert Pow2(12) == 4096;
  }

  lemma ShiftInIsPlus(hash: nat, p: port)
    ensures ShiftIn(hash, p) == (hash * 0x1_0000) % SIZE_MOD + p
  {
    hide Or;
    Pow2Is16();
    var high := hash % 0x1_0000_0000_0000;
    ShiftedMod(hash);
    OrIsPlus(high, 16, p);
  }

  lemma ShiftedMod(hash: nat)
    ensures (hash * 0x1_0000) % SIZE_MOD == (hash % 0x1_0000_0000_0000) * 0x1_0000
  {
  }

  /** Csockaddr::getHash. */
  function AddrHash(a: Addr, seed: nat): nat
    requires AddrOk(a)
  {
    match a
    case Unset => (seed + Family(a)) % SIZE_MOD
    case V4(port, addr) => ShiftIn((seed + addr) % SIZE_MOD, port)
    case V6(port, words, _, _) =>
      var h0 := (seed + words[0]) % SIZE_MOD;
      var h1 := (h0 * 0xFFFF + words[1]) % SIZE_MOD;
      var h2 := (h1 * 0xFFFF + words[2]) % SIZE_MOD;
      var h3 := (h2 * 0xFFFF + words[3]) % SIZE_MOD;
      ShiftIn(h3, port)
  }

  datatype Protocol = Tcp | Udp

  function Number(p: Protocol): nat {
    if p == Tcp then 0 else 1
  }

  /** CnetworkPair::rehash. */
  function PairHash(protocol: Protocol, local: Addr, remote: Addr): nat
    requires AddrOk(local) && AddrOk(remote)
  {
    AddrHash(remote, AddrHash(local, Number(protocol) * 31))
  }

  /** Congruence modulo the word size. */
  predicate Same(x: int, y: int) {
    (x - y) % SIZE_MOD == 0
  }

  lemma ModSame(n: int)
    ensures Same(n % SIZE_MOD, n)
  {
  }

  lemma MultipleIsZero(k: int, q: int)
    ensures (SIZE_MOD * (k * q)) % SIZE_MOD == 0
  {
  }

  lemma SameTimes(x: int, y: int, k: int)
    requires Same(x, y)
    ensures Same(k * x, k * y)
  {
    var q := (x - y) / SIZE_MOD;
    assert k * x - k * y == SIZE_MOD * (k * q) by {
      assert x - y == SIZE_MOD * q;
      assert k * x - k * y == k * (x - y);
      assert k * (SIZE_MOD * q) == SIZE_MOD * (k * q);
    }
    MultipleIsZero(k, q);
  }

  lemma SameTrans(x: int, y: int, z: int)
    requires Same(x, y) && Same(y, z)
    ensures Same(x, z) && Same(y, x)
  {
  }

  /** One step of the hash. */
  function HashStep(h: nat, k: nat, w: nat): nat {
    (h * k + w) % SIZE_MOD
  }

  /** A step multiplies the distance of two seeds by `k`. */
  lemma StepDistance(x: nat, y: nat, d: int, k: nat, w: nat)
    requires Same(x, y + d)
    ensures Same(HashStep(x, k, w), HashStep(y, k, w) + k * d)
  {
    hide Same;
    SameTimes(x, y + d, k);
    assert k * (y + d) == y * k + k * d && k * x == x * k;
    SamePlus(x * k, y * k + k * d, w);
    ModSame(x * k + w);
    ModSame(y * k + w);
    SamePlus((y * k + w) % SIZE_MOD, y * k + w, k * d);
    SameTrans((y * k + w) % SIZE_MOD + k * d, y * k + w + k * d, y * k + w + k * d);
    SameTrans((x * k + w) % SIZE_MOD, x * k + w, y * k + k * d + w);
    SameTrans((x * k + w) % SIZE_MOD, y * k + k * d + w, (y * k + w) % SIZE_MOD + k * d);
  }

  lemma SamePlus(x: int, y: int, w: int)
    requires Same(x, y)
    ensures Same(x + w, y + w)
  {
  }

  lemma ShiftIsStep(h: nat, p: port)
    ensures ShiftIn(h, p) == HashStep(h, 0x1_0000, p)
  {
    hide ShiftIn;
    ShiftInIsPlus(h, p);
    ShiftedMod(h);
  }

  function Scale(a: Addr): nat {
    match a
    case Unset => 1
    case V4(_, _) => 0x1_0000
    case V6(_, _, _, _) => 0xFFFF * 0xFFFF * 0xFFFF * 0x1_0000
  }

  lemma ShiftDistance(x: nat, y: nat, d: int, p: port)
    requires Same(x, y + d)
    ensures Same(ShiftIn(x, p), ShiftIn(y, p) + 0x1_0000 * d)
  {
    hide Same, ShiftIn, HashStep;
    StepDistance(x, y, d, 0x1_0000, p);
    ShiftIsStep(x, p);
    ShiftIsStep(y, p);
  }

  function V6Steps(a: Addr, seed: nat): nat
    requires AddrOk(a) && a.V6?
  {
    var h1 := HashStep(HashStep(seed, 1, a.words[0]), 0xFFFF, a.words[1]);
    HashStep(HashStep(h1, 0xFFFF, a.words[2]), 0xFFFF, a.words[3])
  }

  lemma V6HashIs(a: Addr, seed: nat)
    requires AddrOk(a) && a.V6?
    ensures AddrHash(a, seed) == ShiftIn(V6Steps(a, seed), a.port)
  {
    hide ShiftIn;
  }

  lemma V6Distance(a: Addr, x: nat, y: nat, d: int)
    requires AddrOk(a) && a.V6? && Same(x, y + d)
    ensures Same(AddrHash(a, x), AddrHash(a, y) + Scale(a) * d)
  {
    hide Same, ShiftIn, HashStep, AddrHash;
    var x0, y0 := HashStep(x, 1, a.words[0]), HashStep(y, 1, a.words[0]);
    var x1, y1 := HashStep(x0, 0xFFFF, a.words[1]), HashStep(y0, 0xFFFF, a.words[1]);
    var x2, y2 := HashStep(x1, 0xFFFF, a.words[2]), HashStep(y1, 0xFFFF, a.words[2]);
    StepDistance(x, y, d, 1, a.words[0]);
    StepDistance(x0, y0, d, 0xFFFF, a.words[1]);
    StepDistance(x1, y1, 0xFFFF * d, 0xFFFF, a.words[2]);
    StepDistance(x2, y2, 0xFFFF * (0xFFFF * d), 0xFFFF, a.words[3]);
    ShiftDistance(V6Steps(a, x), V6Steps(a, y), 0xFFFF * (0xFFFF * (0xFFFF * d)), a.port);
    V6HashIs(a, x);
    V6HashIs(a, y);
  }

  /** Hashing an address multiplies the distance of two seeds by a number that depends on its family only. */
  lemma HashDistance(a: Addr, x: nat, y: nat, d: int)
    requires AddrOk(a) && Same(x, y + d)
    ensures Same(AddrHash(a, x), AddrHash(a, y) + Scale(a) * d)
  {
    hide Same, ShiftIn;
    match a
    case Unset => StepDistance(x, y, d, 1, 0);
    case V4(port, addr) =>
      StepDistance(x, y, d, 1, addr);
      ShiftDistance(HashStep(x, 1, addr), HashStep(y, 1, addr), d, port);
    case V6(_, _, _, _) => V6Distance(a, x, y, d);
  }

  lemma ScalesDoNotVanish(a: Addr, b: Addr)
    ensures (Scale(b) * (Scale(a) * 31)) % SIZE_MOD != 0
  {
  }

  /** Equal addresses under different protocols never have the same hash, whatever the families. */
  lemma ProtocolsHashApart(local: Addr, remote: Addr)
    requires AddrOk(local) && AddrOk(remote)
    ensures PairHash(Tcp, local, remote) != PairHash(Udp, local, remote)
  {
    assert Same(31, 0 + 31);
    PairHashes(local, remote);
    ScalesDoNotVanish(local, remote);
    hide Same, AddrHash, Scale, PairHash;
    var x, y, d := AddrHash(local, 31), AddrHash(local, 0), Scale(local) * 31;
    HashDistance(local, 31, 0, 31);
    HashDistance(remote, x, y, d);
    Apart(AddrHash(remote, x), AddrHash(remote, y), Scale(remote) * d);
  }

  lemma PairHashes(local: Addr, remote: Addr)
    requires AddrOk(local) && AddrOk(remote)
    ensures PairHash(Udp, local, remote) == AddrHash(remote, AddrHash(local, 31))
    ensures PairHash(Tcp, local, remote) == AddrHash(remote, AddrHash(local, 0))
  {
    hide AddrHash;
  }

  lemma Apart(x: nat, y: nat, d: int)
    requires Same(x, y + d) && d % SIZE_MOD != 0
    ensures x != y
  {
  }

  datatype Pair = Pair(protocol: Protocol, local: Addr, remote: Addr, hash: nat)

  predicate PairOk(p: Pair) {
    AddrOk(p.local) && AddrOk(p.remote) && p.hash == PairHash(p.protocol, p.local, p.remote)
  }

  /** CnetworkPair::operator==, which does not look at the protocol. */
  method PairEqual(p: Pair, q: Pair) returns (r: bool)
    requires PairOk(p) && PairOk(q)
    ensures r <==> p == q
  {
    hide PairHash;
    EqualWithoutProtocol(p, q);
    if p.hash != q.hash {
      return false;
    }
    var remotes := AddrEqual(p.remote, q.remote);
    if !remotes {
      return false;
    }
    r := AddrEqual(p.local, q.local);
  }

  /** Comparing hashes and addresses is comparing everything, the protocol included. */
  lemma EqualWithoutProtocol(p: Pair, q: Pair)
    requires PairOk(p) && PairOk(q)
    ensures p.hash == q.hash && p.remote == q.remote && p.local == q.local <==> p == q
  {
    hide PairHash;
    assert p.protocol != q.protocol ==>
      (p.protocol == Tcp && q.protocol == Udp) || (p.protocol == Udp && q.protocol == Tcp);
    if p.remote == q.remote && p.local == q.local {
      ProtocolsHashApart(p.local, p.remote);
    }
  }

  /** What `operator<` orders pairs by. */
  function PairKey(p: Pair): seq<nat> {
    [p.hash] + (Key(p.remote) + Key(p.local))
  }

  /** CnetworkPair::operator<. */
  method PairLess(p: Pair, q: Pair) returns (r: bool)
    requires PairOk(p) && PairOk(q)
    ensures r <==> Lex(PairKey(p), PairKey(q))
  {
    hide PairHash, Lex, Key;
    LexHead(p.hash, q.hash, Key(p.remote) + Key(p.local), Key(q.remote) + Key(q.local));
    if p.hash != q.hash {
      return p.hash < q.hash;
    }
    var remotes := AddrEqual(p.remote, q.remote);
    if !remotes {
      ghost var i := KeysPart(p.remote, q.remote);
      LexPrefix(Key(p.remote), Key(q.remote), Key(p.local), Key(q.local), i);
      r := AddrLess(p.remote, q.remote);
      return;
    }
    LexSamePrefix(Key(p.remote), Key(p.local), Key(q.local));
    r := AddrLess(p.local, q.local);
  }

  lemma LexHead(x: nat, y: nat, s: seq<nat>, t: seq<nat>)
    ensures Lex([x] + s, [y] + t) == if x != y then x < y else Lex(s, t)
  {
    assert ([x] + s)[1..] == s && ([y] + t)[1..] == t;
  }

  lemma KeysSplit(r: Addr, l: Addr, r': Addr, l': Addr)
    requires AddrOk(r) && AddrOk(r') && Key(r) + Key(l) == Key(r') + Key(l')
    ensures r == r'
  {
    hide Key;
    if r != r' {
      var i := KeysPart(r, r');
      PartedConcat(Key(r), Key(r'), Key(l), Key(l'), i);
    }
  }

  lemma PartedConcat(k: seq<nat>, k': seq<nat>, l: seq<nat>, l': seq<nat>, i: nat)
    requires i < |k| && i < |k'| && k[i] != k'[i]
    ensures k + l != k' + l'
  {
    assert (k + l)[i] == k[i] && (k' + l')[i] == k'[i];
  }

  /** Different pairs have different keys. */
  lemma PairKeyInjective(p: Pair, q: Pair)
    requires PairOk(p) && PairOk(q) && PairKey(p) == PairKey(q)
    ensures p == q
  {
    hide PairHash, Key;
    assert PairKey(p)[0] == PairKey(q)[0] && PairKey(p)[1..] == PairKey(q)[1..];
    assert Key(p.remote) + Key(p.local) == Key(q.remote) + Key(q.local);
    KeysSplit(p.remote, p.local, q.remote, q.local);
    assert Key(p.local) == (Key(p.remote) + Key(p.local))[|Key(p.remote)|..];
    assert Key(q.local) == (Key(q.remote) + Key(q.local))[|Key(q.remote)|..];
    KeyInjective(p.local, q.local);
    EqualWithoutProtocol(p, q);
  }

  /** `operator<` is a strict total order, and it orders exactly the pairs that `operator==` tells apart. */
  lemma PairsAreOrdered(p: Pair, q: Pair, r: Pair)
    requires PairOk(p) && PairOk(q) && PairOk(r)
    ensures !Lex(PairKey(p), PairKey(p))
    ensures Lex(PairKey(p), PairKey(q)) && Lex(PairKey(q), PairKey(r)) ==> Lex(PairKey(p), PairKey(r))
    ensures p != q <==> Lex(PairKey(p), PairKey(q)) || Lex(PairKey(q), PairKey(p))
  {
    hide PairHash, PairKey, Lex;
    LexIrreflexive(PairKey(p));
    if Lex(PairKey(p), PairKey(q)) && Lex(PairKey(q), PairKey(r)) {
      LexTransitive(PairKey(p), PairKey(q), PairKey(r));
    }
    if p != q {
      if PairKey(p) == PairKey(q) {
        PairKeyInjective(p, q);
      }
      LexTotal(PairKey(p), PairKey(q));
    }
  }

  /** The object with its setters. */
  class NetworkPair {
    var protocol: Protocol
    var local: Addr
    var remote: Addr
    var hash: nat

    ghost function Abs(): Pair
      reads this
    {
      Pair(protocol, local, remote, hash)
    }

    ghost predicate Valid()
      reads this
    {
      PairOk(Abs())
    }

    /** The default constructor sets the hash to 0 without computing it. */
    constructor ()
      ensures Valid() && protocol == Tcp && local == Unset && remote == Unset
    {
      protocol, local, remote, hash := Tcp, Unset, Unset, 0;
    }

    constructor Of(protocol: Protocol, local: Addr, remote: Addr)
      requires AddrOk(local) && AddrOk(remote)
      ensures Valid() && this.protocol == protocol && this.local == local && this.remote == remote
    {
      this.protocol, this.local, this.remote := protocol, local, remote;
      hash := PairHash(protocol, local, remote);
    }

    method Rehash()
      requires AddrOk(local) && AddrOk(remote)
      modifies this`hash
      ensures Valid()
    {
      hash := PairHash(protocol, local, remote);
    }

    method SetProtocol(p: Protocol)
      requires Valid()
      modifies this`protocol, this`hash
      ensures Valid() && protocol == p
    {
      protocol := p;
      Rehash();
    }

    method SetLocal(a: Addr)
      requires Valid() && AddrOk(a)
      modifies this`local, this`hash
      ensures Valid() && local == a
    {
      local := a;
      Rehash();
    }

    method SetRemote(a: Addr)
      requires Valid() && AddrOk(a)
      modifies this`remote, this`hash
      ensures Valid() && remote == a
    {
      remote := a;
      Rehash();
    }

    /** The assignment operators copy addresses and hash but not the protocol, so the hash is right afterwards exactly
        when the protocols were equal. */
    method Assign(another: NetworkPair)
      requires Valid() && another.Valid()
      modifies this
      ensures Abs() == old(another.Abs()).(protocol := old(protocol))
      ensures Valid() <==> old(protocol == another.protocol)
    {
      hide PairHash;
      AssignedHash(Abs(), another.Abs());
      local, remote, hash := another.local, another.remote, another.hash;
    }
  }

  lemma AssignedHash(p: Pair, q: Pair)
    requires PairOk(q)
    ensures PairOk(q.(protocol := p.protocol)) <==> p.protocol == q.protocol
  {
    hide PairHash;
    ProtocolsHashApart(q.local, q.remote);
  }
}
