/** What the order and the hash of addresses and pairs are, field by field. */
module NetworkOrders {
  import opened Bytes
  import opened NetworkNodes

  /** The first word that differs is smaller. */
  predicate WordsBefore(u: seq<word>, v: seq<word>)
    requires |u| == |v| == 4
  {
    exists i :: 0 <= i < 4 && u[i] < v[i] && forall j :: 0 <= j < i ==> u[j] == v[j]
  }

  /** An unset address is before all others and IPv4 before IPv6; addresses of one family are ordered by port, address
      words, flow and scope. */
  predicate Before(a: Addr, b: Addr)
    requires AddrOk(a) && AddrOk(b)
  {
    match a
    case Unset => !b.Unset?
    case V4(port, addr) => b.V6? || (b.V4? && (port < b.port || (port == b.port && addr < b.addr)))
    case V6(port, words, flow, scope) =>
      && b.V6?
      && (port < b.port
          || (port == b.port && (WordsBefore(words, b.words)
              || (words == b.words && (flow < b.flow || (flow == b.flow && scope < b.scope))))))
  }

  lemma V4Order(a: Addr, b: Addr)
    requires a.V4? && b.V4?
    ensures Lex(Key(a), Key(b)) <==> a.port < b.port || (a.port == b.port && a.addr < b.addr)
  {
    hide Lex;
    var s, t := Key(a), Key(b);
    assert s[0..] == s && t[0..] == t;
    LexNext(s, t, 0);
    LexNext(s, t, 1);
    LexNext(s, t, 2);
    LexNothing(s[3..], t[3..]);
  }

  /** Behind the family and the port, from the ith word on. */
  lemma {:induction false} WordOrder(a: Addr, b: Addr, i: nat)
    requires AddrOk(a) && AddrOk(b) && a.V6? && b.V6? && i <= 4
    requires forall j :: 0 <= j < i ==> a.words[j] == b.words[j]
    ensures |Key(a)| == |Key(b)| == 8
    ensures Lex(Key(a)[2 + i..], Key(b)[2 + i..]) <==>
      || WordsBefore(a.words, b.words)
      || (a.words == b.words && (a.flow < b.flow || (a.flow == b.flow && a.scope < b.scope)))
    decreases 4 - i
  {
    hide Lex, Key;
    var s, t := Key(a), Key(b);
    KeyV6(a);
    KeyV6(b);
    if i == 4 {
      LexNext(s, t, 6);
      LexNext(s, t, 7);
      LexNothing(s[8..], t[8..]);
      assert a.words == b.words;
    } else {
      LexNext(s, t, 2 + i);
      if a.words[i] == b.words[i] {
        WordOrder(a, b, i + 1);
      }
    }
  }

  lemma V6Order(a: Addr, b: Addr)
    requires AddrOk(a) && AddrOk(b) && a.V6? && b.V6?
    ensures Lex(Key(a), Key(b)) <==> Before(a, b)
  {
    hide Lex, Key, WordsBefore;
    KeyV6(a);
    KeyV6(b);
    var s, t := Key(a), Key(b);
    assert s[0..] == s && t[0..] == t;
    LexNext(s, t, 0);
    LexNext(s, t, 1);
    WordOrder(a, b, 0);
  }

  /** The order of addresses is the one by fields. */
  lemma AddressOrder(a: Addr, b: Addr)
    requires AddrOk(a) && AddrOk(b)
    ensures Lex(Key(a), Key(b)) <==> Before(a, b)
  {
    if a.V4? && b.V4? {
      V4Order(a, b);
    } else if a.V6? && b.V6? {
      V6Order(a, b);
    } else {
      KeyLength(a);
      KeyLength(b);
    }
  }

  /** Pairs are ordered by hash, remote address and local address. */
  lemma PairOrder(p: Pair, q: Pair)
    requires PairOk(p) && PairOk(q)
    ensures Lex(PairKey(p), PairKey(q)) <==>
      || p.hash < q.hash
      || (p.hash == q.hash && (Before(p.remote, q.remote) || (p.remote == q.remote && Before(p.local, q.local))))
  {
    hide PairHash, Lex, Key, Before;
    LexHead(p.hash, q.hash, Key(p.remote) + Key(p.local), Key(q.remote) + Key(q.local));
    AddressOrder(p.remote, q.remote);
    AddressOrder(p.local, q.local);
    if p.remote != q.remote {
      var i := KeysPart(p.remote, q.remote);
      LexPrefix(Key(p.remote), Key(q.remote), Key(p.local), Key(q.local), i);
    } else {
      LexSamePrefix(Key(p.remote), Key(p.local), Key(q.local));
      LexIrreflexive(Key(p.remote));
    }
  }

  /** The number that is reduced modulo the word size at the end. */
  function Sum(a: Addr, seed: nat): nat
    requires AddrOk(a)
  {
    match a
    case Unset => seed
    case V4(port, addr) => (seed + addr) * 65536 + port
    case V6(port, words, _, _) =>
      ((((seed + words[0]) * 65535 + words[1]) * 65535 + words[2]) * 65535 + words[3]) * 65536 + port
  }

  /** A step may reduce before or after. */
  lemma StepReduces(h: nat, n: nat, k: nat, w: nat)
    requires h == n % 0x1_0000_0000_0000_0000
    ensures HashStep(h, k, w) == (n * k + w) % 0x1_0000_0000_0000_0000
  {
    var m := 0x1_0000_0000_0000_0000;
    var q := n / m;
    assert n * k + w == m * (q * k) + (h * k + w) by {
      assert n == m * q + h;
      assert (m * q + h) * k == m * (q * k) + h * k;
    }
    SameRest(q * k, h * k + w);
  }

  lemma SameRest(q: nat, r: nat)
    ensures (0x1_0000_0000_0000_0000 * q + r) % 0x1_0000_0000_0000_0000 == r % 0x1_0000_0000_0000_0000
  {
  }

  /** The hash of an address, without the intermediate reductions and shifts: flow and scope do not count. */
  lemma HashValue(a: Addr, seed: nat)
    requires AddrOk(a) && seed < 0x1_0000_0000_0000_0000
    ensures AddrHash(a, seed) == Sum(a, seed) % 0x1_0000_0000_0000_0000
  {
    hide ShiftIn, HashStep;
    match a
    case Unset =>
    case V4(port, addr) =>
      var n := seed + addr;
      StepReduces(n % SIZE_MOD, n, 65536, port);
      ShiftIsStep(n % SIZE_MOD, port);
    case V6(port, words, _, _) => V6Value(a, seed);
  }

  lemma V6Value(a: Addr, seed: nat)
    requires AddrOk(a) && a.V6? && seed < 0x1_0000_0000_0000_0000
    ensures AddrHash(a, seed) == Sum(a, seed) % 0x1_0000_0000_0000_0000
  {
    hide ShiftIn, HashStep, AddrHash;
    var n0 := seed + a.words[0];
    var n1 := n0 * 65535 + a.words[1];
    var n2 := n1 * 65535 + a.words[2];
    var n3 := n2 * 65535 + a.words[3];
    V6HashIs(a, seed);
    StepReduces(seed, seed, 1, a.words[0]);
    StepReduces(n0 % SIZE_MOD, n0, 65535, a.words[1]);
    StepReduces(n1 % SIZE_MOD, n1, 65535, a.words[2]);
    StepReduces(n2 % SIZE_MOD, n2, 65535, a.words[3]);
    ShiftIsStep(n3 % SIZE_MOD, a.port);
    StepReduces(n3 % SIZE_MOD, n3, 65536, a.port);
  }

  /** The hash of a pair: the local address first, then the remote one, from 0 for TCP and from 31 for UDP. */
  lemma PairHashValue(protocol: Protocol, local: Addr, remote: Addr)
    requires AddrOk(local) && AddrOk(remote)
    ensures PairHash(protocol, local, remote)
      == Sum(remote, Sum(local, if protocol == Udp then 31 else 0) % 0x1_0000_0000_0000_0000)
        % 0x1_0000_0000_0000_0000
  {
    hide AddrHash, Sum;
    PairHashes(local, remote);
    var seed := if protocol == Udp then 31 else 0;
    HashValue(local, seed);
    HashValue(remote, Sum(local, seed) % 0x1_0000_0000_0000_0000);
  }

  /** Different IPv4 addresses or ports never share a hash. */
  lemma V4HashInjective(a: Addr, b: Addr, seed: nat)
    requires a.V4? && b.V4? && seed < 0x1_0000_0000_0000_0000
    ensures AddrHash(a, seed) == AddrHash(b, seed) <==> a == b
  {
    hide AddrHash, Sum;
    HashValue(a, seed);
    HashValue(b, seed);
    SumV4(a, seed);
    SumV4(b, seed);
    if AddrHash(a, seed) == AddrHash(b, seed) {
      Apart16(seed + a.addr, a.port, seed + b.addr, b.port);
      SmallEqual(a.addr, b.addr);
    }
  }

  lemma SumV4(a: Addr, seed: nat)
    requires a.V4?
    ensures Sum(a, seed) == (seed + a.addr) * 65536 + a.port
  {
  }

  lemma Apart16(x: nat, p: port, y: nat, q: port)
    requires (x * 65536 + p) % SIZE_MOD == (y * 65536 + q) % SIZE_MOD
    ensures p == q && (x - y) % 0x1_0000_0000_0000 == 0
  {
  }

  /** Two IPv6 addresses that differ in the port never share a hash. */
  lemma V6PortCounts(a: Addr, b: Addr, seed: nat)
    requires AddrOk(a) && AddrOk(b) && a.V6? && b.V6? && seed < 0x1_0000_0000_0000_0000
    ensures AddrHash(a, seed) == AddrHash(b, seed) ==> a.port == b.port
  {
    hide AddrHash, WordSum, Sum;
    HashValue(a, seed);
    HashValue(b, seed);
    SumV6(a, seed);
    SumV6(b, seed);
    if AddrHash(a, seed) == AddrHash(b, seed) {
      Apart16(WordSum(a.words, seed), a.port, WordSum(b.words, seed), b.port);
    }
  }

  const HIGH: nat := 0x1_0000_0000_0000

  lemma SmallDistance(d: int)
    requires -0x1_0000_0000 < d < 0x1_0000_0000 && d != 0
    ensures d % HIGH != 0
  {
  }

  /** A factor that has an inverse can be cancelled. */
  lemma Cancels(c: int, inverse: int, k: int, d: int)
    requires c * inverse == HIGH * k + 1 && (c * d) % HIGH == 0
    ensures d % HIGH == 0
  {
    var q := c * d / HIGH;
    assert c * d == HIGH * q;
    CancelBy(c, inverse, k, d, q);
    Multiple(inverse * q - k * d);
  }

  lemma CancelBy(c: int, inverse: int, k: int, d: int, q: int)
    requires c * inverse == HIGH * k + 1 && c * d == HIGH * q
    ensures d == HIGH * (inverse * q - k * d)
  {
    assert inverse * (c * d) == (c * inverse) * d;
    assert (HIGH * k + 1) * d == HIGH * (k * d) + d;
    assert inverse * (HIGH * q) == HIGH * (inverse * q);
  }

  lemma Multiple(k: int)
    ensures (HIGH * k) % HIGH == 0
  {
  }

  /** What the ith word counts in the hash: a power of 65535, which is odd. */
  function Factor(i: nat): (r: nat)
    requires i < 4
  {
    if i == 3 then 1 else if i == 2 then 65535 else if i == 1 then 65535 * 65535 else 65535 * 65535 * 65535
  }

  lemma FactorCancels(i: nat, d: int)
    requires i < 4 && (Factor(i) * d) % HIGH == 0
    ensures d % HIGH == 0
  {
    match i
    case 3 =>
    case 2 => Cancels(65535, 0xfffefffeffff, 65534, d);
    case 1 => Cancels(65535 * 65535, 0x300020001, 196604, d);
    case 0 => Cancels(65535 * 65535 * 65535, 0xfff9fffcffff, 281436323184629, d);
  }

  function WordSum(words: seq<word>, seed: nat): nat
    requires |words| == 4
  {
    (((seed + words[0]) * 65535 + words[1]) * 65535 + words[2]) * 65535 + words[3]
  }

  lemma WordDistance(u: seq<word>, v: seq<word>, seed: nat, i: nat)
    requires |u| == |v| == 4 && i < 4 && forall j :: 0 <= j < 4 && j != i ==> u[j] == v[j]
    ensures WordSum(u, seed) - WordSum(v, seed) == Factor(i) * (u[i] as int - v[i])
  {
  }

  /** Nor do two that differ in one address word. */
  lemma V6WordCounts(a: Addr, b: Addr, seed: nat, i: nat)
    requires AddrOk(a) && AddrOk(b) && a.V6? && b.V6? && seed < 0x1_0000_0000_0000_0000
    requires i < 4 && forall j :: 0 <= j < 4 && j != i ==> a.words[j] == b.words[j]
    ensures AddrHash(a, seed) == AddrHash(b, seed) ==> a.words[i] == b.words[i]
  {
    hide AddrHash, Factor, WordSum, Sum;
    HashValue(a, seed);
    HashValue(b, seed);
    SumV6(a, seed);
    SumV6(b, seed);
    if AddrHash(a, seed) == AddrHash(b, seed) {
      Apart16(WordSum(a.words, seed), a.port, WordSum(b.words, seed), b.port);
      WordDistance(a.words, b.words, seed, i);
      FactorCancels(i, a.words[i] as int - b.words[i]);
      SmallEqual(a.words[i], b.words[i]);
    }
  }

  lemma SmallEqual(x: word, y: word)
    requires (x as int - y) % HIGH == 0
    ensures x == y
  {
    if x != y {
      SmallDistance(x as int - y);
    }
  }

  lemma SumV6(a: Addr, seed: nat)
    requires AddrOk(a) && a.V6?
    ensures Sum(a, seed) == WordSum(a.words, seed) * 65536 + a.port
  {
  }
}
