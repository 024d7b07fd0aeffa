/** The loop of merge that doubles the target size until the queued bytes fit, in `size_t` arithmetic. */
module Doublings {
  import opened Bytes

  /** Half of the range of `size_t`. */
  const HALF: nat := SIZE_MOD / 2

  /** The target after `k` rounds. */
  function Doubled(n: nat, k: nat): nat {
    if k == 0 then n else Doubled(n, k - 1) * 2 % SIZE_MOD
  }

  /** The loop stops in front of round `k`: the difference of target and received length, which wraps, is enough. */
  predicate Stops(n: nat, now: nat, total: nat, k: nat) {
    (Doubled(n, k) - now) % SIZE_MOD >= total
  }

  ghost predicate LoopEnds(n: nat, now: nat, total: nat) {
    exists k: nat :: Stops(n, now, total, k)
  }

  /** The loop goes through exactly `k` rounds. */
  predicate Rounds(n: nat, now: nat, total: nat, k: nat) {
    Stops(n, now, total, k) && forall j: nat :: j < k ==> !Stops(n, now, total, j)
  }

  /** It ends with room for the received and the queued bytes. */
  ghost predicate EndsWithRoom(n: nat, now: nat, total: nat) {
    exists k: nat :: Rounds(n, now, total, k) && Doubled(n, k) >= now + total
  }

  /** A buffer of size 0 stays at 0 for ever. */
  lemma {:induction false} ZeroStays(k: nat)
    ensures Doubled(0, k) == 0
  {
    if k > 0 {
      ZeroStays(k - 1);
    }
  }

  /** The failure: an initial size of 0, which the constructor accepts, and any byte in the queue. */
  lemma ZeroNeverEnds(total: nat)
    requires 0 < total < SIZE_MOD
    ensures !LoopEnds(0, 0, total)
  {
    forall k: nat
      ensures !Stops(0, 0, total, k)
    {
      ZeroStays(k);
    }
  }

  /** As long as nothing wraps, every target so far was too small, and the next one is twice as large. */
  lemma {:induction false} RoomFrom(n: nat, now: nat, total: nat, k: nat) returns (r: nat)
    requires now <= n && now + total <= HALF
    requires now <= Doubled(n, k) < SIZE_MOD && Doubled(n, k) > 0
    requires forall j: nat :: j < k ==> !Stops(n, now, total, j)
    ensures Rounds(n, now, total, r) && Doubled(n, r) >= now + total
    decreases SIZE_MOD - Doubled(n, k)
  {
    var t := Doubled(n, k);
    if t - now >= total {
      r := k;
    } else {
      assert Doubled(n, k + 1) == t * 2;
      r := RoomFrom(n, now, total, k + 1);
    }
  }

  /** For sizes up to 2^63 the loop ends exactly if the length is above 0, and then with room. */
  lemma EndsIffPositive(n: nat, now: nat, total: nat)
    requires now <= n <= HALF && 0 < total && now + total <= HALF
    ensures LoopEnds(n, now, total) <==> n > 0
    ensures EndsWithRoom(n, now, total) <==> n > 0
  {
    if n == 0 {
      ZeroNeverEnds(total);
    } else {
      var k := RoomFrom(n, now, total, 0);
    }
  }

  lemma {:induction false} DoubledIs(n: nat, k: nat)
    requires n < SIZE_MOD
    ensures Doubled(n, k) == n * Pow2(k) % SIZE_MOD
  {
    if k > 0 {
      DoubledIs(n, k - 1);
      TwiceMod(n * Pow2(k - 1));
      TwicePow2(n, k);
    }
  }

  lemma TwicePow2(n: nat, k: nat)
    requires k > 0
    ensures n * Pow2(k) == 2 * (n * Pow2(k - 1))
  {
    Exchange(n, Pow2(k - 1));
  }

  lemma Exchange(n: nat, m: nat)
    ensures n * (2 * m) == 2 * (n * m)
  {
  }

  lemma TwiceMod(m: nat)
    ensures m % SIZE_MOD * 2 % SIZE_MOD == 2 * m % SIZE_MOD
  {
    var q, r := m / SIZE_MOD, m % SIZE_MOD;
    assert 2 * m == SIZE_MOD * (2 * q) + 2 * r;
    SameRest(2 * q, 2 * r);
  }

  lemma SameRest(q: nat, r: nat)
    ensures (SIZE_MOD * q + r) % SIZE_MOD == r % SIZE_MOD
  {
  }

  lemma {:induction false} Pow2Sum(j: nat, k: nat)
    ensures Pow2(j + k) == Pow2(j) * Pow2(k)
    decreases k
  {
    if k > 0 {
      Pow2Sum(j, k - 1);
      Exchange(Pow2(j), Pow2(k - 1));
    }
  }

  lemma Pow2Is64()
    ensures Pow2(64) == SIZE_MOD
  {
    assert Pow2(1) == 2;
    Pow2Sum(1, 1);
    Pow2Sum(2, 2);
    Pow2Sum(4, 4);
    Pow2Sum(8, 8);
    Pow2Sum(16, 16);
    Pow2Sum(32, 32);
  }

  /** After 64 rounds nothing is left. */
  lemma {:induction false} NothingLeft(n: nat, k: nat)
    requires n < SIZE_MOD && k >= 64
    ensures Doubled(n, k) == 0
    decreases k
  {
    if k == 64 {
      DoubledIs(n, 64);
      Pow2Is64();
      MultipleIsZero(n);
    } else {
      NothingLeft(n, k - 1);
    }
  }

  lemma MultipleIsZero(n: nat)
    ensures n * SIZE_MOD % SIZE_MOD == 0
  {
  }

  lemma {:induction false} DoubledFits(n: nat, k: nat)
    requires n < SIZE_MOD
    ensures Doubled(n, k) < SIZE_MOD
  {
  }

  /** For all sizes: the loop ends exactly if something has been received, or one of its first targets is enough. */
  lemma LoopEndsIff(n: nat, now: nat, total: nat)
    requires now <= n < SIZE_MOD && 0 < total && now + total < SIZE_MOD
    ensures LoopEnds(n, now, total) <==> now > 0 || exists k: nat :: k < 64 && Doubled(n, k) >= total
  {
    NothingLeft(n, 64);
    if now > 0 {
      assert Stops(n, now, total, 64);
    } else {
      forall k: nat
        ensures Stops(n, now, total, k) <==> k < 64 && Doubled(n, k) >= total
      {
        DoubledFits(n, k);
        if k >= 64 {
          NothingLeft(n, k);
        }
      }
      if LoopEnds(n, now, total) {
        var k: nat :| Stops(n, now, total, k);
        assert k < 64 && Doubled(n, k) >= total;
      }
      if exists k: nat :: k < 64 && Doubled(n, k) >= total {
        var k: nat :| k < 64 && Doubled(n, k) >= total;
        assert Stops(n, now, total, k);
      }
    }
  }

  /** The other failure: with more than 2^63 bytes the loop may end with a target below the received length. */
  lemma WrapsBelow()
    ensures var n := HALF + 2; var total := HALF / 2;
      n + total < SIZE_MOD && Rounds(n, n, total, 1) && Doubled(n, 1) == 4 < n
  {
    var n := HALF + 2;
    assert Doubled(n, 1) == Doubled(n, 0) * 2 % SIZE_MOD;
  }
}
