/** Prime numbers, and what is left of 2..max after sieving with the first few of them. */
module Primes {
  predicate Divides(d: nat, n: nat) { d > 0 && n % d == 0 }

  predicate IsPrime(n: nat) { n >= 2 && forall d | 2 <= d < n :: !Divides(d, n) }

  /** The primes up to `m`, in order. */
  function PrimesUpTo(m: nat): seq<nat> {
    if m < 2 then [] else PrimesUpTo(m - 1) + if IsPrime(m) then [m] else []
  }

  ghost predicate Ascending(s: seq<nat>) { forall i, j | 0 <= i < j < |s| :: s[i] < s[j] }

  /** They are exactly the primes up to `m`, each once and in order. */
  lemma {:induction false} PrimesUpToMeaning(m: nat)
    ensures Ascending(PrimesUpTo(m))
    ensures forall n: nat :: n in PrimesUpTo(m) <==> n <= m && IsPrime(n)
  {
    if m >= 2 {
      PrimesUpToMeaning(m - 1);
      AscendingMore(PrimesUpTo(m - 1), m);
      OneMoreNumber(m);
    }
  }

  lemma AscendingMore(s: seq<nat>, m: nat)
    requires Ascending(s) && forall n | n in s :: n < m
    ensures Ascending(s + [m])
  {
    assert forall i | 0 <= i < |s| :: s[i] in s;
  }

  lemma OneMoreNumber(m: nat)
    requires m >= 2 && forall n: nat :: n in PrimesUpTo(m - 1) <==> n <= m - 1 && IsPrime(n)
    ensures forall n: nat :: n in PrimesUpTo(m) <==> n <= m && IsPrime(n)
  {
    hide IsPrime;
    var s := PrimesUpTo(m - 1);
    assert PrimesUpTo(m) == if IsPrime(m) then s + [m] else s;
    forall n: nat ensures n in PrimesUpTo(m) <==> n <= m && IsPrime(n) {
      assert n in s + [m] <==> n in s || n == m;
      assert n in s <==> n <= m - 1 && IsPrime(n);
    }
  }

  /** Some number of `hs` divides `n`. */
  predicate Hit(hs: seq<nat>, n: nat) { exists i | 0 <= i < |hs| :: Divides(hs[i], n) }

  /** The numbers from `lo` to `max` that no number of `hs` divides. */
  function Survivors(hs: seq<nat>, lo: nat, max: nat): (r: seq<nat>)
    decreases max + 1 - lo
    ensures forall i | 0 <= i < |r| :: lo <= r[i] <= max
  {
    if lo > max then [] else (if Hit(hs, lo) then [] else [lo]) + Survivors(hs, lo + 1, max)
  }

  /** The numbers of `s` that `p` does not divide. */
  function Sift(p: nat, s: seq<nat>): (r: seq<nat>)
  {
    if s == [] then [] else (if Divides(p, s[0]) then [] else [s[0]]) + Sift(p, s[1..])
  }

  lemma {:induction false} SiftSurvivors(hs: seq<nat>, p: nat, lo: nat, max: nat)
    ensures Sift(p, Survivors(hs, lo, max)) == Survivors(hs + [p], lo, max)
    decreases max + 1 - lo
  {
    hide Hit, Divides;
    if lo <= max {
      SiftSurvivors(hs, p, lo + 1, max);
      HitMore(hs, p, lo);
      var s, r := Survivors(hs, lo, max), Survivors(hs, lo + 1, max);
      if Hit(hs, lo) {
        assert s == r;
        assert Survivors(hs + [p], lo, max) == Survivors(hs + [p], lo + 1, max);
      } else {
        assert s[0] == lo && s[1..] == r;
      }
    }
  }

  lemma HitMore(hs: seq<nat>, p: nat, n: nat)
    ensures Hit(hs + [p], n) <==> Hit(hs, n) || Divides(p, n)
  {
    assert (hs + [p])[|hs|] == p;
    forall i | 0 <= i < |hs| ensures (hs + [p])[i] == hs[i] { }
  }

  lemma {:induction false} FirstSurvivor(hs: seq<nat>, lo: nat, first: nat, max: nat)
    requires lo <= first <= max && !Hit(hs, first)
    requires forall n | lo <= n < first :: Hit(hs, n)
    ensures Survivors(hs, lo, max) != [] && Survivors(hs, lo, max)[0] == first
    decreases max - lo
  {
    hide Hit;
    if lo < first { FirstSurvivor(hs, lo + 1, first, max); }
  }

  lemma {:induction false} NoSurvivor(hs: seq<nat>, lo: nat, max: nat)
    requires forall n | lo <= n <= max :: Hit(hs, n)
    ensures Survivors(hs, lo, max) == []
    decreases max + 1 - lo
  {
    hide Hit;
    if lo <= max { NoSurvivor(hs, lo + 1, max); }
  }

  lemma {:induction false} NobodyHit(lo: nat, max: nat)
    ensures |Survivors([], lo, max)| == if lo <= max then max + 1 - lo else 0
    ensures forall i | 0 <= i < |Survivors([], lo, max)| :: Survivors([], lo, max)[i] == lo + i
    decreases max + 1 - lo
  {
    if lo <= max { NobodyHit(lo + 1, max); }
  }

  lemma DividesTrans(a: nat, b: nat, c: nat)
    requires Divides(a, b) && Divides(b, c)
    ensures Divides(a, c)
  {
    var k, m := b / a, c / b;
    assert c == a * k * m;
    ProductOver(a, k, m);
    ModOfProduct(a, k * m);
  }

  lemma ProductOver(a: nat, k: nat, m: nat)
    ensures a * k * m == a * (k * m)
  {
  }

  lemma ModOfProduct(a: nat, k: nat)
    requires a > 0
    ensures a * k % a == 0
  {
    MultipleBelow(a, k - a * k / a, a * k % a);
  }

  lemma MultipleBelow(a: nat, k: int, r: nat)
    requires r < a && a * k == r
    ensures r == 0
  {
    MultipleBounds(a, k);
    assert k == 0 ==> a * k == 0;
  }

  lemma MultipleBounds(a: nat, k: int)
    ensures k >= 1 ==> a * k >= a
    ensures k <= -1 ==> a * k <= 0 - a
  {
  }

  /** Every number from 2 has a prime divisor. */
  lemma {:induction false} PrimeDivisor(n: nat) returns (p: nat)
    requires n >= 2
    ensures IsPrime(p) && p <= n && Divides(p, n)
  {
    if IsPrime(n) {
      p := n;
    } else {
      var d :| 2 <= d < n && Divides(d, n);
      p := PrimeDivisor(d);
      DividesTrans(p, d, n);
    }
  }

  lemma NumberHit(max: nat, c: nat, n: nat)
    requires c <= |PrimesUpTo(max)| && 2 <= n <= max
    requires c < |PrimesUpTo(max)| ==> n < PrimesUpTo(max)[c]
    ensures Hit(PrimesUpTo(max)[..c], n)
  {
    PrimesUpToMeaning(max);
    var ps := PrimesUpTo(max);
    var p := PrimeDivisor(n);
    assert p in ps;
    var i :| 0 <= i < |ps| && ps[i] == p;
    assert i < c;
    assert ps[..c][i] == p;
  }

  lemma PrimeNotHit(max: nat, c: nat)
    requires c < |PrimesUpTo(max)|
    ensures !Hit(PrimesUpTo(max)[..c], PrimesUpTo(max)[c])
  {
    PrimesUpToMeaning(max);
    var ps := PrimesUpTo(max);
    assert forall i | 0 <= i < c :: ps[i] in ps && ps[i] < ps[c];
    assert ps[c] in ps;
  }

  /** The least survivor of the first `c` primes is the next prime; after the last prime nothing survives. */
  lemma NextPrime(max: nat, c: nat)
    requires c <= |PrimesUpTo(max)|
    ensures var s := Survivors(PrimesUpTo(max)[..c], 2, max);
      if c < |PrimesUpTo(max)| then s != [] && s[0] == PrimesUpTo(max)[c] else s == []
  {
    var ps := PrimesUpTo(max);
    PrimesUpToMeaning(max);
    if c < |ps| {
      assert ps[c] in ps;
      PrimeNotHit(max, c);
      forall n | 2 <= n < ps[c] ensures Hit(ps[..c], n) { NumberHit(max, c, n); }
      FirstSurvivor(ps[..c], 2, ps[c], max);
    } else {
      forall n | 2 <= n <= max ensures Hit(ps[..c], n) { NumberHit(max, c, n); }
      NoSurvivor(ps[..c], 2, max);
    }
  }
}
