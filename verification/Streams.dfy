/** The values each channel of the sieve carries, as C integers, and why their heads are the primes. */
module Streams {
  import opened Primes

  type CInt = v: int | -0x8000_0000 <= v < 0x8000_0000

  /** A limit as the program is given it: an `unsigned int`. */
  type Limit = n: nat | n <= 0xFFFF_FFFF

  /** A limit for which no number of the stream reads as the end marker. */
  type Unmarked = n: nat | n <= 0xFFFF_FFFE

  const END: CInt := -1

  /** Storing an unsigned number in an `int`. */
  function ToInt(n: nat): CInt {
    var m := n % 0x1_0000_0000;
    if m < 0x8000_0000 then m else m - 0x1_0000_0000
  }

  /** The unsigned number that an `int` converts to. */
  function ToUnsigned(v: CInt): nat { if v >= 0 then v else v + 0x1_0000_0000 }

  /** A number survives being stored, and only the largest one becomes the end marker. */
  lemma EndMarkerClash(n: nat)
    requires n <= 0xFFFF_FFFF
    ensures ToUnsigned(ToInt(n)) == n && (ToInt(n) == END <==> n == 0xFFFF_FFFF)
  {
  }

  /** The test of a filter; the remainder is taken on unsigned numbers. */
  predicate Keeps(prime: nat, v: CInt) { v == END || !Divides(prime, ToUnsigned(v)) }

  /** What a filter lets through. */
  function Pass(prime: nat, s: seq<CInt>): seq<CInt> {
    if s == [] then []
    else (if Keeps(prime, s[0]) then [s[0]] else []) + Pass(prime, s[1..])
  }

  function Encode(s: seq<nat>): seq<CInt> {
    seq(|s|, i requires 0 <= i < |s| => ToInt(s[i])) + [END]
  }

  /** What the source sends. */
  function Produced(max: Limit): seq<CInt> {
    seq(if max < 2 then 0 else max - 1, i requires 0 <= i < max - 1 => ToInt(i + 2)) + [END]
  }

  /** The stream of the source ends where its marker is, unless the limit is the number that reads as the marker. */
  lemma ProducedEndsOnce(max: Limit)
    ensures EndsOnce(Produced(max)) <==> max != 0xFFFF_FFFF
  {
    var a := Produced(max);
    forall i | 0 <= i < |a| - 1 ensures a[i] == END <==> i == 0xFFFF_FFFD { EndMarkerClash(i + 2); }
    if max == 0xFFFF_FFFF { assert a[0xFFFF_FFFD] == END; }
  }

  /** What follows channel content `a`: its head is taken as a prime, the rest is filtered. */
  function Next(a: seq<CInt>): seq<CInt> {
    if a == [] || a[0] == END then a else Pass(ToUnsigned(a[0]), a[1..])
  }

  /** Everything that channel `c` carries in a complete run, when no number reads as the marker. */
  function Carried(max: Unmarked, c: nat): seq<CInt> {
    if c == 0 then Produced(max) else Next(Carried(max, c - 1))
  }

  /** The largest number up to the limit that does not read as the marker. */
  function LastNumber(max: Limit): Unmarked { if max == 0xFFFF_FFFF then 0xFFFF_FFFE else max }

  /** Everything that the writer of channel `c` wants to store. */
  function Offers(max: Limit, c: nat): seq<CInt> {
    if c == 0 then Produced(max) else Carried(LastNumber(max), c)
  }

  /** Everything that readers take from channel `c`: they stop at the first marker. */
  function Takes(max: Limit, c: nat): seq<CInt> { Carried(LastNumber(max), c) }

  /** The readers take all, but for the second marker that the largest limit puts into the first channel. */
  lemma OffersAndTakes(max: Limit, c: nat)
    ensures Takes(max, c) <= Offers(max, c) && EndsOnce(Takes(max, c))
    ensures |Offers(max, c)| == |Takes(max, c)| + if max == 0xFFFF_FFFF && c == 0 then 1 else 0
    ensures Takes(max, c + 1) == Offers(max, c + 1) == Next(Takes(max, c))
  {
    CarriedEndsOnce(LastNumber(max), c);
    if max == 0xFFFF_FFFF && c == 0 {
      var a, b := Produced(max), Produced(0xFFFF_FFFE);
      assert a[0xFFFF_FFFD] == ToInt(0xFFFF_FFFF) == END;
      assert b == a[..|b|];
    }
  }

  /** The end marker comes last, and only there. */
  ghost predicate EndsOnce(a: seq<CInt>) { a != [] && forall i | 0 <= i < |a| :: a[i] == END <==> i == |a| - 1 }

  lemma {:induction false} PassShort(prime: nat, s: seq<CInt>)
    ensures |Pass(prime, s)| <= |s|
    ensures forall v | v in Pass(prime, s) :: v in s
  {
    if s != [] { PassShort(prime, s[1..]); }
  }

  lemma Associative(x: seq<CInt>, y: seq<CInt>, z: seq<CInt>)
    ensures (x + y) + z == x + (y + z)
  {
  }

  lemma {:induction false} PassJoin(prime: nat, s: seq<CInt>, t: seq<CInt>)
    ensures Pass(prime, s + t) == Pass(prime, s) + Pass(prime, t)
  {
    hide Keeps;
    if s == [] {
      assert s + t == t;
    } else {
      assert (s + t)[0] == s[0] && (s + t)[1..] == s[1..] + t;
      PassJoin(prime, s[1..], t);
      Associative(if Keeps(prime, s[0]) then [s[0]] else [], Pass(prime, s[1..]), Pass(prime, t));
    }
  }

  lemma PassEndsOnce(prime: nat, a: seq<CInt>)
    requires EndsOnce(a)
    ensures EndsOnce(Pass(prime, a))
  {
    var front := a[..|a| - 1];
    assert a == front + [END];
    PassJoin(prime, front, [END]);
    assert Pass(prime, [END]) == [END];
    PassShort(prime, front);
    assert END !in front;
    assert forall i | 0 <= i < |Pass(prime, front)| :: Pass(prime, front)[i] in front;
  }

  lemma {:induction false} CarriedEndsOnce(max: Unmarked, c: nat)
    ensures EndsOnce(Carried(max, c))
  {
    if c > 0 {
      CarriedEndsOnce(max, c - 1);
      var a := Carried(max, c - 1);
      if a[0] != END { PassEndsOnce(ToUnsigned(a[0]), a[1..]); }
    }
  }

  /** Reading one more value: what passes grows by that value, if the filter keeps it, within what passes in the end. */
  lemma PassGrows(prime: nat, a: seq<CInt>, n: nat)
    requires 1 <= n < |a|
    ensures Pass(prime, a[1..n + 1]) == Pass(prime, a[1..n]) + if Keeps(prime, a[n]) then [a[n]] else []
    ensures Pass(prime, a[1..n + 1]) <= Pass(prime, a[1..])
  {
    assert a[1..n + 1] == a[1..n] + [a[n]];
    PassJoin(prime, a[1..n], [a[n]]);
    assert a[1..] == a[1..n + 1] + a[n + 1..];
    PassJoin(prime, a[1..n + 1], a[n + 1..]);
    assert Pass(prime, [a[n]]) == if Keeps(prime, a[n]) then [a[n]] else [];
  }

  /** How much the first channel is offered at the largest limit, and how much of it is taken. */
  lemma Sizes(max: Limit)
    requires max == 0xFFFF_FFFF
    ensures |Offers(max, 0)| == max && |Takes(max, 0)| == max - 1
  {
  }

  // ---------------------------------------------------------------- the heads are the primes

  lemma {:induction false} PassEncode(p: nat, s: seq<nat>)
    requires forall i | 0 <= i < |s| :: s[i] <= 0xFFFF_FFFE
    ensures Pass(p, Encode(s)) == Encode(Sift(p, s))
  {
    hide Divides, ToInt;
    if s == [] {
      assert Encode(s) == [END] && Pass(p, [END]) == [END];
    } else {
      assert Encode(s)[0] == ToInt(s[0]) && Encode(s)[1..] == Encode(s[1..]);
      EndMarkerClash(s[0]);
      PassEncode(p, s[1..]);
      if !Divides(p, s[0]) {
        assert Sift(p, s) == [s[0]] + Sift(p, s[1..]);
        assert Sift(p, s)[1..] == Sift(p, s[1..]);
        assert Encode(Sift(p, s)) == [ToInt(s[0])] + Encode(Sift(p, s[1..]));
      }
    }
  }

  lemma ProducedEncode(max: Unmarked)
    ensures Produced(max) == Encode(Survivors([], 2, max))
  {
    NobodyHit(2, max);
  }

  lemma NextEncode(hs: seq<nat>, max: Unmarked)
    requires var s := Survivors(hs, 2, max); s != [] && s[0] > 0
    ensures Next(Encode(Survivors(hs, 2, max))) == Encode(Survivors(hs + [Survivors(hs, 2, max)[0]], 2, max))
  {
    var s := Survivors(hs, 2, max);
    var p := s[0];
    EndMarkerClash(p);
    assert Encode(s)[0] == ToInt(p) && Encode(s)[1..] == Encode(s[1..]);
    PassEncode(p, s[1..]);
    assert Sift(p, s) == Sift(p, s[1..]);
    SiftSurvivors(hs, p, 2, max);
  }

  lemma PrimesPositive(max: nat, c: nat)
    requires c < |PrimesUpTo(max)|
    ensures 2 <= PrimesUpTo(max)[c] <= max
  {
    PrimesUpToMeaning(max);
    assert PrimesUpTo(max)[c] in PrimesUpTo(max);
  }

  lemma {:induction false} CarriedSurvivors(max: Unmarked, c: nat)
    requires c <= |PrimesUpTo(max)|
    ensures Carried(max, c) == Encode(Survivors(PrimesUpTo(max)[..c], 2, max))
  {
    hide PrimesUpTo, Survivors, Next, Encode, Produced;
    var ps := PrimesUpTo(max);
    if c == 0 {
      ProducedEncode(max);
      assert ps[..0] == [];
    } else {
      CarriedSurvivors(max, c - 1);
      NextPrime(max, c - 1);
      PrimesPositive(max, c - 1);
      NextEncode(ps[..c - 1], max);
      assert ps[..c] == ps[..c - 1] + [ps[c - 1]];
    }
  }

  /** The largest limit is no prime: it is divisible by three. */
  lemma SamePrimes(max: Limit)
    ensures PrimesUpTo(max) == PrimesUpTo(LastNumber(max))
  {
    assert Divides(3, 0xFFFF_FFFF);
    assert !IsPrime(0xFFFF_FFFF);
  }

  /** Channel `c` begins with the `c`-th prime, as the C program sees it; after the last one only the marker is left. */
  lemma HeadsArePrimes(max: Limit, c: nat)
    requires c <= |PrimesUpTo(max)|
    ensures Takes(max, c) != []
    ensures c < |PrimesUpTo(max)| ==>
      PrimesUpTo(max)[c] <= max && Takes(max, c)[0] == ToInt(PrimesUpTo(max)[c]) != END
    ensures c == |PrimesUpTo(max)| ==> Takes(max, c) == [END]
  {
    hide PrimesUpTo, Survivors, Carried;
    var last := LastNumber(max);
    SamePrimes(max);
    CarriedSurvivors(last, c);
    NextPrime(last, c);
    if c < |PrimesUpTo(max)| {
      PrimesPositive(last, c);
      EndMarkerClash(PrimesUpTo(max)[c]);
    }
  }
}
