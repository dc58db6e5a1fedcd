/** The least prime above the largest `int`, by the order of an element modulo each possible divisor. */
module LargePrime {
  import opened Primes

  /** The least prime above the largest `int`, and the primes its proof goes down through. */
  const P: nat := 2147483659
  const Q: nat := 2402107
  const R: nat := 57193
  const S: nat := 2383

  // ---------------------------------------------------------------- remainders

  lemma AddMultiple(q: nat, k: int, r: nat)
    requires r < q
    ensures (q * k + r) % q == r
  {
    var x := q * k + r;
    var d := x / q - k;
    assert q * d == r - x % q;
    MultipleBounds(q, d);
  }

  /** Factors may be reduced before multiplying. */
  lemma MulMod(a: nat, b: nat, q: nat)
    requires q > 0
    ensures (a % q) * b % q == a * b % q
  {
    var k, r := a / q, a % q;
    var m, t := r * b / q, r * b % q;
    Recombine(a, b, q, k, r, m, t);
    AddMultiple(q, k * b + m, t);
  }

  lemma Recombine(a: nat, b: nat, q: nat, k: nat, r: nat, m: nat, t: nat)
    requires a == q * k + r && r * b == q * m + t
    ensures a * b == q * (k * b + m) + t
  {
    Distribute(q, k, r, b);
    Collect(q, k, b, m);
  }

  lemma Distribute(q: nat, k: nat, r: nat, b: nat)
    ensures (q * k + r) * b == q * k * b + r * b
  {
  }

  lemma Collect(q: nat, k: nat, b: nat, m: nat)
    ensures q * (k * b + m) == q * k * b + q * m
  {
    assert q * (k * b) == q * k * b;
  }

  /** Reducing by a multiple of `q` first changes nothing. */
  lemma ModMod(a: nat, p: nat, q: nat)
    requires p > 0 && Divides(q, p)
    ensures a % p % q == a % q
  {
    var e, k, r := p / q, a / p, a % p;
    var m, t := r / q, r % q;
    assert p == q * e && a == p * k + r && r == q * m + t;
    assert p * k == q * (e * k);
    assert a == q * (e * k + m) + t;
    AddMultiple(q, e * k + m, t);
  }

  /** Multiplication of remainders. */
  function Times(a: nat, b: nat, q: nat): (r: nat)
    requires q > 0
    ensures r < q
  {
    a * b % q
  }

  lemma TimesAgain(a: nat, b: nat, c: nat, q: nat)
    requires q > 0
    ensures Times(Times(a, b, q), c, q) == Times(a, Times(b, c, q), q)
  {
    MulMod(a * b, c, q);
    MulMod(b * c, a, q);
    SameProduct(a, b, c);
    assert (b * c % q) * a == a * (b * c % q);
  }

  lemma SameProduct(a: nat, b: nat, c: nat)
    ensures a * b * c == b * c * a
  {
    assert a * b * c == a * (b * c);
  }

  lemma TimesSwaps(a: nat, b: nat, q: nat)
    requires q > 0
    ensures Times(a, b, q) == Times(b, a, q)
  {
    assert a * b == b * a;
  }

  lemma TimesOne(a: nat, q: nat)
    requires a < q
    ensures Times(1, a, q) == a == Times(a, 1, q)
  {
    AddMultiple(q, 0, a);
  }

  lemma TimesZero(a: nat, q: nat)
    requires q > 0
    ensures Times(a, 0, q) == 0
  {
    assert a * 0 == 0;
  }

  // ---------------------------------------------------------------- powers

  function Pow(x: nat, n: nat, q: nat): (r: nat)
    requires q > 1
    ensures r < q
  {
    if n == 0 then 1 else Times(x, Pow(x, n - 1, q), q)
  }

  lemma {:induction false} PowAdd(x: nat, m: nat, n: nat, q: nat)
    requires q > 1
    ensures Pow(x, m + n, q) == Times(Pow(x, m, q), Pow(x, n, q), q)
  {
    hide Times;
    if m == 0 {
      TimesOne(Pow(x, n, q), q);
    } else {
      PowAdd(x, m - 1, n, q);
      TimesAgain(x, Pow(x, m - 1, q), Pow(x, n, q), q);
    }
  }

  // ---------------------------------------------------------------- an element with an inverse

  /** With an inverse of `x`, equal powers may be cancelled, and no power is 0. */
  lemma {:induction false} Cancel(x: nat, w: nat, i: nat, d: nat, q: nat)
    requires q > 1 && Times(w, x, q) == 1 && Pow(x, i, q) == Pow(x, i + d, q)
    ensures Pow(x, d, q) == 1
  {
    hide Times;
    if i > 0 {
      var a, b := Pow(x, i - 1, q), Pow(x, i - 1 + d, q);
      TimesAgain(w, x, a, q);
      TimesAgain(w, x, b, q);
      TimesOne(a, q);
      TimesOne(b, q);
      Cancel(x, w, i - 1, d, q);
    }
  }

  lemma {:induction false} NotZero(x: nat, w: nat, i: nat, q: nat)
    requires q > 1 && Times(w, x, q) == 1
    ensures Pow(x, i, q) != 0
  {
    hide Times;
    if i > 0 {
      var a := Pow(x, i - 1, q);
      NotZero(x, w, i - 1, q);
      TimesAgain(w, x, a, q);
      TimesOne(a, q);
      TimesZero(w, q);
    }
  }

  /** Distinct numbers from 1 to `n` are at most `n` many. */
  lemma {:induction false} Pigeonhole(s: seq<nat>, n: nat)
    requires forall i | 0 <= i < |s| :: 1 <= s[i] <= n
    requires forall i, j | 0 <= i < j < |s| :: s[i] != s[j]
    ensures |s| <= n
  {
    assert s == [] || 1 <= s[0] <= n;
    if n > 0 {
      if k :| 0 <= k < |s| && s[k] == n {
        Pigeonhole(s[..k] + s[k + 1..], n - 1);
      } else {
        Pigeonhole(s, n - 1);
      }
    }
  }

  /** Some power of an invertible `x` with exponent from 1 to `q - 1` is 1. */
  lemma SomePowerIsOne(x: nat, w: nat, q: nat) returns (d: nat)
    requires q > 1 && Times(w, x, q) == 1
    ensures 1 <= d < q && Pow(x, d, q) == 1
  {
    hide Times;
    var s := seq(q, i requires 0 <= i < q => Pow(x, i, q));
    forall i | 0 <= i < q ensures 1 <= s[i] <= q - 1 { NotZero(x, w, i, q); }
    if forall i, j | 0 <= i < j < |s| :: s[i] != s[j] { Pigeonhole(s, q - 1); }
    var i, j :| 0 <= i < j < |s| && s[i] == s[j];
    d := j - i;
    Cancel(x, w, i, d, q);
  }

  // ---------------------------------------------------------------- a test for primes

  lemma PowOne(y: nat, q: nat)
    requires y < q && q > 1
    ensures Pow(y, 1, q) == y
  {
    hide Times;
    assert Pow(y, 0, q) == 1;
    TimesOne(y, q);
  }

  lemma Double(y: nat, n: nat, q: nat, v: nat, k: nat, w: nat)
    requires q > 1 && Pow(y, n, q) == v && v * v == q * k + w && w < q
    ensures Pow(y, 2 * n, q) == w
  {
    PowAdd(y, n, n, q);
    AddMultiple(q, k, w);
    assert Times(v, v, q) == w;
  }

  lemma PlusOne(y: nat, n: nat, q: nat, v: nat, k: nat, w: nat)
    requires q > 1 && Pow(y, n, q) == v && y * v == q * k + w && w < q
    ensures Pow(y, n + 1, q) == w
  {
    hide Pow;
    PowNext(y, n, q);
    AddMultiple(q, k, w);
    assert Times(y, v, q) == w;
  }

  lemma PowNext(y: nat, n: nat, q: nat)
    requires q > 1
    ensures Pow(y, n + 1, q) == Times(y, Pow(y, n, q), q)
  {
  }

  /** A power modulo a divisor of `n` is what is left of the power modulo `n`. */
  lemma {:induction false} PowDivisor(y: nat, k: nat, n: nat, q: nat)
    requires q > 1 && n > 1 && Divides(q, n)
    ensures Pow(y, k, q) == Pow(y, k, n) % q
  {
    hide Divides;
    if k == 0 {
      AddMultiple(q, 0, 1);
    } else {
      PowDivisor(y, k - 1, n, q);
      var a := Pow(y, k - 1, n);
      ModMod(y * a, n, q);
      MulMod(a, y, q);
      assert (a % q) * y == y * (a % q) && a * y == y * a;
    }
  }

  lemma {:induction false} PowMultiple(y: nat, e: nat, k: nat, q: nat)
    requires q > 1 && Pow(y, e, q) == 1
    ensures Pow(y, e * k, q) == 1
  {
    hide Times;
    if k == 0 {
      assert e * k == 0 && Pow(y, 0, q) == 1;
    } else {
      PowMultiple(y, e, k - 1, q);
      assert e * k == e * (k - 1) + e;
      PowAdd(y, e * (k - 1), e, q);
      TimesOne(1, q);
    }
  }

  /** The least exponent that gives 1 divides every exponent that does. */
  lemma {:induction false} LeastOrder(y: nat, d: nat, r: nat, q: nat) returns (e: nat)
    requires q > 1 && d >= 1 && Pow(y, d, q) == 1 && Pow(y, r, q) == 1
    ensures 1 <= e <= d && Pow(y, e, q) == 1 && Divides(e, r)
    decreases d
  {
    hide Times, Pow;
    var k, t := r / d, r % d;
    assert r == d * k + t;
    if t == 0 {
      e := d;
    } else {
      PowMultiple(y, d, k, q);
      PowAdd(y, d * k, t, q);
      TimesOne(Pow(y, t, q), q);
      e := LeastOrder(y, t, r, q);
    }
  }

  /**
    * If `y` has the prime order `r` modulo `n`, and `y - 1` is invertible, then no number up to `r` divides `n`: the
    * order of `y` modulo a divisor would be 1, or as large as `r`.
    */
  lemma NoDivisor(n: nat, r: nat, y: nat, u: nat, v: nat, q: nat)
    requires n > 1 && y >= 1 && IsPrime(r) && Pow(y, r, n) == 1 && (y - 1) * u == n * v + 1
    requires 2 <= q <= r
    ensures !Divides(q, n)
  {
    hide Times, Pow, IsPrime, Divides;
    if Divides(q, n) {
      PowDivisor(y, r, n, q);
      AddMultiple(q, 0, 1);
      PowPositive(r);
      PowNext(y, r - 1, q);
      TimesSwaps(y, Pow(y, r - 1, q), q);
      var d := SomePowerIsOne(y, Pow(y, r - 1, q), q);
      var e := LeastOrder(y, d, r, q);
      PrimeOrder(r, e);
      PowNext(y, 0, q);
      NotOne(n, y, u, v, q);
    }
  }

  lemma PowPositive(r: nat)
    requires IsPrime(r)
    ensures r >= 2
  {
  }

  lemma PrimeOrder(r: nat, e: nat)
    requires IsPrime(r) && Divides(e, r) && 1 <= e < r
    ensures e == 1
  {
  }

  lemma NotOne(n: nat, y: nat, u: nat, v: nat, q: nat)
    requires y >= 1 && (y - 1) * u == n * v + 1 && q >= 2 && Divides(q, n)
    ensures Pow(y, 1, q) != 1
  {
    hide Times;
    PowNext(y, 0, q);
    assert Pow(y, 0, q) == 1;
    TimesRight(y, q);
    if y % q == 1 { OneDivides(n, y, u, v, q); }
  }

  lemma TimesRight(y: nat, q: nat)
    requires q > 0
    ensures Times(y, 1, q) == y % q
  {
  }

  lemma OneDivides(n: nat, y: nat, u: nat, v: nat, q: nat)
    requires y >= 1 && (y - 1) * u == n * v + 1 && q >= 2 && Divides(q, n)
    ensures y % q != 1
  {
    if y % q == 1 {
      var a, b := y / q, n / q;
      assert y - 1 == q * a && n == q * b;
      Factor(q, a, u, b, v);
      MultipleBounds(q, a * u - b * v);
    }
  }

  lemma Factor(q: nat, a: nat, u: nat, b: nat, v: nat)
    ensures q * (a * u - b * v) == q * a * u - q * b * v
  {
    assert q * (a * u) == q * a * u && q * (b * v) == q * b * v;
  }

  /** A number with no divisor up to its root is a prime. */
  lemma NoneSmall(n: nat, root: nat)
    requires n >= 2 && n < root * root && forall q | 2 <= q < root :: !Divides(q, n)
    ensures IsPrime(n)
  {
    forall d | 2 <= d < n ensures !Divides(d, n) {
      if Divides(d, n) {
        var e := Cofactor(n, d);
        if d >= root && e >= root { Products(d, e, root); }
      }
    }
  }

  lemma Cofactor(n: nat, d: nat) returns (e: nat)
    requires 2 <= d < n && Divides(d, n)
    ensures Divides(e, n) && e >= 2 && d * e == n
  {
    e := n / d;
    assert n == d * e;
    assert d * e == e * d;
    Halves(d, e);
    ModOfProduct(e, d);
  }

  lemma Halves(d: nat, e: nat)
    ensures e <= 1 ==> d * e <= d
  {
  }

  lemma Products(d: nat, e: nat, root: nat)
    requires d >= root && e >= root
    ensures d * e >= root * root
  {
    assert d * e >= root * e;
    assert root * e >= root * root;
  }

  // ---------------------------------------------------------------- down from the large prime

  lemma SmallDivisors(d: nat)
    requires 2 <= d < 49
    ensures !Divides(d, S)
  {
    match d
    case 2 => case 3 => case 4 => case 5 => case 6 => case 7 => case 8 => case 9 => case 10 => case 11 =>
    case 12 => case 13 => case 14 => case 15 => case 16 => case 17 => case 18 => case 19 => case 20 => case 21 =>
    case 22 => case 23 => case 24 => case 25 => case 26 => case 27 => case 28 => case 29 => case 30 => case 31 =>
    case 32 => case 33 => case 34 => case 35 => case 36 => case 37 => case 38 => case 39 => case 40 => case 41 =>
    case 42 => case 43 => case 44 => case 45 => case 46 => case 47 => case _ =>
  }

  lemma SIsPrime()
    ensures IsPrime(S)
  {
    forall d | 2 <= d < 49 ensures !Divides(d, S) { SmallDivisors(d); }
    NoneSmall(S, 49);
  }

  lemma ROrder() returns (y: nat)
    ensures y == 19667 && Pow(y, S, R) == 1
  {
    hide Pow, Times;
    y := 19667;
    PowOne(y, R);
    Double(y, 1, R, 19667, 6762, 51823);
    Double(y, 2, R, 51823, 46957, 11628);
    Double(y, 4, R, 11628, 2364, 6132);
    PlusOne(y, 8, R, 6132, 2108, 35200);
    Double(y, 9, R, 35200, 21664, 10848);
    Double(y, 18, R, 10848, 2057, 33103);
    PlusOne(y, 36, R, 33103, 11383, 8782);
    Double(y, 37, R, 8782, 1348, 27360);
    Double(y, 74, R, 27360, 13088, 27616);
    Double(y, 148, R, 27616, 13334, 31994);
    PlusOne(y, 296, R, 31994, 11001, 45805);
    Double(y, 297, R, 45805, 36684, 30013);
    PlusOne(y, 594, R, 30013, 10320, 33911);
    Double(y, 595, R, 33911, 20106, 33463);
    PlusOne(y, 1190, R, 33463, 11506, 54163);
    Double(y, 1191, R, 54163, 51293, 30020);
    PlusOne(y, 2382, R, 30020, 10323, 1);
  }

  lemma RIsPrime()
    ensures IsPrime(R)
  {
    hide Divides, IsPrime, Pow;
    SIsPrime();
    var y := ROrder();
    forall q | 2 <= q < 240 ensures !Divides(q, R) { NoDivisor(R, S, y, 51141, 17585, q); }
    NoneSmall(R, 240);
  }

  lemma QOrder() returns (y: nat)
    ensures y == 2381627 && Pow(y, R, Q) == 1
  {
    hide Pow, Times;
    y := 2381627;
    PowOne(y, Q);
    Double(y, 1, Q, 2381627, 2361321, 1463782);
    PlusOne(y, 2, Q, 1463782, 1451302, 40000);
    Double(y, 3, Q, 40000, 666, 196738);
    Double(y, 6, Q, 196738, 16113, 690553);
    PlusOne(y, 12, Q, 690553, 684665, 1080576);
    Double(y, 13, Q, 1080576, 486091, 1898039);
    PlusOne(y, 26, Q, 1898039, 1881856, 1458861);
    Double(y, 27, Q, 1458861, 886003, 1409000);
    PlusOne(y, 54, Q, 1409000, 1396987, 191391);
    Double(y, 55, Q, 191391, 15249, 785238);
    PlusOne(y, 110, Q, 785238, 778543, 432125);
    Double(y, 111, Q, 432125, 77736, 1825873);
    PlusOne(y, 222, Q, 1825873, 1810305, 2122736);
    Double(y, 223, Q, 2122736, 1875856, 1297104);
    Double(y, 446, Q, 1297104, 700417, 2208197);
    PlusOne(y, 892, Q, 2208197, 2189370, 593929);
    Double(y, 893, Q, 593929, 146850, 2244091);
    PlusOne(y, 1786, Q, 2244091, 2224958, 529551);
    Double(y, 1787, Q, 529551, 116740, 2290421);
    Double(y, 3574, Q, 2290421, 2183927, 2023052);
    PlusOne(y, 7148, Q, 2023052, 2005803, 1838683);
    Double(y, 7149, Q, 1838683, 1407412, 957405);
    Double(y, 14298, Q, 957405, 381591, 1921788);
    Double(y, 28596, Q, 1921788, 1537512, 779160);
    PlusOne(y, 57192, Q, 779160, 772517, 1);
  }

  lemma QIsPrime()
    ensures IsPrime(Q)
  {
    hide Divides, IsPrime, Pow;
    RIsPrime();
    var y := QOrder();
    forall q | 2 <= q < 1550 ensures !Divides(q, Q) { NoDivisor(Q, R, y, 489898, 485721, q); }
    NoneSmall(Q, 1550);
  }

  lemma POrder() returns (y: nat)
    ensures y == 509190093 && Pow(y, Q, P) == 1
  {
    hide Pow, Times;
    y := 509190093;
    PowOne(y, P);
    Double(y, 1, P, 509190093, 120734120, 1025603569);
    Double(y, 2, P, 1025603569, 489811727, 1026468668);
    Double(y, 4, P, 1026468668, 490638390, 1382625214);
    PlusOne(y, 8, P, 1382625214, 327834420, 1493062122);
    Double(y, 9, P, 1493062122, 1038068201, 1576115425);
    Double(y, 18, P, 1576115425, 1156767746, 1129668011);
    Double(y, 36, P, 1129668011, 594253562, 1379152763);
    PlusOne(y, 72, P, 1379152763, 327011067, 958522806);
    Double(y, 73, P, 958522806, 427833741, 2055775317);
    Double(y, 146, P, 2055775317, 1967983381, 2105379410);
    PlusOne(y, 292, P, 2105379410, 499206749, 1638170539);
    Double(y, 293, P, 1638170539, 1249649888, 896370329);
    Double(y, 586, P, 896370329, 374149420, 1237240461);
    Double(y, 1172, P, 1237240461, 712817511, 1613939772);
    PlusOne(y, 2344, P, 1613939772, 382681441, 1451006177);
    Double(y, 2345, P, 1451006177, 980412082, 510987291);
    PlusOne(y, 4690, P, 510987291, 121160254, 640818677);
    Double(y, 4691, P, 640818677, 191223143, 1976910092);
    PlusOne(y, 9382, P, 1976910092, 468745375, 553791431);
    Double(y, 9383, P, 553791431, 142811307, 946095448);
    Double(y, 18766, P, 946095448, 416811831, 775951075);
    Double(y, 37532, P, 775951075, 280374692, 1326497597);
    PlusOne(y, 75064, P, 1326497597, 314525995, 187490816);
    Double(y, 75065, P, 187490816, 16369300, 1825077156);
    PlusOne(y, 150130, P, 1825077156, 432744250, 1394604758);
    Double(y, 150131, P, 1394604758, 905675078, 667688162);
    PlusOne(y, 300262, P, 667688162, 158315615, 1126743781);
    Double(y, 300263, P, 1126743781, 591181005, 273478666);
    Double(y, 600526, P, 273478666, 34827077, 2008904813);
    PlusOne(y, 1201052, P, 2008904813, 476331647, 362561236);
    Double(y, 1201053, P, 362561236, 61211478, 1101609694);
    PlusOne(y, 2402106, P, 1101609694, 261202799, 1);
  }

  lemma PIsPrime()
    ensures IsPrime(P)
  {
    hide Divides, IsPrime, Pow;
    QIsPrime();
    var y := POrder();
    forall q | 2 <= q < 46342 ensures !Divides(q, P) { NoDivisor(P, Q, y, 1144310473, 271327585, q); }
    NoneSmall(P, 46342);
  }

  /** Between the largest `int` and it there is no prime. */
  lemma NothingBetween(n: nat)
    requires 0x7FFF_FFFF < n < P
    ensures !IsPrime(n)
  {
    var d :=
      if n % 2 == 0 then 2
      else if n % 3 == 0 then 3
      else if n % 7 == 0 then 7
      else if n % 11 == 0 then 11
      else 83;
    assert Divides(d, n);
  }
}
