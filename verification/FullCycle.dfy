/** The generator of util/random.hpp visits every seed: A = 16807 generates the whole multiplicative group modulo
    M = 2^31 - 1. */
module FullCycle {
  import opened RandomNumbers

  // ----- arithmetic modulo M -----

  lemma ModSame(x: int, k: int)
    ensures (x + M * k) % M == x % M
  {
  }

  lemma ModTimes(a: int, b: int)
    ensures ((a % M) * b) % M == (a * b) % M
  {
    var q, r := a / M, a % M;
    assert a * b == r * b + M * (q * b) by { assert a == M * q + r; }
    ModSame(r * b, q * b);
  }

  /** A to the power k, modulo M. */
  function Power(k: nat): nat { Iterate(1, k) }

  lemma {:induction false} IterateIsTimes(s: nat, k: nat)
    requires s < M
    ensures Iterate(s, k) == (Power(k) * s) % M
  {
    if k == 0 {
      assert Power(0) * s == s;
    } else {
      IterateIsTimes(s, k - 1);
      assert Iterate(s, k) == Step(Iterate(s, k - 1)) && Power(k) == Step(Power(k - 1));
      hide Iterate, Power;
      TimesStep(Power(k - 1), s);
    }
  }

  lemma TimesStep(p: nat, s: nat)
    ensures Step((p * s) % M) == (Step(p) * s) % M
  {
    ModTimes(p * s, A);
    ModTimes(A * p, s);
    assert (p * s) * A == (A * p) * s;
    assert A * ((p * s) % M) == ((p * s) % M) * A;
  }

  lemma {:induction false} PowerAdd(a: nat, b: nat)
    ensures Power(a + b) == (Power(a) * Power(b)) % M
  {
    PowerBelow(b);
    IterateIsTimes(Power(b), a);
    IterateAdd(1, b, a);
  }

  lemma {:induction false} IterateAdd(s: nat, a: nat, b: nat)
    ensures Iterate(s, a + b) == Iterate(Iterate(s, a), b)
  {
    if b > 0 { IterateAdd(s, a, b - 1); }
  }

  lemma PowerBelow(k: nat)
    ensures Power(k) < M
  {
  }

  lemma {:induction false} PowerOfUnit(d: nat, j: nat)
    requires Power(d) == 1
    ensures Power(d * j) == 1
  {
    if j > 0 {
      PowerOfUnit(d, j - 1);
      PowerAdd(d, d * (j - 1));
      assert d * j == d + d * (j - 1);
    } else {
      assert d * j == 0;
    }
  }

  // ----- tables of powers -----

  /** A line of a table: b to the power `exponent` is `power`; `quotient` is what the reduction modulo M took off. */
  datatype Link = Link(exponent: nat, quotient: nat, power: nat)

  /** Every line squares the one before, and multiplies by the first or not. */
  predicate Follows(first: Link, a: Link, b: Link) {
    && b.power < M
    && ((b.exponent == 2 * a.exponent && a.power * a.power == M * b.quotient + b.power)
        || (b.exponent == 2 * a.exponent + 1
            && a.power * a.power * first.power == M * b.quotient + b.power))
  }

  predicate IsChain(c: seq<Link>) {
    |c| > 0 && c[0].exponent == 1 && forall i :: 0 < i < |c| ==> Follows(c[0], c[i - 1], c[i])
  }

  lemma {:induction false} ChainIsPower(base: nat, c: seq<Link>, i: nat)
    requires IsChain(c) && i < |c| && Power(base) == c[0].power
    ensures Power(base * c[i].exponent) == c[i].power
  {
    if i > 0 {
      ChainIsPower(base, c, i - 1);
      LinkIsPower(base, c[0], c[i - 1], c[i]);
    }
  }

  lemma LinkIsPower(base: nat, first: Link, a: Link, b: Link)
    requires Follows(first, a, b) && Power(base) == first.power && Power(base * a.exponent) == a.power
    ensures Power(base * b.exponent) == b.power
  {
    hide Power;
    var e := base * a.exponent;
    PowerAdd(e, e);
    Exponents(base, a.exponent);
    if b.exponent == 2 * a.exponent {
      Reduced(a.power * a.power, b.quotient, b.power);
    } else {
      assert a.power * a.power * first.power == M * b.quotient + b.power;
      PowerAdd(e + e, base);
      ModTimes(a.power * a.power, first.power);
      Reduced(a.power * a.power * first.power, b.quotient, b.power);
    }
  }

  lemma Reduced(x: nat, q: nat, w: nat)
    requires x == M * q + w && w < M
    ensures x % M == w
  {
  }

  lemma Exponents(base: nat, e: nat)
    ensures base * (2 * e) == base * e + base * e
    ensures base * (2 * e + 1) == (base * e + base * e) + base
  {
  }

  lemma PowerOne()
    ensures Power(1) == 16807
  {
    assert Iterate(1, 0) == 1;
  }

  lemma PowerL()
    ensures Power(126) == 1524325968
  {
    hide Power;
    PowerOne();
    var c :=
      [Link(1, 0, 16807), Link(3, 2210, 1622650073), Link(7, 20606777505697, 101027544),
       Link(15, 79880343795, 114807987), Link(31, 103158386138, 1954899097), Link(63, 29909491305262, 1108728549),
       Link(126, 572427639, 1524325968)];
    ChainIsPower(1, c, 6);
  }

  lemma PowerK()
    ensures Power(341) == 1442645480
  {
    hide Power;
    PowerOne();
    var c :=
      [Link(1, 0, 16807), Link(2, 0, 282475249), Link(5, 624483740091, 1144108930), Link(10, 609543753, 2007237709),
       Link(21, 31532466950512, 896544303), Link(42, 374294671, 2110010672), Link(85, 34844131047893, 1864546517),
       Link(170, 1618887165, 881140534), Link(341, 6076460717996, 1442645480)];
    ChainIsPower(1, c, 8);
  }

  lemma PowerK331()
    ensures Power(112871) == 1615827321
  {
    hide Power;
    PowerK();
    var c :=
      [Link(1, 0, 1442645480), Link(2, 969146369, 1987502657), Link(5, 2653659460427486087, 567717231),
       Link(10, 150083962, 302337947), Link(20, 42565276, 56133237), Link(41, 2116751753740309, 481899197),
       Link(82, 108139047, 1034580400), Link(165, 719048603233116984, 2018839352),
       Link(331, 2737998949464061817, 1615827321)];
    ChainIsPower(341, c, 8);
  }

  lemma PowerR()
    ensures Power(17043521) == 430777829
  {
    hide Power;
    PowerK331();
    var c :=
      [Link(1, 0, 1615827321), Link(2, 1215794092, 600823517), Link(4, 168098555, 633419204),
       Link(9, 301889170452195961, 1787432969), Link(18, 1487748986, 392323019),
       Link(37, 115811760267686483, 1311173380), Link(75, 1293556279389306227, 241462531),
       Link(151, 43869691344906916, 430777829)];
    ChainIsPower(112871, c, 7);
  }

  lemma PowerL31()
    ensures Power(3906) == 545626832
  {
    hide Power;
    PowerL();
    var c :=
      [Link(1, 0, 1524325968), Link(3, 1649315267728241866, 937673930), Link(7, 624096383493971535, 1288775055),
       Link(15, 1178968565465890263, 9024039), Link(31, 57802937565568, 545626832)];
    ChainIsPower(126, c, 4);
  }

  lemma PowerL31K()
    ensures Power(1292886) == 575197104
  {
    hide Power;
    PowerL31();
    var c :=
      [Link(1, 0, 545626832), Link(2, 138631388, 1107444188), Link(5, 311608682678178462, 1759547294),
       Link(10, 1441690456, 1526749404), Link(20, 1085439577, 1200257897), Link(41, 366028580810670447, 497244479),
       Link(82, 115135718, 305377895), Link(165, 23694145342361431, 2063643943),
       Link(331, 1082020248581906912, 575197104)];
    ChainIsPower(3906, c, 8);
  }

  lemma PowerOver11()
    ensures Power(195225786) == 298192073
  {
    hide Power;
    PowerL31K();
    var c :=
      [Link(1, 0, 575197104), Link(2, 154064832, 1152184512), Link(4, 618178933, 155269493),
       Link(9, 6457420903478123, 2062511515), Link(18, 1980901580, 141132965),
       Link(37, 5335114647007321, 417432713), Link(75, 46672362654892356, 1356589044),
       Link(151, 492927940737448393, 298192073)];
    ChainIsPower(1292886, c, 7);
  }

  lemma PowerL11()
    ensures Power(1386) == 1179617774
  {
    hide Power;
    PowerL();
    var c :=
      [Link(1, 0, 1524325968), Link(2, 1081996438, 1887638), Link(5, 2529213002931, 707765235),
       Link(11, 355571084151670558, 1179617774)];
    ChainIsPower(126, c, 3);
  }

  lemma PowerL11K()
    ensures Power(458766) == 503913307
  {
    hide Power;
    PowerL11();
    var c :=
      [Link(1, 0, 1179617774), Link(2, 647966793, 970181005), Link(5, 517031468985918568, 1421726854),
       Link(10, 941244535, 644118171), Link(20, 193197381, 1871656734), Link(41, 1924260409431147899, 52733491),
       Link(82, 1294920, 1548873841), Link(165, 1317781882429837577, 967973175),
       Link(331, 514680941171155469, 503913307)];
    ChainIsPower(1386, c, 8);
  }

  lemma PowerOver31()
    ensures Power(69273666) == 16384
  {
    hide Power;
    PowerL11K();
    var c :=
      [Link(1, 0, 503913307), Link(2, 118244728, 1247713233), Link(4, 724936049, 1455021586),
       Link(9, 496780836455828335, 2081116827), Link(18, 2016801037, 1412405990),
       Link(37, 468106921960891358, 461868074), Link(75, 50056657696634778, 977241766),
       Link(151, 224093882723702964, 16384)];
    ChainIsPower(458766, c, 7);
  }

  lemma PowerLK()
    ensures Power(42966) == 1730649443
  {
    hide Power;
    PowerL();
    var c :=
      [Link(1, 0, 1524325968), Link(2, 1081996438, 1887638), Link(5, 2529213002931, 707765235),
       Link(10, 233264466, 1713417723), Link(21, 2083888569061405159, 2047567799), Link(42, 1952300729, 1948025738),
       Link(85, 2693626426133026387, 573722003), Link(170, 153275642, 2047905635),
       Link(341, 2976924805169526931, 1730649443)];
    ChainIsPower(126, c, 8);
  }

  lemma PowerOver151()
    ensures Power(14221746) == 1013763951
  {
    hide Power;
    PowerLK();
    var c :=
      [Link(1, 0, 1730649443), Link(2, 1394724238, 1376674263), Link(5, 1527360757991528379, 1018536654),
       Link(10, 483084896, 1268820004), Link(20, 749670063, 1612600255), Link(41, 2095717258264431395, 1682133510),
       Link(82, 1317622674, 133508022), Link(165, 14364614148758366, 432825610),
       Link(331, 150975035741776067, 1013763951)];
    ChainIsPower(42966, c, 8);
  }

  lemma PowerOver331()
    ensures Power(6487866) == 759513457
  {
    hide Power;
    PowerLK();
    var c :=
      [Link(1, 0, 1730649443), Link(2, 1394724238, 1376674263), Link(4, 882536185, 1233326474),
       Link(9, 1225844405797625199, 2046898715), Link(18, 1951025031, 508483168),
       Link(37, 208368662572497354, 1800693194), Link(75, 2613115991678627586, 1722962606),
       Link(151, 2392384309354588453, 759513457)];
    ChainIsPower(42966, c, 7);
  }

  lemma PowerOver1()
    ensures Power(2147483646) == 1
  {
    hide Power;
    PowerR();
    var c :=
      [Link(1, 0, 430777829), Link(3, 37224610674793273, 1568387158), Link(7, 493435092882251862, 1074490442),
       Link(15, 231594686489355606, 200649674), Link(31, 8076075954037748, 863647848),
       Link(63, 149622486653957310, 2147483646), Link(126, 2147483645, 1)];
    ChainIsPower(17043521, c, 6);
  }

  lemma PowerOver2()
    ensures Power(1073741823) == 2147483646
  {
    hide Power;
    PowerR();
    var c :=
      [Link(1, 0, 430777829), Link(3, 37224610674793273, 1568387158), Link(7, 493435092882251862, 1074490442),
       Link(15, 231594686489355606, 200649674), Link(31, 8076075954037748, 863647848),
       Link(63, 149622486653957310, 2147483646)];
    ChainIsPower(17043521, c, 5);
  }

  lemma PowerOver3()
    ensures Power(715827882) == 634005911
  {
    hide Power;
    PowerR();
    var c :=
      [Link(1, 0, 430777829), Link(2, 86412549, 2084867038), Link(5, 871927156453691696, 328957764),
       Link(10, 50390702, 1990029502), Link(21, 794405985086288132, 634005912), Link(42, 187178839, 634005911)];
    ChainIsPower(17043521, c, 5);
  }

  lemma PowerOver7()
    ensures Power(306783378) == 1600955193
  {
    hide Power;
    PowerR();
    var c :=
      [Link(1, 0, 430777829), Link(2, 86412549, 2084867038), Link(4, 2024076212, 587188280),
       Link(9, 69163702680796641, 394883873), Link(18, 72612088, 1600955193)];
    ChainIsPower(17043521, c, 4);
  }

  // ----- divisors -----

  /** No divisor from 2 to `d`. */
  predicate Rough(q: nat, d: nat)
    decreases d
  {
    d < 2 || (q % d != 0 && Rough(q, d - 1))
  }

  lemma {:induction false} RoughHasNoDivisor(q: nat, d: nat, x: nat)
    requires Rough(q, d) && 2 <= x <= d
    ensures q % x != 0
  {
    if x < d { RoughHasNoDivisor(q, d - 1, x); }
  }

  lemma ProductIsMultiple(g: nat, h: nat)
    requires g > 0
    ensures (g * h) % g == 0
  {
    var r, k := (g * h) % g, h - (g * h) / g;
    assert r == g * k;
    assert k > 0 ==> g * k >= g;
  }

  /** A rough number below the next square is prime. */
  lemma RoughIsPrime(q: nat, b: nat, g: nat, h: nat)
    requires Rough(q, b) && 0 < q < (b + 1) * (b + 1) && g * h == q
    ensures g == 1 || h == 1
  {
    hide Rough;
    if g > b && h > b {
      BothBig(b + 1, g, h);
    } else if 2 <= g <= b {
      RoughHasNoDivisor(q, b, g);
      ProductIsMultiple(g, h);
    } else if 2 <= h <= b {
      RoughHasNoDivisor(q, b, h);
      ProductIsMultiple(h, g);
    }
  }

  lemma BothBig(n: nat, g: nat, h: nat)
    requires n <= g && n <= h
    ensures n * n <= g * h
  {
    assert n * n <= n * h <= g * h by {
      assert n * (h - n) >= 0;
      assert (g - n) * h >= 0;
    }
  }

  /** Euclid's algorithm, with the coefficients and the cofactors. */
  lemma {:induction false} Bezout(a: nat, b: nat) returns (u: int, v: int, g: nat, x: nat, y: nat)
    requires a > 0
    ensures u * a + v * b == g > 0 && a == g * x && b == g * y
    decreases b
  {
    if b == 0 {
      u, v, g, x, y := 1, 0, a, 1, 0;
    } else {
      var q, r := a / b, a % b;
      var u', v', x', y';
      u', v', g, x', y' := Bezout(b, r);
      u, v, x, y := v', u' - v' * q, q * x' + y', x';
      BezoutStep(a, b, q, r, u', v', g, x', y');
    }
  }

  lemma BezoutStep(a: int, b: int, q: int, r: int, u: int, v: int, g: int, x: int, y: int)
    requires a == q * b + r && u * b + v * r == g && b == g * x && r == g * y
    ensures v * a + (u - v * q) * b == g && a == g * (q * x + y)
  {
    assert v * a == v * (q * b) + v * r;
    assert (u - v * q) * b == u * b - v * (q * b);
    assert g * (q * x + y) == q * (g * x) + g * y;
  }

  /** A prime factor of a product that is not in one factor can be taken out of the other. */
  lemma TakeOut(q: nat, b: nat, e: nat, c: nat, m: nat) returns (c': nat)
    requires Rough(q, b) && 1 < q < (b + 1) * (b + 1)
    requires e * c == q * m && e % q != 0
    ensures e * c' == m
  {
    var u, v, g, x, y := Bezout(q, e);
    RoughIsPrime(q, b, g, x);
    if g != 1 {
      ProductIsMultiple(q, y);
      assert false;
    }
    c' := Quotient(q, e, c, m, u, v);
  }

  lemma Quotient(q: nat, e: nat, c: nat, m: nat, u: int, v: int) returns (c': nat)
    requires q > 0 && e * c == q * m && u * q + v * e == 1
    ensures e * c' == m
  {
    var k := u * c + v * m;
    assert c == (u * q + v * e) * c;
    assert (u * q + v * e) * c == q * (u * c) + v * (e * c);
    assert v * (q * m) == q * (v * m);
    assert c == q * k;
    assert k < 0 ==> q * k < 0;
    c' := k;
    assert q * (e * c') == q * m;
    Cancel(q, e * c', m);
  }

  lemma Cancel(q: int, a: int, b: int)
    requires q > 0 && q * a == q * b
    ensures a == b
  {
    assert q * (a - b) == 0;
  }

  // ----- the order of A -----

  /** The least exponent from `k` on whose power is 1. */
  ghost function FirstUnit(k: nat): (r: nat)
    requires k <= N && Power(N) == 1
    ensures k <= r <= N && Power(r) == 1
    ensures forall j :: k <= j < r ==> Power(j) != 1
    decreases N - k
  {
    if Power(k) == 1 then k else FirstUnit(k + 1)
  }

  lemma UnitsAreMultiples(d: nat, k: nat)
    requires d > 0 && Power(d) == 1 && (forall j :: 0 < j < d ==> Power(j) != 1) && Power(k) == 1
    ensures k % d == 0
  {
    var q, r := k / d, k % d;
    PowerOfUnit(d, q);
    PowerAdd(d * q, r);
    PowerBelow(r);
  }

  lemma NoFactor(q: nat, d: nat, e: nat)
    requires q > 0 && d * e == N && Power(d) == 1 && N % q == 0 && Power(N / q) != 1
    ensures e % q != 0
  {
    if e % q == 0 {
      var f := e / q;
      assert N == q * (d * f) by { assert e == q * f; }
      PowerOfUnit(d, f);
      DivideOut(q, d * f);
      assert false;
    }
  }

  lemma DivideOut(q: nat, k: nat)
    requires q > 0
    ensures (q * k) / q == k
  {
    ProductIsMultiple(q, k);
    Cancel(q, (q * k) / q, k);
  }

  lemma SmallPrimes()
    ensures Rough(331, 18) && Rough(151, 12) && Rough(31, 5) && Rough(11, 3) && Rough(7, 2) && Rough(3, 1) && Rough(2, 1)
  {
    assert Rough(331, 6);
    assert Rough(331, 12);
    assert Rough(151, 6);
  }

  /** Nothing of N is left over. */
  lemma Cofactor(e: nat, c: nat)
    requires e * c == N
    requires e % 2 != 0 && e % 3 != 0 && e % 7 != 0 && e % 11 != 0 && e % 31 != 0 && e % 151 != 0 && e % 331 != 0
    ensures e == 1
  {
    hide Rough;
    SmallPrimes();
    var c1 := TakeOut(331, 18, e, c, 6487866);
    var c2 := TakeOut(151, 12, e, c1, 42966);
    var c3 := TakeOut(31, 5, e, c2, 1386);
    var c4 := TakeOut(11, 3, e, c3, 126);
    SmallCofactor(e, c4);
  }

  lemma SmallCofactor(e: nat, c: nat)
    requires e * c == 126 && e % 2 != 0 && e % 3 != 0 && e % 7 != 0
    ensures e == 1
  {
    hide *;
    SmallPrimes();
    var c5 := TakeOut(7, 2, e, c, 18);
    var c6 := TakeOut(3, 1, e, c5, 6);
    var c7 := TakeOut(3, 1, e, c6, 2);
    var c8 := TakeOut(2, 1, e, c7, 1);
    FactorOfOne(e, c8);
  }

  lemma FactorOfOne(e: nat, c: nat)
    requires e * c == 1
    ensures e == 1
  {
    assert e > 1 ==> c == 0 || e * c >= e;
  }

  lemma PowersOverPrimes()
    ensures Power(N) == 1
    ensures Power(N / 2) != 1 && Power(N / 3) != 1 && Power(N / 7) != 1 && Power(N / 11) != 1
    ensures Power(N / 31) != 1 && Power(N / 151) != 1 && Power(N / 331) != 1
  {
    hide Power;
    PowerOver1();
    PowerOver2();
    PowerOver3();
    PowerOver7();
    PowerOver11();
    PowerOver31();
    PowerOver151();
    PowerOver331();
  }

  lemma NoFactors(d: nat, e: nat)
    requires d * e == N && Power(d) == 1
    ensures e % 2 != 0 && e % 3 != 0 && e % 7 != 0 && e % 11 != 0 && e % 31 != 0 && e % 151 != 0 && e % 331 != 0
  {
    hide Power;
    PowersOverPrimes();
    NoFactor(2, d, e);
    NoFactor(3, d, e);
    NoFactor(7, d, e);
    NoFactor(11, d, e);
    NoFactor(31, d, e);
    NoFactor(151, d, e);
    NoFactor(331, d, e);
  }

  /** A has order M - 1: its powers come back to 1 exactly at the multiples of M - 1. */
  lemma OrderIsN(k: nat)
    ensures Power(k) == 1 <==> k % N == 0
  {
    hide Power, Rough;
    PowersOverPrimes();
    var d := FirstUnit(1);
    UnitsAreMultiples(d, N);
    var e := N / d;
    NoFactors(d, e);
    Cofactor(e, d);
    if Power(k) == 1 { UnitsAreMultiples(d, k); }
    if k % N == 0 { PowerOfUnit(N, k / N); }
  }

  // ----- every seed -----

  lemma PowerIsSeed(k: nat)
    ensures Seed(Power(k))
  {
    if k == 0 {
      assert Power(0) == 1;
    } else {
      PowerIsSeed(k - 1);
      NeverZero(Power(k - 1));
    }
  }

  lemma PowersAreDistinct(i: nat, j: nat)
    requires i < j < N
    ensures Power(i) != Power(j)
  {
    hide Power;
    if Power(i) == Power(j) {
      var rest := N - j;
      PowerAdd(rest, j);
      PowerAdd(rest, i);
      OrderIsN(rest + j);
      OrderIsN(rest + i);
      assert false;
    }
  }

  function Powers(n: nat): set<int> { if n == 0 then {} else Powers(n - 1) + {Power(n - 1)} }

  function UpTo(n: nat): set<int> { if n == 0 then {} else UpTo(n - 1) + {n} }

  lemma {:induction false} PowersCount(n: nat)
    requires n <= N
    ensures |Powers(n)| == n
    ensures forall x :: x in Powers(n) ==> Seed(x) && exists k :: 0 <= k < n && Power(k) == x
  {
    if n > 0 {
      PowersCount(n - 1);
      PowerIsSeed(n - 1);
      if Power(n - 1) in Powers(n - 1) {
        var k :| 0 <= k < n - 1 && Power(k) == Power(n - 1);
        PowersAreDistinct(k, n - 1);
        assert false;
      }
    }
  }

  lemma {:induction false} UpToCount(n: nat)
    ensures |UpTo(n)| == n && forall x :: x in UpTo(n) <==> 1 <= x <= n
  {
    if n > 0 { UpToCount(n - 1); }
  }

  lemma SameSize(a: set<int>, b: set<int>)
    requires a <= b && |a| == |b|
    ensures a == b
  {
    assert |b| == |a| + |b - a| by { assert b == a + (b - a); }
  }

  /** Every seed is a power of A. */
  lemma Logarithm(s: nat) returns (k: nat)
    requires Seed(s)
    ensures k < N && Power(k) == s
  {
    hide Power, Powers, UpTo;
    PowersCount(N);
    UpToCount(N);
    forall x | x in Powers(N) ensures x in UpTo(N) {
      assert Seed(x);
    }
    SameSize(Powers(N), UpTo(N));
    assert s in Powers(N);
    k :| 0 <= k < N && Power(k) == s;
  }

  /** From any seed the generator reaches any other, within one cycle. */
  lemma EverySeedIsVisited(s: nat, t: nat) returns (k: nat)
    requires Seed(s) && Seed(t)
    ensures k < N && Iterate(s, k) == t
  {
    hide Power, Iterate;
    var i := Logarithm(s);
    var j := Logarithm(t);
    k := if i <= j then j - i else j + (N - i);
    PowerThen(i, k);
    if i > j {
      OrderIsN(N);
      WholeCycle(j);
    }
  }

  lemma WholeCycle(j: nat)
    requires Power(N) == 1
    ensures Power(j + N) == Power(j)
  {
    hide Power;
    PowerAdd(j, N);
    PowerBelow(j);
  }

  /** And it comes back exactly after whole cycles of M - 1 steps. */
  lemma PeriodIsExact(s: nat, k: nat)
    requires Seed(s)
    ensures Iterate(s, k) == s <==> k % N == 0
  {
    hide Power, Iterate;
    OrderIsN(k);
    if Power(k) == 1 {
      IterateIsTimes(s, k);
    }
    if Iterate(s, k) == s {
      var i := Logarithm(s);
      PowerThen(i, k);
      SamePower(i, k);
    }
  }

  lemma PowerThen(i: nat, k: nat)
    ensures Power(i + k) == Iterate(Power(i), k)
  {
    IterateAdd(1, i, k);
  }

  lemma SamePower(i: nat, k: nat)
    requires i < N && Power(i + k) == Power(i)
    ensures Power(k) == 1
  {
    hide Power;
    var rest := N - i;
    PowerAdd(rest, i + k);
    PowerAdd(rest, i);
    assert rest + (i + k) == N + k && rest + i == N;
    OrderIsN(N);
    PowerAdd(N, k);
    PowerBelow(k);
  }

  /** One step is a permutation of the seeds. */
  lemma StepIsPermutation(s: nat, t: nat)
    requires Seed(s) && Seed(t)
    ensures Seed(Step(s)) && (Step(s) == Step(t) ==> s == t)
    ensures Seed(Iterate(s, N - 1)) && Step(Iterate(s, N - 1)) == s
  {
    hide Power;
    NeverZero(s);
    PeriodIsExact(s, N);
    PeriodIsExact(t, N);
    assert Iterate(s, 0) == s && Iterate(t, 0) == t;
    IterateAdd(s, 1, N - 1);
    IterateAdd(t, 1, N - 1);
    IterateIsSeed(s, N - 1);
    assert Iterate(s, N) == Step(Iterate(s, N - 1));
  }

  lemma {:induction false} IterateIsSeed(s: nat, k: nat)
    requires Seed(s)
    ensures Seed(Iterate(s, k))
  {
    if k > 0 {
      IterateIsSeed(s, k - 1);
      NeverZero(Iterate(s, k - 1));
    }
  }

  // ----- how even Uniform is over a whole cycle -----

  /** How many of the next `k` calls of Uniform(n) give `r`. */
  function Draws(s: nat, k: nat, n: nat, r: nat): nat
    requires n > 0
  {
    if k == 0 then 0 else Draws(s, k - 1, n, r) + if Rem(Iterate(s, k), n) == r then 1 else 0
  }

  function Visited(s: nat, k: nat): set<int> {
    if k == 0 then {} else Visited(s, k - 1) + {Iterate(s, k)}
  }

  function Quot(x: nat, n: nat): nat
    requires n > 0
  {
    x / n
  }

  function Rem(x: int, n: nat): int
    requires n > 0
  {
    x % n
  }

  function Congruent(xs: set<int>, n: nat, r: nat): set<int>
    requires n > 0
  {
    set x | x in xs && Rem(x, n) == r
  }

  lemma CongruentGrows(xs: set<int>, x: int, n: nat, r: nat)
    requires n > 0 && x !in xs
    ensures |Congruent(xs + {x}, n, r)| == |Congruent(xs, n, r)| + if Rem(x, n) == r then 1 else 0
  {
    hide Rem;
    if Rem(x, n) == r {
      assert Congruent(xs + {x}, n, r) == Congruent(xs, n, r) + {x};
    } else {
      assert Congruent(xs + {x}, n, r) == Congruent(xs, n, r);
    }
  }

  ghost predicate Reached(s: nat, k: nat, x: int) {
    Seed(x) && exists i :: 1 <= i <= k && Iterate(s, i) == x
  }

  lemma {:induction false} VisitedAre(s: nat, k: nat, x: int)
    requires Seed(s) && x in Visited(s, k)
    ensures Reached(s, k, x)
  {
    hide Iterate;
    if x in Visited(s, k - 1) {
      VisitedAre(s, k - 1, x);
    } else {
      IterateIsSeed(s, k);
    }
  }

  lemma {:induction false} VisitedCount(s: nat, k: nat, n: nat, r: nat)
    requires Seed(s) && k <= N && n > 0
    ensures |Visited(s, k)| == k && Draws(s, k, n, r) == |Congruent(Visited(s, k), n, r)|
  {
    hide Iterate;
    if k == 0 {
      assert Congruent({}, n, r) == {};
    } else {
      VisitedCount(s, k - 1, n, r);
      NotYetVisited(s, k);
      hide Congruent;
      CongruentGrows(Visited(s, k - 1), Iterate(s, k), n, r);
    }
  }

  lemma NotYetVisited(s: nat, k: nat)
    requires Seed(s) && 0 < k <= N
    ensures Iterate(s, k) !in Visited(s, k - 1)
  {
    hide Iterate, Visited;
    if Iterate(s, k) in Visited(s, k - 1) {
      VisitedAre(s, k - 1, Iterate(s, k));
      var i :| 1 <= i <= k - 1 && Iterate(s, i) == Iterate(s, k);
      IterateAdd(s, i, k - i);
      IterateIsSeed(s, i);
      PeriodIsExact(Iterate(s, i), k - i);
      assert false;
    }
  }

  /** How many of 1 to `m` leave remainder `r`. */
  lemma {:induction false} Residues(m: nat, n: nat, r: nat)
    requires r < n
    ensures |Congruent(UpTo(m), n, r)| == Quot(m, n) + if 0 < r <= Rem(m, n) then 1 else 0
  {
    if m == 0 {
      assert Congruent(UpTo(0), n, r) == {};
      SmallQuotient(n);
    } else {
      hide Quot, Rem, Congruent;
      Residues(m - 1, n, r);
      UpToCount(m - 1);
      CongruentGrows(UpTo(m - 1), m, n, r);
      NextQuotient(m - 1, n);
      NextResidue(Quot(m - 1, n), Rem(m - 1, n), Quot(m, n), Rem(m, n), n, r);
    }
    hide Quot, Rem, Congruent;
  }

  lemma SmallQuotient(n: nat)
    requires n > 0
    ensures Quot(0, n) == 0 && Rem(0, n) == 0
  {
  }

  lemma NextResidue(q: nat, k: int, q': nat, k': int, n: nat, r: nat)
    requires r < n && 0 <= k < n
    requires if k == n - 1 then q' == q + 1 && k' == 0 else q' == q && k' == k + 1
    ensures q' + (if 0 < r <= k' then 1 else 0)
         == q + (if 0 < r <= k then 1 else 0) + (if k' == r then 1 else 0)
  {
  }

  lemma NextQuotient(m: nat, n: nat)
    requires n > 0
    ensures 0 <= Rem(m, n) < n
    ensures Quot(m + 1, n) == (if Rem(m, n) == n - 1 then Quot(m, n) + 1 else Quot(m, n))
    ensures Rem(m + 1, n) == (if Rem(m, n) == n - 1 then 0 else Rem(m, n) + 1)
  {
    var q, r := m / n, m % n;
    assert m == n * q + r;
    if r == n - 1 {
      assert m + 1 == n * (q + 1);
      Divided(m + 1, n, q + 1, 0);
    } else {
      Divided(m + 1, n, q, r + 1);
    }
  }

  lemma Divided(x: int, n: int, q: int, r: int)
    requires n > 0 && x == n * q + r && 0 <= r < n
    ensures x / n == q && x % n == r
  {
    var d := x / n - q;
    assert n * d + x % n == r;
    assert d > 0 ==> n * d >= n;
    assert d < 0 ==> n * d <= -n;
  }

  /** Over a whole cycle, from any seed, Uniform(n) gives every number from 0 to n - 1 equally often, up to one. */
  lemma UniformIsEven(s: nat, n: nat, r: nat)
    requires Seed(s) && r < n
    ensures N / n <= Draws(s, N, n, r) <= N / n + 1
  {
    hide Visited, Draws, Congruent, UpTo, Iterate, Rem;
    VisitedCount(s, N, n, r);
    UpToCount(N);
    forall x | x in Visited(s, N) ensures x in UpTo(N) {
      VisitedAre(s, N, x);
    }
    SameSize(Visited(s, N), UpTo(N));
    Residues(N, n, r);
  }
}
