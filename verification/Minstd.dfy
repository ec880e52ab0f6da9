// The deterministic generator of rng.rs: Park-Miller minstd, the engine ISO C++
// calls minstd_rand0 in section [rand.predef]. One roll multiplies by 16807
// modulo 2^31 - 1.
module Minstd {
  import RealPowers

  const MOD: nat := 2_147_483_647
  const MULT: nat := 16_807
  // The multiplier that takes a roll back.
  const BACK: nat := 1_407_677_000
  // How many states there are: every residue but zero.
  const STATES: nat := 2_147_483_646

  type State = s: nat | 1 <= s < 2_147_483_647 witness 1

  // The floor of the magnitude, reduced; zero becomes one.
  function Seed(seed: real): State {
    var reduced := RealPowers.Abs(seed).Floor % MOD;
    if reduced == 0 then 1 else reduced
  }

  // Every number seeds a state: the sign and the fraction do not matter, whole
  // moduli do not matter, and a state seeds itself.
  lemma SeedFacts(x: real, s: State)
    ensures Seed(-x) == Seed(x)
    ensures x >= 0.0 ==> Seed(x) == Seed(x.Floor as real) == Seed(x + MOD as real)
    ensures Seed(s as real) == s
  {
    if x >= 0.0 {
      assert (x + MOD as real).Floor == x.Floor + MOD;
      assert (x.Floor + MOD) % MOD == x.Floor % MOD;
    }
  }

  // Multiplication modulo MOD.
  function Mul(a: nat, b: nat): (r: nat)
    ensures r < MOD
  {
    a * b % MOD
  }

  lemma ModShift(x: int, k: int)
    ensures (x + MOD * k) % MOD == x % MOD
  {
  }

  lemma MulComm(a: nat, b: nat)
    ensures Mul(a, b) == Mul(b, a)
  {
  }

  lemma MulReduceLeft(x: nat, c: nat)
    ensures Mul(x % MOD, c) == Mul(x, c)
  {
    var q, r := x / MOD, x % MOD;
    assert x == MOD * q + r;
    assert x * c == r * c + MOD * (q * c) by {
      assert (MOD * q + r) * c == MOD * q * c + r * c;
    }
    ModShift(r * c, q * c);
  }

  lemma MulAssoc(a: nat, b: nat, c: nat)
    ensures Mul(Mul(a, b), c) == Mul(a, Mul(b, c))
  {
    MulReduceLeft(a * b, c);
    MulReduceLeft(b * c, a);
    assert a * b * c == b * c * a;
    MulComm(Mul(b, c), a);
  }

  lemma MulOne(a: nat)
    requires a < MOD
    ensures Mul(a, 1) == a && Mul(1, a) == a
  {
  }

  lemma Unit()
    ensures Mul(MULT, BACK) == 1
  {
  }

  // A roll never leaves the valid states.
  function Next(state: State): State {
    hide Mul;
    var next := Mul(state, MULT);
    BackFromNext(state);
    next
  }

  lemma BackFromNext(state: State)
    ensures Mul(Mul(state, MULT), BACK) == state
    ensures Mul(state, MULT) != 0
  {
    Unit();
    MulOne(state);
    MulAssoc(state, MULT, BACK);
    hide Mul;
    MulZero(BACK);
  }

  lemma MulZero(a: nat)
    ensures Mul(0, a) == 0
  {
  }

  // The new state and a sample.
  function Roll(state: State): (r: (State, real))
    ensures 0.0 <= r.1 < 1.0
  {
    var next := Next(state);
    (next, (next as real - 1.0) / (MOD as real - 1.0))
  }

  function Unroll(state: State): State {
    hide Mul;
    NextFromBack(state);
    Mul(state, BACK)
  }

  lemma NextFromBack(state: State)
    ensures Mul(Mul(state, BACK), MULT) == state
    ensures Mul(state, BACK) != 0
  {
    Unit();
    MulComm(MULT, BACK);
    MulOne(state);
    MulAssoc(state, BACK, MULT);
    hide Mul;
    MulZero(MULT);
  }

  // A roll can be taken back, and every state is some roll's result.
  lemma RollIsABijection(state: State)
    ensures Unroll(Roll(state).0) == state && Roll(Unroll(state)).0 == state
  {
    hide Mul;
    BackFromNext(state);
    NextFromBack(state);
  }

  // Distinct states give distinct samples.
  lemma SampleTellsTheState(a: State, b: State)
    ensures Roll(a).1 == Roll(b).1 <==> a == b
  {
    hide Mul;
    BackFromNext(a);
    BackFromNext(b);
    var x, y := Next(a), Next(b);
    if Roll(a).1 == Roll(b).1 {
      assert (x as real - 1.0) / STATES as real * STATES as real == x as real - 1.0;
      assert (y as real - 1.0) / STATES as real * STATES as real == y as real - 1.0;
    }
  }

  function Rolls(state: State, n: nat): State {
    if n == 0 then state else Next(Rolls(state, n - 1))
  }

  // MULT to the n, modulo MOD.
  function Power(base: nat, n: nat): (r: nat)
    ensures r < MOD
  {
    if n == 0 then 1 else Mul(Power(base, n - 1), base)
  }

  // n rolls at once: one multiplication by a power of the multiplier.
  lemma {:induction false} RollsArePowers(state: State, n: nat)
    ensures Rolls(state, n) == Mul(state, Power(MULT, n))
  {
    hide Mul;
    if n == 0 {
      MulOne(state);
    } else {
      RollsArePowers(state, n - 1);
      MulAssoc(state, Power(MULT, n - 1), MULT);
    }
  }

  lemma {:induction false} PowerAdd(base: nat, m: nat, n: nat)
    ensures Power(base, m + n) == Mul(Power(base, m), Power(base, n))
  {
    hide Mul;
    if n == 0 {
      MulOne(Power(base, m));
    } else {
      PowerAdd(base, m, n - 1);
      MulAssoc(Power(base, m), Power(base, n - 1), base);
    }
  }

  // ----- known powers of the multiplier -----

  // Kept as a fact by name, so that no exponent is ever unrolled.
  ghost predicate Is(n: nat, v: nat) {
    Power(MULT, n) == v
  }

  lemma Start()
    ensures Is(1, 16807)
  {
    assert Power(MULT, 1) == Mul(Power(MULT, 0), MULT);
  }

  lemma Join(m: nat, v: nat, n: nat, w: nat, product: nat)
    requires Is(m, v) && Is(n, w) && v * w % 2147483647 == product
    ensures Is(m + n, product)
  {
    PowerAdd(MULT, m, n);
  }

  // The repeated squares.
  lemma Squares()
    ensures Is(1, 16807) && Is(2, 282475249) && Is(4, 984943658) && Is(8, 1457850878)
    ensures Is(16, 1137522503) && Is(32, 1636807826) && Is(64, 685118024) && Is(128, 515204530)
    ensures Is(256, 897054849) && Is(512, 2038299453) && Is(1024, 1836275591) && Is(2048, 349037107)
    ensures Is(4096, 149796865) && Is(8192, 1186652285) && Is(16384, 2106880871) && Is(32768, 877809922)
    ensures Is(65536, 1682791109) && Is(131072, 1900685356) && Is(262144, 2080563572) && Is(524288, 612544882)
    ensures Is(1048576, 1295048709) && Is(2097152, 1987420232) && Is(4194304, 868966365) && Is(8388608, 1331238991)
    ensures Is(16777216, 1550655590) && Is(33554432, 766698560) && Is(67108864, 1154667137) && Is(134217728, 901595110)
    ensures Is(268435456, 1008653149) && Is(536870912, 1821072732) && Is(1073741824, 2147466840) && Is(2147483648, 282475249)
  {
    hide Is;
    Start();
    Join(1, 16807, 1, 16807, 282475249);
    Join(2, 282475249, 2, 282475249, 984943658);
    Join(4, 984943658, 4, 984943658, 1457850878);
    Join(8, 1457850878, 8, 1457850878, 1137522503);
    Join(16, 1137522503, 16, 1137522503, 1636807826);
    Join(32, 1636807826, 32, 1636807826, 685118024);
    Join(64, 685118024, 64, 685118024, 515204530);
    Join(128, 515204530, 128, 515204530, 897054849);
    Join(256, 897054849, 256, 897054849, 2038299453);
    Join(512, 2038299453, 512, 2038299453, 1836275591);
    Join(1024, 1836275591, 1024, 1836275591, 349037107);
    Join(2048, 349037107, 2048, 349037107, 149796865);
    Join(4096, 149796865, 4096, 149796865, 1186652285);
    Join(8192, 1186652285, 8192, 1186652285, 2106880871);
    Join(16384, 2106880871, 16384, 2106880871, 877809922);
    Join(32768, 877809922, 32768, 877809922, 1682791109);
    Join(65536, 1682791109, 65536, 1682791109, 1900685356);
    Join(131072, 1900685356, 131072, 1900685356, 2080563572);
    Join(262144, 2080563572, 262144, 2080563572, 612544882);
    Join(524288, 612544882, 524288, 612544882, 1295048709);
    Join(1048576, 1295048709, 1048576, 1295048709, 1987420232);
    Join(2097152, 1987420232, 2097152, 1987420232, 868966365);
    Join(4194304, 868966365, 4194304, 868966365, 1331238991);
    Join(8388608, 1331238991, 8388608, 1331238991, 1550655590);
    Join(16777216, 1550655590, 16777216, 1550655590, 766698560);
    Join(33554432, 766698560, 33554432, 766698560, 1154667137);
    Join(67108864, 1154667137, 67108864, 1154667137, 901595110);
    Join(134217728, 901595110, 134217728, 901595110, 1008653149);
    Join(268435456, 1008653149, 268435456, 1008653149, 1821072732);
    Join(536870912, 1821072732, 536870912, 1821072732, 2147466840);
    Join(1073741824, 2147466840, 1073741824, 2147466840, 282475249);
  }

  lemma PowerOver3()
    ensures Is(715827882, 634005911)
  {
    hide Is;
    Squares();
    Join(2, 282475249, 8, 1457850878, 2007237709);
    Join(10, 2007237709, 32, 1636807826, 2110010672);
    Join(42, 2110010672, 128, 515204530, 881140534);
    Join(170, 881140534, 512, 2038299453, 1987502657);
    Join(682, 1987502657, 2048, 349037107, 1656394764);
    Join(2730, 1656394764, 8192, 1186652285, 99284761);
    Join(10922, 99284761, 32768, 877809922, 544348633);
    Join(43690, 544348633, 131072, 1900685356, 1175969859);
    Join(174762, 1175969859, 524288, 612544882, 448035156);
    Join(699050, 448035156, 2097152, 1987420232, 313625057);
    Join(2796202, 313625057, 8388608, 1331238991, 1401305734);
    Join(11184810, 1401305734, 33554432, 766698560, 1252779437);
    Join(44739242, 1252779437, 134217728, 901595110, 1695056031);
    Join(178956970, 1695056031, 536870912, 1821072732, 634005911);
  }

  lemma PowerOver7()
    ensures Is(306783378, 1600955193)
  {
    hide Is;
    Squares();
    Join(2, 282475249, 16, 1137522503, 16531729);
    Join(18, 16531729, 128, 515204530, 877819790);
    Join(146, 877819790, 1024, 1836275591, 1973792143);
    Join(1170, 1973792143, 8192, 1186652285, 1588280530);
    Join(9362, 1588280530, 65536, 1682791109, 713072451);
    Join(74898, 713072451, 524288, 612544882, 864669998);
    Join(599186, 864669998, 4194304, 868966365, 1089368889);
    Join(4793490, 1089368889, 33554432, 766698560, 1410082339);
    Join(38347922, 1410082339, 268435456, 1008653149, 1600955193);
  }

  lemma PowerOver11()
    ensures Is(195225786, 298192073)
  {
    hide Is;
    Squares();
    Join(2, 282475249, 8, 1457850878, 2007237709);
    Join(10, 2007237709, 16, 1137522503, 1131570933);
    Join(26, 1131570933, 32, 1636807826, 1927702196);
    Join(58, 1927702196, 128, 515204530, 462242385);
    Join(186, 462242385, 2048, 349037107, 621222764);
    Join(2234, 621222764, 8192, 1186652285, 1432671743);
    Join(10426, 1432671743, 16384, 2106880871, 904341801);
    Join(26810, 904341801, 32768, 877809922, 687791678);
    Join(59578, 687791678, 131072, 1900685356, 515678993);
    Join(190650, 515678993, 2097152, 1987420232, 70230534);
    Join(2287802, 70230534, 8388608, 1331238991, 1922162627);
    Join(10676410, 1922162627, 16777216, 1550655590, 249105855);
    Join(27453626, 249105855, 33554432, 766698560, 765237990);
    Join(61008058, 765237990, 134217728, 901595110, 298192073);
  }

  lemma PowerOver31()
    ensures Is(69273666, 16384)
  {
    hide Is;
    Squares();
    Join(2, 282475249, 64, 685118024, 1060806853);
    Join(66, 1060806853, 2048, 349037107, 111398400);
    Join(2114, 111398400, 65536, 1682791109, 766345775);
    Join(67650, 766345775, 2097152, 1987420232, 501934855);
    Join(2164802, 501934855, 67108864, 1154667137, 16384);
  }

  lemma PowerOver151()
    ensures Is(14221746, 1013763951)
  {
    hide Is;
    Squares();
    Join(2, 282475249, 16, 1137522503, 16531729);
    Join(18, 16531729, 32, 1636807826, 937186357);
    Join(50, 937186357, 128, 515204530, 290145159);
    Join(178, 290145159, 256, 897054849, 2119315080);
    Join(434, 2119315080, 65536, 1682791109, 461253127);
    Join(65970, 461253127, 524288, 612544882, 1419975727);
    Join(590258, 1419975727, 1048576, 1295048709, 2125667626);
    Join(1638834, 2125667626, 4194304, 868966365, 168128469);
    Join(5833138, 168128469, 8388608, 1331238991, 1013763951);
  }

  lemma PowerOver331()
    ensures Is(6487866, 759513457)
  {
    hide Is;
    Squares();
    Join(2, 282475249, 8, 1457850878, 2007237709);
    Join(10, 2007237709, 16, 1137522503, 1131570933);
    Join(26, 1131570933, 32, 1636807826, 1927702196);
    Join(58, 1927702196, 256, 897054849, 1262696576);
    Join(314, 1262696576, 512, 2038299453, 895063368);
    Join(826, 895063368, 1024, 1836275591, 2028965134);
    Join(1850, 2028965134, 2048, 349037107, 840788275);
    Join(3898, 840788275, 4096, 149796865, 1433401925);
    Join(7994, 1433401925, 8192, 1186652285, 369200414);
    Join(16186, 369200414, 16384, 2106880871, 1576225411);
    Join(32570, 1576225411, 32768, 877809922, 1456949660);
    Join(65338, 1456949660, 131072, 1900685356, 7693700);
    Join(196410, 7693700, 2097152, 1987420232, 1043837591);
    Join(2293562, 1043837591, 4194304, 868966365, 759513457);
  }
}
