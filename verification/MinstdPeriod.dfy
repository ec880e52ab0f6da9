// The generator's period: 16807 has order 2^31 - 2 modulo 2^31 - 1, shown from
// the factors 2 * 3 * 3 * 7 * 11 * 31 * 151 * 331 of that order, so that every
// seed runs through every state before it repeats.
module MinstdPeriod {
  import opened Minstd

  // ----- divisibility -----

  ghost predicate Divides(d: nat, n: nat) {
    d > 0 && n % d == 0
  }

  lemma SmallMultiple(d: nat, k: int)
    requires 0 <= d * k < d
    ensures k == 0
  {
    assert k >= 1 ==> d * k >= d * 1;
    assert k <= -1 ==> d * k <= d * -1;
  }

  lemma MultipleDivides(d: nat, c: nat)
    requires d > 0
    ensures Divides(d, d * c)
  {
    var x := d * c;
    var k := c - x / d;
    assert d * k == x % d by {
      assert x == d * (x / d) + x % d;
      assert d * (c - x / d) == d * c - d * (x / d);
    }
    SmallMultiple(d, k);
  }

  lemma Quotient(d: nat, n: nat) returns (c: nat)
    requires Divides(d, n)
    ensures n == d * c
  {
    c := n / d;
  }

  // d divides a - t * b when it divides both.
  lemma DividesDifference(d: nat, a: nat, b: nat, t: nat, rest: nat)
    requires Divides(d, a) && Divides(d, b) && a == t * b + rest
    ensures Divides(d, rest)
  {
    var x := Quotient(d, a);
    var y := Quotient(d, b);
    assert d > 0;
    hide Divides;
    assert d * (x - t * y) == rest by {
      assert t * (d * y) == d * (t * y);
      assert d * (x - t * y) == d * x - d * (t * y);
    }
    assert x - t * y < 0 ==> d * (x - t * y) <= d * -1;
    MultipleDivides(d, x - t * y);
  }

  ghost predicate Prime(q: nat) {
    q > 1 && forall s :: 2 <= s < q ==> q % s != 0
  }

  // No number from 2 up to r divides q.
  predicate NoDivisor(q: nat, r: nat) {
    r <= 1 || (q % r != 0 && NoDivisor(q, r - 1))
  }

  lemma {:induction false} NoDivisorAt(q: nat, r: nat, s: nat)
    requires NoDivisor(q, r) && 2 <= s <= r
    ensures q % s != 0
  {
    if s < r {
      NoDivisorAt(q, r - 1, s);
    }
  }

  lemma CofactorIsSmall(q: nat, r: nat, s: nat, c: nat)
    requires q == s * c && r < s < q && q < (r + 1) * (r + 1)
    ensures 2 <= c <= r
  {
    assert c > r ==> (r + 1) * (r + 1) <= s * (r + 1) <= s * c;
    assert c == 1 ==> q == s;
  }

  // Trial division up to the square root is enough.
  lemma PrimeByTrial(q: nat, r: nat)
    requires q > 1 && r > 0 && q < (r + 1) * (r + 1) && NoDivisor(q, r)
    ensures Prime(q)
  {
    forall s | 2 <= s < q ensures q % s != 0 {
      if s <= r {
        NoDivisorAt(q, r, s);
      } else if q % s == 0 {
        var c := Quotient(s, q);
        CofactorIsSmall(q, r, s, c);
        MultipleDivides(c, s);
        assert s * c == c * s;
        NoDivisorAt(q, r, c);
        assert false;
      }
    }
  }

  lemma Regroup(m: nat, q: nat, t: nat, r: nat, k: nat)
    requires m == q * t + r
    ensures m * k == t * (q * k) + r * k
  {
    assert (q * t + r) * k == q * t * k + r * k;
  }

  // Euclid's algorithm on a prime q and r < q, carried out on multiples of k.
  lemma {:induction false} EuclidSteps(m: nat, q: nat, r: nat, k: nat)
    requires Prime(q) && m > 0 && 1 <= r < q
    requires Divides(m, q * k) && Divides(m, r * k)
    ensures Divides(m, k)
    decreases r
  {
    if r > 1 {
      var t, s := q / r, q % r;
      assert s != 0 && q == r * t + s;
      hide Divides, Prime;
      Regroup(q, r, t, s, k);
      DividesDifference(m, q * k, r * k, t, s * k);
      EuclidSteps(m, q, s, k);
    }
  }

  // A divisor of q * k that the prime q does not divide, divides k.
  lemma PrimeStrips(m: nat, q: nat, k: nat)
    requires Prime(q) && m > 0 && !Divides(q, m)
    requires Divides(m, q * k)
    ensures Divides(m, k)
  {
    var t, r := m / q, m % q;
    assert 1 <= r < q && m == q * t + r;
    hide Divides, Prime;
    Regroup(m, q, t, r, k);
    MultipleDivides(m, k);
    DividesDifference(m, m * k, q * k, t, r * k);
    EuclidSteps(m, q, r, k);
  }

  lemma Primes()
    ensures Prime(2) && Prime(3) && Prime(7) && Prime(11) && Prime(31) && Prime(151) && Prime(331)
  {
    hide Prime;
    PrimeByTrial(2, 1);
    PrimeByTrial(3, 1);
    PrimeByTrial(7, 2);
    PrimeByTrial(11, 3);
    assert NoDivisor(31, 3);
    PrimeByTrial(31, 5);
    assert NoDivisor(151, 3) && NoDivisor(151, 5) && NoDivisor(151, 7) && NoDivisor(151, 9) && NoDivisor(151, 11);
    PrimeByTrial(151, 12);
    assert NoDivisor(331, 3) && NoDivisor(331, 5) && NoDivisor(331, 7) && NoDivisor(331, 9) && NoDivisor(331, 11);
    assert NoDivisor(331, 13) && NoDivisor(331, 15) && NoDivisor(331, 17);
    PrimeByTrial(331, 18);
  }

  // ----- the order of the multiplier -----

  // n rolls bring every state back.
  ghost predicate Cycles(n: nat) {
    Power(MULT, n) == 1
  }

  lemma {:induction false} CyclesMultiple(d: nat, c: nat)
    requires Cycles(d)
    ensures Cycles(d * c)
  {
    if c == 0 {
      assert Power(MULT, 0) == 1;
    } else {
      CyclesMultiple(d, c - 1);
      assert d * c == d * (c - 1) + d;
      hide Mul;
      PowerAdd(MULT, d * (c - 1), d);
      MulOne(1);
    }
  }

  lemma CyclesRest(m: nat, r: nat)
    requires Cycles(m) && Cycles(m + r)
    ensures Cycles(r)
  {
    hide Mul;
    PowerAdd(MULT, m, r);
    MulOne(Power(MULT, r));
  }

  lemma {:induction false} LeastCycle(n: nat) returns (d: nat)
    requires n > 0 && Cycles(n)
    ensures 0 < d <= n && Cycles(d) && forall k :: 0 < k < d ==> !Cycles(k)
  {
    hide Cycles;
    if k :| 0 < k < n && Cycles(k) {
      d := LeastCycle(k);
    } else {
      d := n;
    }
  }

  lemma LeastDividesAll(d: nat, n: nat)
    requires d > 0 && Cycles(d) && Cycles(n) && forall k :: 0 < k < d ==> !Cycles(k)
    ensures Divides(d, n)
  {
    var c, r := n / d, n % d;
    assert n == d * c + r && r < d;
    hide Cycles;
    CyclesMultiple(d, c);
    CyclesRest(d * c, r);
  }

  lemma IsPower(n: nat, v: nat)
    requires Is(n, v)
    ensures Power(MULT, n) == v
  {
  }

  // The whole order brings every state back: two rolls more are two rolls.
  lemma StatesCycle()
    ensures Cycles(STATES)
  {
    hide Power, Is, Mul;
    Squares();
    IsPower(2, 282475249);
    IsPower(2147483648, 282475249);
    var p := Power(MULT, STATES);
    PowerAdd(MULT, STATES, 2);
    MulAssoc(p, 282475249, 1475608308);
    assert Mul(282475249, 1475608308) == 1 by {
      TwoRollsBack();
    }
    MulOne(p);
  }

  lemma TwoRollsBack()
    ensures Mul(282475249, 1475608308) == 1
  {
  }

  // Half of it does not: one roll more would be the roll alone.
  lemma HalfDoesNot()
    ensures !Cycles(1073741823)
  {
    hide Power, Is, Mul;
    Squares();
    IsPower(1, 16807);
    IsPower(1073741824, 2147466840);
    PowerAdd(MULT, 1073741823, 1);
    MulOne(16807);
  }

  // Nor does any other quotient of the order by a prime factor of it.
  lemma PartsDoNot()
    ensures !Cycles(1073741823) && !Cycles(715827882) && !Cycles(306783378) && !Cycles(195225786)
    ensures !Cycles(69273666) && !Cycles(14221746) && !Cycles(6487866)
  {
    hide Power, Is, Mul;
    HalfDoesNot();
    PowerOver3();
    IsPower(715827882, 634005911);
    PowerOver7();
    IsPower(306783378, 1600955193);
    PowerOver11();
    IsPower(195225786, 298192073);
    PowerOver31();
    IsPower(69273666, 16384);
    PowerOver151();
    IsPower(14221746, 1013763951);
    PowerOver331();
    IsPower(6487866, 759513457);
  }

  // So every number of rolls that brings states back is a multiple of it.
  lemma OrderIsStates(n: nat)
    requires n > 0 && Cycles(n)
    ensures n % STATES == 0
  {
    var d := LeastCycle(n);
    StatesCycle();
    LeastDividesAll(d, n);
    LeastDividesAll(d, STATES);
    var m := Quotient(d, STATES);
    OnlyWhole(d, m);
  }

  lemma NotOver(d: nat, m: nat, q: nat, part: nat)
    requires d * m == q * part && q > 0 && Cycles(d) && !Cycles(part)
    ensures !Divides(q, m)
  {
    hide Cycles;
    if Divides(q, m) {
      var c := Quotient(q, m);
      assert q * (d * c) == q * part;
      assert d * c == part;
      CyclesMultiple(d, c);
      assert false;
    }
  }

  // A divisor of the order that no prime factor of it divides is one.
  lemma OnlyWhole(d: nat, m: nat)
    requires d > 0 && Cycles(d) && d * m == STATES
    ensures m == 1
  {
    hide Cycles, Divides, Prime;
    PartsDoNot();
    Primes();
    NotOver(d, m, 2, 1073741823);
    NotOver(d, m, 3, 715827882);
    NotOver(d, m, 7, 306783378);
    NotOver(d, m, 11, 195225786);
    NotOver(d, m, 31, 69273666);
    NotOver(d, m, 151, 14221746);
    NotOver(d, m, 331, 6487866);
    assert m > 0;
    assert m * d == STATES;
    MultipleDivides(m, d);
    PrimeStrips(m, 331, 6487866);
    PrimeStrips(m, 151, 42966);
    PrimeStrips(m, 31, 1386);
    PrimeStrips(m, 11, 126);
    PrimeStrips(m, 7, 18);
    PrimeStrips(m, 3, 6);
    PrimeStrips(m, 3, 2);
    PrimeStrips(m, 2, 1);
    DividesOne(m);
  }

  lemma DividesOne(m: nat)
    requires Divides(m, 1)
    ensures m == 1
  {
  }

  // ----- the orbit -----

  lemma {:induction false} RollsAdd(s: State, m: nat, n: nat)
    ensures Rolls(s, m + n) == Rolls(Rolls(s, m), n)
  {
    hide Next;
    if n > 0 {
      RollsAdd(s, m, n - 1);
    }
  }

  // Rolls can be taken back one by one.
  lemma {:induction false} TakeBack(s: State, t: State, m: nat, n: nat)
    requires Rolls(s, m + n) == Rolls(t, m)
    ensures Rolls(s, n) == t
  {
    if m > 0 {
      RollIsABijection(Rolls(s, m - 1 + n));
      RollIsABijection(Rolls(t, m - 1));
      hide Next;
      TakeBack(s, t, m - 1, n);
    }
  }

  lemma RollsFromOne(n: nat)
    ensures Rolls(1, n) == Power(MULT, n)
  {
    hide Mul;
    RollsArePowers(1, n);
    MulOne(Power(MULT, n));
  }

  const STANDARD_ROLLS: nat := 10000

  // The value the C++ standard requires of the engine's ten thousandth roll from
  // its default seed, section [rand.predef].
  lemma TenThousandthRoll()
    ensures Rolls(1, STANDARD_ROLLS) == 1043618065
  {
    hide Is, Power, Rolls;
    Squares();
    Join(16, 1137522503, 256, 897054849, 2034837525);
    Join(272, 2034837525, 512, 2038299453, 320514918);
    Join(784, 320514918, 1024, 1836275591, 544733637);
    Join(1808, 544733637, 8192, 1186652285, 1043618065);
    IsPower(STANDARD_ROLLS, 1043618065);
    RollsFromOne(STANDARD_ROLLS);
  }

  ghost predicate NoReturn(s: State, count: nat) {
    forall m: nat, n: nat :: m < n < count ==> Rolls(s, m) != Rolls(s, n)
  }

  lemma OneDoesNotReturn()
    ensures NoReturn(1, STATES)
  {
    hide Power, Rolls;
    forall m: nat, n: nat | m < n < STATES && Rolls(1, m) == Rolls(1, n) ensures false {
      TakeBack(1, 1, m, n - m);
      RollsFromOne(n - m);
      OrderIsStates(n - m);
    }
  }

  // The states after fewer than n rolls.
  ghost function Orbit(s: State, n: nat): set<nat> {
    if n == 0 then {} else Orbit(s, n - 1) + {Rolls(s, n - 1) as nat}
  }

  ghost function UpTo(n: nat): set<nat> {
    if n == 0 then {} else UpTo(n - 1) + {n}
  }

  lemma {:induction false} OrbitOnly(s: State, n: nat, x: nat) returns (k: nat)
    requires x in Orbit(s, n)
    ensures k < n && x == Rolls(s, k)
  {
    if x == Rolls(s, n - 1) {
      k := n - 1;
    } else {
      k := OrbitOnly(s, n - 1, x);
    }
  }

  lemma {:induction false} OrbitSize(s: State, n: nat)
    requires NoReturn(s, n)
    ensures |Orbit(s, n)| == n
  {
    hide Rolls;
    if n > 0 {
      OrbitSize(s, n - 1);
      if Rolls(s, n - 1) as nat in Orbit(s, n - 1) {
        var k := OrbitOnly(s, n - 1, Rolls(s, n - 1));
        assert false;
      }
    }
  }

  lemma {:induction false} OrbitInRange(s: State, n: nat)
    ensures forall x :: x in Orbit(s, n) ==> 1 <= x <= STATES
  {
    hide Rolls;
    if n > 0 {
      OrbitInRange(s, n - 1);
    }
  }

  lemma {:induction false} UpToSize(n: nat)
    ensures |UpTo(n)| == n && forall x :: x in UpTo(n) <==> 1 <= x <= n
  {
    if n > 0 {
      UpToSize(n - 1);
    }
  }

  lemma {:induction false} FullSubset(a: set<nat>, b: set<nat>)
    requires a <= b && |a| == |b|
    ensures a == b
  {
    if x :| x in b && x !in a {
      assert a <= b - {x};
      SubsetSize(a, b - {x});
      assert false;
    }
  }

  lemma {:induction false} SubsetSize(a: set<nat>, b: set<nat>)
    requires a <= b
    ensures |a| <= |b|
  {
    if x :| x in a {
      SubsetSize(a - {x}, b - {x});
    }
  }

  // A run of that many different states has met them all.
  lemma MeetsAll(s: State, t: State, n: nat) returns (k: nat)
    requires n == STATES && NoReturn(s, n)
    ensures k < n && Rolls(s, k) == t
  {
    hide Rolls, Orbit, UpTo, NoReturn;
    OrbitSize(s, n);
    OrbitInRange(s, n);
    UpToSize(n);
    FullSubset(Orbit(s, n), UpTo(n));
    k := OrbitOnly(s, n, t);
  }

  // A state comes back after n rolls exactly when n is a multiple of the number
  // of states.
  lemma ComesBackExactly(s: State, n: nat)
    ensures Rolls(s, n) == s <==> n % STATES == 0
  {
    hide Rolls, Power, Mul, Cycles;
    OneDoesNotReturn();
    var k := MeetsAll(1, s, STATES);
    RollsAdd(1, k, n);
    if Rolls(s, n) == s {
      TakeBack(1, 1, k, n);
      CyclesFromRolls(n);
      if n > 0 {
        OrderIsStates(n);
      }
    } else if n % STATES == 0 {
      StatesCycle();
      CyclesMultiple(STATES, n / STATES);
      RollsOnCycle(s, n);
    }
  }

  lemma CyclesFromRolls(n: nat)
    requires Rolls(1, n) == 1
    ensures Cycles(n)
  {
    RollsFromOne(n);
  }

  lemma RollsOnCycle(s: State, n: nat)
    requires Cycles(n)
    ensures Rolls(s, n) == s
  {
    RollsArePowers(s, n);
    MulOne(s);
  }

  ghost predicate Visits(s: State, t: State) {
    exists k: nat :: k < STATES && Rolls(s, k) == t
  }

  // Every seed runs through every state, and repeats none, before it is back.
  lemma FullPeriod(s: State)
    ensures forall t: State :: Visits(s, t)
    ensures NoReturn(s, STATES)
    ensures Rolls(s, STATES) == s
  {
    hide Rolls;
    ComesBackExactly(s, STATES);
    forall m: nat, n: nat | m < n < STATES && Rolls(s, m) == Rolls(s, n) ensures false {
      TakeBack(s, s, m, n - m);
      ComesBackExactly(s, n - m);
    }
    assert NoReturn(s, STATES);
    forall t: State ensures Visits(s, t) {
      var k := MeetsAll(s, t, STATES);
    }
  }
}
