// The two truncated Maclaurin series the kernels evaluate, and the identities
// between them that bound every later error.
//
// CosPoly(-x^2) is cos_sin's cosine, x * SinPoly(-x^2) its sine, and
// exp's ninth-order polynomial splits as CosPoly(y^2) + y * SinPoly(y^2).
module Series {
  import opened RealPowers

  // The sum over n = 0..4 of t^n / (2n)!, in Horner form.
  function CosPoly(t: real): real {
    1.0 + (t / 2.0) * (1.0 + (t / 12.0) * (1.0 + (t / 30.0) * (1.0 + t / 56.0)))
  }

  // The sum over n = 0..4 of t^n / (2n+1)!, in Horner form.
  function SinPoly(t: real): real {
    1.0 + (t / 6.0) * (1.0 + (t / 20.0) * (1.0 + (t / 42.0) * (1.0 + t / 72.0)))
  }

  // One Horner level of exp's series.
  function Level(y: real, k: nat, inner: real): real
    requires k > 0
  {
    1.0 + y / k as real * inner
  }

  // exp's series 1 + y + y^2/2! + ... + y^9/9!, from its k-th Horner level in. With
  // y among what decreases, no use unfolds all nine levels at once.
  function Horner(y: real, k: nat): real
    requires 1 <= k <= 10
    decreases 10 - k, y
  {
    if k == 10 then 1.0 else Level(y, k, Horner(y, k + 1))
  }

  function T9(y: real): real {
    Horner(y, 1)
  }

  // Two levels at once, keeping the terms of every second order.
  function DoubleLevel(t: real, k: nat, inner: real): real
    requires k > 0
  {
    1.0 + t / (k as real * (k + 1) as real) * inner
  }

  function EverySecond(t: real, k: nat): real
    requires 1 <= k <= 10
    decreases 10 - k
  {
    if k >= 9 then 1.0 else DoubleLevel(t, k, EverySecond(t, k + 2))
  }

  function Join(y: real, k: nat, here: real, next: real): real
    requires k > 0
  {
    here + y / k as real * next
  }

  lemma LevelOfJoin(y: real, t: real, k: nat, next: real, afterNext: real)
    requires t == y * y && k > 0
    ensures Level(y, k, Join(y, k + 1, next, afterNext)) == Join(y, k, DoubleLevel(t, k, afterNext), next)
  {
    ProductOfQuotients(y, y, k as real, (k + 1) as real);
    JoinOfLevels(y, t, k, next, afterNext);
  }

  lemma JoinOfLevels(y: real, t: real, k: nat, next: real, afterNext: real)
    requires k > 0 && (y / k as real) * (y / (k + 1) as real) == t / (k as real * (k + 1) as real)
    ensures Level(y, k, Join(y, k + 1, next, afterNext)) == Join(y, k, DoubleLevel(t, k, afterNext), next)
  {
    Distributed(y / k as real, y / (k + 1) as real, next, afterNext, t / (k as real * (k + 1) as real));
  }

  lemma Distributed(u: real, v: real, next: real, afterNext: real, p: real)
    requires u * v == p
    ensures 1.0 + u * (next + v * afterNext) == 1.0 + p * afterNext + u * next
  {
    Associated(u, v, afterNext);
    assert u * (next + v * afterNext) == u * next + u * (v * afterNext);
  }

  lemma Associated(x: real, y: real, z: real)
    ensures x * (y * z) == (x * y) * z
  {
  }

  lemma ProductOfQuotients(x: real, y: real, a: real, b: real)
    requires a > 0.0 && b > 0.0
    ensures (x / a) * (y / b) == (x * y) / (a * b)
  {
    var u, v := x / a, y / b;
    assert x == u * a && y == v * b;
    NonZero(a, b);
    FourFactors(u, a, v, b);
    QuotientIs(u * v, a * b, x * y);
  }

  lemma NonZero(a: real, b: real)
    requires a > 0.0 && b > 0.0
    ensures a * b > 0.0
  {
  }

  lemma FourFactors(u: real, a: real, v: real, b: real)
    ensures (u * a) * (v * b) == (u * v) * (a * b)
  {
    Associated(u * a, v, b);
    Associated(u, a, v);
    Associated(u, v, a);
    Associated(u * v, a, b);
  }

  lemma QuotientIs(q: real, d: real, n: real)
    requires d > 0.0 && q * d == n
    ensures n / d == q
  {
  }

  lemma {:induction false} HornerSplit(y: real, t: real, k: nat)
    requires t == y * y && 1 <= k <= 9
    ensures Horner(y, k) == Join(y, k, EverySecond(t, k), EverySecond(t, k + 1))
    decreases 10 - k
  {
    if k < 9 {
      HornerSplit(y, t, k + 1);
      HornerSplitStep(y, t, k);
    }
  }

  lemma HornerSplitStep(y: real, t: real, k: nat)
    requires t == y * y && 1 <= k < 9
    requires Horner(y, k + 1) == Join(y, k + 1, EverySecond(t, k + 1), EverySecond(t, k + 2))
    ensures Horner(y, k) == Join(y, k, EverySecond(t, k), EverySecond(t, k + 1))
  {
    hide Level, DoubleLevel, Join;
    LevelOfJoin(y, t, k, EverySecond(t, k + 1), EverySecond(t, k + 2));
  }

  lemma EverySecondExplicit(t: real)
    ensures EverySecond(t, 1) == CosPoly(t) && EverySecond(t, 2) == SinPoly(t)
  {
    hide DoubleLevel;
    DoubleLevelAt(t, 7, 56.0, 1.0);
    DoubleLevelAt(t, 8, 72.0, 1.0);
    DoubleLevelAt(t, 5, 30.0, EverySecond(t, 7));
    DoubleLevelAt(t, 6, 42.0, EverySecond(t, 8));
    DoubleLevelAt(t, 3, 12.0, EverySecond(t, 5));
    DoubleLevelAt(t, 4, 20.0, EverySecond(t, 6));
    DoubleLevelAt(t, 1, 2.0, EverySecond(t, 3));
    DoubleLevelAt(t, 2, 6.0, EverySecond(t, 4));
  }

  lemma DoubleLevelAt(t: real, k: nat, product: real, inner: real)
    requires k > 0 && product == k as real * (k + 1) as real
    ensures DoubleLevel(t, k, inner) == 1.0 + (t / product) * inner
  {
  }

  lemma T9Split(y: real, t: real)
    requires t == y * y
    ensures T9(y) == CosPoly(t) + y * SinPoly(t)
  {
    hide CosPoly, SinPoly, EverySecond, Horner;
    HornerSplit(y, t, 1);
    EverySecondExplicit(t);
  }

  // What the truncation leaves of cosh^2 - sinh^2 = 1, at t = y^2.
  function Gauge(t: real): real {
    Sq(CosPoly(t)) - Prod(t, Sq(SinPoly(t)))
  }

  function GaugeTail(t: real): real {
    1.0 / 1814400.0 + t * (1.0 / 4354560.0 + t * (1.0 / 60963840.0
    + t * (1.0 / 2090188800.0 + t / 131681894400.0)))
  }

  function Fifth(t: real): real {
    t * t * t * t * t
  }

  // The fifth power of the distance a reduced argument's square can have.
  lemma FifthBound(t: real)
    requires Abs(t) <= 1.0 / 256.0
    ensures 0.0 <= Abs(Fifth(t)) == Fifth(Abs(t)) <= 1.0 / 1099511627776.0
  {
    var a := Abs(t);
    var a2 := a * a;
    assert 0.0 <= a2 <= 1.0 / 65536.0 by { ProductBound(a, a, 1.0 / 256.0, 1.0 / 256.0); }
    assert 0.0 <= a2 * a2 <= 1.0 / 4294967296.0 by { ProductBound(a2, a2, 1.0 / 65536.0, 1.0 / 65536.0); }
    ProductBound(a2 * a2, a, 1.0 / 4294967296.0, 1.0 / 256.0);
    assert Fifth(a) == a2 * a2 * a;
    assert t < 0.0 ==> Fifth(-t) == -Fifth(t);
  }

  lemma GaugeIdentity(t: real)
    ensures Gauge(t) == 1.0 - Prod(Fifth(t), GaugeTail(t))
  {
  }

  // One Horner level of it: what the level inside adds is at most c / 256.
  lemma TailLevel(t: real, r: real, c: real, a: real, low: real, high: real)
    requires Abs(t) <= 1.0 / 256.0 && 0.0 < r <= c && low <= a - c / 256.0 && a + c / 256.0 <= high
    ensures low <= a + t * r <= high
    ensures t <= 0.0 ==> a + t * r <= a
  {
    ProductBound(t, r, 1.0 / 256.0, c);
    assert t <= 0.0 ==> t * r <= 0.0;
  }

  lemma GaugeTailBound(t: real)
    requires Abs(t) <= 1.0 / 256.0
    ensures 0.0 < GaugeTail(t) <= 1.0 / 1800000.0
    ensures t <= 0.0 ==> GaugeTail(t) <= 1.0 / 1814400.0
  {
    var r3 := 1.0 / 2090188800.0 + t / 131681894400.0;
    var r2 := 1.0 / 60963840.0 + t * r3;
    var r1 := 1.0 / 4354560.0 + t * r2;
    assert GaugeTail(t) == 1.0 / 1814400.0 + t * r1;
    hide GaugeTail;
    assert 0.0 < r3 <= 1.0 / 2000000000.0;
    TailLevel(t, r3, 1.0 / 2000000000.0, 1.0 / 60963840.0, 1.0 / 70000000.0, 1.0 / 50000000.0);
    TailLevel(t, r2, 1.0 / 50000000.0, 1.0 / 4354560.0, 1.0 / 5000000.0, 1.0 / 4300000.0);
    TailLevel(t, r1, 1.0 / 4300000.0, 1.0 / 1814400.0, 1.0 / 2000000.0, 1.0 / 1800000.0);
  }

  // The truncation error of the gauge is a small multiple of t^5.
  lemma GaugeNearOne(t: real)
    requires Abs(t) <= 1.0 / 256.0
    ensures Abs(Gauge(t) - 1.0) <= Fifth(Abs(t)) / 1800000.0
  {
    hide Gauge, GaugeTail, Fifth;
    GaugeIdentity(t);
    GaugeTailBound(t);
    FifthBound(t);
    ProductBound(Fifth(t), GaugeTail(t), Fifth(Abs(t)), 1.0 / 1800000.0);
  }

  // What squaring the series at h has over the series at 2h, as the terms of
  // even and of odd order: only orders ten and up, with positive coefficients.
  function EvenExcess(t: real): (r: real)
    ensures t >= 0.0 ==> r > 0.0
  {
    73.0 / 259200.0 + t * (179.0 / 21772800.0 + t * (47.0 / 304819200.0
    + t * (1.0 / 585252864.0 + t * (1.0 / 131681894400.0))))
  }

  function OddExcess(t: real): (r: real)
    ensures t >= 0.0 ==> r > 0.0
  {
    23.0 / 453600.0 + t * (13.0 / 10886400.0 + t * (1.0 / 57153600.0 + t / 7315660800.0))
  }

  lemma EvenIdentity(t: real)
    ensures CosPoly(t) * CosPoly(t) + t * SinPoly(t) * SinPoly(t) == CosPoly(4.0 * t) + Fifth(t) * EvenExcess(t)
  {
  }

  lemma OddIdentity(t: real)
    ensures 2.0 * CosPoly(t) * SinPoly(t) == 2.0 * SinPoly(4.0 * t) + Fifth(t) * OddExcess(t)
  {
  }

  lemma SquareIdentity(h: real, t: real)
    requires t == h * h
    ensures Sq(T9(h)) == T9(2.0 * h) + Prod(Fifth(t), EvenExcess(t) + Prod(h, OddExcess(t)))
  {
    hide CosPoly, SinPoly, T9, Fifth, EvenExcess, OddExcess;
    T9Split(h, t);
    T9Split(2.0 * h, 4.0 * t);
    EvenIdentity(t);
    OddIdentity(t);
    Assemble(h, t, T9(h), T9(2.0 * h), CosPoly(t), SinPoly(t), CosPoly(4.0 * t), SinPoly(4.0 * t), Fifth(t),
             EvenExcess(t), OddExcess(t));
  }

  lemma Assemble(h: real, t: real, at: real, atDouble: real, c: real, s: real, c4: real, s4: real,
                 f: real, even: real, odd: real)
    requires t == h * h
    requires at == c + h * s && atDouble == c4 + (2.0 * h) * s4
    requires c * c + t * s * s == c4 + f * even
    requires 2.0 * c * s == 2.0 * s4 + f * odd
    ensures Sq(at) == atDouble + Prod(f, even + Prod(h, odd))
  {
    assert (c + h * s) * (c + h * s) == (c * c + t * s * s) + h * (2.0 * c * s);
    assert h * (2.0 * s4 + f * odd) == (2.0 * h) * s4 + f * (h * odd);
  }

  // Doubling the argument of the series falls short of squaring it.
  lemma SquareAhead(h: real)
    requires h >= 0.0
    ensures Sq(T9(h)) >= T9(2.0 * h)
  {
    var t := h * h;
    SquareIdentity(h, t);
    NonNegative(h, h);
    FifthNonNegative(t);
    hide Prod, Fifth, T9;
    NonNegative(h, OddExcess(t));
    NonNegative(Fifth(t), EvenExcess(t) + Prod(h, OddExcess(t)));
  }

  lemma FifthNonNegative(t: real)
    requires t >= 0.0
    ensures Fifth(t) >= 0.0
  {
    NonNegative(t, t);
    NonNegative(t * t, t);
    NonNegative(t * t * t, t);
    NonNegative(t * t * t * t, t);
  }
}
