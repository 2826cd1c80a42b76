/** The biquad designs and kernel over the reals. */
module Biquads {

  datatype Coeffs = Coeffs(b0: real, b1: real, b2: real, a1: real, a2: real)

  const IDENTITY := Coeffs(1.0, 0.0, 0.0, 0.0, 0.0)

  function Normalize(b0: real, b1: real, b2: real, a0: real, a1: real, a2: real): Coeffs
    requires a0 != 0.0
  {
    var inv := 1.0 / a0;
    Coeffs(b0 * inv, b1 * inv, b2 * inv, a1 * inv, a2 * inv)
  }

  /**
   * A frequency strictly between zero and Nyquist and a positive quality, by the cosine of its angle and the alpha of
   * the cookbook.
   */
  predicate Tuned(c: real, alpha: real) { -1.0 < c < 1.0 && alpha > 0.0 }

  lemma Product(x: real, y: real)
    requires x > 0.0 && y > 0.0
    ensures x * y > 0.0
  {}

  /** The amplitude a gain stands for, with its square root. */
  predicate Amplitude(a: real, sqrtA: real) { a > 0.0 && sqrtA > 0.0 && sqrtA * sqrtA == a }

  function Peaking(gainDb: real, c: real, alpha: real, a: real): Coeffs
    requires Tuned(c, alpha) && a > 0.0
  {
    if gainDb == 0.0 then IDENTITY
    else
      assert alpha / a > 0.0;
      Normalize(1.0 + alpha * a, -2.0 * c, 1.0 - alpha * a, 1.0 + alpha / a, -2.0 * c, 1.0 - alpha / a)
  }

  /** The shelves' common term: `(a + 1) + (a - 1) c`, positive for any cosine. */
  function Shelf(a: real, c: real): real { a + 1.0 + (a - 1.0) * c }

  lemma ShelfPositive(a: real, c: real)
    requires -1.0 < c < 1.0 && a > 0.0
    ensures Shelf(a, c) > 0.0
    ensures -Shelf(a, c) < (a - 1.0) + (a + 1.0) * c < Shelf(a, c)
  {
    Product(a, 1.0 + c);
    assert Shelf(a, c) == a * (1.0 + c) + (1.0 - c);
    assert Shelf(a, c) + ((a - 1.0) + (a + 1.0) * c) == 2.0 * (a * (1.0 + c));
    assert Shelf(a, c) - ((a - 1.0) + (a + 1.0) * c) == 2.0 * (1.0 - c);
  }

  function LowShelf(gainDb: real, c: real, alpha: real, a: real, sqrtA: real): Coeffs
    requires Tuned(c, alpha) && Amplitude(a, sqrtA)
  {
    if gainDb == 0.0 then IDENTITY
    else
      var q := 2.0 * sqrtA * alpha;
      ShelfPositive(a, c);
      Product(sqrtA, alpha);
      Normalize(a * ((a + 1.0) - (a - 1.0) * c + q),
                2.0 * a * ((a - 1.0) - (a + 1.0) * c),
                a * ((a + 1.0) - (a - 1.0) * c - q),
                (a + 1.0) + (a - 1.0) * c + q,
                -2.0 * ((a - 1.0) + (a + 1.0) * c),
                (a + 1.0) + (a - 1.0) * c - q)
  }

  function HighShelf(gainDb: real, c: real, alpha: real, a: real, sqrtA: real): Coeffs
    requires Tuned(c, alpha) && Amplitude(a, sqrtA)
  {
    if gainDb == 0.0 then IDENTITY
    else
      var q := 2.0 * sqrtA * alpha;
      ShelfPositive(a, -c);
      Product(sqrtA, alpha);
      Normalize(a * ((a + 1.0) + (a - 1.0) * c + q),
                -2.0 * a * ((a - 1.0) + (a + 1.0) * c),
                a * ((a + 1.0) + (a - 1.0) * c - q),
                (a + 1.0) - (a - 1.0) * c + q,
                2.0 * ((a - 1.0) - (a + 1.0) * c),
                (a + 1.0) - (a - 1.0) * c - q)
  }

  function HighPass(c: real, alpha: real): Coeffs
    requires Tuned(c, alpha)
  {
    Normalize((1.0 + c) / 2.0, -(1.0 + c), (1.0 + c) / 2.0, 1.0 + alpha, -2.0 * c, 1.0 - alpha)
  }

  function LowPass(c: real, alpha: real): Coeffs
    requires Tuned(c, alpha)
  {
    Normalize((1.0 - c) / 2.0, 1.0 - c, (1.0 - c) / 2.0, 1.0 + alpha, -2.0 * c, 1.0 - alpha)
  }

  // ------------------------------------------------------------- stability

  /** Both poles lie strictly inside the unit circle. */
  predicate Stable(k: Coeffs) { -1.0 < k.a2 < 1.0 && -(1.0 + k.a2) < k.a1 < 1.0 + k.a2 }

  lemma Scaled(x: real, y: real, inv: real)
    requires x < y && inv > 0.0
    ensures x * inv < y * inv
  {
    Product(y - x, inv);
  }

  lemma NormalizedStable(b0: real, b1: real, b2: real, a0: real, a1: real, a2: real)
    requires a0 > 0.0 && -a0 < a2 < a0 && -(a0 + a2) < a1 < a0 + a2
    ensures Stable(Normalize(b0, b1, b2, a0, a1, a2))
  {
    var inv := 1.0 / a0;
    assert a0 * inv == 1.0;
    Scaled(a2, a0, inv);
    Scaled(-a0, a2, inv);
    Scaled(a1, a0 + a2, inv);
    Scaled(-(a0 + a2), a1, inv);
    assert (a0 + a2) * inv == 1.0 + a2 * inv;
    assert -(a0 + a2) * inv == -(1.0 + a2 * inv);
    assert -a0 * inv == -1.0;
  }

  /** Every design is stable, and a design with zero gain is the identity. */
  lemma DesignsAreStable(gainDb: real, c: real, alpha: real, a: real, sqrtA: real)
    requires Tuned(c, alpha) && Amplitude(a, sqrtA)
    ensures Stable(Peaking(gainDb, c, alpha, a))
    ensures Stable(LowShelf(gainDb, c, alpha, a, sqrtA)) && Stable(HighShelf(gainDb, c, alpha, a, sqrtA))
    ensures Stable(HighPass(c, alpha)) && Stable(LowPass(c, alpha))
    ensures gainDb == 0.0 ==> Peaking(gainDb, c, alpha, a) == LowShelf(gainDb, c, alpha, a, sqrtA)
                              == HighShelf(gainDb, c, alpha, a, sqrtA) == IDENTITY
  {
    PeakingStable(gainDb, c, alpha, a);
    ShelvesStable(gainDb, c, alpha, a, sqrtA);
    NormalizedStable((1.0 + c) / 2.0, -(1.0 + c), (1.0 + c) / 2.0, 1.0 + alpha, -2.0 * c, 1.0 - alpha);
    NormalizedStable((1.0 - c) / 2.0, 1.0 - c, (1.0 - c) / 2.0, 1.0 + alpha, -2.0 * c, 1.0 - alpha);
  }

  lemma PeakingStable(gainDb: real, c: real, alpha: real, a: real)
    requires Tuned(c, alpha) && a > 0.0
    ensures Stable(Peaking(gainDb, c, alpha, a))
  {
    var r := alpha / a;
    assert r > 0.0;
    NormalizedStable(1.0 + alpha * a, -2.0 * c, 1.0 - alpha * a, 1.0 + r, -2.0 * c, 1.0 - r);
  }

  lemma ShelvesStable(gainDb: real, c: real, alpha: real, a: real, sqrtA: real)
    requires Tuned(c, alpha) && Amplitude(a, sqrtA)
    ensures Stable(LowShelf(gainDb, c, alpha, a, sqrtA)) && Stable(HighShelf(gainDb, c, alpha, a, sqrtA))
  {
    Product(sqrtA, alpha);
    ShelfPositive(a, c);
    ShelfPositive(a, -c);
    var q := 2.0 * sqrtA * alpha;
    NormalizedStable(a * ((a + 1.0) - (a - 1.0) * c + q), 2.0 * a * ((a - 1.0) - (a + 1.0) * c),
                     a * ((a + 1.0) - (a - 1.0) * c - q),
                     (a + 1.0) + (a - 1.0) * c + q, -2.0 * ((a - 1.0) + (a + 1.0) * c), (a + 1.0) + (a - 1.0) * c - q);
    NormalizedStable(a * ((a + 1.0) + (a - 1.0) * c + q), -2.0 * a * ((a - 1.0) + (a + 1.0) * c),
                     a * ((a + 1.0) + (a - 1.0) * c - q),
                     (a + 1.0) - (a - 1.0) * c + q, 2.0 * ((a - 1.0) - (a + 1.0) * c), (a + 1.0) - (a - 1.0) * c - q);
  }

  // ------------------------------------------------------- what passes through

  function Sq(x: real): real { x * x }

  /** The squared magnitude of `p0 + p1/z + p2/z^2` at the frequency whose angle has the cosine `phi`. */
  function Power(p0: real, p1: real, p2: real, phi: real): real {
    Sq((p0 + p2) * phi + p1) + Sq(p0 - p2) * (1.0 - phi * phi)
  }

  /** The filter's power gain there is `num / den`. */
  predicate Passes(k: Coeffs, phi: real, num: real, den: real) {
    Power(k.b0, k.b1, k.b2, phi) * den == Power(1.0, k.a1, k.a2, phi) * num
  }

  lemma SquareOfProduct(x: real, y: real)
    ensures Sq(x * y) == Sq(x) * Sq(y)
  {
    assert (x * y) * (x * y) == (x * x) * (y * y);
  }

  lemma PowerScaled(p0: real, p1: real, p2: real, phi: real, inv: real, scaled0: real)
    requires scaled0 == p0 * inv
    ensures Power(scaled0, p1 * inv, p2 * inv, phi) == Power(p0, p1, p2, phi) * Sq(inv)
  {
    var (x, y) := ((p0 + p2) * phi + p1, p0 - p2);
    assert (scaled0 + p2 * inv) * phi + p1 * inv == x * inv;
    assert scaled0 - p2 * inv == y * inv;
    SquareOfProduct(x, inv);
    SquareOfProduct(y, inv);
    hide Sq;
    var (w, i) := (1.0 - phi * phi, Sq(inv));
    assert Sq(x) * i + (Sq(y) * i) * w == (Sq(x) + Sq(y) * w) * i;
  }

  lemma NormalizedPasses(b0: real, b1: real, b2: real, a0: real, a1: real, a2: real, phi: real, num: real, den: real)
    requires a0 != 0.0 && Power(b0, b1, b2, phi) * den == Power(a0, a1, a2, phi) * num
    ensures Passes(Normalize(b0, b1, b2, a0, a1, a2), phi, num, den)
  {
    var k, inv := Normalize(b0, b1, b2, a0, a1, a2), 1.0 / a0;
    NormalizedBy(b0, b1, b2, a0, a1, a2, inv);
    PassesScaled(b0, b1, b2, a0, a1, a2, phi, num, den, inv);
    hide Normalize, Power;
  }

  lemma PassesScaled(b0: real, b1: real, b2: real, a0: real, a1: real, a2: real, phi: real, num: real, den: real, inv: real)
    requires Power(b0, b1, b2, phi) * den == Power(a0, a1, a2, phi) * num && a0 * inv == 1.0
    ensures Passes(Coeffs(b0 * inv, b1 * inv, b2 * inv, a1 * inv, a2 * inv), phi, num, den)
  {
    hide Sq, Power;
    PowerScaled(b0, b1, b2, phi, inv, b0 * inv);
    PowerScaled(a0, a1, a2, phi, inv, 1.0);
    Rescaled(Power(b0, b1, b2, phi), Power(a0, a1, a2, phi), Sq(inv), num, den,
             Power(b0 * inv, b1 * inv, b2 * inv, phi), Power(1.0, a1 * inv, a2 * inv, phi));
  }

  lemma NormalizedBy(b0: real, b1: real, b2: real, a0: real, a1: real, a2: real, inv: real)
    requires a0 != 0.0 && inv == 1.0 / a0
    ensures Normalize(b0, b1, b2, a0, a1, a2) == Coeffs(b0 * inv, b1 * inv, b2 * inv, a1 * inv, a2 * inv)
    ensures a0 * inv == 1.0
  {}

  lemma Rescaled(b: real, a: real, i: real, num: real, den: real, b': real, a': real)
    requires b * den == a * num && b' == b * i && a' == a * i
    ensures b' * den == a' * num
  {
    var (x, y) := (b * den, a * num);
    assert b' * den == x * i && a' * num == y * i;
  }

  /** The low-pass lets everything through at zero frequency and nothing at Nyquist; at the corner, the quality. */
  lemma LowPassPasses(c: real, alpha: real)
    requires Tuned(c, alpha)
    ensures Passes(LowPass(c, alpha), 1.0, 1.0, 1.0) && Passes(LowPass(c, alpha), -1.0, 0.0, 1.0)
    ensures Passes(LowPass(c, alpha), c, 1.0 - c * c, 4.0 * alpha * alpha)
  {
    var (b, d, a1) := ((1.0 - c) / 2.0, 1.0 - c, -2.0 * c);
    assert Power(b, d, b, 1.0) == Sq(2.0 * d) && Power(1.0 + alpha, a1, 1.0 - alpha, 1.0) == Sq(2.0 * d);
    assert Power(b, d, b, -1.0) == 0.0;
    var s := 1.0 - c * c;
    assert (b + b) * c + d == s;
    assert Power(b, d, b, c) == Sq(s) && Power(1.0 + alpha, a1, 1.0 - alpha, c) == Sq(2.0 * alpha) * s;
    assert Sq(s) * (4.0 * alpha * alpha) == Sq(2.0 * alpha) * s * s;
    NormalizedPasses(b, d, b, 1.0 + alpha, a1, 1.0 - alpha, 1.0, 1.0, 1.0);
    NormalizedPasses(b, d, b, 1.0 + alpha, a1, 1.0 - alpha, -1.0, 0.0, 1.0);
    NormalizedPasses(b, d, b, 1.0 + alpha, a1, 1.0 - alpha, c, s, 4.0 * alpha * alpha);
  }

  /** The high-pass the other way round. */
  lemma HighPassPasses(c: real, alpha: real)
    requires Tuned(c, alpha)
    ensures Passes(HighPass(c, alpha), 1.0, 0.0, 1.0) && Passes(HighPass(c, alpha), -1.0, 1.0, 1.0)
    ensures Passes(HighPass(c, alpha), c, 1.0 - c * c, 4.0 * alpha * alpha)
  {
    var (b, d, a1, s) := ((1.0 + c) / 2.0, -(1.0 + c), -2.0 * c, 1.0 - c * c);
    var k := Normalize(b, d, b, 1.0 + alpha, a1, 1.0 - alpha);
    assert Power(b, d, b, 1.0) == 0.0;
    assert Power(b, d, b, -1.0) == Sq(2.0 * d) && Power(1.0 + alpha, a1, 1.0 - alpha, -1.0) == Sq(2.0 * d);
    assert (b + b) * c + d == -s;
    assert Power(b, d, b, c) == Sq(-s) && Power(1.0 + alpha, a1, 1.0 - alpha, c) == Sq(2.0 * alpha) * s;
    assert Sq(-s) * (4.0 * alpha * alpha) == Sq(2.0 * alpha) * s * s;
    NormalizedPasses(b, d, b, 1.0 + alpha, a1, 1.0 - alpha, 1.0, 0.0, 1.0);
    NormalizedPasses(b, d, b, 1.0 + alpha, a1, 1.0 - alpha, -1.0, 1.0, 1.0);
    NormalizedPasses(b, d, b, 1.0 + alpha, a1, 1.0 - alpha, c, s, 4.0 * alpha * alpha);
    assert HighPass(c, alpha) == k;
    assert Passes(k, 1.0, 0.0, 1.0);
    assert Passes(k, -1.0, 1.0, 1.0);
    assert Passes(k, c, s, 4.0 * alpha * alpha);
    hide Passes, HighPass, Normalize;
  }

  /** The peak leaves both ends of the band alone; at its centre the amplitude gain is the square of `a`. */
  lemma PeakingPasses(gainDb: real, c: real, alpha: real, a: real)
    requires Tuned(c, alpha) && a > 0.0 && gainDb != 0.0
    ensures var k := Peaking(gainDb, c, alpha, a);
            Passes(k, 1.0, 1.0, 1.0) && Passes(k, -1.0, 1.0, 1.0) && Passes(k, c, Sq(a * a), 1.0)
  {
    var (x, r, b1) := (alpha * a, alpha / a, -2.0 * c);
    assert r > 0.0 && r * a == alpha;
    assert x == r * (a * a);
    var s := 1.0 - c * c;
    assert Power(1.0 + x, b1, 1.0 - x, 1.0) == Sq(2.0 + b1) == Power(1.0 + r, b1, 1.0 - r, 1.0);
    assert Power(1.0 + x, b1, 1.0 - x, -1.0) == Sq(b1 - 2.0) == Power(1.0 + r, b1, 1.0 - r, -1.0);
    assert Power(1.0 + x, b1, 1.0 - x, c) == Sq(2.0 * x) * s;
    assert Power(1.0 + r, b1, 1.0 - r, c) == Sq(2.0 * r) * s;
    assert 2.0 * x == (2.0 * r) * (a * a);
    SquareOfProduct(2.0 * r, a * a);
    assert Sq(2.0 * x) * s == (Sq(2.0 * r) * s) * Sq(a * a);
    NormalizedPasses(1.0 + x, b1, 1.0 - x, 1.0 + r, b1, 1.0 - r, 1.0, 1.0, 1.0);
    NormalizedPasses(1.0 + x, b1, 1.0 - x, 1.0 + r, b1, 1.0 - r, -1.0, 1.0, 1.0);
    NormalizedPasses(1.0 + x, b1, 1.0 - x, 1.0 + r, b1, 1.0 - r, c, Sq(a * a), 1.0);
  }

  /** The shelves' terms by half their sum, half their difference and the middle one. */
  lemma PowerOfHalves(h: real, q: real, p1: real, phi: real)
    ensures Power(h + q, p1, h - q, phi) == Sq(2.0 * h * phi + p1) + Sq(2.0 * q) * (1.0 - phi * phi)
  {
    assert (h + q + (h - q)) * phi == 2.0 * h * phi;
  }

  lemma LowShelfEnds(a: real, q: real, c: real)
    ensures Power(a * ((a + 1.0) - (a - 1.0) * c + q), 2.0 * a * ((a - 1.0) - (a + 1.0) * c),
                  a * ((a + 1.0) - (a - 1.0) * c - q), 1.0) == Sq(4.0 * (1.0 - c)) * Sq(a * a)
    ensures Power(a * ((a + 1.0) - (a - 1.0) * c + q), 2.0 * a * ((a - 1.0) - (a + 1.0) * c),
                  a * ((a + 1.0) - (a - 1.0) * c - q), -1.0) == Sq(4.0 * a * (1.0 + c))
    ensures Power((a + 1.0) + (a - 1.0) * c + q, -2.0 * ((a - 1.0) + (a + 1.0) * c), (a + 1.0) + (a - 1.0) * c - q, 1.0)
            == Sq(4.0 * (1.0 - c))
    ensures Power((a + 1.0) + (a - 1.0) * c + q, -2.0 * ((a - 1.0) + (a + 1.0) * c), (a + 1.0) + (a - 1.0) * c - q, -1.0)
            == Sq(4.0 * a * (1.0 + c))
  {
    var (u, v) := ((a + 1.0) - (a - 1.0) * c, (a + 1.0) + (a - 1.0) * c);
    var (b1, a1) := (2.0 * a * ((a - 1.0) - (a + 1.0) * c), -2.0 * ((a - 1.0) + (a + 1.0) * c));
    assert a * (u + q) == a * u + a * q && a * (u - q) == a * u - a * q;
    PowerOfHalves(a * u, a * q, b1, 1.0);
    PowerOfHalves(a * u, a * q, b1, -1.0);
    PowerOfHalves(v, q, a1, 1.0);
    PowerOfHalves(v, q, a1, -1.0);
    hide Power;
    assert 2.0 * (a * u) * 1.0 + b1 == (4.0 * (1.0 - c)) * (a * a);
    SquareOfProduct(4.0 * (1.0 - c), a * a);
    assert 2.0 * (a * u) * -1.0 + b1 == -(4.0 * a * (1.0 + c));
    assert 2.0 * v * 1.0 + a1 == 4.0 * (1.0 - c);
    assert 2.0 * v * -1.0 + a1 == -(4.0 * a * (1.0 + c));
    SquareOfMinus(4.0 * a * (1.0 + c));
  }

  lemma SquareOfMinus(x: real)
    ensures Sq(-x) == Sq(x)
  {}

  lemma LowShelfMiddle(a: real, q: real, c: real)
    ensures Power(a * ((a + 1.0) - (a - 1.0) * c + q), 2.0 * a * ((a - 1.0) - (a + 1.0) * c),
                  a * ((a + 1.0) - (a - 1.0) * c - q), c)
            == Power((a + 1.0) + (a - 1.0) * c + q, -2.0 * ((a - 1.0) + (a + 1.0) * c),
                     (a + 1.0) + (a - 1.0) * c - q, c) * Sq(a)
  {
    var (u, v, s) := ((a + 1.0) - (a - 1.0) * c, (a + 1.0) + (a - 1.0) * c, 1.0 - c * c);
    var (b1, a1) := (2.0 * a * ((a - 1.0) - (a + 1.0) * c), -2.0 * ((a - 1.0) + (a + 1.0) * c));
    assert a * (u + q) == a * u + a * q && a * (u - q) == a * u - a * q;
    PowerOfHalves(a * u, a * q, b1, c);
    PowerOfHalves(v, q, a1, c);
    hide Power;
    var w := 2.0 * (a - 1.0) * s;
    assert u * c + (a - 1.0) - (a + 1.0) * c == (a - 1.0) * s;
    assert 2.0 * (a * u) * c + b1 == 2.0 * a * (u * c + (a - 1.0) - (a + 1.0) * c);
    assert 2.0 * (a * u) * c + b1 == w * a;
    assert 2.0 * v * c + a1 == -w;
    SquareOfProduct(w, a);
    SquareOfMinus(w);
    assert 2.0 * (a * q) == (2.0 * q) * a;
    SquareOfProduct(2.0 * q, a);
    hide Sq;
    assert Sq(w) * Sq(a) + (Sq(2.0 * q) * Sq(a)) * s == (Sq(w) + Sq(2.0 * q) * s) * Sq(a);
  }

  /** The low shelf before normalization. */
  function LowShelfTerms(a: real, q: real, c: real): (real, real, real, real, real, real) {
    (a * ((a + 1.0) - (a - 1.0) * c + q), 2.0 * a * ((a - 1.0) - (a + 1.0) * c), a * ((a + 1.0) - (a - 1.0) * c - q),
     (a + 1.0) + (a - 1.0) * c + q, -2.0 * ((a - 1.0) + (a + 1.0) * c), (a + 1.0) + (a - 1.0) * c - q)
  }

  lemma {:induction false} LowShelfIs(gainDb: real, c: real, alpha: real, a: real, sqrtA: real, q: real)
    requires Tuned(c, alpha) && Amplitude(a, sqrtA) && gainDb != 0.0 && q == 2.0 * sqrtA * alpha
    ensures var t := LowShelfTerms(a, q, c);
            t.3 > 0.0 && LowShelf(gainDb, c, alpha, a, sqrtA) == Normalize(t.0, t.1, t.2, t.3, t.4, t.5)
  {
    ShelfLead(c, alpha, a, sqrtA);
    hide Normalize, Amplitude, Shelf;
  }

  lemma ShelfLead(c: real, alpha: real, a: real, sqrtA: real)
    requires Tuned(c, alpha) && Amplitude(a, sqrtA)
    ensures (a + 1.0) + (a - 1.0) * c + 2.0 * sqrtA * alpha > 0.0
  {
    Product(sqrtA, alpha);
    ShelfPositive(a, c);
  }

  lemma LowShelfPowers(a: real, q: real, c: real)
    ensures var t := LowShelfTerms(a, q, c);
            && Power(t.0, t.1, t.2, 1.0) * 1.0 == Power(t.3, t.4, t.5, 1.0) * Sq(a * a)
            && Power(t.0, t.1, t.2, c) * 1.0 == Power(t.3, t.4, t.5, c) * Sq(a)
            && Power(t.0, t.1, t.2, -1.0) * 1.0 == Power(t.3, t.4, t.5, -1.0) * 1.0
  {
    hide Power, Sq;
    LowShelfEnds(a, q, c);
    LowShelfMiddle(a, q, c);
  }

  /** The low shelf gains the square of `a` at zero frequency, `a` at the corner and nothing at Nyquist. */
  lemma LowShelfPasses(gainDb: real, c: real, alpha: real, a: real, sqrtA: real)
    requires Tuned(c, alpha) && Amplitude(a, sqrtA) && gainDb != 0.0
    ensures var k := LowShelf(gainDb, c, alpha, a, sqrtA);
            Passes(k, 1.0, Sq(a * a), 1.0) && Passes(k, c, Sq(a), 1.0) && Passes(k, -1.0, 1.0, 1.0)
  {
    hide Power, Sq, Normalize, LowShelf, Passes, Amplitude, LowShelfTerms;
    var q := 2.0 * sqrtA * alpha;
    var t := LowShelfTerms(a, q, c);
    LowShelfIs(gainDb, c, alpha, a, sqrtA, q);
    LowShelfPowers(a, q, c);
    NormalizedPasses(t.0, t.1, t.2, t.3, t.4, t.5, 1.0, Sq(a * a), 1.0);
    NormalizedPasses(t.0, t.1, t.2, t.3, t.4, t.5, c, Sq(a), 1.0);
    NormalizedPasses(t.0, t.1, t.2, t.3, t.4, t.5, -1.0, 1.0, 1.0);
  }

  /** A high shelf is the low shelf of the mirrored spectrum. */
  lemma HighShelfMirrors(gainDb: real, c: real, alpha: real, a: real, sqrtA: real)
    requires Tuned(c, alpha) && Amplitude(a, sqrtA) && gainDb != 0.0
    ensures var (high, low) := (HighShelf(gainDb, c, alpha, a, sqrtA), LowShelf(gainDb, -c, alpha, a, sqrtA));
            high == Coeffs(low.b0, -low.b1, low.b2, -low.a1, low.a2)
  {
    var q := 2.0 * sqrtA * alpha;
    Product(sqrtA, alpha);
    ShelfPositive(a, -c);
    var u, v := (a - 1.0) * c, (a + 1.0) * c;
    assert (a - 1.0) * -c == -u && (a + 1.0) * -c == -v;
    var inv := 1.0 / ((a + 1.0) - u + q);
    var (x, y) := (2.0 * a * ((a - 1.0) + v), -2.0 * ((a - 1.0) - v));
    assert -2.0 * a * ((a - 1.0) + v) == -x;
    assert (-x) * inv == -(x * inv) && (-y) * inv == -(y * inv);
  }

  lemma MirroredPasses(k: Coeffs, phi: real, num: real, den: real)
    requires Passes(k, phi, num, den)
    ensures Passes(Coeffs(k.b0, -k.b1, k.b2, -k.a1, k.a2), -phi, num, den)
  {
    MirroredPower(k.b0, k.b1, k.b2, phi);
    MirroredPower(1.0, k.a1, k.a2, phi);
    hide Power;
  }

  lemma MirroredPower(p0: real, p1: real, p2: real, phi: real)
    ensures Power(p0, -p1, p2, -phi) == Power(p0, p1, p2, phi)
  {
    assert (p0 + p2) * -phi + -p1 == -((p0 + p2) * phi + p1);
    SquareOfMinus((p0 + p2) * phi + p1);
    assert -phi * -phi == phi * phi;
  }

  lemma HighShelfPasses(gainDb: real, c: real, alpha: real, a: real, sqrtA: real)
    requires Tuned(c, alpha) && Amplitude(a, sqrtA) && gainDb != 0.0
    ensures var k := HighShelf(gainDb, c, alpha, a, sqrtA);
            Passes(k, 1.0, 1.0, 1.0) && Passes(k, c, Sq(a), 1.0) && Passes(k, -1.0, Sq(a * a), 1.0)
  {
    hide Passes, HighShelf, LowShelf, Sq;
    var low := LowShelf(gainDb, -c, alpha, a, sqrtA);
    LowShelfPasses(gainDb, -c, alpha, a, sqrtA);
    HighShelfMirrors(gainDb, c, alpha, a, sqrtA);
    MirroredPasses(low, -1.0, 1.0, 1.0);
    MirroredPasses(low, -c, Sq(a), 1.0);
    MirroredPasses(low, 1.0, Sq(a * a), 1.0);
    assert - -c == c;
  }

  // ------------------------------------------------------------ the kernel

  datatype Memory = Memory(w1: real, w2: real)

  const CLEAR := Memory(0.0, 0.0)

  function Fed(k: Coeffs, m: Memory, x: real): real { x - k.a1 * m.w1 - k.a2 * m.w2 }

  function Next(k: Coeffs, m: Memory, x: real): Memory { Memory(Fed(k, m, x), m.w1) }

  function Out(k: Coeffs, m: Memory, x: real): real { k.b0 * Fed(k, m, x) + k.b1 * m.w1 + k.b2 * m.w2 }

  class Biquad {
    var w1: real
    var w2: real

    ghost function Value(): Memory
      reads this
    {
      Memory(w1, w2)
    }

    constructor ()
      ensures Value() == CLEAR
    {
      w1, w2 := 0.0, 0.0;
    }

    method Process(k: Coeffs, x: real) returns (y: real)
      modifies this
      ensures Value() == Next(k, old(Value()), x) && y == Out(k, old(Value()), x)
    {
      var w := x - k.a1 * w1 - k.a2 * w2;
      y := k.b0 * w + k.b1 * w1 + k.b2 * w2;
      w2 := w1;
      w1 := w;
    }

    method Reset()
      modifies this
      ensures Value() == CLEAR
    {
      w1, w2 := 0.0, 0.0;
    }
  }

  // ---------------------------------------------------------------- energy

  function Energy(k: Coeffs, m: Memory): real {
    (1.0 + k.a2) * Norm(m) + 2.0 * k.a1 * (m.w1 * m.w2)
  }

  function Squared(x: real): real { x * x }

  function Norm(m: Memory): real { Squared(m.w1) + Squared(m.w2) }

  /** How far the coefficients are from the edge of stability. */
  function Margin(k: Coeffs): real { 1.0 + k.a2 - (if k.a1 < 0.0 then -k.a1 else k.a1) }

  lemma CrossTerm(m: Memory)
    ensures -Norm(m) <= 2.0 * (m.w1 * m.w2) <= Norm(m)
  {
    var (d, e) := (m.w1 - m.w2, m.w1 + m.w2);
    SquarePositive(d);
    SquarePositive(e);
    assert Squared(d) == Norm(m) - 2.0 * (m.w1 * m.w2);
    assert Squared(e) == Norm(m) + 2.0 * (m.w1 * m.w2);
  }

  lemma Monotone(x: real, y: real, f: real)
    requires x <= y && f >= 0.0
    ensures f * x <= f * y
  {}

  lemma SameSign(x: real, y: real, product: real)
    requires product == x * y && ((x > 0.0 && y > 0.0) || (x < 0.0 && y < 0.0))
    ensures product > 0.0
  {}

  lemma SquarePositive(x: real)
    ensures Squared(x) >= 0.0 && (Squared(x) == 0.0 <==> x == 0.0)
  {
    if x != 0.0 {
      SameSign(x, x, Squared(x));
    }
  }

  lemma Dominated(p: real, f: real, norm: real, cross: real)
    requires -norm <= cross <= norm
    ensures p * norm + f * cross >= (p - (if f < 0.0 then -f else f)) * norm
  {
    if f < 0.0 {
      Monotone(cross, norm, -f);
      assert (p + f) * norm == p * norm + f * norm;
    } else {
      Monotone(-norm, cross, f);
      assert (p - f) * norm == p * norm - f * norm;
    }
  }

  lemma NormPositive(m: Memory)
    ensures Norm(m) >= 0.0 && (Norm(m) == 0.0 <==> m == CLEAR)
  {
    hide Squared;
    SquarePositive(m.w1);
    SquarePositive(m.w2);
  }

  lemma EnergyByNorm(k: Coeffs, m: Memory)
    ensures Energy(k, m) == (1.0 + k.a2) * Norm(m) + k.a1 * (2.0 * (m.w1 * m.w2))
  {}

  /** The energy dominates the size of the memory, so it is positive unless the memory is clear. */
  lemma EnergyIsPositiveDefinite(k: Coeffs, m: Memory)
    requires Stable(k)
    ensures Margin(k) > 0.0 && Energy(k, m) >= Margin(k) * Norm(m) >= 0.0
    ensures Energy(k, m) == 0.0 <==> m == CLEAR
  {
    hide Energy, Norm;
    CrossTerm(m);
    EnergyByNorm(k, m);
    NormPositive(m);
    Dominated(1.0 + k.a2, k.a1, Norm(m), 2.0 * (m.w1 * m.w2));
    if m != CLEAR {
      Product(Margin(k), Norm(m));
    }
  }

  /** What the energy loses in a sample of silence. */
  function Drop(k: Coeffs, m: Memory): real {
    var d := Fed(k, m, 0.0) - m.w2;
    (1.0 - k.a2) * Squared(d)
  }

  /** With no input the energy drops by exactly `(1 - a2) (w - w2)^2` per sample. */
  lemma EnergyDrop(k: Coeffs, m: Memory)
    ensures Energy(k, Next(k, m, 0.0)) == Energy(k, m) - Drop(k, m)
  {
    var w := Fed(k, m, 0.0);
    var d := w - m.w2;
    assert k.a1 * m.w1 == -w - k.a2 * m.w2;
    assert k.a1 * (w * m.w1) == w * (k.a1 * m.w1);
    assert k.a1 * (m.w1 * m.w2) == m.w2 * (k.a1 * m.w1);
    assert w * (-w - k.a2 * m.w2) == -(w * w) - k.a2 * (w * m.w2);
    assert m.w2 * (-w - k.a2 * m.w2) == -(w * m.w2) - k.a2 * (m.w2 * m.w2);
    assert d * d == w * w - 2.0 * (w * m.w2) + m.w2 * m.w2;
  }

  lemma DropIsNoGain(k: Coeffs, m: Memory)
    requires Stable(k)
    ensures Drop(k, m) >= 0.0
  {
    var d := Fed(k, m, 0.0) - m.w2;
    hide Squared;
    SquarePositive(d);
    Monotone(0.0, Squared(d), 1.0 - k.a2);
  }

  function Silent(k: Coeffs, m: Memory, n: nat): Memory { if n == 0 then m else Next(k, Silent(k, m, n - 1), 0.0) }

  /** Fed with silence, a stable filter's energy never rises, and its memory stays bounded by where it started. */
  lemma {:induction false} EnergyNeverRises(k: Coeffs, m: Memory, n: nat)
    requires Stable(k)
    ensures Energy(k, Silent(k, m, n)) <= Energy(k, m)
    ensures Margin(k) * Norm(Silent(k, m, n)) <= Energy(k, m)
  {
    hide Energy, Norm, Margin, Next, Drop;
    EnergyIsPositiveDefinite(k, Silent(k, m, n));
    if n > 0 {
      EnergyNeverRises(k, m, n - 1);
      EnergyDrop(k, Silent(k, m, n - 1));
      DropIsNoGain(k, Silent(k, m, n - 1));
    }
  }

  // --------------------------------------------------- difference equation

  function Outputs(k: Coeffs, m: Memory, xs: seq<real>): (ys: seq<real>)
    ensures |ys| == |xs|
    decreases |xs|
  {
    if xs == [] then [] else [Out(k, m, xs[0])] + Outputs(k, Next(k, m, xs[0]), xs[1..])
  }

  function At(xs: seq<real>, i: int): real { if 0 <= i < |xs| then xs[i] else 0.0 }

  /** The transfer function as documented. */
  function Combined(k: Coeffs, x0: real, x1: real, x2: real, y1: real, y2: real): real {
    k.b0 * x0 + k.b1 * x1 + k.b2 * x2 - k.a1 * y1 - k.a2 * y2
  }

  /** The output it defines, with nothing before the first sample. */
  function Difference(k: Coeffs, xs: seq<real>, i: int): real
    decreases if i < 0 then 0 else i + 1
  {
    if i < 0 then 0.0
    else Combined(k, At(xs, i), At(xs, i - 1), At(xs, i - 2), Difference(k, xs, i - 1), Difference(k, xs, i - 2))
  }

  lemma NothingBefore(k: Coeffs, xs: seq<real>, i: int)
    requires i < 0
    ensures Difference(k, xs, i) == 0.0
  {}

  lemma DifferenceStep(k: Coeffs, xs: seq<real>, i: int)
    requires i >= 0
    ensures Difference(k, xs, i)
            == Combined(k, At(xs, i), At(xs, i - 1), At(xs, i - 2), Difference(k, xs, i - 1), Difference(k, xs, i - 2))
  {}

  /** What the kernel feeds its memory with at sample `i`. */
  function Word(k: Coeffs, xs: seq<real>, i: int): real
    decreases if i < 0 then 0 else i + 1
  {
    if i < 0 then 0.0 else At(xs, i) - k.a1 * Word(k, xs, i - 1) - k.a2 * Word(k, xs, i - 2)
  }

  function FromWords(k: Coeffs, xs: seq<real>, i: int): real {
    k.b0 * Word(k, xs, i) + k.b1 * Word(k, xs, i - 1) + k.b2 * Word(k, xs, i - 2)
  }

  lemma WordsExplainInput(k: Coeffs, xs: seq<real>, i: int)
    ensures Word(k, xs, i) + k.a1 * Word(k, xs, i - 1) + k.a2 * Word(k, xs, i - 2) == At(xs, i)
  {}

  /** Scaling a word equation by a coefficient. */
  lemma ScaledWords(b: real, a1: real, a2: real, u: real, v: real, w: real, x: real)
    requires u + a1 * v + a2 * w == x
    ensures b * u + a1 * (b * v) + a2 * (b * w) == b * x
  {
    assert b * (u + a1 * v + a2 * w) == b * u + b * (a1 * v) + b * (a2 * w);
    assert b * (a1 * v) == a1 * (b * v) && b * (a2 * w) == a2 * (b * w);
  }

  lemma Distributed(a: real, x: real, y: real, z: real)
    ensures a * (x + y + z) == a * x + a * y + a * z
  {}

  lemma {:induction false} WordsGiveDifference(k: Coeffs, xs: seq<real>, i: int)
    ensures FromWords(k, xs, i) == Difference(k, xs, i)
    decreases if i < 0 then 0 else i + 1
  {
    if i < 0 {
      NothingBefore(k, xs, i);
    } else {
      hide FromWords, Difference, Combined;
      WordsGiveDifference(k, xs, i - 1);
      WordsGiveDifference(k, xs, i - 2);
      DifferenceOfWords(k, xs, i);
      DifferenceStep(k, xs, i);
    }
  }

  /** The output built from words satisfies the difference equation. */
  lemma DifferenceOfWords(k: Coeffs, xs: seq<real>, i: int)
    ensures FromWords(k, xs, i)
            == Combined(k, At(xs, i), At(xs, i - 1), At(xs, i - 2), FromWords(k, xs, i - 1), FromWords(k, xs, i - 2))
  {
    hide Word, At;
    WordsExplainInput(k, xs, i);
    WordsExplainInput(k, xs, i - 1);
    WordsExplainInput(k, xs, i - 2);
    WordAlgebra(k, Word(k, xs, i), Word(k, xs, i - 1), Word(k, xs, i - 2), Word(k, xs, i - 3), Word(k, xs, i - 4),
                At(xs, i), At(xs, i - 1), At(xs, i - 2));
  }

  lemma WordAlgebra(k: Coeffs, u: real, v: real, w: real, y: real, z: real, x0: real, x1: real, x2: real)
    requires u + k.a1 * v + k.a2 * w == x0 && v + k.a1 * w + k.a2 * y == x1 && w + k.a1 * y + k.a2 * z == x2
    ensures k.b0 * u + k.b1 * v + k.b2 * w
            == k.b0 * x0 + k.b1 * x1 + k.b2 * x2
               - k.a1 * (k.b0 * v + k.b1 * w + k.b2 * y) - k.a2 * (k.b0 * w + k.b1 * y + k.b2 * z)
  {
    ScaledWords(k.b0, k.a1, k.a2, u, v, w, x0);
    ScaledWords(k.b1, k.a1, k.a2, v, w, y, x1);
    ScaledWords(k.b2, k.a1, k.a2, w, y, z, x2);
    Distributed(k.a1, k.b0 * v, k.b1 * w, k.b2 * y);
    Distributed(k.a2, k.b0 * w, k.b1 * y, k.b2 * z);
  }

  /** Started `j` samples into the input with the words of the samples before, the kernel continues with the words after. */
  lemma {:induction false} OutputsFromWords(k: Coeffs, xs: seq<real>, j: nat, i: nat)
    requires j <= i < |xs|
    ensures Outputs(k, Words(k, xs, j), xs[j..])[i - j] == FromWords(k, xs, i)
    decreases i - j
  {
    assert xs[j..][0] == xs[j] && xs[j..][1..] == xs[j + 1..];
    OneSample(k, xs, j);
    hide Out, Next, FromWords, Words;
    if i > j {
      OutputsFromWords(k, xs, j + 1, i);
    }
  }

  function Words(k: Coeffs, xs: seq<real>, j: nat): Memory { Memory(Word(k, xs, j - 1), Word(k, xs, j - 2)) }

  lemma OneSample(k: Coeffs, xs: seq<real>, j: nat)
    requires j < |xs|
    ensures Out(k, Words(k, xs, j), xs[j]) == FromWords(k, xs, j) && Next(k, Words(k, xs, j), xs[j]) == Words(k, xs, j + 1)
  {
    assert At(xs, j) == xs[j];
    assert Word(k, xs, j) == Fed(k, Words(k, xs, j), xs[j]);
  }

  /** From the reset state the two-word kernel computes exactly the difference equation, on any input. */
  lemma KernelIsDifferenceEquation(k: Coeffs, xs: seq<real>, i: nat)
    requires i < |xs|
    ensures Outputs(k, CLEAR, xs)[i] == Difference(k, xs, i)
  {
    assert xs[0..] == xs;
    assert Words(k, xs, 0) == CLEAR;
    OutputsFromWords(k, xs, 0, i);
    WordsGiveDifference(k, xs, i);
  }

  // -------------------------------------------------------------- linearity

  function Mix(p: real, x: real, q: real, z: real): real { p * x + q * z }

  function Mixed(p: real, xs: seq<real>, q: real, zs: seq<real>): (r: seq<real>)
    requires |xs| == |zs|
    ensures |r| == |xs|
  {
    seq(|xs|, i requires 0 <= i < |xs| => Mix(p, xs[i], q, zs[i]))
  }

  lemma MixedTerm(b: real, p: real, x: real, q: real, z: real)
    ensures b * Mix(p, x, q, z) == Mix(p, b * x, q, b * z)
  {
    assert b * (p * x) == p * (b * x) && b * (q * z) == q * (b * z);
  }

  lemma {:induction false} DifferenceIsLinear(k: Coeffs, p: real, xs: seq<real>, q: real, zs: seq<real>, i: int)
    requires |xs| == |zs|
    ensures Difference(k, Mixed(p, xs, q, zs), i) == Mix(p, Difference(k, xs, i), q, Difference(k, zs, i))
    decreases if i < 0 then 0 else i + 1
  {
    hide Difference, Combined, At, Mixed, Mix;
    if i < 0 {
      NothingBefore(k, Mixed(p, xs, q, zs), i);
      NothingBefore(k, xs, i);
      NothingBefore(k, zs, i);
      MixOfNothing(p, q);
    } else {
      DifferenceIsLinear(k, p, xs, q, zs, i - 1);
      DifferenceIsLinear(k, p, xs, q, zs, i - 2);
      MixedAt(p, xs, q, zs, i);
      MixedAt(p, xs, q, zs, i - 1);
      MixedAt(p, xs, q, zs, i - 2);
      DifferenceStep(k, Mixed(p, xs, q, zs), i);
      DifferenceStep(k, xs, i);
      DifferenceStep(k, zs, i);
      LinearAlgebra(k, p, q, At(xs, i), At(xs, i - 1), At(xs, i - 2), Difference(k, xs, i - 1), Difference(k, xs, i - 2),
                    At(zs, i), At(zs, i - 1), At(zs, i - 2), Difference(k, zs, i - 1), Difference(k, zs, i - 2));
    }
  }

  lemma MixOfNothing(p: real, q: real)
    ensures Mix(p, 0.0, q, 0.0) == 0.0
  {}

  lemma MixedAt(p: real, xs: seq<real>, q: real, zs: seq<real>, j: int)
    requires |xs| == |zs|
    ensures At(Mixed(p, xs, q, zs), j) == Mix(p, At(xs, j), q, At(zs, j))
  {}

  lemma LinearAlgebra(k: Coeffs, p: real, q: real, x0: real, x1: real, x2: real, y1: real, y2: real,
                      z0: real, z1: real, z2: real, v1: real, v2: real)
    ensures Combined(k, Mix(p, x0, q, z0), Mix(p, x1, q, z1), Mix(p, x2, q, z2), Mix(p, y1, q, v1), Mix(p, y2, q, v2))
            == Mix(p, Combined(k, x0, x1, x2, y1, y2), q, Combined(k, z0, z1, z2, v1, v2))
  {
    MixedTerm(k.b0, p, x0, q, z0);
    MixedTerm(k.b1, p, x1, q, z1);
    MixedTerm(k.b2, p, x2, q, z2);
    MixedTerm(k.a1, p, y1, q, v1);
    MixedTerm(k.a2, p, y2, q, v2);
    hide Mix;
    MixedSum(p, q, k.b0 * x0, k.b1 * x1, k.b2 * x2, k.a1 * y1, k.a2 * y2, Combined(k, x0, x1, x2, y1, y2),
             k.b0 * z0, k.b1 * z1, k.b2 * z2, k.a1 * v1, k.a2 * v2, Combined(k, z0, z1, z2, v1, v2));
  }

  lemma MixedSum(p: real, q: real, a: real, b: real, c: real, d: real, e: real, left: real,
                 f: real, g: real, h: real, i: real, j: real, right: real)
    requires left == a + b + c - d - e && right == f + g + h - i - j
    ensures Mix(p, a, q, f) + Mix(p, b, q, g) + Mix(p, c, q, h) - Mix(p, d, q, i) - Mix(p, e, q, j)
            == Mix(p, left, q, right)
  {}

  /** The kernel from the reset state is linear in its input. */
  lemma KernelIsLinear(k: Coeffs, p: real, xs: seq<real>, q: real, zs: seq<real>, i: nat)
    requires |xs| == |zs| && i < |xs|
    ensures Outputs(k, CLEAR, Mixed(p, xs, q, zs))[i] == Mix(p, Outputs(k, CLEAR, xs)[i], q, Outputs(k, CLEAR, zs)[i])
  {
    KernelIsDifferenceEquation(k, Mixed(p, xs, q, zs), i);
    KernelIsDifferenceEquation(k, xs, i);
    KernelIsDifferenceEquation(k, zs, i);
    DifferenceIsLinear(k, p, xs, q, zs, i);
  }
}
