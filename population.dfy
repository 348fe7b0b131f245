/** How many particles and floating symbols the math background holds.
    The particle count follows the viewport area, one particle per 12000
    square pixels, clamped to 48..160; the symbol count is 6% of the
    particle count, but never fewer than 6. Both quotients are rounded the
    way JavaScript's Math.round does it: to the nearest integer, halves up. */
module Population {

  const MinParticles: nat := 48
  const MaxParticles: nat := 160
  /** Square pixels of viewport per particle. */
  const AreaPerParticle: nat := 12000
  const MinSymbols: nat := 6
  /** Symbols per particle, as the fraction SymbolsPer / PerHundred (0.06). */
  const SymbolsPer: nat := 6
  const PerHundred: nat := 100

  function Min(a: int, b: int): int { if a <= b then a else b }
  function Max(a: int, b: int): int { if a >= b then a else b }

  /** Math.round(p / q): the integer nearest to p / q, a half rounding up.
      The result r satisfies r - 1/2 <= p/q < r + 1/2, written without
      fractions. */
  function RoundDiv(p: int, q: int): (r: int)
    requires q > 0
    ensures 2 * q * r - q <= 2 * p < 2 * q * r + q
  {
    var m := 2 * q;
    var t := 2 * p + q;
    assert t == m * (t / m) + t % m;
    assert m * (t / m) == 2 * q * (t / m);
    t / m
  }

  /** Scaling a gap of at least one by 2q gives at least 2q. */
  lemma ScaledGap(q: int, lo: int, hi: int)
    requires q > 0 && lo < hi
    ensures 2 * q * hi - 2 * q * lo >= 2 * q
  {
    var d := hi - lo;
    assert 2 * q * hi - 2 * q * lo == 2 * q * d;
    assert 2 * q * d == 2 * q + 2 * q * (d - 1);
    assert 2 * q * (d - 1) >= 0;
  }

  /** The rounding condition of RoundDiv has only one solution. */
  lemma RoundDivUnique(p: int, q: int, r: int)
    requires q > 0
    requires 2 * q * r - q <= 2 * p < 2 * q * r + q
    ensures r == RoundDiv(p, q)
  {
    var r0 := RoundDiv(p, q);
    if r < r0 {
      ScaledGap(q, r, r0);
    } else if r > r0 {
      ScaledGap(q, r0, r);
    }
  }

  /** Rounding a larger numerator never gives a smaller result. */
  lemma RoundDivMonotone(p1: int, p2: int, q: int)
    requires q > 0 && p1 <= p2
    ensures RoundDiv(p1, q) <= RoundDiv(p2, q)
  {
    var r1, r2 := RoundDiv(p1, q), RoundDiv(p2, q);
    if r2 < r1 {
      ScaledGap(q, r2, r1);
    }
  }

  /** The particle count for a viewport of the given area in CSS pixels. */
  function IdealCount(area: nat): (n: nat)
    ensures MinParticles <= n <= MaxParticles
    // the lower bound takes over below 48.5 particles' worth of area
    ensures n == MinParticles <==> area < 582000
    // the upper bound takes over from 159.5 particles' worth of area
    ensures n == MaxParticles <==> area >= 1914000
    // in between, n is the nearest integer to area / 12000
    ensures 582000 <= area < 1914000 ==>
              2 * AreaPerParticle * n - AreaPerParticle <= 2 * area < 2 * AreaPerParticle * n + AreaPerParticle
  {
    Min(MaxParticles, Max(MinParticles, RoundDiv(area, AreaPerParticle)))
  }

  /** A larger viewport never gets fewer particles. */
  lemma IdealCountMonotone(a: nat, b: nat)
    requires a <= b
    ensures IdealCount(a) <= IdealCount(b)
  {
    RoundDivMonotone(a, b, AreaPerParticle);
  }

  /** The number of floating symbols that go with n particles. */
  function SymbolCount(n: nat): (k: nat)
    ensures k >= MinSymbols
    // the floor of 6 takes over up to 108 particles (0.06 * 108 = 6.48)
    ensures k == MinSymbols <==> n <= 108
    // above it, k is the nearest integer to 0.06 * n
    ensures n > 108 ==> 2 * PerHundred * k - PerHundred <= 2 * SymbolsPer * n < 2 * PerHundred * k + PerHundred
  {
    Max(MinSymbols, RoundDiv(SymbolsPer * n, PerHundred))
  }

  /** For every particle count the viewport can produce, there are 6 to 10
      symbols, and 10 exactly at the upper bound. */
  lemma SymbolCountRange(n: nat)
    requires MinParticles <= n <= MaxParticles
    ensures MinSymbols <= SymbolCount(n) <= 10
    ensures n == MaxParticles ==> SymbolCount(n) == 10
  {
  }
}
