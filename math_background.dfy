/** The population of the animated math background: drifting particles and
    floating glyphs, rebuilt from scratch whenever the viewport is resized.
    Math.random() is modelled as a stream of draws in [0, 1), numbered in
    the order in which one rebuild makes its calls. */
module MathBackground {
  import opened Population

  /** The values successive Math.random() calls return, call by call. */
  type Draws = nat -> real

  /** Every draw lies in [0, 1), as Math.random() promises. */
  ghost predicate UnitDraws(u: Draws)
  {
    forall k: nat :: 0.0 <= u(k) < 1.0
  }

  /** The glyphs a floating symbol is drawn from. */
  const Glyphs: seq<char> := ['π', '∑', '√', '∞', '∫', 'Δ', 'θ', 'λ', 'e', 'i', '≠', '≈']

  /** 2 * Math.PI as a double. */
  const TwoPi: real := 6.283185307179586

  /** Math.random() calls made for one particle: x, y, speed, angle, radius,
      then the opacity drawn by the Particle constructor. */
  const ParticleDraws: nat := 6
  /** Math.random() calls made for one symbol: glyph, x, y, size, life, phase. */
  const SymbolDraws: nat := 6

  /** A particle; its velocity is kept as a speed and a heading angle. */
  datatype Particle = Particle(x: real, y: real, speed: real, heading: real, r: real, alpha: real)

  /** A floating symbol. */
  datatype Symbol = Symbol(glyph: char, x: real, y: real, size: real, alpha: real, life: real, phase: real)

  /** rand(lo, hi) for a draw u: a value spread uniformly over [lo, hi). */
  function Rand(u: real, lo: real, hi: real): (v: real)
    requires 0.0 <= u < 1.0 && lo <= hi
    ensures lo <= v <= hi
    ensures lo < hi ==> v < hi
  {
    var span := hi - lo;
    ScaleBelow(u, span);
    var offset := u * span;
    assert 0.0 <= offset <= span;
    offset + lo
  }

  /** A fraction of a non-negative span stays within it. */
  lemma ScaleBelow(u: real, d: real)
    requires 0.0 <= u < 1.0 && 0.0 <= d
    ensures 0.0 <= u * d <= d
    ensures 0.0 < d ==> u * d < d
  {
  }

  /** A coordinate drawn with rand(0, extent): inside [0, extent), or 0 when the extent is 0. */
  predicate InExtent(v: real, extent: nat)
  {
    0.0 <= v <= extent as real && (extent > 0 ==> v < extent as real)
  }

  /** The ranges the page draws a new particle's fields from. */
  predicate FreshParticle(p: Particle, w: nat, h: nat)
  {
    InExtent(p.x, w) && InExtent(p.y, h) &&
    8.0 <= p.speed < 30.0 && 0.0 <= p.heading < TwoPi &&
    0.6 <= p.r < 2.6 && 0.18 <= p.alpha < 0.8
  }

  /** The ranges the page draws a new symbol's fields from; it starts invisible. */
  predicate FreshSymbol(s: Symbol, w: nat, h: nat)
  {
    s.glyph in Glyphs && InExtent(s.x, w) && InExtent(s.y, h) &&
    14.0 <= s.size < 34.0 && s.alpha == 0.0 &&
    2.4 <= s.life < 7.0 && 0.0 <= s.phase < TwoPi
  }

  /** The particle built from the draws u(k), ..., u(k + 5) in a w by h viewport. */
  function NewParticle(u: Draws, k: nat, w: nat, h: nat): (p: Particle)
    requires UnitDraws(u)
    ensures FreshParticle(p, w, h)
  {
    Particle(Rand(u(k), 0.0, w as real), Rand(u(k + 1), 0.0, h as real),
             Rand(u(k + 2), 8.0, 30.0), Rand(u(k + 3), 0.0, TwoPi),
             Rand(u(k + 4), 0.6, 2.6), Rand(u(k + 5), 0.18, 0.8))
  }

  /** Math.floor(u * 12): the glyph a draw picks. */
  function GlyphIndex(u: real): (i: nat)
    requires 0.0 <= u < 1.0
    ensures i < |Glyphs|
    ensures i as real <= u * |Glyphs| as real < i as real + 1.0
  {
    (u * |Glyphs| as real).Floor
  }

  /** The symbol built from the draws u(k), ..., u(k + 5) in a w by h viewport. */
  function NewSymbol(u: Draws, k: nat, w: nat, h: nat): (s: Symbol)
    requires UnitDraws(u)
    ensures FreshSymbol(s, w, h)
  {
    Symbol(Glyphs[GlyphIndex(u(k))], Rand(u(k + 1), 0.0, w as real), Rand(u(k + 2), 0.0, h as real),
           Rand(u(k + 3), 14.0, 34.0), 0.0, Rand(u(k + 4), 2.4, 7.0), Rand(u(k + 5), 0.0, TwoPi))
  }

  /** The background's state: the viewport size and the two populations. */
  class Background {
    var width: nat
    var height: nat
    var particles: seq<Particle>
    var symbolPool: seq<Symbol>

    /** The populations are sized for the current viewport and every member
        has its fields in the ranges it is created with. The animation, which
        moves and fades them, is not part of this model. */
    ghost predicate Valid()
      reads this
    {
      |particles| == IdealCount(width * height) &&
      |symbolPool| == SymbolCount(|particles|) &&
      (forall i :: 0 <= i < |particles| ==> FreshParticle(particles[i], width, height)) &&
      (forall j :: 0 <= j < |symbolPool| ==> FreshSymbol(symbolPool[j], width, height))
    }

    /** Set-up: size the canvas to the viewport and populate it. */
    constructor (innerWidth: nat, innerHeight: nat, u: Draws)
      requires UnitDraws(u)
      ensures Valid()
      ensures width == innerWidth && height == innerHeight
    {
      width, height := innerWidth, innerHeight;
      particles, symbolPool := [], [];
      new;
      Resize(innerWidth, innerHeight, u);
    }

    /** Empty both populations and refill them: n particles, then
        SymbolCount(n) symbols, each from the next draws in order. */
    method InitParticles(n: nat, u: Draws)
      requires UnitDraws(u)
      modifies this`particles, this`symbolPool
      ensures |particles| == n
      ensures forall i :: 0 <= i < n ==>
                particles[i] == NewParticle(u, ParticleDraws * i, width, height)
      ensures |symbolPool| == SymbolCount(n)
      ensures forall j :: 0 <= j < |symbolPool| ==>
                symbolPool[j] == NewSymbol(u, ParticleDraws * n + SymbolDraws * j, width, height)
      ensures forall i :: 0 <= i < n ==> FreshParticle(particles[i], width, height)
      ensures forall j :: 0 <= j < |symbolPool| ==> FreshSymbol(symbolPool[j], width, height)
    {
      particles := [];
      var i := 0;
      while i < n
        invariant 0 <= i <= n
        invariant |particles| == i
        invariant forall k :: 0 <= k < i ==> particles[k] == NewParticle(u, ParticleDraws * k, width, height)
      {
        particles := particles + [NewParticle(u, ParticleDraws * i, width, height)];
        i := i + 1;
      }

      ghost var built := particles;
      symbolPool := [];
      var symbolCount := SymbolCount(n);
      var j := 0;
      while j < symbolCount
        invariant 0 <= j <= symbolCount
        invariant |symbolPool| == j && particles == built
        invariant forall k :: 0 <= k < j ==>
                    symbolPool[k] == NewSymbol(u, ParticleDraws * n + SymbolDraws * k, width, height)
      {
        symbolPool := symbolPool + [NewSymbol(u, ParticleDraws * n + SymbolDraws * j, width, height)];
        j := j + 1;
      }
    }

    /** A viewport resize: record the new size and rebuild the populations
        for its area. */
    method Resize(innerWidth: nat, innerHeight: nat, u: Draws)
      requires UnitDraws(u)
      modifies this
      ensures Valid()
      ensures width == innerWidth && height == innerHeight
      ensures MinParticles <= |particles| <= MaxParticles
      ensures MinSymbols <= |symbolPool| <= 10
      ensures forall i :: 0 <= i < |particles| ==>
                particles[i] == NewParticle(u, ParticleDraws * i, width, height)
      ensures forall j :: 0 <= j < |symbolPool| ==>
                symbolPool[j] == NewSymbol(u, ParticleDraws * |particles| + SymbolDraws * j, width, height)
    {
      width := innerWidth;
      height := innerHeight;
      var ideal := IdealCount(width * height);
      InitParticles(ideal, u);
      SymbolCountRange(ideal);
    }
  }
}
