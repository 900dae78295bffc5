/** The particle fragment shader over the reals: the round-disc discard, the
    soft edge, the five colour modes with their clamps, and the glow terms.
    `length(gl_PointCoord - 0.5)` and `exp(-dist * 4) * 0.5` are inputs.

    The colour mode reaches the shader through an `int` uniform, while the
    CPU writes the smoothed (real) mode index into it; how that real is read
    as an integer is the subject of the last section. */
module FragmentShader {
  import opened Common
  import opened Kinds
  import opened Smoothing

  /** The Hermite cubic `t²(3 - 2t)` maps [0, 1] onto [0, 1]. */
  lemma CubicUnit(t: real)
    requires 0.0 <= t <= 1.0
    ensures 0.0 <= t * t * (3.0 - 2.0 * t) <= 1.0
  {
    var t2 := t * t;
    ScaleByUnit(t, t);
    assert t2 * (3.0 - 2.0 * t) >= 0.0;
    var u := 1.0 - t;
    assert 1.0 - t2 * (3.0 - 2.0 * t) == u * u * (1.0 + 2.0 * t);
    assert u * u >= 0.0;
    assert u * u * (1.0 + 2.0 * t) >= 0.0;
  }

  /** The sign of a quotient by a positive number. */
  lemma QuotientSign(a: real, b: real)
    requires b > 0.0
    ensures a <= 0.0 ==> a / b <= 0.0
    ensures a >= b ==> a / b >= 1.0
  {
    assert (a / b) * b == a;
  }

  /** GLSL `smoothstep(e0, e1, x)`. */
  function Smoothstep(e0: real, e1: real, x: real): (r: real)
    requires e0 < e1
    ensures 0.0 <= r <= 1.0
    ensures x <= e0 ==> r == 0.0
    ensures x >= e1 ==> r == 1.0
  {
    QuotientSign(x - e0, e1 - e0);
    var t := Clamp((x - e0) / (e1 - e0), 0.0, 1.0);
    CubicUnit(t);
    t * t * (3.0 - 2.0 * t)
  }

  /** The soft edge `1 - smoothstep(0.3, 0.5, dist)`: opaque in the inner
      disc of radius 0.3, transparent at the rim. */
  function EdgeAlpha(dist: real): (a: real)
    ensures 0.0 <= a <= 1.0
    ensures dist <= 0.3 ==> a == 1.0
    ensures dist >= 0.5 ==> a == 0.0
  {
    1.0 - Smoothstep(0.3, 0.5, dist)
  }

  /** GLSL `fract(x) = x - floor(x)`. */
  function Fract(x: real): (r: real)
    ensures 0.0 <= r < 1.0
  {
    x - x.Floor as real
  }

  function Abs(v: real): real { if v < 0.0 then -v else v }

  /** The rainbow colour of a hue in [0, 1): each channel clamped to [0, 1]. */
  function Rainbow(hue: real): (c: Vec3)
    ensures UnitColor(c)
  {
    Vec3(Clamp(Abs(hue * 6.0 - 3.0) - 1.0, 0.0, 1.0),
         Clamp(2.0 - Abs(hue * 6.0 - 2.0), 0.0, 1.0),
         Clamp(2.0 - Abs(hue * 6.0 - 4.0), 0.0, 1.0))
  }

  const Luma: Vec3 := Vec3(0.299, 0.587, 0.114)
  const Cold: Vec3 := Vec3(0.0, 0.5, 1.0)
  const Hot: Vec3 := Vec3(1.0, 0.3, 0.0)

  /** The uniforms and varyings the colour stage reads. */
  datatype ColorInputs = ColorInputs(
    vColor: Vec3, vDistance: real, time: real, primary: Vec3, secondary: Vec3)

  /** The colour of a colour mode before the glow terms. */
  function ModeColor(mode: int, i: ColorInputs): (c: Vec3)
    ensures mode == 0 || !(0 <= mode <= 4) ==> c == i.vColor
    ensures mode == 1 ==>
      Between(i.primary.x, c.x, i.secondary.x) && Between(i.primary.y, c.y, i.secondary.y)
      && Between(i.primary.z, c.z, i.secondary.z)
    ensures mode == 1 && i.vDistance <= 0.0 ==> c == i.primary
    ensures mode == 1 && i.vDistance >= 500.0 ==> c == i.secondary
    ensures mode == 2 ==> UnitColor(c)
    ensures mode == 3 ==> c == Scale(i.primary, Dot(i.vColor, Luma))
    ensures mode == 4 ==> UnitColor(c)
    ensures mode == 4 && i.vDistance <= 0.0 ==> c == Hot
    ensures mode == 4 && i.vDistance >= 500.0 ==> c == Cold
  {
    if mode == 1 then
      var t := Clamp(i.vDistance * 0.002, 0.0, 1.0);
      MixBetween(i.primary.x, i.secondary.x, t);
      MixBetween(i.primary.y, i.secondary.y, t);
      MixBetween(i.primary.z, i.secondary.z, t);
      Mix3(i.primary, i.secondary, t)
    else if mode == 2 then
      Rainbow(Fract(i.vDistance * 0.003 + i.time * 0.1))
    else if mode == 3 then
      var gray := Dot(i.vColor, Luma);
      Vec3(gray * i.primary.x, gray * i.primary.y, gray * i.primary.z)
    else if mode == 4 then
      var t := Clamp(i.vDistance * 0.002, 0.0, 1.0);
      MixBetween(Hot.x, Cold.x, t);
      MixBetween(Hot.y, Cold.y, t);
      MixBetween(Hot.z, Cold.z, t);
      Mix3(Hot, Cold, t)
    else i.vColor
  }

  /** A unit colour scaled by a fraction is a unit colour. */
  lemma ScaledUnitColor(c: Vec3, g: real)
    requires UnitColor(c) && 0.0 <= g <= 1.0
    ensures UnitColor(Scale(c, g))
  {
    UnitProduct(c.x, g);
    UnitProduct(c.y, g);
    UnitProduct(c.z, g);
  }

  /** The monochrome mode keeps colours in range: a unit colour's
      luminance is a fraction, so the tinted result is a unit colour when
      the primary colour is. */
  lemma MonochromeInRange(i: ColorInputs)
    requires UnitColor(i.vColor) && UnitColor(i.primary)
    ensures UnitColor(ModeColor(3, i))
  {
    var v := i.vColor;
    var g := Dot(v, Luma);
    ScaleByUnit(0.299, v.x);
    ScaleByUnit(0.587, v.y);
    ScaleByUnit(0.114, v.z);
    assert v.x * 0.299 == 0.299 * v.x && v.y * 0.587 == 0.587 * v.y && v.z * 0.114 == 0.114 * v.z;
    assert g == v.x * 0.299 + v.y * 0.587 + v.z * 0.114;
    assert 0.0 <= g <= 1.0;
    ScaledUnitColor(i.primary, g);
  }

  // -------------------------------------------------------------- fragment

  datatype Fragment = Fragment(color: Vec3, alpha: real)

  /** `main` of the fragment stage. `dist` is the distance of the fragment
      from the point's centre, `expGlow` the value of `exp(-dist * 4) * 0.5`
      and `glow` the lighting glow from the vertex stage. The colour mode
      is the `int` uniform, which holds the smoothed index truncated toward
      zero. */
  function Shade(colorModeUniform: real, i: ColorInputs, opacity: real, glow: real,
                 dist: real, expGlow: real): (r: Option<Fragment>)
    ensures r.None? <==> dist > 0.5
    ensures r.Some? && 0.0 <= glow <= 1.0 && 0.0 <= opacity ==> 0.0 <= r.value.alpha <= opacity * 1.3
    ensures r.Some? && dist <= 0.3 ==> r.value.alpha == opacity * (1.0 + glow * 0.3)
    ensures r.Some? ==> r.value.color == Add(ModeColor(TruncatedColorMode(colorModeUniform), i),
                                             Scale(i.primary, glow * 1.5 + expGlow))
  {
    if dist > 0.5 then None
    else
      var alpha := EdgeAlpha(dist);
      var base := ModeColor(TruncatedColorMode(colorModeUniform), i);
      var lit := Add(base, Scale(i.primary, glow * 1.5));
      var color := Add(lit, Scale(i.primary, expGlow));
      var a := alpha * opacity * 1.0 * (1.0 + glow * 0.3);
      assert 0.0 <= glow <= 1.0 && 0.0 <= opacity ==> 0.0 <= a <= opacity * 1.3 by {
        if 0.0 <= glow <= 1.0 && 0.0 <= opacity {
          ScaleByUnit(opacity, alpha);
          var g := 1.0 + glow * 0.3;
          assert 1.0 <= g <= 1.3;
          assert a == (alpha * opacity) * g;
          assert (alpha * opacity) * g <= opacity * g;
          assert opacity * g <= opacity * 1.3;
        }
      }
      assert color == Add(base, Scale(i.primary, glow * 1.5 + expGlow)) by {
        var g := glow * 1.5;
        assert i.primary.x * (g + expGlow) == i.primary.x * g + i.primary.x * expGlow;
        assert i.primary.y * (g + expGlow) == i.primary.y * g + i.primary.y * expGlow;
        assert i.primary.z * (g + expGlow) == i.primary.z * g + i.primary.z * expGlow;
      }
      Some(Fragment(color, a))
  }

  // ----------------------------------------------- reading the mode index

  /** How WebGL reads a number written to an `int` uniform: truncation
      toward zero (the conversion of a JavaScript number to `GLint`). */
  function TruncatedColorMode(v: real): (m: int)
    ensures v >= 0.0 ==> m as real <= v < m as real + 1.0
    ensures v < 0.0 ==> m as real - 1.0 < v <= m as real
  {
    if v >= 0.0 then v.Floor else -((-v).Floor)
  }

  /** The reading the smoothing evidently needs: the nearest integer. */
  function ShownColorMode(v: real): (m: int)
    ensures v - 0.5 < m as real <= v + 0.5
  {
    (v + 0.5).Floor
  }

  /** Powers of a factor in (0, 1] stay in (0, 1]. */
  lemma {:induction false} PowUnit(b: real, n: nat)
    requires 0.0 < b <= 1.0
    ensures 0.0 < Pow(b, n) <= 1.0
    decreases n
  {
    if n > 0 {
      PowUnit(b, n - 1);
      ScaleByUnit(Pow(b, n - 1), b);
      assert b * Pow(b, n - 1) > 0.0;
    }
  }

  /** The distance left after `n` frames of smoothing with factor `f`. */
  lemma RemainingDistance(v0: real, target: real, f: real, n: nat)
    ensures target - SmoothN(v0, target, f, n) == (target - v0) * Pow(1.0 - f, n)
  {
    SmoothNDistance(v0, target, f, n);
  }

  /** As written, a mode approached from below is never shown: starting
      within one step below the selected mode, with any frame factor below
      1, every frame's smoothed index is strictly below the mode and
      truncates to the mode below it. */
  lemma {:induction false} TruncatedModeNeverArrives(v0: real, target: nat, f: real, n: nat)
    requires 1 <= target <= 4 && target as real - 1.0 <= v0 < target as real
    requires 0.0 <= f < 1.0
    ensures TruncatedColorMode(SmoothN(v0, target as real, f, n)) == target - 1
  {
    var t := target as real;
    var v := SmoothN(v0, t, f, n);
    RemainingDistance(v0, t, f, n);
    PowUnit(1.0 - f, n);
    var p := Pow(1.0 - f, n);
    var d := t - v0;
    assert 0.0 < d <= 1.0;
    assert t - v == d * p;
    ScaleByUnit(d, p);
    assert d * p > 0.0;
    assert t - 1.0 <= v < t;
  }

  /** The concrete case: after switching from `original` to `gradient`, the
      shader keeps drawing `original` on every frame of a steady frame rate
      (here 60 frames a second at the default colour transition speed 0.5,
      a factor of `delta * 0.5 * 2 = 1/60`). */
  lemma GradientNeverShownExample(n: nat)
    ensures ColorModeOfIndex(TruncatedColorMode(SmoothN(0.0, ColorModeIndex(Gradient) as real, 1.0 / 60.0, n)))
         == Some(Original)
  {
    TruncatedModeNeverArrives(0.0, 1, 1.0 / 60.0, n);
  }

  /** Bernoulli's inequality in the form `(1 - f)^n · (1 + n·f) <= 1`. */
  lemma {:induction false} Bernoulli(f: real, n: nat)
    requires 0.0 < f <= 1.0
    ensures Pow(1.0 - f, n) * (1.0 + n as real * f) <= 1.0
    decreases n
  {
    if n > 0 {
      var m := (n - 1) as real;
      var p := Pow(1.0 - f, n - 1);
      Bernoulli(f, n - 1);
      PowUnit2(1.0 - f, n - 1);
      assert Pow(1.0 - f, n) == (1.0 - f) * p;
      assert (1.0 - f) * (1.0 + m * f + f) == 1.0 + m * f - f * f * (m + 1.0);
      assert f * f * (m + 1.0) >= 0.0;
      assert (1.0 - f) * (1.0 + m * f + f) <= 1.0 + m * f;
      assert p * ((1.0 - f) * (1.0 + m * f + f)) <= p * (1.0 + m * f);
      assert Pow(1.0 - f, n) * (1.0 + n as real * f) == p * ((1.0 - f) * (1.0 + m * f + f));
    }
  }

  /** Powers of a factor in [0, 1] stay in [0, 1]. */
  lemma {:induction false} PowUnit2(b: real, n: nat)
    requires 0.0 <= b <= 1.0
    ensures 0.0 <= Pow(b, n) <= 1.0
    decreases n
  {
    if n > 0 {
      PowUnit2(b, n - 1);
      ScaleByUnit(Pow(b, n - 1), b);
    }
  }

  /** Frames after which a distance `d` has shrunk below one half with
      factor `f`. */
  function SettleFrames(d: real, f: real): (n: nat)
    requires d >= 0.0 && f > 0.0
    ensures n as real * f > 2.0 * d
  {
    var q := 2.0 * d / f;
    var k := q.Floor + 1;
    assert k as real > q >= 0.0;
    assert q * f == 2.0 * d;
    assert (k as real - q) * f > 0.0;
    k
  }

  /** Corrected: with rounding, the selected mode is shown from
      `SettleFrames` frames on, for any positive frame factor and any start
      within the mode range. */
  lemma ShownModeSettles(v0: real, target: nat, f: real, n: nat)
    requires target <= 4 && 0.0 <= v0 <= 4.0 && 0.0 < f <= 1.0
    requires n >= SettleFrames(Abs(target as real - v0), f)
    ensures ShownColorMode(SmoothN(v0, target as real, f, n)) == target
  {
    var v := SmoothN(v0, target as real, f, n);
    WithinHalf(v0, target as real, f, n);
    NearestInteger(v, ShownColorMode(v), target);
  }

  /** After `SettleFrames` frames the smoothed value is within one half of
      its target. */
  lemma WithinHalf(v0: real, t: real, f: real, n: nat)
    requires 0.0 < f <= 1.0 && n >= SettleFrames(Abs(t - v0), f)
    ensures t - 0.5 < SmoothN(v0, t, f, n) < t + 0.5
  {
    var v := SmoothN(v0, t, f, n);
    var d := t - v0;
    var p := Pow(1.0 - f, n);
    var e := d * p;
    assert t - v == e by { RemainingDistance(v0, t, f, n); }
    assert p >= 0.0 by { PowUnit2(1.0 - f, n); }
    var ad := Abs(d);
    RemainderBelowHalf(ad, f, n, p);
    ScaledBelow(d, p, ad, e);
    CloseEnough(v, t, e);
  }

  /** A value whose distance to `t` is below one half in absolute value lies
      within one half of `t`. */
  lemma CloseEnough(v: real, t: real, e: real)
    requires t - v == e && Abs(e) < 0.5
    ensures t - 0.5 < v < t + 0.5
  {
  }

  /** Scaling by a non-negative factor scales the absolute value. */
  lemma ScaledBelow(d: real, p: real, ad: real, e: real)
    requires p >= 0.0 && e == d * p && ad == Abs(d) && ad * p < 0.5
    ensures Abs(e) < 0.5
  {
    if d < 0.0 {
      NegativeScaled(d, p, ad, e);
    } else {
      assert e == ad * p;
    }
  }

  lemma NegativeScaled(d: real, p: real, ad: real, e: real)
    requires p >= 0.0 && e == d * p && ad == -d && d < 0.0
    ensures e == -(ad * p) && e <= 0.0
  {
  }

  /** The distance left after `SettleFrames` frames is below one half. */
  lemma RemainderBelowHalf(ad: real, f: real, n: nat, p: real)
    requires ad >= 0.0 && 0.0 < f <= 1.0 && n >= SettleFrames(ad, f) && p == Pow(1.0 - f, n)
    ensures ad * p < 0.5
  {
    var b := 1.0 + n as real * f;
    assert b > 2.0 * ad by { EnoughFrames(n, ad, f); }
    assert 0.0 <= p by { PowUnit2(1.0 - f, n); }
    assert p * b <= 1.0 by { Bernoulli(f, n); }
    SmallRemainder(ad, p, b);
  }

  lemma EnoughFrames(n: nat, ad: real, f: real)
    requires ad >= 0.0 && f > 0.0 && n >= SettleFrames(ad, f)
    ensures 1.0 + n as real * f > 2.0 * ad
  {
    var bigN := SettleFrames(ad, f);
    assert (n as real - bigN as real) * f >= 0.0;
  }

  /** At most one integer lies within one half of a real. */
  lemma NearestInteger(v: real, m: int, k: int)
    requires v - 0.5 < m as real <= v + 0.5 && v - 0.5 < k as real < v + 0.5
    ensures m == k
  {
    assert -1.0 < (m - k) as real < 1.0;
  }

  /** A distance `ad` scaled by `p` with `p·b <= 1` and `b > 2·ad` is
      below one half. */
  lemma SmallRemainder(ad: real, p: real, b: real)
    requires ad >= 0.0 && p >= 0.0 && p * b <= 1.0 && b > 2.0 * ad
    ensures ad * p < 0.5
  {
    assert b > 0.0;
    var pb := p * b;
    assert pb >= 0.0;
    ScaleByUnit(ad, pb);
    var x := ad * p;
    var xb := x * b;
    assert xb == ad * pb;
    assert xb <= ad;
    var e := x - 0.5;
    assert e * b == xb - 0.5 * b;
    NegativeFactor(e, b);
  }

  lemma NegativeFactor(a: real, b: real)
    requires b > 0.0 && a * b < 0.0
    ensures a < 0.0
  {
  }

  /** Corrected: once the smoothed index is within one half of the mode,
      rounding shows that mode, and a further smoothing frame keeps it so. */
  lemma ShownModeStable(v: real, target: nat, f: real)
    requires target <= 4 && target as real - 0.5 < v < target as real + 0.5 && 0.0 <= f <= 1.0
    ensures ShownColorMode(v) == target
    ensures ShownColorMode(Smooth(v, target as real, f)) == target
  {
    SmoothStep(v, target as real, f);
    NearestInteger(v, ShownColorMode(v), target);
    var v' := Smooth(v, target as real, f);
    NearestInteger(v', ShownColorMode(v'), target);
  }
}
