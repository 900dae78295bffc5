/** The structural part of the particle vertex shader over the reals: the
    `none` and `rotate` branches of `applyEffect`, the gesture-driven hand
    force, the lighting glow with its clamp, point-size clamping and the
    transition `mix` of positions and colours. Values the GPU computes with
    transcendental functions (`length`, `normalize`, `sin`, `cos`, simplex
    noise, the trigonometric effect fields) are inputs. */
module VertexShader {
  import opened Common

  // ------------------------------------------------------------ rotation

  /** The three in-order axis rotations of the rotate effect, applied to a
      point for the enabled axes; `c` and `s` are the cosine and sine of the
      rotation angle. */
  function RotateX(p: Vec3, c: real, s: real): Vec3 {
    Vec3(p.x, p.y * c - p.z * s, p.y * s + p.z * c)
  }

  function RotateY(p: Vec3, c: real, s: real): Vec3 {
    Vec3(p.x * c - p.z * s, p.y, p.x * s + p.z * c)
  }

  function RotateZ(p: Vec3, c: real, s: real): Vec3 {
    Vec3(p.x * c - p.y * s, p.x * s + p.y * c, p.z)
  }

  function Rotated(p: Vec3, c: real, s: real, ax: bool, ay: bool, az: bool): (r: Vec3)
    ensures !ax && !ay && !az ==> r == p
  {
    var p1 := if ax then RotateX(p, c, s) else p;
    var p2 := if ay then RotateY(p1, c, s) else p1;
    if az then RotateZ(p2, c, s) else p2
  }

  /** Each plane rotation keeps the squared length when `c² + s² = 1`. */
  lemma PlaneRotationKeepsLength(a: real, b: real, c: real, s: real)
    requires c * c + s * s == 1.0
    ensures (a * c - b * s) * (a * c - b * s) + (a * s + b * c) * (a * s + b * c) == a * a + b * b
  {
    calc {
      (a * c - b * s) * (a * c - b * s) + (a * s + b * c) * (a * s + b * c);
      a * a * (c * c + s * s) + b * b * (c * c + s * s);
      { assert a * a * (c * c + s * s) == a * a && b * b * (c * c + s * s) == b * b; }
      a * a + b * b;
    }
  }

  /** The rotate effect is a rotation: it keeps every particle at its
      distance from the origin. */
  lemma RotateXKeepsLength(p: Vec3, c: real, s: real)
    requires c * c + s * s == 1.0
    ensures Norm2(RotateX(p, c, s)) == Norm2(p)
  {
    PlaneRotationKeepsLength(p.y, p.z, c, s);
  }

  lemma RotateYKeepsLength(p: Vec3, c: real, s: real)
    requires c * c + s * s == 1.0
    ensures Norm2(RotateY(p, c, s)) == Norm2(p)
  {
    PlaneRotationKeepsLength(p.x, p.z, c, s);
  }

  lemma RotateZKeepsLength(p: Vec3, c: real, s: real)
    requires c * c + s * s == 1.0
    ensures Norm2(RotateZ(p, c, s)) == Norm2(p)
  {
    PlaneRotationKeepsLength(p.x, p.y, c, s);
  }

  lemma RotatedKeepsLength(p: Vec3, c: real, s: real, ax: bool, ay: bool, az: bool)
    requires c * c + s * s == 1.0
    ensures Norm2(Rotated(p, c, s, ax, ay, az)) == Norm2(p)
  {
    var p1 := if ax then RotateX(p, c, s) else p;
    if ax { RotateXKeepsLength(p, c, s); }
    var p2 := if ay then RotateY(p1, c, s) else p1;
    if ay { RotateYKeepsLength(p1, c, s); }
    if az { RotateZKeepsLength(p2, c, s); }
  }

  /** The uniforms `applyEffect` reads, except time and speed, which only
      enter through the supplied trigonometric values. */
  datatype EffectUniforms = EffectUniforms(effect: int, intensity: real, axisX: bool, axisY: bool, axisZ: bool)

  /** `applyEffect(pos, originalPos, time)`. For the rotate effect `cosA`,
      `sinA` are the cosine and sine of `time * uSpeed * 0.3 * intensity`;
      `field` is the position the other built-in effects compute. */
  function ApplyEffect(u: EffectUniforms, pos: Vec3, originalPos: Vec3, cosA: real, sinA: real, field: Vec3): (r: Vec3)
    ensures u.effect == 0 ==> r == pos
    ensures u.effect == 9 ==>
      r == Mix3(originalPos, Rotated(originalPos, cosA, sinA, u.axisX, u.axisY, u.axisZ), u.intensity)
    ensures !(0 <= u.effect <= 10) ==> r == pos
  {
    if u.effect == 0 then pos
    else if u.effect == 9 then
      Mix3(originalPos, Rotated(originalPos, cosA, sinA, u.axisX, u.axisY, u.axisZ), u.intensity)
    else if 1 <= u.effect <= 10 then field
    else pos
  }

  /** The rotate effect works from the original position only, so the
      displaced (turbulent) position does not feed back and rotations do not
      compound between frames; at intensity 0, or with no axis enabled, it
      leaves the original position in place. */
  lemma RotateEffectProperties(u: EffectUniforms, pos1: Vec3, pos2: Vec3, originalPos: Vec3,
                               cosA: real, sinA: real, field: Vec3)
    requires u.effect == 9
    ensures ApplyEffect(u, pos1, originalPos, cosA, sinA, field) == ApplyEffect(u, pos2, originalPos, cosA, sinA, field)
    ensures u.intensity == 0.0 ==> ApplyEffect(u, pos1, originalPos, cosA, sinA, field) == originalPos
    ensures !u.axisX && !u.axisY && !u.axisZ ==> ApplyEffect(u, pos1, originalPos, cosA, sinA, field) == originalPos
    ensures u.intensity == 1.0 ==>
      ApplyEffect(u, pos1, originalPos, cosA, sinA, field) == Rotated(originalPos, cosA, sinA, u.axisX, u.axisY, u.axisZ)
  {
  }

  // --------------------------------------------------------- hand force

  /** A quotient of a non-negative number by a larger one is a fraction. */
  lemma DivBelowOne(a: real, b: real)
    requires 0.0 <= a < b
    ensures 0.0 <= a / b < 1.0
  {
    assert (a / b) * b == a;
  }

  /** The quadratic falloff `(1 - dist / radius)²` of a hand's force. */
  function Falloff(dist: real, radius: real): (f: real)
    requires radius != 0.0
    ensures 0.0 <= dist < radius ==> 0.0 < f <= 1.0
    ensures dist == 0.0 ==> f == 1.0
  {
    var q := 1.0 - dist / radius;
    if 0.0 <= dist < radius then
      DivBelowOne(dist, radius);
      ScaleByUnit(q, q);
      assert q * q > 0.0;
      q * q
    else q * q
  }

  /** A hand as the shader sees it, together with the GPU-computed
      `length(hand - pos)` and `normalize(hand - pos)`. */
  datatype HandSample = HandSample(hand: Vec3, dist: real, dir: Vec3)

  datatype HandUniforms = HandUniforms(radius: real, attraction: real, repulsion: real, gesture: int)

  /** The signed strength of a gesture along the particle→hand direction:
      open pushes away (repulsion × 50), closed pulls (attraction × 30) and
      pinch pulls harder (attraction × 50); any other gesture does nothing. */
  function GestureStrength(u: HandUniforms): (k: real)
    ensures u.gesture == 1 ==> k == -(u.repulsion * 50.0)
    ensures u.gesture == 2 ==> k == u.attraction * 30.0
    ensures u.gesture == 3 ==> k == u.attraction * 50.0
    ensures !(1 <= u.gesture <= 3) ==> k == 0.0
    ensures u.attraction >= 0.0 && u.repulsion >= 0.0 ==> (k <= 0.0 <==> (u.gesture != 2 && u.gesture != 3) || u.attraction == 0.0)
  {
    if u.gesture == 1 then -(u.repulsion * 50.0)
    else if u.gesture == 2 then u.attraction * 30.0
    else if u.gesture == 3 then u.attraction * 50.0
    else 0.0
  }

  /** Whether a hand acts on the particle at all: the zero vector means "no
      hand", and only particles strictly inside the radius are affected. */
  predicate Reaches(h: HandSample, u: HandUniforms) {
    h.hand != Zero && h.dist < u.radius && u.radius != 0.0
  }

  /** One hand's contribution added to `result`. */
  function HandPush(result: Vec3, h: HandSample, u: HandUniforms): (r: Vec3)
    ensures !Reaches(h, u) ==> r == result
    ensures !(1 <= u.gesture <= 3) ==> r == result
  {
    if Reaches(h, u) then
      var force := Falloff(h.dist, u.radius);
      if u.gesture == 1 then Sub(result, Scale(h.dir, force * u.repulsion * 50.0))
      else if u.gesture == 2 then Add(result, Scale(h.dir, force * u.attraction * 30.0))
      else if u.gesture == 3 then Add(result, Scale(h.dir, force * u.attraction * 50.0))
      else result
    else result
  }

  /** Every gesture's push is the hand direction scaled by falloff times the
      signed gesture strength. */
  lemma HandPushIsScaledDirection(result: Vec3, h: HandSample, u: HandUniforms)
    requires Reaches(h, u)
    ensures HandPush(result, h, u) == Add(result, Scale(h.dir, Falloff(h.dist, u.radius) * GestureStrength(u)))
  {
    if u.gesture == 1 {
      ScaledRepel(result, h, u);
    } else if u.gesture == 2 || u.gesture == 3 {
      ScaledAttract(result, h, u);
    } else {
      assert Scale(h.dir, 0.0) == Zero;
    }
  }

  lemma ScaledRepel(result: Vec3, h: HandSample, u: HandUniforms)
    requires Reaches(h, u) && u.gesture == 1
    ensures HandPush(result, h, u) == Add(result, Scale(h.dir, Falloff(h.dist, u.radius) * GestureStrength(u)))
  {
    var f := Falloff(h.dist, u.radius);
    var g := GestureStrength(u);
    var k := f * g;
    var m := f * u.repulsion * 50.0;
    NegatedFactor(k, f, u.repulsion, 50.0, g);
    PushOf(result, h, u, m);
    SubIsAddNegated(result, h.dir, m);
  }

  lemma ScaledAttract(result: Vec3, h: HandSample, u: HandUniforms)
    requires Reaches(h, u) && (u.gesture == 2 || u.gesture == 3)
    ensures HandPush(result, h, u) == Add(result, Scale(h.dir, Falloff(h.dist, u.radius) * GestureStrength(u)))
  {
    var f := Falloff(h.dist, u.radius);
    var g := GestureStrength(u);
    var k := f * g;
    Factor(k, f, u.attraction, if u.gesture == 2 then 30.0 else 50.0, g);
    PushOf(result, h, u, k);
  }

  /** `HandPush` in one gesture's branch, with the branch's factor named. */
  lemma PushOf(result: Vec3, h: HandSample, u: HandUniforms, k: real)
    requires Reaches(h, u) && 1 <= u.gesture <= 3
    requires u.gesture == 1 ==> k == Falloff(h.dist, u.radius) * u.repulsion * 50.0
    requires u.gesture == 2 ==> k == Falloff(h.dist, u.radius) * u.attraction * 30.0
    requires u.gesture == 3 ==> k == Falloff(h.dist, u.radius) * u.attraction * 50.0
    ensures u.gesture == 1 ==> HandPush(result, h, u) == Sub(result, Scale(h.dir, k))
    ensures u.gesture != 1 ==> HandPush(result, h, u) == Add(result, Scale(h.dir, k))
  {
  }

  lemma Factor(k: real, a: real, b: real, c: real, g: real)
    requires g == b * c && k == a * g
    ensures k == a * b * c
  {
  }

  lemma NegatedFactor(k: real, a: real, b: real, c: real, g: real)
    requires g == -(b * c) && k == a * g
    ensures k == -(a * b * c)
  {
  }

  /** Subtracting a scaled vector adds the oppositely scaled one. */
  lemma SubIsAddNegated(r: Vec3, d: Vec3, k: real)
    ensures Sub(r, Scale(d, k)) == Add(r, Scale(d, -k))
  {
    assert d.x * (-k) == -(d.x * k) && d.y * (-k) == -(d.y * k) && d.z * (-k) == -(d.z * k);
  }

  /** `applyHandInteraction(pos)`: the left hand, then the right, each
      measured from the incoming position. */
  function ApplyHandInteraction(pos: Vec3, left: HandSample, right: HandSample, u: HandUniforms): (r: Vec3)
    ensures !Reaches(left, u) && !Reaches(right, u) ==> r == pos
  {
    HandPush(HandPush(pos, left, u), right, u)
  }

  /** With non-negative forces an open hand never moves a particle towards
      itself and a closed or pinching hand never moves it away: the
      displacement has the sign of the gesture along the direction to the
      hand, and its size is the falloff times the gesture strength. */
  lemma HandPushDirection(pos: Vec3, h: HandSample, u: HandUniforms)
    requires Reaches(h, u) && 0.0 <= h.dist && u.attraction >= 0.0 && u.repulsion >= 0.0
    ensures Dot(Sub(HandPush(pos, h, u), pos), h.dir) == Falloff(h.dist, u.radius) * GestureStrength(u) * Norm2(h.dir)
    ensures u.gesture == 1 ==> Dot(Sub(HandPush(pos, h, u), pos), h.dir) <= 0.0
    ensures u.gesture == 2 || u.gesture == 3 ==> Dot(Sub(HandPush(pos, h, u), pos), h.dir) >= 0.0
  {
    var f := Falloff(h.dist, u.radius);
    var g := GestureStrength(u);
    HandPushAlongDirection(pos, h, u);
    Norm2NonNegative(h.dir);
    if u.gesture == 1 {
      NonPositiveProduct(g, f);
      NonPositiveProduct(f * g, Norm2(h.dir));
    } else if u.gesture == 2 || u.gesture == 3 {
      NonNegativeProduct(f, g);
      NonNegativeProduct(f * g, Norm2(h.dir));
    }
  }

  /** The displacement along the hand's direction vector. */
  lemma HandPushAlongDirection(pos: Vec3, h: HandSample, u: HandUniforms)
    requires Reaches(h, u)
    ensures Dot(Sub(HandPush(pos, h, u), pos), h.dir) == Falloff(h.dist, u.radius) * GestureStrength(u) * Norm2(h.dir)
  {
    var k := Falloff(h.dist, u.radius) * GestureStrength(u);
    HandPushIsScaledDirection(pos, h, u);
    assert Sub(HandPush(pos, h, u), pos) == Scale(h.dir, k);
    DotScale(h.dir, k);
  }

  lemma NonNegativeProduct(a: real, b: real)
    requires a >= 0.0 && b >= 0.0
    ensures a * b >= 0.0
  {
  }

  lemma NonPositiveProduct(a: real, b: real)
    requires a <= 0.0 && b >= 0.0
    ensures a * b <= 0.0 && b * a <= 0.0
  {
    assert (-a) * b >= 0.0;
  }

  lemma DotScale(v: Vec3, k: real)
    ensures Dot(Scale(v, k), v) == k * Norm2(v)
  {
  }

  // -------------------------------------------------------- lighting glow

  /** GLSL `mod(x, y) = x - y * floor(x / y)`. */
  function GlslMod(x: real, y: real): (r: real)
    requires y > 0.0
    ensures 0.0 <= r < y
  {
    var q := x / y;
    var fl := q.Floor as real;
    var frac := q - fl;
    assert 0.0 <= frac < 1.0;
    assert x - y * fl == frac * y;
    assert frac * y < y by { assert (1.0 - frac) * y > 0.0; }
    ScaleByUnit(y, frac);
    x - y * fl
  }

  /** The lighting uniforms. */
  datatype LightingUniforms = LightingUniforms(mode: int, intensity: real, radius: real)

  /** What the GPU computes for the glow: `t = time * uLightingSpeed`, the
      particle's x coordinate and distance from the origin, and the sines of
      the pulse and wave modes. */
  datatype GlowInputs = GlowInputs(t: real, x: real, len: real, sinPulse: real, sinWave: real)

  function Abs(v: real): real { if v < 0.0 then -v else v }

  /** The band glow of the sweep modes: linear falloff within the radius. */
  function Band(dist: real, l: LightingUniforms): (g: real)
    ensures l.radius > 0.0 && l.intensity >= 0.0 && dist >= 0.0 ==> 0.0 <= g <= l.intensity
    ensures !(dist < l.radius) ==> g == 0.0
  {
    if dist < l.radius then
      if l.radius != 0.0 then
        var w := 1.0 - dist / l.radius;
        if l.radius > 0.0 && dist >= 0.0 then
          assert 0.0 <= dist / l.radius by { assert dist / l.radius * l.radius == dist; }
          assert dist / l.radius < 1.0 by { assert dist / l.radius * l.radius == dist; }
          if l.intensity >= 0.0 then
            ScaleByUnit(l.intensity, w);
            w * l.intensity
          else w * l.intensity
        else w * l.intensity
      else 0.0
    else 0.0
  }

  /** The glow before the final clamp. */
  function RawGlow(l: LightingUniforms, g: GlowInputs): real {
    if l.mode == 1 then Band(Abs(g.x - (GlslMod(g.t * 100.0, 600.0) - 300.0)), l)
    else if l.mode == 2 then Band(Abs(g.len - GlslMod(g.t * 150.0, 400.0)), l)
    else if l.mode == 3 then Band(Abs(g.len - (400.0 - GlslMod(g.t * 150.0, 400.0))), l)
    else if l.mode == 4 then (g.sinPulse * 0.5 + 0.5) * l.intensity
    else if l.mode == 5 then (g.sinWave * 0.5 + 0.5) * l.intensity
    else 0.0
  }

  /** `calculateLightingGlow(pos, time)`. */
  function LightingGlow(l: LightingUniforms, g: GlowInputs): (r: real)
    ensures 0.0 <= r <= 1.0
    ensures l.mode == 0 || !(0 <= l.mode <= 5) ==> r == 0.0
    ensures 0.0 <= RawGlow(l, g) <= 1.0 ==> r == RawGlow(l, g)
  {
    if l.mode == 0 then 0.0 else Clamp(RawGlow(l, g), 0.0, 1.0)
  }

  /** The sweep positions stay in their ranges: the moving band's centre in
      [-300, 300), the expanding ring's radius in [0, 400) and the
      contracting ring's in (0, 400]. */
  lemma SweepRanges(t: real)
    ensures -300.0 <= GlslMod(t * 100.0, 600.0) - 300.0 < 300.0
    ensures 0.0 <= GlslMod(t * 150.0, 400.0) < 400.0
    ensures 0.0 < 400.0 - GlslMod(t * 150.0, 400.0) <= 400.0
  {
  }

  /** For a lighting intensity in [0, 1] with a positive radius and sines
      in [-1, 1], the raw glow already lies in [0, intensity], so the clamp
      changes nothing. */
  lemma RawGlowWithinIntensity(l: LightingUniforms, g: GlowInputs)
    requires 0.0 <= l.intensity <= 1.0 && l.radius > 0.0
    requires -1.0 <= g.sinPulse <= 1.0 && -1.0 <= g.sinWave <= 1.0
    ensures 0.0 <= RawGlow(l, g) <= l.intensity
    ensures l.mode != 0 ==> LightingGlow(l, g) == RawGlow(l, g)
  {
    if l.mode == 4 {
      ScaleByUnit(l.intensity, g.sinPulse * 0.5 + 0.5);
    } else if l.mode == 5 {
      ScaleByUnit(l.intensity, g.sinWave * 0.5 + 0.5);
    }
  }

  // ------------------------------------------------------------ point size

  /** `gl_PointSize`: the perspective size clamped to [1, 50], then grown by
      up to half with the glow. */
  function PointSize(size: real, distanceScale: real, glow: real): (r: real)
    ensures 0.0 <= glow <= 1.0 ==> 1.0 <= r <= 75.0
    ensures 0.0 <= glow ==> r >= Clamp(size * distanceScale, 1.0, 50.0)
  {
    var base := Clamp(size * distanceScale, 1.0, 50.0);
    var grow := 1.0 + glow * 0.5;
    assert 0.0 <= glow ==> base * grow >= base by {
      if 0.0 <= glow { assert base * (glow * 0.5) >= 0.0; }
    }
    assert 0.0 <= glow <= 1.0 ==> base * grow <= 75.0 by {
      if 0.0 <= glow <= 1.0 {
        assert base * grow <= 50.0 * grow;
      }
    }
    base * grow
  }

  // ----------------------------------------------------------------- main

  /** The per-vertex attributes. */
  datatype Attributes = Attributes(original: Vec3, target: Vec3, color: Vec3, targetColor: Vec3)

  /** The interpolated base position and colour: `mix` by the transition
      progress. */
  function BasePosition(a: Attributes, progress: real): Vec3 {
    Mix3(a.original, a.target, progress)
  }

  function BaseColor(a: Attributes, progress: real): Vec3 {
    Mix3(a.color, a.targetColor, progress)
  }

  /** At progress 0 the particle sits at its original position with its
      original colour, at progress 1 at the target with the target colour;
      without target buffers (targets copied from the current ones) the
      progress has no effect; in between, each coordinate lies between the
      original and the target. */
  lemma TransitionMix(a: Attributes, progress: real)
    ensures BasePosition(a, 0.0) == a.original && BaseColor(a, 0.0) == a.color
    ensures BasePosition(a, 1.0) == a.target && BaseColor(a, 1.0) == a.targetColor
    ensures a.target == a.original ==> BasePosition(a, progress) == a.original
    ensures 0.0 <= progress <= 1.0 ==>
      Between(a.original.x, BasePosition(a, progress).x, a.target.x)
      && Between(a.original.y, BasePosition(a, progress).y, a.target.y)
      && Between(a.original.z, BasePosition(a, progress).z, a.target.z)
  {
    var p := BasePosition(a, progress);
    assert Mix(a.original.x, a.original.x, progress) == a.original.x;
    assert Mix(a.original.y, a.original.y, progress) == a.original.y;
    assert Mix(a.original.z, a.original.z, progress) == a.original.z;
    if 0.0 <= progress <= 1.0 {
      MixBetween(a.original.x, a.target.x, progress);
      MixBetween(a.original.y, a.target.y, progress);
      MixBetween(a.original.z, a.target.z, progress);
    }
  }

  /** What the GPU supplies for one vertex: the turbulence offset, the
      other-effect position, the rotation cosine/sine, the two hand samples
      (measured from the post-effect position), the glow inputs and the
      perspective factor `300 / -mvPosition.z`. */
  datatype VertexInputs = VertexInputs(
    turbulence: Vec3, field: Vec3, cosA: real, sinA: real,
    left: HandSample, right: HandSample, glow: GlowInputs, distanceScale: real)

  datatype VertexUniforms = VertexUniforms(
    progress: real, size: real, effect: EffectUniforms, hands: HandUniforms, lighting: LightingUniforms)

  datatype VertexOut = VertexOut(position: Vec3, pointSize: real, color: Vec3, glow: real)

  /** `main` of the vertex stage. */
  function Vertex(u: VertexUniforms, a: Attributes, i: VertexInputs): (o: VertexOut)
    ensures 1.0 <= o.pointSize <= 75.0 && 0.0 <= o.glow <= 1.0
    ensures o.color == BaseColor(a, u.progress)
    ensures u.effect.effect == 9 && !Reaches(i.left, u.hands) && !Reaches(i.right, u.hands) ==>
      var base := BasePosition(a, u.progress);
      var e := u.effect;
      o.position == Mix3(base, Rotated(base, i.cosA, i.sinA, e.axisX, e.axisY, e.axisZ), e.intensity)
  {
    var base := BasePosition(a, u.progress);
    var pos := Add(base, i.turbulence);
    var moved := ApplyEffect(u.effect, pos, base, i.cosA, i.sinA, i.field);
    var handed := ApplyHandInteraction(moved, i.left, i.right, u.hands);
    var glow := LightingGlow(u.lighting, i.glow.(x := handed.x));
    VertexOut(handed, PointSize(u.size, i.distanceScale, glow), BaseColor(a, u.progress), glow)
  }
}
