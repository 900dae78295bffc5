/** Shared vocabulary: optional values, 3-vectors over the reals and the
    GLSL-style scalar helpers (min, max, clamp, mix) that both the CPU-side
    smoothing and the shader stages are written in. */
module Common {

  /** A value that may be absent (`null` / `undefined` in the application). */
  datatype Option<+T> = None | Some(value: T) {
    function GetOr(default: T): T {
      match this
      case Some(v) => v
      case None => default
    }
  }

  /** A point or direction in 3-space, or an RGB colour. */
  datatype Vec3 = Vec3(x: real, y: real, z: real)

  const Zero: Vec3 := Vec3(0.0, 0.0, 0.0)

  function Min(a: real, b: real): real { if a <= b then a else b }

  function Max(a: real, b: real): real { if a >= b then a else b }

  /** GLSL `clamp(v, lo, hi)`, defined as `min(max(v, lo), hi)`. */
  function Clamp(v: real, lo: real, hi: real): (r: real)
    requires lo <= hi
    ensures lo <= r <= hi
    ensures lo <= v <= hi ==> r == v
    ensures v <= lo ==> r == lo
    ensures hi <= v ==> r == hi
  {
    Min(Max(v, lo), hi)
  }

  /** GLSL `mix(a, b, t)`, that is `a * (1 - t) + b * t`. */
  function Mix(a: real, b: real, t: real): real {
    a * (1.0 - t) + b * t
  }

  /** `lo <= v <= hi` regardless of which of the two bounds is smaller. */
  predicate Between(lo: real, v: real, hi: real) {
    (lo <= v <= hi) || (hi <= v <= lo)
  }

  /** Scaling a non-negative quantity by a factor in [0, 1] shrinks it
      towards zero. */
  lemma ScaleByUnit(x: real, t: real)
    requires x >= 0.0 && 0.0 <= t <= 1.0
    ensures 0.0 <= x * t <= x
  {
    assert x * (1.0 - t) >= 0.0;
  }

  /** The product of two fractions is a fraction. */
  lemma UnitProduct(x: real, t: real)
    requires 0.0 <= x <= 1.0 && 0.0 <= t <= 1.0
    ensures 0.0 <= x * t <= 1.0
  {
    ScaleByUnit(x, t);
  }

  /** `mix` moves from `a` by the fraction `t` of the way to `b`. */
  lemma MixOffset(a: real, b: real, t: real)
    ensures Mix(a, b, t) == a + (b - a) * t
  {
    assert a * (1.0 - t) == a - a * t;
    assert (b - a) * t == b * t - a * t;
  }

  /** Mixing from `a` to `b` is mixing from `b` to `a` the other way. */
  lemma MixSwap(a: real, b: real, t: real)
    ensures Mix(a, b, t) == Mix(b, a, 1.0 - t)
  {
    assert 1.0 - (1.0 - t) == t;
  }

  lemma MixUpward(a: real, b: real, t: real)
    requires a <= b && 0.0 <= t <= 1.0
    ensures a <= Mix(a, b, t) <= b
  {
    MixOffset(a, b, t);
    ScaleByUnit(b - a, t);
  }

  lemma MixBetween(a: real, b: real, t: real)
    requires 0.0 <= t <= 1.0
    ensures Between(a, Mix(a, b, t), b)
    ensures t == 0.0 ==> Mix(a, b, t) == a
    ensures t == 1.0 ==> Mix(a, b, t) == b
  {
    if a <= b {
      MixUpward(a, b, t);
    } else {
      MixSwap(a, b, t);
      MixUpward(b, a, 1.0 - t);
    }
  }

  function Add(u: Vec3, v: Vec3): Vec3 { Vec3(u.x + v.x, u.y + v.y, u.z + v.z) }

  function Sub(u: Vec3, v: Vec3): Vec3 { Vec3(u.x - v.x, u.y - v.y, u.z - v.z) }

  function Scale(v: Vec3, k: real): Vec3 { Vec3(v.x * k, v.y * k, v.z * k) }

  function Dot(u: Vec3, v: Vec3): real { u.x * v.x + u.y * v.y + u.z * v.z }

  /** Squared Euclidean length. */
  function Norm2(v: Vec3): real { Dot(v, v) }

  /** Component-wise GLSL `mix` on vectors. */
  function Mix3(a: Vec3, b: Vec3, t: real): Vec3 {
    Vec3(Mix(a.x, b.x, t), Mix(a.y, b.y, t), Mix(a.z, b.z, t))
  }

  /** Every channel of a colour lies in [0, 1]. */
  predicate UnitColor(c: Vec3) {
    0.0 <= c.x <= 1.0 && 0.0 <= c.y <= 1.0 && 0.0 <= c.z <= 1.0
  }

  lemma Norm2NonNegative(v: Vec3)
    ensures Norm2(v) >= 0.0
  {
    assert v.x * v.x >= 0.0 && v.y * v.y >= 0.0 && v.z * v.z >= 0.0;
  }
}
