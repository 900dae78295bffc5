/** The per-frame smoothing rules of the particle system: every smoothed
    quantity moves towards its setting by `(target - v) * min(delta * rate * k, 1)`,
    and the buffer-transition progress counts up to 1 while a target buffer
    exists. */
module Smoothing {
  import opened Common

  /** The clamped lerp factor `Math.min(delta * rate * k, 1)`. */
  function Factor(delta: real, rate: real, k: real): (f: real)
    ensures f <= 1.0
    ensures delta >= 0.0 && rate >= 0.0 && k >= 0.0 ==> 0.0 <= f
    ensures f == 1.0 <==> delta * rate * k >= 1.0
  {
    assert delta >= 0.0 && rate >= 0.0 ==> delta * rate >= 0.0;
    assert delta * rate >= 0.0 && k >= 0.0 ==> delta * rate * k >= 0.0;
    Min(delta * rate * k, 1.0)
  }

  /** `v += (target - v) * f`, the same rule as `Vector3.lerp` / `Color.lerp`
      per component. */
  function Smooth(v: real, target: real, f: real): (r: real)
    ensures target - r == (target - v) * (1.0 - f)
  {
    v + (target - v) * f
  }

  /** One smoothing step stays between the old value and the target, hits
      the target exactly when the factor is 1 (or it was already there) and
      is a fixed point at the target. */
  lemma SmoothStep(v: real, target: real, f: real)
    requires 0.0 <= f <= 1.0
    ensures Between(v, Smooth(v, target, f), target)
    ensures v == target ==> Smooth(v, target, f) == v
    ensures v != target ==> (Smooth(v, target, f) == target <==> f == 1.0)
  {
    var r := Smooth(v, target, f);
    var d := (target - v) * f;
    assert r == v + d;
    if v <= target {
      var x := target - v;
      ScaleByUnit(x, f);
      assert d == x * f;
    } else {
      var x := v - target;
      ScaleByUnit(x, f);
      assert -d == x * f;
    }
    if v != target && f < 1.0 {
      var a := target - v;
      var b := 1.0 - f;
      if a > 0.0 {
        assert a * b > 0.0;
      } else {
        assert (-a) * b > 0.0;
      }
      assert target - r == a * b;
    }
  }

  /** Component-wise smoothing of a vector or colour. */
  function Smooth3(v: Vec3, target: Vec3, f: real): (r: Vec3)
    ensures r == Vec3(Smooth(v.x, target.x, f), Smooth(v.y, target.y, f), Smooth(v.z, target.z, f))
  {
    Mix3(v, target, f)
  }

  /** Repeated smoothing towards a fixed target with the same factor: after
      `n` frames the remaining distance is the initial one times `(1 - f)^n`. */
  function SmoothN(v: real, target: real, f: real, n: nat): real
    decreases n
  {
    if n == 0 then v else SmoothN(Smooth(v, target, f), target, f, n - 1)
  }

  function Pow(b: real, n: nat): real
    decreases n
  {
    if n == 0 then 1.0 else b * Pow(b, n - 1)
  }

  lemma {:induction false} SmoothNDistance(v: real, target: real, f: real, n: nat)
    ensures target - SmoothN(v, target, f, n) == (target - v) * Pow(1.0 - f, n)
    decreases n
  {
    if n > 0 {
      var v1 := Smooth(v, target, f);
      SmoothNDistance(v1, target, f, n - 1);
      var c := Pow(1.0 - f, n - 1);
      assert SmoothN(v, target, f, n) == SmoothN(v1, target, f, n - 1);
      assert Pow(1.0 - f, n) == (1.0 - f) * c;
      DistanceStep(target - v, target - v1, 1.0 - f, c, target - SmoothN(v, target, f, n));
    }
  }

  /** A distance scaled by `g` and then by `c` is scaled by `g·c`. */
  lemma DistanceStep(d: real, d1: real, g: real, c: real, r: real)
    requires d1 == d * g && r == d1 * c
    ensures r == d * (g * c)
  {
  }

  /** The buffer-transition progress after one frame: it grows by
      `delta * transitionSpeed`, capped at 1, and only while target buffers
      exist. */
  function BufferProgress(p: real, delta: real, speed: real, hasTarget: bool): (r: real)
    ensures !hasTarget ==> r == p
    ensures hasTarget ==> r <= 1.0
    ensures hasTarget && p + delta * speed <= 1.0 ==> r == p + delta * speed
    ensures hasTarget && p + delta * speed >= 1.0 ==> r == 1.0
  {
    if hasTarget then Min(p + delta * speed, 1.0) else p
  }

  /** The progress stays in [0, 1] and never decreases. */
  lemma BufferProgressMonotone(p: real, delta: real, speed: real, hasTarget: bool)
    requires 0.0 <= p <= 1.0 && delta >= 0.0 && speed >= 0.0
    ensures p <= BufferProgress(p, delta, speed, hasTarget) <= 1.0
  {
    assert delta * speed >= 0.0;
  }
}
