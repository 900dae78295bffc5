/** The particle panel's count slider handler. */
module ParticlePanel {
  import opened Common
  import AppStore

  const MinCount: int := 1000
  const MaxCount: int := 200000

  /** `Math.min(Math.max(value, 1000), 200000)`. */
  function ClampCount(v: int): (r: int)
    ensures MinCount <= r <= MaxCount
    ensures MinCount <= v <= MaxCount ==> r == v
    ensures v < MinCount ==> r == MinCount
    ensures v > MaxCount ==> r == MaxCount
  {
    var lifted := if v >= MinCount then v else MinCount;
    if lifted <= MaxCount then lifted else MaxCount
  }

  /** Clamping twice is clamping once, and the clamp never moves a value
      away from the range: it is the nearest count in range. */
  lemma ClampCountProperties(v: int, w: int)
    requires MinCount <= w <= MaxCount
    ensures ClampCount(ClampCount(v)) == ClampCount(v)
    ensures Dist(ClampCount(v), v) <= Dist(w, v)
  {
  }

  function Dist(a: int, b: int): nat {
    if a >= b then a - b else b - a
  }

  /** `handleCountChange(value)`: only the particle count changes, to the
      clamped value. */
  function HandleCountChange(st: AppStore.State, v: int): (r: AppStore.State)
    ensures r.particleSettings == st.particleSettings.(count := ClampCount(v))
    ensures AppStore.OnlyChanged(st, r, {AppStore.FParticle})
  {
    AppStore.UpdateParticleSettings(st, AppStore.ParticlePatch(Some(ClampCount(v)), None, None, None, None, None, None, None))
  }

  /** The stored count is always in range after the slider has been used. */
  lemma CountInRangeAfterChange(st: AppStore.State, v: int, w: int)
    ensures var r := HandleCountChange(HandleCountChange(st, v), w);
            MinCount <= r.particleSettings.count <= MaxCount && r.particleSettings.count == ClampCount(w)
  {
  }
}
