/** The effect-switch state machine of the particle system. A change of the
    selected effect does not jump between two displacement fields: the old
    effect fades out, the plain (effect-less) shape is held briefly, and the
    new effect fades in. One animation frame is one call of `Frame`. */
module EffectSwitch {
  import opened Common
  import opened Kinds

  datatype Stage = Idle | FadeOut | ShowNone | FadeIn

  /** The refs that drive a switch: the stage, the stage progress, the last
      effect fully displayed (`previous`) and the effect being switched to. */
  datatype Switch = Switch(stage: Stage, progress: real, previous: Effect, target: Effect)

  const InitialSwitch: Switch := Switch(Idle, 0.0, NoEffect, NoEffect)

  /** The stage progress stays a fraction. */
  predicate Valid(s: Switch) {
    0.0 <= s.progress <= 1.0
  }

  /** What one frame sends to the shader's `uEffect` and `uEffectIntensity`. */
  datatype Shown = Shown(effect: Effect, intensity: real)

  /** The effect hook run when the store's effect or intensity changes: a
      switch starts only from idle and only towards an effect other than
      the one last displayed. */
  function OnEffectChange(s: Switch, current: Effect): (r: Switch)
    ensures s.stage == Idle && current != s.previous ==>
      r.stage == FadeOut && r.progress == 0.0 && r.target == current && r.previous == s.previous
    ensures !(s.stage == Idle && current != s.previous) ==> r == s
    ensures Valid(s) ==> Valid(r)
  {
    if current != s.previous && s.stage == Idle then
      s.(target := current, stage := FadeOut, progress := 0.0)
    else s
  }

  /** Stage progress after a frame of `delta` seconds at the configured
      transition speed. */
  function Advance(p: real, delta: real, speed: real): (r: real)
    ensures r <= 1.0
    ensures 0.0 <= p <= 1.0 && delta >= 0.0 && speed >= 0.0 ==> p <= r
  {
    assert delta >= 0.0 && speed >= 0.0 ==> delta * speed * 2.0 >= 0.0;
    Min(p + delta * speed * 2.0, 1.0)
  }

  /** The stage moves are exactly fadeOut→showNone→fadeIn→idle (or it
      stays put); no stage is skipped and none is revisited in a frame. */
  predicate StageMove(from: Stage, to: Stage) {
    from == to
    || (from == FadeOut && to == ShowNone)
    || (from == ShowNone && to == FadeIn)
    || (from == FadeIn && to == Idle)
  }

  /** One animation frame: the new switch refs and the effect shown. */
  function Frame(s: Switch, current: Effect, intensity: real, delta: real, speed: real): (r: (Switch, Shown))
    ensures StageMove(s.stage, r.0.stage)
    ensures r.0.target == s.target
    ensures s.stage == Idle ==> r.0 == s && r.1 == Shown(current, intensity)
    ensures s.stage == FadeOut ==>
      (r.0.stage == ShowNone <==> Advance(s.progress, delta, speed) >= 1.0)
    ensures s.stage == FadeOut && r.0.stage == ShowNone ==>
      r.0.progress == 0.0 && r.0.previous == NoEffect && r.1 == Shown(NoEffect, 0.0)
    ensures s.stage == FadeOut && r.0.stage == FadeOut ==>
      r.1.effect == s.previous && r.1.intensity == intensity * (1.0 - r.0.progress)
    ensures s.stage == ShowNone ==> r.1 == Shown(NoEffect, 0.0)
    ensures s.stage == ShowNone ==>
      (r.0.stage == FadeIn <==> Advance(s.progress, delta, speed) >= 0.3)
    ensures s.stage == ShowNone && r.0.stage == FadeIn ==> r.0.progress == 0.0
    ensures s.stage == FadeIn ==>
      r.1.effect == s.target && r.1.intensity == intensity * r.0.progress
    ensures s.stage == FadeIn ==>
      (r.0.stage == Idle <==> Advance(s.progress, delta, speed) >= 1.0)
    ensures s.stage == FadeIn && r.0.stage == Idle ==> r.0.previous == s.target
    ensures s.stage != Idle && r.0.stage == s.stage ==>
      r.0.progress == Advance(s.progress, delta, speed) && r.0.previous == s.previous
    ensures Valid(s) && delta >= 0.0 && speed >= 0.0 ==> Valid(r.0)
  {
    if s.stage == Idle then (s, Shown(current, intensity))
    else
      var p := Advance(s.progress, delta, speed);
      match s.stage
      case FadeOut =>
        if p >= 1.0 then (s.(stage := ShowNone, progress := 0.0, previous := NoEffect), Shown(NoEffect, 0.0))
        else (s.(progress := p), Shown(s.previous, intensity * (1.0 - p)))
      case ShowNone =>
        if p >= 0.3 then (s.(stage := FadeIn, progress := 0.0), Shown(NoEffect, 0.0))
        else (s.(progress := p), Shown(NoEffect, 0.0))
      case FadeIn =>
        if p >= 1.0 then (s.(stage := Idle, progress := p, previous := s.target), Shown(s.target, intensity * p))
        else (s.(progress := p), Shown(s.target, intensity * p))
  }

  /** The displayed intensity never leaves [0, effectIntensity]. */
  lemma ShownIntensityBounded(s: Switch, current: Effect, intensity: real, delta: real, speed: real)
    requires Valid(s) && delta >= 0.0 && speed >= 0.0 && intensity >= 0.0
    ensures 0.0 <= Frame(s, current, intensity, delta, speed).1.intensity <= intensity
  {
    var r := Frame(s, current, intensity, delta, speed);
    if s.stage == FadeOut && r.0.stage == FadeOut {
      ScaleByUnit(intensity, 1.0 - r.0.progress);
    } else if s.stage == FadeIn {
      assert r.1.intensity == intensity * r.0.progress;
      ScaleByUnit(intensity, r.0.progress);
    }
  }

  // ------------------------------------------------------------- event runs

  /** What happens between frames: the store's effect or intensity is set,
      or a frame of `delta` seconds is drawn. */
  datatype Event = SetEffect(effect: Effect) | SetIntensity(intensity: real) | Tick(delta: real)

  /** The switch together with the store values it reads. */
  datatype Run = Run(sw: Switch, current: Effect, intensity: real)

  /** One event. The effect hook re-runs only when one of its two inputs
      really changes; a frame does not touch the store values. */
  function Step(r: Run, ev: Event, speed: real): (r': Run)
    ensures r'.sw.stage != Idle && r.sw.stage != Idle ==> r'.sw.target == r.sw.target
  {
    match ev
    case SetEffect(e) =>
      if e != r.current then Run(OnEffectChange(r.sw, e), e, r.intensity) else r
    case SetIntensity(i) =>
      if i != r.intensity then Run(OnEffectChange(r.sw, r.current), r.current, i) else r
    case Tick(d) =>
      r.(sw := Frame(r.sw, r.current, r.intensity, d, speed).0)
  }

  /** The runs visited by a sequence of events, starting with `r` itself. */
  function Trace(r: Run, evs: seq<Event>, speed: real): (t: seq<Run>)
    ensures |t| == |evs| + 1 && t[0] == r
    decreases |evs|
  {
    if |evs| == 0 then [r] else [r] + Trace(Step(r, evs[0], speed), evs[1..], speed)
  }

  /** While a switch is under way, its target stays the effect that was
      selected when the switch began: an effect chosen in the middle of a
      switch is never the one faded in. */
  lemma {:induction false} TargetFixedDuringSwitch(r: Run, evs: seq<Event>, speed: real)
    requires forall k :: 0 <= k < |Trace(r, evs, speed)| ==> Trace(r, evs, speed)[k].sw.stage != Idle
    ensures forall k :: 0 <= k < |Trace(r, evs, speed)| ==> Trace(r, evs, speed)[k].sw.target == r.sw.target
    decreases |evs|
  {
    var t := Trace(r, evs, speed);
    if |evs| > 0 {
      var r1 := Step(r, evs[0], speed);
      var t1 := Trace(r1, evs[1..], speed);
      assert t == [r] + t1;
      forall k | 0 <= k < |t1| ensures t1[k].sw.stage != Idle {
        assert t1[k] == t[k + 1];
      }
      TargetFixedDuringSwitch(r1, evs[1..], speed);
      assert t[1] == r1 && r1.sw.stage != Idle;
      forall k | 0 <= k < |t| ensures t[k].sw.target == r.sw.target {
        if k > 0 {
          assert t[k] == t1[k - 1];
        }
      }
    }
  }

  /** With frames long enough to finish each stage at once, switching from
      a displayed effect A to B shows no effect on the first two frames and
      B at full intensity on the third, which ends idle with B as the
      displayed effect. The fade-out of A completes within the first frame,
      so A is never drawn after the switch. */
  lemma SwitchSequence(a: Effect, b: Effect, intensity: real, delta: real, speed: real)
    requires a != b && delta * speed * 2.0 >= 1.0
    ensures
      var s0 := OnEffectChange(Switch(Idle, 1.0, a, a), b);
      var f1 := Frame(s0, b, intensity, delta, speed);
      var f2 := Frame(f1.0, b, intensity, delta, speed);
      var f3 := Frame(f2.0, b, intensity, delta, speed);
      && s0.stage == FadeOut
      && f1.0.stage == ShowNone && f1.1 == Shown(NoEffect, 0.0)
      && f2.0.stage == FadeIn && f2.1 == Shown(NoEffect, 0.0)
      && f3.0 == Switch(Idle, 1.0, b, b) && f3.1 == Shown(b, intensity)
  {
  }
}
