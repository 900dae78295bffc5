/** One animation frame of the particle system: the smoothed refs advance,
    the effect switch steps, and the shader uniforms are written, the last
    writer being `updateUniforms`. */
module ParticleFrame {
  import opened Common
  import opened Kinds
  import AppStore
  import EffectSwitch
  import opened Smoothing

  /** The shader uniforms the frame writes. */
  datatype Uniforms = Uniforms(
    time: real, size: real, opacity: real, speed: real, turbulence: real,
    effect: nat, effectIntensity: real, colorMode: real,
    primaryColor: Vec3, secondaryColor: Vec3, leftHand: Vec3, rightHand: Vec3,
    handRadius: real, attractionForce: real, repulsionForce: real, gesture: nat,
    rotateAxisX: bool, rotateAxisY: bool, rotateAxisZ: bool,
    lightingMode: nat, lightingSpeed: real, lightingIntensity: real, lightingRadius: real,
    transitionProgress: real, floatOffset: real)

  /** The refs that persist between frames. */
  datatype Refs = Refs(
    sw: EffectSwitch.Switch, bufferProgress: real, floatOffset: real,
    primary: Vec3, secondary: Vec3, colorMode: real,
    lightingSpeed: real, lightingIntensity: real, lightingRadius: real,
    leftHand: Vec3, rightHand: Vec3,
    handRadius: real, attraction: real, repulsion: real,
    size: real, opacity: real, speed: real, turbulence: real)

  datatype System = System(refs: Refs, uniforms: Uniforms)

  /** The refs at mount. Colour strings are turned into RGB by `toRgb`,
      which stands for `THREE.Color`'s parser. */
  function InitialRefs(toRgb: string -> Vec3): Refs {
    Refs(EffectSwitch.InitialSwitch, 0.0, 0.0,
         toRgb("#0ea5e9"), toRgb("#d946ef"), 0.0,
         1.0, 0.5, 100.0,
         Zero, Zero,
         100.0, 0.5, 0.5,
         2.0, 0.8, 1.0, 0.5)
  }

  /** The uniforms at mount, read from the store of the first render. */
  function InitialUniforms(st: AppStore.State, toRgb: string -> Vec3): Uniforms {
    var ps := st.particleSettings;
    var vs := st.visualSettings;
    var hs := st.handSettings;
    var ls := vs.lightingSettings;
    Uniforms(0.0, ps.size, ps.opacity, ps.speed, ps.turbulence,
             EffectIndex(st.currentEffect), st.effectIntensity, ColorModeIndex(vs.colorMode) as real,
             toRgb(vs.primaryColor), toRgb(vs.secondaryColor), Zero, Zero,
             hs.interactionRadius, hs.attractionForce, hs.repulsionForce, 0,
             st.rotationSettings.axisX, st.rotationSettings.axisY, st.rotationSettings.axisZ,
             LightingModeIndex(ls.mode), ls.speed, ls.intensity, ls.radius,
             0.0, 0.0)
  }

  function InitialSystem(st: AppStore.State, toRgb: string -> Vec3): System {
    System(InitialRefs(toRgb), InitialUniforms(st, toRgb))
  }

  /** The position a hand uniform should hold: the hand itself when it is
      tracked and hand interaction is on, the origin (meaning "no hand")
      otherwise. */
  function HandTarget(hand: Option<Vec3>, enabled: bool): (r: Vec3)
    ensures hand.Some? && enabled ==> r == hand.value
    ensures !(hand.Some? && enabled) ==> r == Zero
  {
    if hand.Some? && enabled then hand.value else Zero
  }

  /** `updateUniforms`: copies the smoothed refs into the uniforms and writes
      the raw hand positions, the gesture, the rotation axes and the
      (unsmoothed) lighting mode from the store. The time, the effect pair,
      the transition progress and the float offset are not its business. */
  function UpdateUniforms(u: Uniforms, refs: Refs, st: AppStore.State): (r: Uniforms)
    ensures r.leftHand == HandTarget(st.leftHand, st.handSettings.enabled)
    ensures r.rightHand == HandTarget(st.rightHand, st.handSettings.enabled)
    ensures r.gesture == GestureIndex(st.currentGesture)
    ensures r.lightingMode == LightingModeIndex(st.visualSettings.lightingSettings.mode)
    ensures r.time == u.time && r.effect == u.effect && r.effectIntensity == u.effectIntensity
    ensures r.transitionProgress == u.transitionProgress && r.floatOffset == u.floatOffset
  {
    var ls := st.visualSettings.lightingSettings;
    u.(size := refs.size, opacity := refs.opacity, speed := refs.speed, turbulence := refs.turbulence,
       colorMode := refs.colorMode, primaryColor := refs.primary, secondaryColor := refs.secondary,
       handRadius := refs.handRadius, attractionForce := refs.attraction, repulsionForce := refs.repulsion,
       gesture := GestureIndex(st.currentGesture),
       rotateAxisX := st.rotationSettings.axisX, rotateAxisY := st.rotationSettings.axisY,
       rotateAxisZ := st.rotationSettings.axisZ,
       lightingMode := LightingModeIndex(ls.mode), lightingSpeed := refs.lightingSpeed,
       lightingIntensity := refs.lightingIntensity, lightingRadius := refs.lightingRadius,
       leftHand := HandTarget(st.leftHand, st.handSettings.enabled),
       rightHand := HandTarget(st.rightHand, st.handSettings.enabled))
  }

  /** The refs after the smoothing part of a frame. */
  function SmoothRefs(refs: Refs, st: AppStore.State, sw: EffectSwitch.Switch, hasTarget: bool,
                      delta: real, sinHalfTime: real, toRgb: string -> Vec3): Refs
  {
    var ps := st.particleSettings;
    var vs := st.visualSettings;
    var hs := st.handSettings;
    var ls := vs.lightingSettings;
    var handF := Factor(delta, hs.gestureTransitionSpeed, 5.0);
    var modeF := Factor(delta, vs.colorTransitionSpeed, 2.0);
    var colorF := Factor(delta, vs.colorTransitionSpeed, 3.0);
    var lightF := Factor(delta, ps.transitionSpeed, 3.0);
    var handSetF := Factor(delta, hs.gestureTransitionSpeed, 3.0);
    var partF := Factor(delta, ps.transitionSpeed, 3.0);
    Refs(sw,
         BufferProgress(refs.bufferProgress, delta, ps.transitionSpeed, hasTarget),
         if st.currentEffect == Float then sinHalfTime * 0.5 + 0.5 else refs.floatOffset,
         Smooth3(refs.primary, toRgb(vs.primaryColor), colorF),
         Smooth3(refs.secondary, toRgb(vs.secondaryColor), colorF),
         Smooth(refs.colorMode, ColorModeIndex(vs.colorMode) as real, modeF),
         Smooth(refs.lightingSpeed, ls.speed, lightF),
         Smooth(refs.lightingIntensity, ls.intensity, lightF),
         Smooth(refs.lightingRadius, ls.radius, lightF),
         Smooth3(refs.leftHand, HandTarget(st.leftHand, hs.enabled), handF),
         Smooth3(refs.rightHand, HandTarget(st.rightHand, hs.enabled), handF),
         Smooth(refs.handRadius, hs.interactionRadius, handSetF),
         Smooth(refs.attraction, hs.attractionForce, handSetF),
         Smooth(refs.repulsion, hs.repulsionForce, handSetF),
         Smooth(refs.size, ps.size, partF),
         Smooth(refs.opacity, ps.opacity, partF),
         Smooth(refs.speed, ps.speed, partF),
         Smooth(refs.turbulence, ps.turbulence, partF))
  }

  /** One `useFrame` callback followed by `updateUniforms`. `time` is the
      clock's elapsed time, `delta` the frame length, `sinHalfTime` the value
      of `Math.sin(time * 0.5)` and `hasTarget` whether target buffers were
      passed in. */
  function Step(sys: System, st: AppStore.State, hasTarget: bool, time: real, delta: real,
                sinHalfTime: real, toRgb: string -> Vec3): (r: System)
    ensures r.uniforms.leftHand == HandTarget(st.leftHand, st.handSettings.enabled)
    ensures r.uniforms.rightHand == HandTarget(st.rightHand, st.handSettings.enabled)
    ensures
      var f := EffectSwitch.Frame(sys.refs.sw, st.currentEffect, st.effectIntensity,
                                  delta, st.particleSettings.transitionSpeed);
      r.refs.sw == f.0 && r.uniforms.effect == EffectIndex(f.1.effect)
      && r.uniforms.effectIntensity == f.1.intensity
    ensures hasTarget ==> r.uniforms.transitionProgress == r.refs.bufferProgress
    ensures !hasTarget ==> r.uniforms.transitionProgress == sys.uniforms.transitionProgress
                           && r.refs.bufferProgress == sys.refs.bufferProgress
    ensures st.currentEffect == Float ==> r.uniforms.floatOffset == sinHalfTime * 0.5 + 0.5
    ensures st.currentEffect != Float ==> r.uniforms.floatOffset == sys.uniforms.floatOffset
    ensures r.uniforms.time == time
    ensures r.uniforms.size == r.refs.size && r.uniforms.opacity == r.refs.opacity
    ensures r.uniforms.colorMode == r.refs.colorMode && r.uniforms.primaryColor == r.refs.primary
    ensures r.uniforms.handRadius == r.refs.handRadius
    ensures r.uniforms.lightingMode == LightingModeIndex(st.visualSettings.lightingSettings.mode)
  {
    var f := EffectSwitch.Frame(sys.refs.sw, st.currentEffect, st.effectIntensity,
                                delta, st.particleSettings.transitionSpeed);
    var refs := SmoothRefs(sys.refs, st, f.0, hasTarget, delta, sinHalfTime, toRgb);
    var u := sys.uniforms.(
      time := time,
      leftHand := refs.leftHand, rightHand := refs.rightHand,
      effect := EffectIndex(f.1.effect), effectIntensity := f.1.intensity,
      colorMode := refs.colorMode,
      transitionProgress := if hasTarget then refs.bufferProgress else sys.uniforms.transitionProgress,
      floatOffset := if st.currentEffect == Float then refs.floatOffset else sys.uniforms.floatOffset);
    System(refs, UpdateUniforms(u, refs, st))
  }

  /** The smoothed hand positions never reach the shader: the hand uniforms
      after a frame do not depend on the refs at all. */
  lemma SmoothedHandsNeverShown(a: System, b: System, st: AppStore.State, hasTarget: bool,
                                time: real, delta: real, sinHalfTime: real, toRgb: string -> Vec3)
    ensures Step(a, st, hasTarget, time, delta, sinHalfTime, toRgb).uniforms.leftHand
         == Step(b, st, hasTarget, time, delta, sinHalfTime, toRgb).uniforms.leftHand
    ensures Step(a, st, hasTarget, time, delta, sinHalfTime, toRgb).uniforms.rightHand
         == Step(b, st, hasTarget, time, delta, sinHalfTime, toRgb).uniforms.rightHand
  {
  }

  /** The invariant of the frame refs: both progress counters are fractions. */
  predicate Valid(sys: System) {
    EffectSwitch.Valid(sys.refs.sw) && 0.0 <= sys.refs.bufferProgress <= 1.0
  }

  /** Frames keep the refs valid for non-negative frame lengths and speeds,
      and the smoothed particle size always lies between its old value and
      the setting. */
  lemma StepPreservesValid(sys: System, st: AppStore.State, hasTarget: bool, time: real, delta: real,
                           sinHalfTime: real, toRgb: string -> Vec3)
    requires Valid(sys) && delta >= 0.0 && st.particleSettings.transitionSpeed >= 0.0
    ensures Valid(Step(sys, st, hasTarget, time, delta, sinHalfTime, toRgb))
    ensures Between(sys.refs.size, Step(sys, st, hasTarget, time, delta, sinHalfTime, toRgb).refs.size,
                    st.particleSettings.size)
  {
    var ps := st.particleSettings;
    BufferProgressMonotone(sys.refs.bufferProgress, delta, ps.transitionSpeed, hasTarget);
    SmoothStep(sys.refs.size, ps.size, Factor(delta, ps.transitionSpeed, 3.0));
  }

  /** When no switch is under way, the shader shows exactly the store's
      effect at the store's intensity. */
  lemma IdleShowsStoreEffect(sys: System, st: AppStore.State, hasTarget: bool, time: real, delta: real,
                             sinHalfTime: real, toRgb: string -> Vec3)
    requires sys.refs.sw.stage == EffectSwitch.Idle
    ensures Step(sys, st, hasTarget, time, delta, sinHalfTime, toRgb).uniforms.effect == EffectIndex(st.currentEffect)
    ensures Step(sys, st, hasTarget, time, delta, sinHalfTime, toRgb).uniforms.effectIntensity == st.effectIntensity
  {
  }

  /** The effect run when new target buffers arrive: the buffer
      transition starts over. */
  function OnTargetsChange(sys: System): (r: System)
    ensures r.refs.bufferProgress == 0.0
    ensures Valid(sys) ==> Valid(r)
    ensures r.uniforms == sys.uniforms && r.refs.sw == sys.refs.sw
  {
    sys.(refs := sys.refs.(bufferProgress := 0.0))
  }

  /** After new targets arrive, the first frame shows the transition
      progress of a single frame from the start, not of the old transition. */
  lemma TargetChangeRestartsTransition(sys: System, st: AppStore.State, time: real, delta: real,
                                       sinHalfTime: real, toRgb: string -> Vec3)
    requires delta >= 0.0 && st.particleSettings.transitionSpeed >= 0.0
    ensures Step(OnTargetsChange(sys), st, true, time, delta, sinHalfTime, toRgb).uniforms.transitionProgress
         == Min(delta * st.particleSettings.transitionSpeed, 1.0)
  {
    var s0 := OnTargetsChange(sys);
    var r := Step(s0, st, true, time, delta, sinHalfTime, toRgb);
    var f := EffectSwitch.Frame(s0.refs.sw, st.currentEffect, st.effectIntensity,
                                delta, st.particleSettings.transitionSpeed);
    assert r.refs == SmoothRefs(s0.refs, st, f.0, true, delta, sinHalfTime, toRgb);
    assert r.refs.bufferProgress == BufferProgress(0.0, delta, st.particleSettings.transitionSpeed, true);
  }

  /** The geometry attributes built for a pair of buffers: without target
      buffers, the targets are copies of the current ones. */
  datatype Geometry = Geometry(position: seq<Vec3>, original: seq<Vec3>, color: seq<Vec3>,
                               target: seq<Vec3>, targetColor: seq<Vec3>)

  function BuildGeometry(positions: seq<Vec3>, colors: seq<Vec3>,
                         targets: Option<seq<Vec3>>, targetColors: Option<seq<Vec3>>): (g: Geometry)
    ensures g.original == g.position == positions && g.color == colors
    ensures targets.None? ==> g.target == positions
    ensures targetColors.None? ==> g.targetColor == colors
    ensures targets.Some? ==> g.target == targets.value
    ensures targetColors.Some? ==> g.targetColor == targetColors.value
  {
    Geometry(positions, positions, colors, targets.GetOr(positions), targetColors.GetOr(colors))
  }

  /** The particle-count effect: the store learns the number of particles
      in the current buffer. */
  function OnPositionsChange(st: AppStore.State, positions: seq<Vec3>): (r: AppStore.State)
    ensures r.particleCount == |positions| && AppStore.OnlyChanged(st, r, {AppStore.FParticleCount})
  {
    AppStore.SetParticleCount(st, |positions|)
  }
}
