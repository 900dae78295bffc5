/** The application store: settings groups with their defaults, the initial
    state, the merge-by-field update actions, the plain setters, `reset` and
    the projection that is persisted to client storage. Every action is a
    function from state to state. */
module AppStore {
  import opened Common
  import opened Kinds
  import Locales

  datatype ParticleSettings = ParticleSettings(
    count: int, size: real, opacity: real, speed: real, turbulence: real,
    connectionDistance: real, showConnections: bool, transitionSpeed: real)

  datatype RotationSettings = RotationSettings(speed: real, axisX: bool, axisY: bool, axisZ: bool)

  datatype FloatSettings = FloatSettings(speed: real, range: real, randomness: real)

  datatype LightingSettings = LightingSettings(mode: LightingMode, speed: real, intensity: real, radius: real)

  datatype VisualSettings = VisualSettings(
    colorMode: ColorMode, primaryColor: string, secondaryColor: string,
    bloomIntensity: real, backgroundOpacity: real, showStats: bool,
    lightingSettings: LightingSettings, colorTransitionSpeed: real)

  datatype HandSettings = HandSettings(
    enabled: bool, sensitivity: real, interactionRadius: real, attractionForce: real,
    repulsionForce: real, gestureEnabled: bool, gestureTransitionSpeed: real)

  datatype RecordingSettings = RecordingSettings(format: RecordFormat, quality: real, fps: int, includeAudio: bool)

  datatype UISettings = UISettings(darkMode: bool, language: Locales.Language)

  /** `sourceData: string | string[] | null`. */
  datatype SourceData = NoData | Str(s: string) | Strs(items: seq<string>)

  datatype HandSide = LeftSide | RightSide

  datatype State = State(
    sourceType: SourceType, sourceData: SourceData, isLoading: bool, error: Option<string>,
    currentEffect: Effect, effectIntensity: real,
    rotationSettings: RotationSettings, floatSettings: FloatSettings,
    isTransitioning: bool, targetEffect: Option<Effect>,
    particleSettings: ParticleSettings, visualSettings: VisualSettings, handSettings: HandSettings,
    leftHand: Option<Vec3>, rightHand: Option<Vec3>, currentGesture: Gesture,
    uiSettings: UISettings, isPanelVisible: bool, activeTab: string,
    recordingSettings: RecordingSettings, isRecording: bool,
    fps: real, particleCount: int)

  // ---------------------------------------------------------------- defaults

  const DefaultRotation: RotationSettings := RotationSettings(0.5, false, true, false)

  const DefaultFloat: FloatSettings := FloatSettings(0.5, 50.0, 0.5)

  const DefaultLighting: LightingSettings := LightingSettings(NoLighting, 0.5, 0.7, 100.0)

  const DefaultParticle: ParticleSettings := ParticleSettings(50000, 2.0, 0.8, 1.0, 0.5, 0.0, false, 0.5)

  const DefaultVisual: VisualSettings :=
    VisualSettings(Original, "#0ea5e9", "#d946ef", 0.5, 1.0, false, DefaultLighting, 0.5)

  const DefaultHand: HandSettings := HandSettings(false, 1.0, 100.0, 0.5, 0.5, true, 0.5)

  const DefaultUI: UISettings := UISettings(true, Locales.En)

  const DefaultRecording: RecordingSettings := RecordingSettings(Webm, 0.9, 30, false)

  /** The state the store is created with. */
  const Initial: State := State(
    DefaultSource, NoData, false, None, NoEffect, 0.5,
    DefaultRotation, DefaultFloat, false, None,
    DefaultParticle, DefaultVisual, DefaultHand,
    None, None, NoGesture,
    DefaultUI, true, "source",
    DefaultRecording, false, 60.0, 0)

  // ------------------------------------------------------- field agreement

  /** The top-level fields of the state, so that an action can say which of
      them it may change. */
  datatype Field =
    | FSourceType | FSourceData | FIsLoading | FError | FCurrentEffect | FEffectIntensity
    | FRotation | FFloat | FIsTransitioning | FTargetEffect | FParticle | FVisual | FHand
    | FLeftHand | FRightHand | FGesture | FUI | FPanelVisible | FActiveTab | FRecording
    | FIsRecording | FFps | FParticleCount

  /** Field `f` has the same value in `s` and `t`. */
  predicate Same(s: State, t: State, f: Field) {
    && (f == FSourceType ==> s.sourceType == t.sourceType)
    && (f == FSourceData ==> s.sourceData == t.sourceData)
    && (f == FIsLoading ==> s.isLoading == t.isLoading)
    && (f == FError ==> s.error == t.error)
    && (f == FCurrentEffect ==> s.currentEffect == t.currentEffect)
    && (f == FEffectIntensity ==> s.effectIntensity == t.effectIntensity)
    && (f == FRotation ==> s.rotationSettings == t.rotationSettings)
    && (f == FFloat ==> s.floatSettings == t.floatSettings)
    && (f == FIsTransitioning ==> s.isTransitioning == t.isTransitioning)
    && (f == FTargetEffect ==> s.targetEffect == t.targetEffect)
    && (f == FParticle ==> s.particleSettings == t.particleSettings)
    && (f == FVisual ==> s.visualSettings == t.visualSettings)
    && (f == FHand ==> s.handSettings == t.handSettings)
    && (f == FLeftHand ==> s.leftHand == t.leftHand)
    && (f == FRightHand ==> s.rightHand == t.rightHand)
    && (f == FGesture ==> s.currentGesture == t.currentGesture)
    && (f == FUI ==> s.uiSettings == t.uiSettings)
    && (f == FPanelVisible ==> s.isPanelVisible == t.isPanelVisible)
    && (f == FActiveTab ==> s.activeTab == t.activeTab)
    && (f == FRecording ==> s.recordingSettings == t.recordingSettings)
    && (f == FIsRecording ==> s.isRecording == t.isRecording)
    && (f == FFps ==> s.fps == t.fps)
    && (f == FParticleCount ==> s.particleCount == t.particleCount)
  }

  /** Every field outside `changed` keeps its value from `s` to `t`. */
  predicate OnlyChanged(s: State, t: State, changed: set<Field>) {
    forall f: Field :: f !in changed ==> Same(s, t, f)
  }

  // ----------------------------------------------------- merge-by-field

  /** The value after spreading a partial object: the supplied value if
      there is one, the old value otherwise. */
  function Pick<T>(supplied: Option<T>, prior: T): T {
    match supplied
    case Some(v) => v
    case None => prior
  }

  /** `{ ...old, ...patch }` left this field as the patch demands. */
  predicate Merged<T(==)>(supplied: Option<T>, prior: T, now: T) {
    (supplied.Some? ==> now == supplied.value) && (supplied.None? ==> now == prior)
  }

  datatype ParticlePatch = ParticlePatch(
    count: Option<int>, size: Option<real>, opacity: Option<real>, speed: Option<real>,
    turbulence: Option<real>, connectionDistance: Option<real>, showConnections: Option<bool>,
    transitionSpeed: Option<real>)

  function MergeParticle(s: ParticleSettings, p: ParticlePatch): (r: ParticleSettings)
    ensures Merged(p.count, s.count, r.count) && Merged(p.size, s.size, r.size)
    ensures Merged(p.opacity, s.opacity, r.opacity) && Merged(p.speed, s.speed, r.speed)
    ensures Merged(p.turbulence, s.turbulence, r.turbulence)
    ensures Merged(p.connectionDistance, s.connectionDistance, r.connectionDistance)
    ensures Merged(p.showConnections, s.showConnections, r.showConnections)
    ensures Merged(p.transitionSpeed, s.transitionSpeed, r.transitionSpeed)
  {
    ParticleSettings(
      Pick(p.count, s.count), Pick(p.size, s.size), Pick(p.opacity, s.opacity),
      Pick(p.speed, s.speed), Pick(p.turbulence, s.turbulence),
      Pick(p.connectionDistance, s.connectionDistance), Pick(p.showConnections, s.showConnections),
      Pick(p.transitionSpeed, s.transitionSpeed))
  }

  datatype VisualPatch = VisualPatch(
    colorMode: Option<ColorMode>, primaryColor: Option<string>, secondaryColor: Option<string>,
    bloomIntensity: Option<real>, backgroundOpacity: Option<real>, showStats: Option<bool>,
    lightingSettings: Option<LightingSettings>, colorTransitionSpeed: Option<real>)

  function MergeVisual(s: VisualSettings, p: VisualPatch): (r: VisualSettings)
    ensures Merged(p.colorMode, s.colorMode, r.colorMode)
    ensures Merged(p.primaryColor, s.primaryColor, r.primaryColor)
    ensures Merged(p.secondaryColor, s.secondaryColor, r.secondaryColor)
    ensures Merged(p.bloomIntensity, s.bloomIntensity, r.bloomIntensity)
    ensures Merged(p.backgroundOpacity, s.backgroundOpacity, r.backgroundOpacity)
    ensures Merged(p.showStats, s.showStats, r.showStats)
    ensures Merged(p.lightingSettings, s.lightingSettings, r.lightingSettings)
    ensures Merged(p.colorTransitionSpeed, s.colorTransitionSpeed, r.colorTransitionSpeed)
  {
    VisualSettings(
      Pick(p.colorMode, s.colorMode), Pick(p.primaryColor, s.primaryColor),
      Pick(p.secondaryColor, s.secondaryColor), Pick(p.bloomIntensity, s.bloomIntensity),
      Pick(p.backgroundOpacity, s.backgroundOpacity), Pick(p.showStats, s.showStats),
      Pick(p.lightingSettings, s.lightingSettings), Pick(p.colorTransitionSpeed, s.colorTransitionSpeed))
  }

  datatype HandPatch = HandPatch(
    enabled: Option<bool>, sensitivity: Option<real>, interactionRadius: Option<real>,
    attractionForce: Option<real>, repulsionForce: Option<real>, gestureEnabled: Option<bool>,
    gestureTransitionSpeed: Option<real>)

  function MergeHand(s: HandSettings, p: HandPatch): (r: HandSettings)
    ensures Merged(p.enabled, s.enabled, r.enabled) && Merged(p.sensitivity, s.sensitivity, r.sensitivity)
    ensures Merged(p.interactionRadius, s.interactionRadius, r.interactionRadius)
    ensures Merged(p.attractionForce, s.attractionForce, r.attractionForce)
    ensures Merged(p.repulsionForce, s.repulsionForce, r.repulsionForce)
    ensures Merged(p.gestureEnabled, s.gestureEnabled, r.gestureEnabled)
    ensures Merged(p.gestureTransitionSpeed, s.gestureTransitionSpeed, r.gestureTransitionSpeed)
  {
    HandSettings(
      Pick(p.enabled, s.enabled), Pick(p.sensitivity, s.sensitivity),
      Pick(p.interactionRadius, s.interactionRadius), Pick(p.attractionForce, s.attractionForce),
      Pick(p.repulsionForce, s.repulsionForce), Pick(p.gestureEnabled, s.gestureEnabled),
      Pick(p.gestureTransitionSpeed, s.gestureTransitionSpeed))
  }

  datatype RotationPatch = RotationPatch(speed: Option<real>, axisX: Option<bool>, axisY: Option<bool>, axisZ: Option<bool>)

  function MergeRotation(s: RotationSettings, p: RotationPatch): (r: RotationSettings)
    ensures Merged(p.speed, s.speed, r.speed) && Merged(p.axisX, s.axisX, r.axisX)
    ensures Merged(p.axisY, s.axisY, r.axisY) && Merged(p.axisZ, s.axisZ, r.axisZ)
  {
    RotationSettings(Pick(p.speed, s.speed), Pick(p.axisX, s.axisX), Pick(p.axisY, s.axisY), Pick(p.axisZ, s.axisZ))
  }

  datatype FloatPatch = FloatPatch(speed: Option<real>, range: Option<real>, randomness: Option<real>)

  function MergeFloat(s: FloatSettings, p: FloatPatch): (r: FloatSettings)
    ensures Merged(p.speed, s.speed, r.speed) && Merged(p.range, s.range, r.range)
    ensures Merged(p.randomness, s.randomness, r.randomness)
  {
    FloatSettings(Pick(p.speed, s.speed), Pick(p.range, s.range), Pick(p.randomness, s.randomness))
  }

  datatype LightingPatch = LightingPatch(
    mode: Option<LightingMode>, speed: Option<real>, intensity: Option<real>, radius: Option<real>)

  function MergeLighting(s: LightingSettings, p: LightingPatch): (r: LightingSettings)
    ensures Merged(p.mode, s.mode, r.mode) && Merged(p.speed, s.speed, r.speed)
    ensures Merged(p.intensity, s.intensity, r.intensity) && Merged(p.radius, s.radius, r.radius)
  {
    LightingSettings(Pick(p.mode, s.mode), Pick(p.speed, s.speed), Pick(p.intensity, s.intensity), Pick(p.radius, s.radius))
  }

  datatype UIPatch = UIPatch(darkMode: Option<bool>, language: Option<Locales.Language>)

  function MergeUI(s: UISettings, p: UIPatch): (r: UISettings)
    ensures Merged(p.darkMode, s.darkMode, r.darkMode) && Merged(p.language, s.language, r.language)
  {
    UISettings(Pick(p.darkMode, s.darkMode), Pick(p.language, s.language))
  }

  datatype RecordingPatch = RecordingPatch(
    format: Option<RecordFormat>, quality: Option<real>, fps: Option<int>, includeAudio: Option<bool>)

  function MergeRecording(s: RecordingSettings, p: RecordingPatch): (r: RecordingSettings)
    ensures Merged(p.format, s.format, r.format) && Merged(p.quality, s.quality, r.quality)
    ensures Merged(p.fps, s.fps, r.fps) && Merged(p.includeAudio, s.includeAudio, r.includeAudio)
  {
    RecordingSettings(Pick(p.format, s.format), Pick(p.quality, s.quality), Pick(p.fps, s.fps), Pick(p.includeAudio, s.includeAudio))
  }

  // ------------------------------------------------------------- actions

  function UpdateParticleSettings(s: State, p: ParticlePatch): (r: State)
    ensures r.particleSettings == MergeParticle(s.particleSettings, p)
    ensures OnlyChanged(s, r, {FParticle})
  {
    s.(particleSettings := MergeParticle(s.particleSettings, p))
  }

  function UpdateVisualSettings(s: State, p: VisualPatch): (r: State)
    ensures r.visualSettings == MergeVisual(s.visualSettings, p)
    ensures OnlyChanged(s, r, {FVisual})
  {
    s.(visualSettings := MergeVisual(s.visualSettings, p))
  }

  function UpdateHandSettings(s: State, p: HandPatch): (r: State)
    ensures r.handSettings == MergeHand(s.handSettings, p)
    ensures OnlyChanged(s, r, {FHand})
  {
    s.(handSettings := MergeHand(s.handSettings, p))
  }

  function UpdateRotationSettings(s: State, p: RotationPatch): (r: State)
    ensures r.rotationSettings == MergeRotation(s.rotationSettings, p)
    ensures OnlyChanged(s, r, {FRotation})
  {
    s.(rotationSettings := MergeRotation(s.rotationSettings, p))
  }

  function UpdateFloatSettings(s: State, p: FloatPatch): (r: State)
    ensures r.floatSettings == MergeFloat(s.floatSettings, p)
    ensures OnlyChanged(s, r, {FFloat})
  {
    s.(floatSettings := MergeFloat(s.floatSettings, p))
  }

  /** Merges into the lighting settings nested in the visual settings; the
      other visual fields are kept. */
  function UpdateLightingSettings(s: State, p: LightingPatch): (r: State)
    ensures r.visualSettings.lightingSettings == MergeLighting(s.visualSettings.lightingSettings, p)
    ensures r.visualSettings == s.visualSettings.(lightingSettings := r.visualSettings.lightingSettings)
    ensures OnlyChanged(s, r, {FVisual})
  {
    s.(visualSettings := s.visualSettings.(lightingSettings := MergeLighting(s.visualSettings.lightingSettings, p)))
  }

  function UpdateUISettings(s: State, p: UIPatch): (r: State)
    ensures r.uiSettings == MergeUI(s.uiSettings, p)
    ensures OnlyChanged(s, r, {FUI})
  {
    s.(uiSettings := MergeUI(s.uiSettings, p))
  }

  function UpdateRecordingSettings(s: State, p: RecordingPatch): (r: State)
    ensures r.recordingSettings == MergeRecording(s.recordingSettings, p)
    ensures OnlyChanged(s, r, {FRecording})
  {
    s.(recordingSettings := MergeRecording(s.recordingSettings, p))
  }

  function SetSourceType(s: State, t: SourceType): (r: State)
    ensures r.sourceType == t && OnlyChanged(s, r, {FSourceType})
  {
    s.(sourceType := t)
  }

  function SetSourceData(s: State, d: SourceData): (r: State)
    ensures r.sourceData == d && OnlyChanged(s, r, {FSourceData})
  {
    s.(sourceData := d)
  }

  function SetLoading(s: State, loading: bool): (r: State)
    ensures r.isLoading == loading && OnlyChanged(s, r, {FIsLoading})
  {
    s.(isLoading := loading)
  }

  function SetError(s: State, e: Option<string>): (r: State)
    ensures r.error == e && OnlyChanged(s, r, {FError})
  {
    s.(error := e)
  }

  function SetCurrentEffect(s: State, e: Effect): (r: State)
    ensures r.currentEffect == e && OnlyChanged(s, r, {FCurrentEffect})
  {
    s.(currentEffect := e)
  }

  function SetEffectIntensity(s: State, i: real): (r: State)
    ensures r.effectIntensity == i && OnlyChanged(s, r, {FEffectIntensity})
  {
    s.(effectIntensity := i)
  }

  /** `setHandPosition(hand, position)`: writes exactly one of the two hand
      slots. */
  function SetHandPosition(s: State, hand: HandSide, position: Option<Vec3>): (r: State)
    ensures hand == LeftSide ==> r.leftHand == position && OnlyChanged(s, r, {FLeftHand})
    ensures hand == RightSide ==> r.rightHand == position && OnlyChanged(s, r, {FRightHand})
  {
    if hand == LeftSide then s.(leftHand := position) else s.(rightHand := position)
  }

  function SetCurrentGesture(s: State, g: Gesture): (r: State)
    ensures r.currentGesture == g && OnlyChanged(s, r, {FGesture})
  {
    s.(currentGesture := g)
  }

  function TogglePanel(s: State): (r: State)
    ensures r.isPanelVisible == !s.isPanelVisible && OnlyChanged(s, r, {FPanelVisible})
  {
    s.(isPanelVisible := !s.isPanelVisible)
  }

  lemma TogglePanelTwice(s: State)
    ensures TogglePanel(TogglePanel(s)) == s
  {
  }

  function SetActiveTab(s: State, tab: string): (r: State)
    ensures r.activeTab == tab && OnlyChanged(s, r, {FActiveTab})
  {
    s.(activeTab := tab)
  }

  function SetFps(s: State, fps: real): (r: State)
    ensures r.fps == fps && OnlyChanged(s, r, {FFps})
  {
    s.(fps := fps)
  }

  function SetParticleCount(s: State, count: int): (r: State)
    ensures r.particleCount == count && OnlyChanged(s, r, {FParticleCount})
  {
    s.(particleCount := count)
  }

  function SetIsRecording(s: State, recording: bool): (r: State)
    ensures r.isRecording == recording && OnlyChanged(s, r, {FIsRecording})
  {
    s.(isRecording := recording)
  }

  function SetIsTransitioning(s: State, transitioning: bool): (r: State)
    ensures r.isTransitioning == transitioning && OnlyChanged(s, r, {FIsTransitioning})
  {
    s.(isTransitioning := transitioning)
  }

  // --------------------------------------------------------------- reset

  /** The fields `reset` writes; together with `RuntimeFields` below they
      are all the fields of the state. */
  const ResetFields: set<Field> := {
    FSourceType, FSourceData, FIsLoading, FError, FCurrentEffect, FEffectIntensity,
    FParticle, FVisual, FHand, FRotation, FFloat, FIsTransitioning, FTargetEffect,
    FUI, FRecording, FIsRecording }

  /** The fields `reset` leaves alone. */
  const RuntimeFields: set<Field> := {
    FLeftHand, FRightHand, FGesture, FPanelVisible, FActiveTab, FFps, FParticleCount }

  function Reset(s: State): (r: State)
    ensures OnlyChanged(Initial, r, RuntimeFields)
    ensures OnlyChanged(s, r, ResetFields)
  {
    s.(sourceType := DefaultSource, sourceData := NoData, isLoading := false, error := None,
       currentEffect := NoEffect, effectIntensity := 0.5,
       particleSettings := DefaultParticle, visualSettings := DefaultVisual,
       handSettings := DefaultHand, rotationSettings := DefaultRotation,
       floatSettings := DefaultFloat, isTransitioning := false, targetEffect := None,
       uiSettings := DefaultUI, recordingSettings := DefaultRecording, isRecording := false)
  }

  /** `reset` leaves the hand positions, gesture, panel visibility, active
      tab, fps and particle count alone, and the initial state already holds
      every value `reset` writes, so resetting it changes nothing. */
  lemma ResetKeepsRuntimeFields(s: State)
    ensures Reset(s).leftHand == s.leftHand && Reset(s).rightHand == s.rightHand
    ensures Reset(s).currentGesture == s.currentGesture && Reset(s).isPanelVisible == s.isPanelVisible
    ensures Reset(s).activeTab == s.activeTab && Reset(s).fps == s.fps
    ensures Reset(s).particleCount == s.particleCount
    ensures Reset(Initial) == Initial
  {
    var r := Reset(s);
    assert Same(s, r, FLeftHand) && Same(s, r, FRightHand) && Same(s, r, FGesture);
    assert Same(s, r, FPanelVisible) && Same(s, r, FActiveTab) && Same(s, r, FFps);
    assert Same(s, r, FParticleCount);
  }

  // ----------------------------------------------------------- persistence

  /** What `partialize` hands to the persistence middleware. */
  datatype Persisted = Persisted(
    particleSettings: ParticleSettings, visualSettings: VisualSettings, handSettings: HandSettings,
    rotationSettings: RotationSettings, floatSettings: FloatSettings, uiSettings: UISettings,
    recordingSettings: RecordingSettings)

  const PersistedFields: set<Field> := {FParticle, FVisual, FHand, FRotation, FFloat, FUI, FRecording}

  function Partialize(s: State): Persisted {
    Persisted(s.particleSettings, s.visualSettings, s.handSettings, s.rotationSettings,
              s.floatSettings, s.uiSettings, s.recordingSettings)
  }

  /** Two states that agree on the seven settings groups persist the same. */
  lemma PersistedDependsOnlyOnSettings(s: State, t: State, changed: set<Field>)
    requires OnlyChanged(s, t, changed)
    requires changed !! PersistedFields
    ensures Partialize(s) == Partialize(t)
  {
    assert Same(s, t, FParticle) && Same(s, t, FVisual) && Same(s, t, FHand);
    assert Same(s, t, FRotation) && Same(s, t, FFloat) && Same(s, t, FUI) && Same(s, t, FRecording);
  }

  /** Source, effect, hand-position and gesture actions never reach storage. */
  lemma RuntimeActionsNotPersisted(s: State, t: SourceType, d: SourceData, e: Effect, i: real,
                                   side: HandSide, p: Option<Vec3>, g: Gesture)
    ensures Partialize(SetSourceType(s, t)) == Partialize(s)
    ensures Partialize(SetSourceData(s, d)) == Partialize(s)
    ensures Partialize(SetCurrentEffect(s, e)) == Partialize(s)
    ensures Partialize(SetEffectIntensity(s, i)) == Partialize(s)
    ensures Partialize(SetHandPosition(s, side, p)) == Partialize(s)
    ensures Partialize(SetCurrentGesture(s, g)) == Partialize(s)
  {
  }

  /** After `reset` the persisted settings are exactly the defaults. */
  lemma ResetPersistsDefaults(s: State)
    ensures Partialize(Reset(s)) == Partialize(Initial)
  {
  }
}
