/** The scene's particle-data logic: which generator a source selection
    runs, when a selection is skipped as already shown, how a new result
    becomes the current or the target buffer (with the count adjustment
    that lets prior particles morph and new ones appear near the centre),
    the failure fallback, and the promotion of the target once the
    transition has run. */
module Scene {
  import opened Common
  import opened Kinds
  import AppStore
  import opened ParticleGenerator

  /** The last source that was generated from. */
  datatype Previous = Previous(kind: SourceType, data: AppStore.SourceData)

  /** What the default path records as its source. */
  const DefaultPrevious: Previous := Previous(DefaultSource, AppStore.NoData)

  /** The scene's buffers: `current` is rendered, `target` is what it is
      morphing towards. */
  datatype SceneState = SceneState(current: Option<Buffers>, target: Option<Buffers>, previous: Option<Previous>)

  const InitialScene: SceneState := SceneState(None, None, None)

  /** Which generator a non-default source runs. */
  datatype Request = UseDefault | ImageRequest(url: Option<string>) | TextRequest(text: string)

  /** What an asynchronous generator delivered: buffers, a rejection
      (an image that fails to load, a missing canvas context), or nothing
      ever (an image whose downscaled side is 0, see `LoadImage`). */
  datatype Outcome = Generated(buffers: Buffers) | Failed | Pending

  /** How the image generator's promise ends for a decoded image. */
  function ImageOutcome(r: Option<Buffers>): (o: Outcome)
    ensures o.Pending? <==> r.None?
    ensures r.Some? ==> o == Generated(r.value)
  {
    match r
    case Some(b) => Generated(b)
    case None => Pending
  }

  /** The run for the store's current source starts a generator whose
      promise never settles. */
  predicate Stalls(sc: SceneState, st: AppStore.State, produce: Request -> Outcome) {
    var t := st.sourceType;
    var d := st.sourceData;
    && !IsDefaultPath(t, d)
    && sc.previous != Some(Previous(t, d))
    && Dispatch(t, d) != UseDefault
    && produce(Dispatch(t, d)).Pending?
  }

  const FailureMessage: string := "파티클 생성에 실패했습니다."

  /** A missing source or the default type takes the default path. */
  predicate IsDefaultPath(t: SourceType, d: AppStore.SourceData) {
    d == AppStore.NoData || t == DefaultSource
  }

  /** The generator for a non-default source. An image or text source
      needs a non-empty string, a cubemap an array (of which only the first
      image is used; an empty array hands the loader no URL); everything
      else, the model type included, falls back to the default generator. */
  function Dispatch(t: SourceType, d: AppStore.SourceData): (r: Request)
    ensures t == ImageSource ==> (r.ImageRequest? <==> d.Str? && d.s != "")
    ensures t == ImageSource && d.Str? && d.s != "" ==> r == ImageRequest(Some(d.s))
    ensures t == CubemapSource ==> (r.ImageRequest? <==> d.Strs?)
    ensures t == CubemapSource && d.Strs? && |d.items| > 0 ==> r == ImageRequest(Some(d.items[0]))
    ensures t == TextSource ==> (r.TextRequest? <==> d.Str? && d.s != "")
    ensures t == TextSource && d.Str? && d.s != "" ==> r == TextRequest(d.s)
    ensures t == ModelSource || t == DefaultSource ==> r == UseDefault
  {
    match t
    case ImageSource => if d.Str? && d.s != "" then ImageRequest(Some(d.s)) else UseDefault
    case CubemapSource => if d.Strs? then ImageRequest(if |d.items| > 0 then Some(d.items[0]) else None) else UseDefault
    case TextSource => if d.Str? && d.s != "" then TextRequest(d.s) else UseDefault
    case ModelSource => UseDefault
    case DefaultSource => UseDefault
  }

  /** A new particle's starting position from three draws in [0, 1). */
  function NearCentre(u: Vec3): Vec3 {
    Vec3((u.x - 0.5) * 10.0, (u.y - 0.5) * 10.0, (u.z - 0.5) * 10.0)
  }

  lemma NearCentreBounded(u: Vec3)
    requires 0.0 <= u.x < 1.0 && 0.0 <= u.y < 1.0 && 0.0 <= u.z < 1.0
    ensures var p := NearCentre(u);
            -5.0 <= p.x < 5.0 && -5.0 <= p.y < 5.0 && -5.0 <= p.z < 5.0
  {
  }

  /** The current buffer re-sized to the new result's count: particle `i`
      keeps its prior position and colour while the prior buffer has one,
      otherwise it starts near the centre in its new colour. */
  function Resize(prior: Buffers, result: Buffers, noise: nat -> Vec3): (r: Buffers)
    requires prior.WellFormed() && result.WellFormed()
    ensures r.WellFormed() && r.Count() == result.Count()
    ensures forall i :: 0 <= i < r.Count() && i < prior.Count() ==>
      r.positions[i] == prior.positions[i] && r.colors[i] == prior.colors[i]
    ensures forall i :: prior.Count() <= i < r.Count() ==>
      r.positions[i] == NearCentre(noise(i)) && r.colors[i] == result.colors[i]
  {
    var n := result.Count();
    var m := prior.Count();
    Buffers(seq(n, i requires 0 <= i < n => if i < m then prior.positions[i] else NearCentre(noise(i))),
            seq(n, i requires 0 <= i < n => if i < m then prior.colors[i] else result.colors[i]))
  }

  /** The current buffer once a result arrives: unchanged when the counts
      agree, re-sized otherwise. */
  function Adjust(prior: Buffers, result: Buffers, noise: nat -> Vec3): (r: Buffers)
    requires prior.WellFormed() && result.WellFormed()
    ensures r.WellFormed()
    ensures prior.Count() == result.Count() ==> r == prior
    ensures r.Count() == result.Count()
  {
    if prior.Count() == result.Count() then prior else Resize(prior, result, noise)
  }

  /** Growing keeps every prior particle in place and puts each new one
      within 5 units of the origin on every axis. */
  lemma AdjustGrowing(prior: Buffers, result: Buffers, noise: nat -> Vec3, i: nat)
    requires prior.WellFormed() && result.WellFormed()
    requires forall j: nat :: 0.0 <= noise(j).x < 1.0 && 0.0 <= noise(j).y < 1.0 && 0.0 <= noise(j).z < 1.0
    requires prior.Count() <= i < result.Count()
    ensures var p := Adjust(prior, result, noise).positions[i];
            -5.0 <= p.x < 5.0 && -5.0 <= p.y < 5.0 && -5.0 <= p.z < 5.0
    ensures Adjust(prior, result, noise).colors[i] == result.colors[i]
  {
    NearCentreBounded(noise(i));
  }

  /** Shrinking keeps a prefix of the prior particles. */
  lemma AdjustShrinking(prior: Buffers, result: Buffers, noise: nat -> Vec3)
    requires prior.WellFormed() && result.WellFormed()
    requires result.Count() <= prior.Count()
    ensures Adjust(prior, result, noise).positions == prior.positions[..result.Count()]
    ensures Adjust(prior, result, noise).colors == prior.colors[..result.Count()]
  {
  }

  /** Where a freshly generated buffer goes: on the first load it becomes
      the current buffer with no target, afterwards it becomes the target. */
  function Place(sc: SceneState, result: Buffers, adjust: bool, noise: nat -> Vec3): (r: SceneState)
    requires result.WellFormed()
    requires sc.current.Some? ==> sc.current.value.WellFormed()
    ensures sc.current.None? ==> r.current == Some(result) && r.target.None?
    ensures sc.current.Some? ==> r.target == Some(result)
    ensures sc.current.Some? && !adjust ==> r.current == sc.current
    ensures r.previous == sc.previous
  {
    match sc.current
    case None => sc.(current := Some(result), target := None)
    case Some(prior) =>
      if adjust then sc.(current := Some(Adjust(prior, result, noise)), target := Some(result))
      else sc.(target := Some(result))
  }

  predicate BuffersOk(sc: SceneState) {
    && (sc.current.Some? ==> sc.current.value.WellFormed())
    && (sc.target.Some? ==> sc.target.value.WellFormed())
  }

  /** One run of `generateParticles` for the store's current source.
      `defaults` is what the default generator returns for the configured
      count, `produce` what the image and text generators deliver, and
      `noise` the random draws for new particles. */
  function Generate(sc: SceneState, st: AppStore.State, defaults: Buffers,
                    produce: Request -> Outcome, noise: nat -> Vec3): (r: (SceneState, AppStore.State))
    requires BuffersOk(sc) && defaults.WellFormed()
    requires forall q :: produce(q).Generated? ==> produce(q).buffers.WellFormed()
    ensures BuffersOk(r.0)
    ensures AppStore.OnlyChanged(st, r.1, {AppStore.FIsLoading, AppStore.FError})
    ensures r != (sc, st) && !Stalls(sc, st, produce) ==> !r.1.isLoading
    ensures Stalls(sc, st, produce) ==> r.0 == sc && r.1.isLoading && r.1.error.None?
  {
    var t := st.sourceType;
    var d := st.sourceData;
    if IsDefaultPath(t, d) then
      if sc.previous == Some(DefaultPrevious) then (sc, st)
      else
        var placed := Place(sc, defaults, false, noise);
        (placed.(previous := Some(DefaultPrevious)),
         AppStore.SetLoading(AppStore.SetLoading(st, true), false))
    else if sc.previous == Some(Previous(t, d)) then (sc, st)
    else
      var started := AppStore.SetError(AppStore.SetLoading(st, true), None);
      var request := Dispatch(t, d);
      var outcome := if request == UseDefault then Generated(defaults) else produce(request);
      match outcome
      case Generated(result) =>
        var placed := Place(sc, result, true, noise);
        (placed.(previous := Some(Previous(t, d))), AppStore.SetLoading(started, false))
      case Failed =>
        (sc.(current := Some(defaults), target := None),
         AppStore.SetLoading(AppStore.SetError(started, Some(FailureMessage)), false))
      case Pending => (sc, started)
  }

  /** A selection that is already shown is skipped, whatever the generators
      would now return: in particular a changed particle count alone (which
      only changes the generators' output) does not regenerate. */
  lemma SkipWhenShown(sc: SceneState, st: AppStore.State, defaults: Buffers,
                      produce: Request -> Outcome, noise: nat -> Vec3)
    requires BuffersOk(sc) && defaults.WellFormed()
    requires forall q :: produce(q).Generated? ==> produce(q).buffers.WellFormed()
    requires sc.previous == Some(if IsDefaultPath(st.sourceType, st.sourceData) then DefaultPrevious
                                 else Previous(st.sourceType, st.sourceData))
    ensures Generate(sc, st, defaults, produce, noise) == (sc, st)
  {
  }

  /** Any other selection whose generator settles is generated: the store
      ends not loading and the selection is recorded unless generation
      failed. */
  lemma GenerateRecords(sc: SceneState, st: AppStore.State, defaults: Buffers,
                        produce: Request -> Outcome, noise: nat -> Vec3)
    requires BuffersOk(sc) && defaults.WellFormed()
    requires forall q :: produce(q).Generated? ==> produce(q).buffers.WellFormed()
    requires sc.previous != Some(if IsDefaultPath(st.sourceType, st.sourceData) then DefaultPrevious
                                 else Previous(st.sourceType, st.sourceData))
    requires !Stalls(sc, st, produce)
    ensures var r := Generate(sc, st, defaults, produce, noise);
            var t := st.sourceType;
            var d := st.sourceData;
            && !r.1.isLoading
            && (IsDefaultPath(t, d) ==> r.0.previous == Some(DefaultPrevious) && r.1.error == st.error)
            && (!IsDefaultPath(t, d) && r.1.error.None? ==> r.0.previous == Some(Previous(t, d)))
            && (!IsDefaultPath(t, d) && r.1.error.Some? ==>
                  r.0.previous == sc.previous && r.1.error == Some(FailureMessage))
  {
    var t, d := st.sourceType, st.sourceData;
    if !IsDefaultPath(t, d) {
      var request := Dispatch(t, d);
      var outcome := if request == UseDefault then Generated(defaults) else produce(request);
      var r := Generate(sc, st, defaults, produce, noise);
      if outcome.Failed? {
        assert r.1.error == Some(FailureMessage) && r.0.previous == sc.previous;
      } else {
        assert r.1.error.None? && r.0.previous == Some(Previous(t, d));
      }
    }
  }

  /** A generator that never settles leaves the store loading with no
      error and the scene untouched; the selection stays unrecorded, so
      running again for the same store changes nothing and loading stays
      on until the source changes. */
  lemma GenerateStalls(sc: SceneState, st: AppStore.State, defaults: Buffers,
                       produce: Request -> Outcome, noise: nat -> Vec3)
    requires BuffersOk(sc) && defaults.WellFormed()
    requires forall q :: produce(q).Generated? ==> produce(q).buffers.WellFormed()
    requires Stalls(sc, st, produce)
    ensures var r := Generate(sc, st, defaults, produce, noise);
            && r.0 == sc && r.1.isLoading && r.1.error.None?
            && Generate(r.0, r.1, defaults, produce, noise) == r
  {
  }

  /** The default path never adjusts counts: with buffers already on
      screen only the target changes. */
  lemma DefaultPathKeepsCurrent(sc: SceneState, st: AppStore.State, defaults: Buffers,
                                produce: Request -> Outcome, noise: nat -> Vec3)
    requires BuffersOk(sc) && defaults.WellFormed()
    requires forall q :: produce(q).Generated? ==> produce(q).buffers.WellFormed()
    requires IsDefaultPath(st.sourceType, st.sourceData) && sc.previous != Some(DefaultPrevious)
    requires sc.current.Some?
    ensures var r := Generate(sc, st, defaults, produce, noise).0;
            r.current == sc.current && r.target == Some(defaults)
  {
  }

  /** A successful non-default run: the first load shows the result at
      once, later loads make it the target and resize the current buffer
      to its count. */
  lemma GenerateSuccess(sc: SceneState, st: AppStore.State, defaults: Buffers,
                        produce: Request -> Outcome, noise: nat -> Vec3)
    requires BuffersOk(sc) && defaults.WellFormed()
    requires forall q :: produce(q).Generated? ==> produce(q).buffers.WellFormed()
    requires !IsDefaultPath(st.sourceType, st.sourceData)
    requires sc.previous != Some(Previous(st.sourceType, st.sourceData))
    requires var q := Dispatch(st.sourceType, st.sourceData); q == UseDefault || produce(q).Generated?
    ensures var q := Dispatch(st.sourceType, st.sourceData);
            var result := if q == UseDefault then defaults else produce(q).buffers;
            var r := Generate(sc, st, defaults, produce, noise);
            && r.1.error.None?
            && (sc.current.None? ==> r.0.current == Some(result) && r.0.target.None?)
            && (sc.current.Some? ==>
                  && r.0.target == Some(result)
                  && r.0.current == Some(Adjust(sc.current.value, result, noise))
                  && r.0.current.value.Count() == result.Count())
  {
  }

  /** A failed run shows fresh default particles with no target, reports
      the failure and leaves the selection unrecorded, so the next run
      tries again. */
  lemma GenerateFailure(sc: SceneState, st: AppStore.State, defaults: Buffers,
                        produce: Request -> Outcome, noise: nat -> Vec3)
    requires BuffersOk(sc) && defaults.WellFormed()
    requires forall q :: produce(q).Generated? ==> produce(q).buffers.WellFormed()
    requires !IsDefaultPath(st.sourceType, st.sourceData)
    requires sc.previous != Some(Previous(st.sourceType, st.sourceData))
    requires var q := Dispatch(st.sourceType, st.sourceData); q != UseDefault && produce(q).Failed?
    ensures var r := Generate(sc, st, defaults, produce, noise);
            && r.0 == SceneState(Some(defaults), None, sc.previous)
            && r.1.error == Some(FailureMessage) && !r.1.isLoading
  {
  }

  /** The transition timer's callback: the target becomes current. */
  function Promote(sc: SceneState): (r: SceneState)
    ensures sc.target.Some? ==> r.current == sc.target && r.target.None?
    ensures sc.target.None? ==> r == sc
    ensures r.previous == sc.previous
  {
    match sc.target
    case Some(b) => sc.(current := Some(b), target := None)
    case None => sc
  }

  /** After a promotion there is nothing left to promote. */
  lemma PromoteIdempotent(sc: SceneState)
    ensures Promote(sc).target.None?
    ensures Promote(Promote(sc)) == Promote(sc)
  {
  }
}
