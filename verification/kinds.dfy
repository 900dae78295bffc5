/** The enumerations of the application state and their integer encodings.
    The encodings are the wire format between the CPU-side uniforms and the
    shader branches, so each comes with its decoder and a round-trip lemma. */
module Kinds {
  import opened Common

  datatype SourceType = DefaultSource | ImageSource | CubemapSource | TextSource | ModelSource

  datatype Effect =
    | NoEffect | Wave | Spiral | Explode | Implode | Noise
    | Vortex | Pulse | Flow | Rotate | Float

  datatype ColorMode = Original | Gradient | Rainbow | Monochrome | Temperature

  datatype LightingMode = NoLighting | Move | Expand | Contract | PulseLight | WaveLight

  datatype Gesture = NoGesture | Open | Closed | Pinch | Point | Peace

  datatype RecordFormat = Webm | Mp4

  /** Effect index sent in `uEffect`. */
  function EffectIndex(e: Effect): (r: nat)
    ensures r <= 10
    ensures r == 0 <==> e == NoEffect
    ensures r == 9 <==> e == Rotate
  {
    match e
    case NoEffect => 0
    case Wave => 1
    case Spiral => 2
    case Explode => 3
    case Implode => 4
    case Noise => 5
    case Vortex => 6
    case Pulse => 7
    case Flow => 8
    case Rotate => 9
    case Float => 10
  }

  /** The shader's reading of an effect index. */
  function EffectOfIndex(i: int): Option<Effect> {
    if i == 0 then Some(NoEffect) else if i == 1 then Some(Wave)
    else if i == 2 then Some(Spiral) else if i == 3 then Some(Explode)
    else if i == 4 then Some(Implode) else if i == 5 then Some(Noise)
    else if i == 6 then Some(Vortex) else if i == 7 then Some(Pulse)
    else if i == 8 then Some(Flow) else if i == 9 then Some(Rotate)
    else if i == 10 then Some(Float) else None
  }

  lemma EffectIndexRoundTrip(e: Effect, i: int)
    ensures EffectOfIndex(EffectIndex(e)) == Some(e)
    ensures EffectOfIndex(i).Some? <==> 0 <= i <= 10
    ensures EffectOfIndex(i).Some? ==> EffectIndex(EffectOfIndex(i).value) == i
  {
  }

  /** Colour-mode index sent in `uColorMode`. */
  function ColorModeIndex(m: ColorMode): (r: nat)
    ensures r <= 4
    ensures r == 0 <==> m == Original
  {
    match m
    case Original => 0
    case Gradient => 1
    case Rainbow => 2
    case Monochrome => 3
    case Temperature => 4
  }

  function ColorModeOfIndex(i: int): Option<ColorMode> {
    if i == 0 then Some(Original) else if i == 1 then Some(Gradient)
    else if i == 2 then Some(Rainbow) else if i == 3 then Some(Monochrome)
    else if i == 4 then Some(Temperature) else None
  }

  lemma ColorModeIndexRoundTrip(m: ColorMode, i: int)
    ensures ColorModeOfIndex(ColorModeIndex(m)) == Some(m)
    ensures ColorModeOfIndex(i).Some? <==> 0 <= i <= 4
    ensures ColorModeOfIndex(i).Some? ==> ColorModeIndex(ColorModeOfIndex(i).value) == i
  {
  }

  /** Lighting-mode index sent in `uLightingMode`. */
  function LightingModeIndex(m: LightingMode): (r: nat)
    ensures r <= 5
    ensures r == 0 <==> m == NoLighting
  {
    match m
    case NoLighting => 0
    case Move => 1
    case Expand => 2
    case Contract => 3
    case PulseLight => 4
    case WaveLight => 5
  }

  function LightingModeOfIndex(i: int): Option<LightingMode> {
    if i == 0 then Some(NoLighting) else if i == 1 then Some(Move)
    else if i == 2 then Some(Expand) else if i == 3 then Some(Contract)
    else if i == 4 then Some(PulseLight) else if i == 5 then Some(WaveLight) else None
  }

  lemma LightingModeIndexRoundTrip(m: LightingMode, i: int)
    ensures LightingModeOfIndex(LightingModeIndex(m)) == Some(m)
    ensures LightingModeOfIndex(i).Some? <==> 0 <= i <= 5
    ensures LightingModeOfIndex(i).Some? ==> LightingModeIndex(LightingModeOfIndex(i).value) == i
  {
  }

  /** Gesture index sent in `uGesture`; only 1 (open), 2 (closed) and
      3 (pinch) move particles in the vertex stage. */
  function GestureIndex(g: Gesture): (r: nat)
    ensures r <= 5
    ensures r == 0 <==> g == NoGesture
    ensures r == 1 <==> g == Open
    ensures r == 2 <==> g == Closed
    ensures r == 3 <==> g == Pinch
  {
    match g
    case NoGesture => 0
    case Open => 1
    case Closed => 2
    case Pinch => 3
    case Point => 4
    case Peace => 5
  }

  function GestureOfIndex(i: int): Option<Gesture> {
    if i == 0 then Some(NoGesture) else if i == 1 then Some(Open)
    else if i == 2 then Some(Closed) else if i == 3 then Some(Pinch)
    else if i == 4 then Some(Point) else if i == 5 then Some(Peace) else None
  }

  lemma GestureIndexRoundTrip(g: Gesture, i: int)
    ensures GestureOfIndex(GestureIndex(g)) == Some(g)
    ensures GestureOfIndex(i).Some? <==> 0 <= i <= 5
    ensures GestureOfIndex(i).Some? ==> GestureIndex(GestureOfIndex(i).value) == i
  {
  }
}
