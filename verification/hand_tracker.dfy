/** The hand tracker's decision rules: the gesture classifier over the 21
    landmarks of a hand, the mapping of a landmark into scene coordinates,
    and the per-frame dispatch of tracked hands into the store. */
module HandTracker {
  import opened Common
  import opened Kinds
  import AppStore

  /** Thumb, index, middle, ring and pinky: their tip and PIP landmarks. */
  const Tips: seq<nat> := [4, 8, 12, 16, 20]
  const Pips: seq<nat> := [3, 6, 10, 14, 18]

  /** Which fingers are extended: the thumb when its tip is left of its
      joint in image x, every other finger when its tip is above its PIP
      joint in image y. */
  function Extended(lm: seq<Vec3>): (e: seq<bool>)
    requires |lm| >= 21
    ensures |e| == 5
    ensures e[0] <==> lm[4].x < lm[3].x
    ensures forall f :: 1 <= f < 5 ==> (e[f] <==> lm[Tips[f]].y < lm[Pips[f]].y)
  {
    [lm[4].x < lm[3].x, lm[8].y < lm[6].y, lm[12].y < lm[10].y, lm[16].y < lm[14].y, lm[20].y < lm[18].y]
  }

  /** The number of `true` entries. */
  function CountTrue(bs: seq<bool>): (n: nat)
    ensures n <= |bs|
    decreases |bs|
  {
    if |bs| == 0 then 0 else (if bs[0] then 1 else 0) + CountTrue(bs[1..])
  }

  /** The squared 3-D distance between thumb tip and index tip. */
  function PinchDist2(lm: seq<Vec3>): real
    requires |lm| >= 21
  {
    Norm2(Sub(lm[4], lm[8]))
  }

  /** Comparing the distance with 0.05 is comparing its square with 0.0025,
      so the classifier needs no square root. */
  lemma PinchBySquare(dist: real, sq: real)
    requires dist >= 0.0 && dist * dist == sq
    ensures dist < 0.05 <==> sq < 0.0025
  {
    if dist >= 0.05 {
      assert dist * dist >= 0.05 * dist >= 0.0025;
    }
  }

  /** `detectGesture(landmarks)`. */
  function DetectGesture(lm: seq<Vec3>): (g: Gesture)
    ensures |lm| < 21 ==> g == NoGesture
    ensures |lm| >= 21 && PinchDist2(lm) < 0.0025 ==> g == Pinch
  {
    if |lm| < 21 then NoGesture
    else
      var e := Extended(lm);
      var n := CountTrue(e);
      if PinchDist2(lm) < 0.0025 then Pinch
      else if n >= 4 then Open
      else if n <= 1 then Closed
      else if e[1] && !e[2] && !e[3] && !e[4] then Point
      else if e[1] && e[2] && !e[3] && !e[4] then Peace
      else NoGesture
  }

  /** The count of five flags spelled out. */
  lemma CountFive(e: seq<bool>)
    requires |e| == 5
    ensures CountTrue(e) == (if e[0] then 1 else 0) + (if e[1] then 1 else 0) + (if e[2] then 1 else 0)
                          + (if e[3] then 1 else 0) + (if e[4] then 1 else 0)
  {
    assert e[1..][1..] == e[2..] && e[2..][1..] == e[3..] && e[3..][1..] == e[4..] && e[4..][1..] == [];
    assert CountTrue(e[4..]) == (if e[4] then 1 else 0);
    assert CountTrue(e[3..]) == (if e[3] then 1 else 0) + CountTrue(e[4..]);
    assert CountTrue(e[2..]) == (if e[2] then 1 else 0) + CountTrue(e[3..]);
    assert CountTrue(e[1..]) == (if e[1] then 1 else 0) + CountTrue(e[2..]);
  }

  /** The classifier in terms of the fingers. A pinch wins over everything;
      otherwise open means four or five fingers out, closed at most one;
      pointing needs the thumb out as well as the index finger (with the
      thumb folded, index alone counts as one finger and reads as closed);
      peace is index and middle with ring and pinky folded, whatever the
      thumb does. */
  lemma GestureByFingers(lm: seq<Vec3>)
    requires |lm| >= 21
    ensures var e := Extended(lm);
            var pinch := PinchDist2(lm) < 0.0025;
            var n := CountTrue(e);
            && (DetectGesture(lm) == Pinch <==> pinch)
            && (DetectGesture(lm) == Open <==> !pinch && n >= 4)
            && (DetectGesture(lm) == Closed <==> !pinch && n <= 1)
            && (DetectGesture(lm) == Point <==> !pinch && e[0] && e[1] && !e[2] && !e[3] && !e[4])
            && (DetectGesture(lm) == Peace <==> !pinch && e[1] && e[2] && !e[3] && !e[4])
  {
    CountFive(Extended(lm));
  }

  /** `landmarkTo3D(landmark)`: normalised image coordinates to scene
      coordinates, mirrored in y and z and scaled by the sensitivity. */
  function LandmarkTo3D(l: Vec3, sensitivity: real): (p: Vec3)
    ensures l == Vec3(0.5, 0.5, 0.0) ==> p == Zero
  {
    Vec3((l.x - 0.5) * 400.0 * sensitivity, -(l.y - 0.5) * 400.0 * sensitivity, -l.z * 200.0 * sensitivity)
  }

  /** The inverse mapping, for a non-zero sensitivity. */
  function SceneToLandmark(p: Vec3, sensitivity: real): Vec3
    requires sensitivity != 0.0
  {
    Vec3(p.x / (400.0 * sensitivity) + 0.5, 0.5 - p.y / (400.0 * sensitivity), -(p.z / (200.0 * sensitivity)))
  }

  /** The mapping is affine and loses nothing: for a non-zero sensitivity
      the landmark can be recovered from its scene position. */
  lemma LandmarkTo3DRoundTrip(l: Vec3, sensitivity: real)
    requires sensitivity != 0.0
    ensures SceneToLandmark(LandmarkTo3D(l, sensitivity), sensitivity) == l
  {
    var k := 400.0 * sensitivity;
    var h := 200.0 * sensitivity;
    DivCancel(l.x - 0.5, k);
    DivCancel(-(l.y - 0.5), k);
    DivCancel(-l.z, h);
    assert (l.x - 0.5) * 400.0 * sensitivity == (l.x - 0.5) * k;
    assert -(l.y - 0.5) * 400.0 * sensitivity == -(l.y - 0.5) * k;
    assert -l.z * 200.0 * sensitivity == -l.z * h;
  }

  lemma DivCancel(a: real, k: real)
    requires k != 0.0
    ensures a * k / k == a
  {
  }

  // ------------------------------------------------------------ dispatch

  /** Whether hand `i` carries the handedness label "Left"; a missing
      label counts as not left. */
  predicate IsLeft(labels: seq<Option<string>>, i: nat) {
    i < |labels| && labels[i] == Some("Left")
  }

  /** The last hand among the first `n` on the given side. */
  function LastOnSide(labels: seq<Option<string>>, n: nat, left: bool): (k: Option<nat>)
    ensures k.Some? ==> k.value < n && IsLeft(labels, k.value) == left
    ensures k.Some? ==> forall j :: k.value < j < n ==> IsLeft(labels, j) != left
    ensures k.None? ==> forall j :: 0 <= j < n ==> IsLeft(labels, j) != left
    decreases n
  {
    if n == 0 then None
    else if IsLeft(labels, n - 1) == left then Some(n - 1)
    else LastOnSide(labels, n - 1, left)
  }

  /** The slot value a side ends with after the first `n` hands. */
  function SlotAfter(prior: Option<Vec3>, hands: seq<seq<Vec3>>, labels: seq<Option<string>>,
                     n: nat, left: bool, sensitivity: real): Option<Vec3>
    requires n <= |hands| && forall i :: 0 <= i < |hands| ==> |hands[i]| >= 10
  {
    match LastOnSide(labels, n, left)
    case None => prior
    case Some(k) => Some(LandmarkTo3D(hands[k][9], sensitivity))
  }

  /** One more hand either takes the side's slot or leaves it as it was. */
  lemma SlotAfterStep(prior: Option<Vec3>, hands: seq<seq<Vec3>>, labels: seq<Option<string>>,
                      n: nat, left: bool, sensitivity: real)
    requires n < |hands| && forall i :: 0 <= i < |hands| ==> |hands[i]| >= 10
    ensures SlotAfter(prior, hands, labels, n + 1, left, sensitivity)
            == if IsLeft(labels, n) == left then Some(LandmarkTo3D(hands[n][9], sensitivity))
               else SlotAfter(prior, hands, labels, n, left, sensitivity)
  {
  }

  /** `onResults(results)` without the debug drawing. `hands` is
      `multiHandLandmarks` (absent when nothing was tracked) and `labels`
      the handedness labels, which may be shorter. Each hand's palm
      (landmark 9) goes to the left slot if its label is exactly "Left" and
      to the right slot otherwise, so the last hand of each side wins; the
      gesture, when gestures are enabled, is the last hand's. With no hands
      both slots are cleared and the gesture is reset. */
  method OnResults(st: AppStore.State, hands: Option<seq<seq<Vec3>>>, labels: seq<Option<string>>)
    returns (r: AppStore.State)
    requires hands.Some? ==> forall i :: 0 <= i < |hands.value| ==> |hands.value[i]| >= 10
    ensures AppStore.OnlyChanged(st, r, {AppStore.FLeftHand, AppStore.FRightHand, AppStore.FGesture})
    ensures hands.None? || |hands.value| == 0 ==>
      r.leftHand.None? && r.rightHand.None? && r.currentGesture == NoGesture
    ensures hands.Some? && |hands.value| > 0 ==>
      var s := st.handSettings.sensitivity;
      && r.leftHand == SlotAfter(st.leftHand, hands.value, labels, |hands.value|, true, s)
      && r.rightHand == SlotAfter(st.rightHand, hands.value, labels, |hands.value|, false, s)
      && r.currentGesture == (if st.handSettings.gestureEnabled
                              then DetectGesture(hands.value[|hands.value| - 1])
                              else st.currentGesture)
  {
    if hands.None? || |hands.value| == 0 {
      HandFieldsOnly(st, None, None, NoGesture);
      return st.(leftHand := None, rightHand := None, currentGesture := NoGesture);
    }
    var hs := hands.value;
    var s := st.handSettings.sensitivity;
    var left, right, gesture := st.leftHand, st.rightHand, st.currentGesture;
    var i := 0;
    while i < |hs|
      invariant 0 <= i <= |hs|
      invariant left == SlotAfter(st.leftHand, hs, labels, i, true, s)
      invariant right == SlotAfter(st.rightHand, hs, labels, i, false, s)
      invariant !st.handSettings.gestureEnabled ==> gesture == st.currentGesture
      invariant st.handSettings.gestureEnabled && i > 0 ==> gesture == DetectGesture(hs[i - 1])
    {
      var position := LandmarkTo3D(hs[i][9], s);
      SlotAfterStep(st.leftHand, hs, labels, i, true, s);
      SlotAfterStep(st.rightHand, hs, labels, i, false, s);
      if IsLeft(labels, i) {
        left := Some(position);
      } else {
        right := Some(position);
      }
      if st.handSettings.gestureEnabled {
        gesture := DetectGesture(hs[i]);
      }
      i := i + 1;
    }
    HandFieldsOnly(st, left, right, gesture);
    r := st.(leftHand := left, rightHand := right, currentGesture := gesture);
  }

  /** Writing the two hand slots and the gesture touches nothing else. */
  lemma HandFieldsOnly(st: AppStore.State, left: Option<Vec3>, right: Option<Vec3>, g: Gesture)
    ensures AppStore.OnlyChanged(st, st.(leftHand := left, rightHand := right, currentGesture := g),
                                 {AppStore.FLeftHand, AppStore.FRightHand, AppStore.FGesture})
  {
  }
}
