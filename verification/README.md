# particle-verse: the decision rules behind the particle view

particle-verse turns an image, a cubemap, a line of text, a 3D model or
nothing at all into a cloud of particles. It animates the cloud with
switchable effects and lets the user push it around with tracked hands.
Under the React and three.js surface sits a set of small, sequential
rules, and this project states them in Dafny and proves what they
guarantee:

- **ParticleSystem.tsx.** The per-frame part:
  - the four-stage effect switch (idle, fade out, show nothing, fade in);
  - the exponential smoothing of sizes, colours and radii;
  - the buffer-transition progress;
  - the enum-to-index maps;
  - `updateUniforms`, which overwrites the smoothed hand positions.
- **particleShaders.ts.** The shaders, over reals:
  - the effect dispatch with its rotate branch;
  - the gesture-dependent hand force with quadratic falloff;
  - the lighting glow and its clamp;
  - the point-size clamp;
  - the base/target mix;
  - the fragment colour modes, edge alpha and discard.
- **HandTracker.tsx.** The gesture classifier over 21 landmarks, the landmark-to-scene mapping, and the per-hand dispatch of `onResults`.
- **useAppStore.ts.** The field-merging updates, the setters, `togglePanel`, `reset` and the persisted projection.
- **particleGenerator.ts and Scene.tsx.** The particle sources:
  - pixel filtering and the strided sampler;
  - the default, image, text and model generators;
  - the scene's source dispatch and skip rules;
  - first-load versus target placement;
  - the count-adjusted buffer;
  - the failure fallback and target promotion.
- **security.ts.** Escaping, `sanitizeInput`, truncation, the extension and content-type checks, `sanitizePath`, the rate limiter, the UUID check (layout of sections 4.1.1 and 4.1.3 of RFC 4122), field filtering and the magic-number check.
- **The panels.** File validation, text submission, cubemap face removal and type switching (SourcePanel), the `mm:ss` clock, MIME fallback and bitrate (RecordPanel), and the count clamp (ParticlePanel).
- **locales/index.ts.** The translation fallback chain and `{name}` substitution.

The modules follow the source files. Common and Text hold shared vectors
and string helpers, including the UTF-16 length that JavaScript measures
strings by. Kinds holds the enumerations and their shader indices.
Sanitize holds the regex-free scans that `sanitizeInput` and
`sanitizePath` are built from. Everything is a pure function over
immutable datatypes, except five methods:

- `HandTracker.OnResults` and `ParticleGenerator.ScanCanvas` have loops and carry loop invariants;
- `ParticleGenerator.FromImage`, `FromText` and `LoadImage` are methods because they call `ScanCanvas`; they build their results with sequence comprehensions.

Anything the source
reads from the outside world is a parameter. That covers:

- the frame length `delta` and the clock `time`;
- `Math.random` values;
- sine and cosine values;
- MediaPipe landmarks;
- decoded pixels;
- the browser's codec support;
- `Date.now()`;
- the translation tables;
- the colour-string parser.

## Model

| member | source | states |
|---|---|---|
| Kinds.EffectIndexRoundTrip | src/components/three/ParticleSystem.tsx:9-21 | effects map one-to-one onto 0..10: every effect reads back from its index, and exactly the indices 0..10 decode |
| Kinds.ColorModeIndexRoundTrip | src/components/three/ParticleSystem.tsx:23-29 | colour modes map one-to-one onto 0..4 |
| Kinds.LightingModeIndexRoundTrip | src/components/three/ParticleSystem.tsx:31-38 | lighting modes map one-to-one onto 0..5: every index in range decodes to the mode that encodes to it |
| Kinds.GestureIndexRoundTrip | src/components/three/ParticleSystem.tsx:40-47 | gestures map one-to-one onto 0..5: every index in range decodes to the gesture that encodes to it |
| EffectSwitch.OnEffectChange | src/components/three/ParticleSystem.tsx:128-138 | a switch starts only from idle and only for an effect other than the last one shown; starting records the target, enters fade-out at progress 0, and otherwise nothing changes |
| EffectSwitch.Advance | src/components/three/ParticleSystem.tsx:333-336 | stage progress never exceeds 1 and, for non-negative frame length and speed, never decreases |
| EffectSwitch.Frame | src/components/three/ParticleSystem.tsx:332-378 | stages move only fade-out to show-nothing to fade-in to idle; the shown effect is the previous one at intensity·(1-p) while fading out, nothing at 0 in between, and the target at intensity·p while fading in; progress restarts at each move; when idle the store's effect and intensity are shown as they are; the fraction invariant is kept |
| EffectSwitch.ShownIntensityBounded | src/components/three/ParticleSystem.tsx:338-366 | the intensity sent to the shader always lies in [0, effectIntensity] |
| EffectSwitch.TargetFixedDuringSwitch | src/components/three/ParticleSystem.tsx:128-138 | over any run of frames and store changes during which a switch is under way, its target never changes, so an effect picked mid-switch is never faded in |
| EffectSwitch.SwitchSequence | src/components/three/ParticleSystem.tsx:344-373 | with frames long enough to finish a stage at once, switching from a to b draws no effect on the first frame and on the second, then b at full intensity on the third, which leaves the switch idle with b as the displayed effect |
| Smoothing.Factor | src/components/three/ParticleSystem.tsx:390-391 | the lerp factor is at most 1, non-negative for non-negative inputs, and exactly 1 when the frame's product reaches 1 |
| Smoothing.Smooth | src/components/three/ParticleSystem.tsx:391 | one step scales the remaining distance to the target by 1 - f |
| Smoothing.SmoothStep | src/components/three/ParticleSystem.tsx:397-400 | a step with a factor in [0, 1] lands between the old value and the target, leaves a value already at the target alone, and reaches the target exactly when the factor is 1 |
| Smoothing.SmoothNDistance | src/components/three/ParticleSystem.tsx:411-430 | n frames with a fixed factor leave the distance to the target multiplied by (1 - f)^n |
| Smoothing.BufferProgress | src/components/three/ParticleSystem.tsx:433-439 | the transition progress moves only while target buffers exist, grows by delta·speed, and is capped at 1 |
| Smoothing.BufferProgressMonotone | src/components/three/ParticleSystem.tsx:433-439 | from a fraction, the transition progress stays in [0, 1] and never decreases |
| ParticleFrame.UpdateUniforms | src/components/three/ParticleSystem.tsx:245-302 | the hand uniforms get the store's raw hands (zero when absent or tracking is off); gesture and lighting mode become their indices; time, effect, intensity, transition progress and float offset are left alone |
| ParticleFrame.Step | src/components/three/ParticleSystem.tsx:305-447 | after a frame, the hand uniforms hold the raw hands; the transition uniform follows the buffer progress only while targets exist; the float offset moves only under the float effect; size, opacity, colour mode, colour and radius uniforms equal the smoothed refs |
| ParticleFrame.SmoothedHandsNeverShown | src/components/three/ParticleSystem.tsx:280-290 | whatever the smoothed hand refs hold, two systems stepped with the same store show the same hand uniforms |
| ParticleFrame.StepPreservesValid | src/components/three/ParticleSystem.tsx:305-447 | for non-negative frame length and speed, both progress counters stay fractions and the smoothed point size ends between its old value and the store's size |
| ParticleFrame.IdleShowsStoreEffect | src/components/three/ParticleSystem.tsx:374-378 | with no switch under way, the shader gets exactly the store's effect index and intensity |
| ParticleFrame.OnTargetsChange | src/components/three/ParticleSystem.tsx:451-453 | new target buffers reset the transition progress to 0 and change nothing else the frame reads |
| ParticleFrame.TargetChangeRestartsTransition | src/components/three/ParticleSystem.tsx:433-453 | the first frame after new targets shows progress min(delta·speed, 1), whatever the progress was before |
| ParticleFrame.BuildGeometry | src/components/three/ParticleSystem.tsx:180-207 | original and current positions are the given positions; given targets and target colours are used as they are, and missing ones fall back to copies of the current positions and colours |
| ParticleFrame.OnPositionsChange | src/components/three/ParticleSystem.tsx:175-177 | the store learns the particle count and nothing else |
| VertexShader.RotatedKeepsLength | src/shaders/particleShaders.ts:170-201 | rotating about any selection of axes with a valid (cos, sin) pair keeps a point's distance from the origin |
| VertexShader.ApplyEffect | src/shaders/particleShaders.ts:104-212 | effect 0 and unknown indices return the position untouched |
| VertexShader.RotateEffectProperties | src/shaders/particleShaders.ts:170-201 | the rotate effect ignores the incoming position; it returns the original position at intensity 0 or with no axis selected, and the fully rotated point at intensity 1 |
| VertexShader.Falloff | src/shaders/particleShaders.ts:222-224 | inside the radius the falloff lies in (0, 1], and it is 1 at the hand itself |
| VertexShader.GestureStrength | src/shaders/particleShaders.ts:227-233 | gesture 1 repels by repulsion·50; gestures 2 and 3 attract by attraction·30 and ·50; any other gesture exerts no force |
| VertexShader.HandPushIsScaledDirection | src/shaders/particleShaders.ts:214-257 | a reaching hand moves the particle along its direction vector by falloff times gesture strength |
| VertexShader.HandPushDirection | src/shaders/particleShaders.ts:218-252 | the push points away from the hand for gesture 1 and towards it for gestures 2 and 3 |
| VertexShader.ApplyHandInteraction | src/shaders/particleShaders.ts:214-257 | a position no hand reaches is left where it is |
| VertexShader.LightingGlow | src/shaders/particleShaders.ts:260-306 | the glow always lies in [0, 1], is 0 for mode 0 and unknown modes, and the clamp leaves an in-range raw glow unchanged |
| VertexShader.RawGlowWithinIntensity | src/shaders/particleShaders.ts:265-305 | with intensity in [0, 1], every mode's raw glow already lies in [0, intensity], so the clamp never changes it |
| VertexShader.SweepRanges | src/shaders/particleShaders.ts:270-288 | the sweep and ripple positions computed with GLSL `mod` stay inside their bands for any time |
| VertexShader.PointSize | src/shaders/particleShaders.ts:333-338 | with glow in [0, 1] the point size lies in [1, 75] and is never below the clamped base size |
| VertexShader.TransitionMix | src/shaders/particleShaders.ts:310-343 | base position and colour are the originals at progress 0 and the targets at progress 1; with equal ends the position never moves |
| VertexShader.Vertex | src/shaders/particleShaders.ts:308-346 | every vertex gets a point size in [1, 75] and a glow in [0, 1]; its colour is the transition mix |
| FragmentShader.EdgeAlpha | src/shaders/particleShaders.ts:373 | edge alpha lies in [0, 1]: fully opaque up to 0.3 from the centre and transparent from 0.5 on |
| FragmentShader.ModeColor | src/shaders/particleShaders.ts:377-408 | the gradient runs from the primary to the secondary colour over distance 0 to 500; rainbow and temperature colours are unit colours; temperature runs hot to cold; monochrome scales the primary colour by luminance; mode 0 and unknown modes keep the vertex colour |
| FragmentShader.MonochromeInRange | src/shaders/particleShaders.ts:398-401 | monochrome keeps unit colours in range |
| FragmentShader.Shade | src/shaders/particleShaders.ts:352-421 | a fragment is discarded exactly when it lies more than 0.5 from the centre; the alpha of a kept fragment lies in [0, 1.3·opacity]; its colour is that of the mode the `int` uniform holds (the smoothed index truncated toward zero), brightened by the primary colour times 1.5·glow plus the exponential glow |
| FragmentShader.TruncatedModeNeverArrives | src/components/three/ParticleSystem.tsx:388-392 | as written: a colour mode approached from below with a factor under 1 is never displayed, because the smoothed index is truncated to an int |
| FragmentShader.GradientNeverShownExample | src/shaders/particleShaders.ts:352 | as written: switching from the original colours to gradient at 60 frames a second and the default transition speed (factor 1/60) keeps showing the original colours on every frame |
| FragmentShader.ShownModeSettles | src/components/three/ParticleSystem.tsx:388-392 | corrected: rounding the smoothed index shows the chosen mode after a bounded number of frames |
| FragmentShader.ShownModeStable | src/components/three/ParticleSystem.tsx:388-392 | corrected: once within half a step of the chosen mode, rounding keeps showing it on every later frame |
| HandTracker.Extended | src/components/hand/HandTracker.tsx:57-65 | the thumb counts as extended when its tip is left of its joint; each other finger counts when its tip is above its middle joint |
| HandTracker.PinchBySquare | src/components/hand/HandTracker.tsx:71-79 | comparing the squared pinch distance with 0.0025 decides the same as comparing the distance with 0.05 |
| HandTracker.DetectGesture | src/components/hand/HandTracker.tsx:54-92 | fewer than 21 landmarks gives no gesture; a pinch wins over every finger pattern |
| HandTracker.GestureByFingers | src/components/hand/HandTracker.tsx:77-91 | exact conditions for each gesture: pinch; open (4 or more fingers); closed (1 or fewer); point (thumb and index only); peace (index and middle with ring and pinky folded) |
| HandTracker.LandmarkTo3DRoundTrip | src/components/hand/HandTracker.tsx:95-102 | for non-zero sensitivity the landmark mapping is invertible, and the image centre maps to the scene origin |
| HandTracker.LastOnSide | src/components/hand/HandTracker.tsx:114-125 | finds the last hand labelled for a side, or reports that there is none |
| HandTracker.OnResults | src/components/hand/HandTracker.tsx:113-181 | with no hands both slots are cleared and the gesture reset; otherwise each side gets the palm of the last hand labelled for it (exactly "Left" for left, anything else for right) or keeps its old value, and the gesture is the last hand's when gestures are enabled; only these three fields change |
| AppStore.UpdateParticleSettings | src/store/useAppStore.ts:270-273 | each supplied particle field is taken, every other one kept, and no other state field changes |
| AppStore.UpdateVisualSettings | src/store/useAppStore.ts:275-278 | the same merge for the visual group |
| AppStore.UpdateHandSettings | src/store/useAppStore.ts:280-283 | the same merge for the hand group |
| AppStore.UpdateRotationSettings | src/store/useAppStore.ts:285-288 | the same merge for the rotation group |
| AppStore.UpdateFloatSettings | src/store/useAppStore.ts:290-293 | the same merge for the float group |
| AppStore.UpdateLightingSettings | src/store/useAppStore.ts:295-301 | merges into the nested lighting settings; every other visual field and every other state field is kept |
| AppStore.UpdateUISettings | src/store/useAppStore.ts:303-306 | the same merge for the UI group |
| AppStore.UpdateRecordingSettings | src/store/useAppStore.ts:308-311 | the same merge for the recording group |
| AppStore.SetSourceData | src/store/useAppStore.ts:264 | sets the source data and nothing else |
| AppStore.SetError | src/store/useAppStore.ts:266 | sets the error and nothing else |
| AppStore.SetHandPosition | src/store/useAppStore.ts:313-314 | the left side changes only the left hand, the right side only the right hand |
| AppStore.TogglePanelTwice | src/store/useAppStore.ts:317 | toggling the panel twice restores the state |
| AppStore.Reset | src/store/useAppStore.ts:324-342 | reset writes exactly the listed fields, and on those fields the result equals the initial state |
| AppStore.ResetKeepsRuntimeFields | src/store/useAppStore.ts:324-342 | hands, gesture, panel visibility, active tab, fps and particle count survive a reset, and resetting the initial state changes nothing |
| AppStore.PersistedDependsOnlyOnSettings | src/store/useAppStore.ts:346-354 | any change that avoids the seven settings groups leaves the persisted projection unchanged |
| AppStore.RuntimeActionsNotPersisted | src/store/useAppStore.ts:263-316 | source, effect, hand-position and gesture actions never change what is persisted |
| AppStore.ResetPersistsDefaults | src/store/useAppStore.ts:237-354 | after a reset the persisted projection is that of the initial state |
| ParticleGenerator.DefaultColorRange | src/utils/particleGenerator.ts:27-30 | default colours for radii in [0, 150) are unit colours whose red and green grow with the radius |
| ParticleGenerator.DefaultParticles | src/utils/particleGenerator.ts:7-34 | the default cloud has the requested count of matching positions and colours, each coloured by its radius |
| ParticleGenerator.Downscale | src/utils/particleGenerator.ts:56-64 | both sides end at most 256, never grow, and are kept when both already fit |
| ParticleGenerator.ScaledSide | src/utils/particleGenerator.ts:56-64 | an oversize image is scaled by a ratio in [0, 1) that is the same whichever side is longer |
| ParticleGenerator.ScanExactlyKept | src/utils/particleGenerator.ts:77-96 | the row-major scan yields exactly the centred records of the pixels the filter keeps |
| ParticleGenerator.ScanCanvas | src/utils/particleGenerator.ts:77-96 | the nested row and column loops compute the same list as the scan over the flat pixel sequence |
| ParticleGenerator.StrideInRange | src/utils/particleGenerator.ts:99-108 | every sampled index i·step is inside the found list, so the clamp on the index never fires |
| ParticleGenerator.StrideOne | src/utils/particleGenerator.ts:99-100 | when no more pixels are found than the budget allows, the step is 1 |
| ParticleGenerator.SampleAt | src/utils/particleGenerator.ts:107-108 | the i-th sample is the found item at i·step |
| ParticleGenerator.SampleAll | src/utils/particleGenerator.ts:99-108 | within the budget every found item is emitted exactly once, in scan order |
| ParticleGenerator.PixelColor | src/utils/particleGenerator.ts:89-92 | a pixel's channels become a unit colour |
| ParticleGenerator.FromImage | src/utils/particleGenerator.ts:37-131 | the image cloud holds min(max, found) particles, each at its pixel's centred position (with depth jitter) and coloured by the pixel |
| ParticleGenerator.LoadImage | src/utils/particleGenerator.ts:45-123 | the generation never settles exactly when a downscaled side is 0 (the pixel read throws inside the load handler); otherwise it delivers the image cloud of the downscaled pixels |
| ParticleGenerator.ThinImageNeverSettles | src/utils/particleGenerator.ts:56-71 | a 1000 by 1 image scales to 256 by 0, so even a non-empty image can leave its generation unsettled |
| ParticleGenerator.FoundPixelsOpaque | src/utils/particleGenerator.ts:86 | every pixel the image filter keeps has alpha above 50 and comes from the canvas |
| ParticleGenerator.TextCanvas | src/utils/particleGenerator.ts:147-154 | the text canvas is between 40 and 840 wide and 220 high |
| ParticleGenerator.TextShade | src/utils/particleGenerator.ts:204-207 | the colour parameter of a text particle is its column over the width, in [0, 1), and gives a unit colour |
| ParticleGenerator.FromText | src/utils/particleGenerator.ts:134-211 | the text cloud samples the bright pixels (mean channel above 128) and colours each by its column |
| ParticleGenerator.CollectUncolored | src/utils/particleGenerator.ts:246-257 | a single mesh without colours gives its vertices scaled by 50, all in the default model colour |
| ParticleGenerator.CollectPlaces | src/utils/particleGenerator.ts:230-258 | for any meshes, vertex j of mesh k lands after all vertices of the earlier meshes, scaled by 50, with its own colour when the mesh has a colour attribute and the default (0.5, 0.7, 1.0) otherwise |
| ParticleGenerator.CollectCount | src/utils/particleGenerator.ts:230-258 | the collected cloud holds exactly as many particles as the meshes have vertices |
| ParticleGenerator.FromModelSmall | src/utils/particleGenerator.ts:262-280 | a model within the budget keeps all its collected vertices |
| ParticleGenerator.FromModel | src/utils/particleGenerator.ts:262-280 | the model cloud has min(max, collected) matching positions and colours |
| Scene.Dispatch | src/components/three/Scene.tsx:80-111 | image with a string uses the image generator; cubemap with a list uses its first element; text with a string uses the text generator; model, default and mismatched data use the default generator |
| Scene.NearCentreBounded | src/components/three/Scene.tsx:136-138 | a new particle's starting position lies within ±5 of the origin on each axis |
| Scene.AdjustGrowing | src/components/three/Scene.tsx:119-145 | when the count grows, the added particles take the new colour and start near the origin |
| Scene.AdjustShrinking | src/components/three/Scene.tsx:119-145 | when the count shrinks, the current buffers are cut to the new count, keeping position and colour |
| Scene.Place | src/components/three/Scene.tsx:113-153 | on first load the result becomes current with no target; otherwise it becomes the target and, when no adjustment applies, the current buffers stay |
| Scene.ImageOutcome | src/utils/particleGenerator.ts:41-123 | an image load that never settles is a pending outcome, any other delivers its buffers |
| Scene.Generate | src/components/three/Scene.tsx:35-168 | buffers stay well formed; only loading and error change in the store; loading is off after any real generation whose generator settles, and stays on with the scene untouched when it never settles |
| Scene.GenerateStalls | src/components/three/Scene.tsx:74-91 | a generator that never settles leaves loading on with no error and the scene and recorded selection untouched, so running again for the same store changes nothing |
| Scene.SkipWhenShown | src/components/three/Scene.tsx:38-72 | a request equal to the last one generated changes nothing |
| Scene.GenerateRecords | src/components/three/Scene.tsx:35-168 | a generation that runs and whose generator settles ends with loading off; the default path and every success record their request as the last one, while a failure keeps the old record and reports the failure message |
| Scene.DefaultPathKeepsCurrent | src/components/three/Scene.tsx:53-58 | on the default path an existing current buffer is kept, without count adjustment, and the result becomes the target |
| Scene.GenerateSuccess | src/components/three/Scene.tsx:113-155 | a successful generation clears the error and places the generator's result |
| Scene.GenerateFailure | src/components/three/Scene.tsx:156-164 | a failed generation sets the error, makes the default buffers current and drops the target |
| Scene.PromoteIdempotent | src/components/three/Scene.tsx:171-180 | promotion leaves no target, so promoting again changes nothing |
| Text.Utf16Length | src/components/ui/panels/SourcePanel.tsx:139-141 | JavaScript's length of a text lies between its number of characters and twice that |
| Text.Utf16LengthIsSize | src/utils/security.ts:141 | the JavaScript length equals the number of characters exactly when no character needs a surrogate pair |
| Text.Utf16Prefix | src/utils/security.ts:142 | the cut point is the longest prefix whose UTF-16 length fits the budget: the next character would exceed it |
| Text.BmpPrefix | src/utils/security.ts:142 | on text without surrogate pairs the cut point is the budget clamped to [0, length] |
| Sanitize.EscapeRoundTrip | src/utils/security.ts:7-19 | escaping loses no information: reading the entities back recovers the text |
| Sanitize.EscapeHtml | src/utils/security.ts:7-19 | the escaped text contains no special character other than `&`, and is never shorter than the input |
| Sanitize.EscapePlain | src/utils/security.ts:7-19 | text without special characters is returned as it is |
| Sanitize.StripTags | src/utils/security.ts:26 | tag removal never lengthens the text, adds no characters, and leaves no `<` with a `>` after it |
| Sanitize.RemoveCharsKeepsOthers | src/utils/security.ts:35-39 | character-class removal keeps the count of every other character, and text without listed characters is unchanged |
| Sanitize.NoDoubleDotAfterRemoval | src/utils/security.ts:40 | removing `..` left to right leaves no two adjacent dots |
| Sanitize.KeywordAt | src/utils/security.ts:36 | a keyword match is a whole word: a listed keyword, ignoring case, with no word character on either side; no match means no listed keyword is there |
| Sanitize.CollapseProperties | src/utils/security.ts:43 | after collapsing, no two white-space characters are adjacent, and no new dot pairs appear |
| Sanitize.SanitizeInputGuarantees | src/utils/security.ts:22-46 | the output has none of the quote, statement and shell characters, no `..`, no white space at either end or twice in a row, and is never longer than the input |
| Security.TruncateInput | src/utils/security.ts:139-142 | input whose UTF-16 length is within the limit comes back unchanged; otherwise the result is the longest prefix of the input that fits in the limit |
| Security.TruncateProperties | src/utils/security.ts:139-142 | a cut result is shorter than the input and at most one code unit below the limit; on text without surrogate pairs it is exactly the first max characters, none for a negative max; truncating twice changes nothing |
| Security.AllowedByExtension | src/utils/security.ts:60-63 | a name is allowed exactly when its last dot-separated segment is non-empty and its lower-cased form, dot-prefixed, is listed |
| Security.ContentTypeIgnoresParameters | src/utils/security.ts:203-206 | parameters after the first `;` never affect the content-type check |
| Security.SanitizePath | src/utils/security.ts:192-200 | the path never grows and contains none of `< > : " \| ? *` |
| Security.PathTraversalSurvives | src/utils/security.ts:194-198 | as written: `.:.` (and any special character between two dots) comes out as `..` |
| Security.AbsolutePathSurvives | src/utils/security.ts:196-198 | as written: a special character before a separator hides it from the leading-separator strip, so the output starts with `/` |
| Security.SafePathGuarantees | src/utils/security.ts:192-200 | corrected order: the path is relative, has no `..` and has none of the special characters |
| Security.CheckRateLimit | src/utils/security.ts:120-137 | other keys are untouched, the key always has a record afterwards, and a refusal changes nothing |
| Security.WithinWindow | src/utils/security.ts:126-136 | calls inside an open window succeed at most max minus the recorded count times, each success counts once, and the window end stays |
| Security.AtMostMaxPerWindow | src/utils/security.ts:120-137 | a window opened by a call admits at most max(maxRequests, 1) successful calls |
| Security.UuidByGroups | src/utils/security.ts:169-172 | a UUID is valid exactly when it has 36 characters in 8-4-4-4-12 hexadecimal groups joined by dashes, version digit 1 to 5 and variant digit 8, 9, a or b, in either case |
| Security.JoinedGroupsValid | src/utils/security.ts:169-172 | joining five well-formed groups always gives a valid UUID |
| Security.FilterFields | src/utils/security.ts:155-166 | the filtered object holds exactly the allowed keys the object has, its own or inherited from its prototype, with the value a read of that key returns |
| Security.FilterFieldsProperties | src/utils/security.ts:155-166 | filtering is idempotent under the same prototype; without a prototype it keeps exactly the allowed own keys; an object whose own keys are all allowed and which inherits no allowed key it lacks comes back unchanged |
| Security.SignatureFrom | src/utils/security.ts:90-95 | the loop accepts exactly when some applicable signature's bytes prefix the file |
| Security.MagicSound | src/utils/security.ts:76-110 | an accepted file starts with a known signature, or is a `.gltf` starting with `{` |
| Security.PngAccepted | src/utils/security.ts:80-93 | a file declared PNG with the PNG signature is accepted, whatever its name |
| SourcePanel.FileError | src/components/ui/panels/SourcePanel.tsx:35-56 | a file over 10 MiB is too large; otherwise it fails exactly when no allowed entry accepts it |
| SourcePanel.ValidateFile | src/components/ui/panels/SourcePanel.tsx:35-56 | a file passes exactly when it has no error, and a failure reports its message through the store |
| SourcePanel.ImageFiles | src/components/ui/panels/SourcePanel.tsx:18-20 | images pass exactly when they are at most 10 MiB and declare one of the four image types |
| SourcePanel.ModelFiles | src/components/ui/panels/SourcePanel.tsx:19-48 | models pass exactly when they are at most 10 MiB and their lower-cased name ends in `.glb` or `.gltf`, whatever MIME type is declared |
| SourcePanel.SubmittedTextIsClean | src/components/ui/panels/SourcePanel.tsx:137-144 | text that reaches the source data is non-empty, at most 50 UTF-16 code units long, and free of everything the sanitiser removes |
| SourcePanel.SubmitText | src/components/ui/panels/SourcePanel.tsx:137-144 | sanitised text of 1 to 50 UTF-16 code units becomes the source; longer text reports `textTooLong`; empty text does nothing |
| SourcePanel.DropIndexIsSplice | src/components/ui/panels/SourcePanel.tsx:148 | the index filter removes exactly the image at that index and keeps the order of the rest; an index outside the list removes nothing |
| SourcePanel.RemoveCubemapImage | src/components/ui/panels/SourcePanel.tsx:147-153 | one face is removed, and fewer than six left clears the source data |
| SourcePanel.RemovingAFaceClearsSix | src/components/ui/panels/SourcePanel.tsx:147-153 | removing a face from a full set always clears the source data |
| SourcePanel.ChangeType | src/components/ui/panels/SourcePanel.tsx:156-161 | the new type is set with no data, the panel's text and faces are emptied, and nothing else in the store changes |
| SourcePanel.ChangeTypeResets | src/components/ui/panels/SourcePanel.tsx:156-161 | a second type change changes only the type |
| RecordPanel.DecimalRoundTrip | src/components/ui/panels/RecordPanel.tsx:37 | decimal printing reads back to the number, with one digit exactly below 10 and at most two below 100 |
| RecordPanel.FormatTimeRoundTrip | src/components/ui/panels/RecordPanel.tsx:34-38 | the clock text is digits around one colon, has a seconds field below 60, reads back as the seconds it was made from, and is five characters exactly below 100 minutes |
| RecordPanel.SupportedMime | src/components/ui/panels/RecordPanel.tsx:74-88 | the chosen type is supported or empty; it is the preferred type whenever that is supported; it is empty only when neither the preferred type nor plain WebM is supported |
| RecordPanel.WebmIsEnough | src/components/ui/panels/RecordPanel.tsx:79-83 | a browser that records plain WebM always gets a type, and the fallback is used exactly when the preferred type is refused |
| RecordPanel.BitrateMonotone | src/components/ui/panels/RecordPanel.tsx:93 | the bitrate grows with quality, and the default quality records at 9 Mbit/s |
| RecordPanel.StartRecording | src/components/ui/panels/RecordPanel.tsx:48-131 | a recorder starts exactly when the canvas exists, some type is supported and neither the stream capture nor the recorder throws; a missing canvas or codec shows its message, a throw shows `startFailed`, and a failure changes nothing but the error; a start sets recording on, clears the error, restarts the clock and drops the last recording |
| RecordPanel.StartedRecorderFollowsSettings | src/components/ui/panels/RecordPanel.tsx:74-93 | a started recorder uses the preferred type when supported, and the settings' bitrate and frame rate |
| ParticlePanel.ClampCount | src/components/ui/panels/ParticlePanel.tsx:14-17 | the count is in [1000, 200000], kept when already in range, and pushed to the nearest bound otherwise |
| ParticlePanel.ClampCountProperties | src/components/ui/panels/ParticlePanel.tsx:15 | clamping is idempotent and picks the in-range count nearest to the input |
| ParticlePanel.CountInRangeAfterChange | src/components/ui/panels/ParticlePanel.tsx:14-17 | after any slider change the stored count is in range and equals the clamp of the last value |
| Locales.GetTranslation | src/locales/index.ts:37-40 | the chosen language's non-empty entry wins; otherwise the English entry; otherwise the key itself; a non-empty key never translates to the empty string |
| Locales.ReplaceFirstAt | src/locales/index.ts:46-50 | a placeholder replaces its first occurrence only |
| Locales.ReplaceFirstKeepsLater | src/locales/index.ts:46-50 | a later occurrence of the same placeholder survives the replacement, shifted by the length change |
| Locales.SubstituteNoPlaceholders | src/locales/index.ts:43-53 | text without any parameter's placeholder is returned unchanged |
| Locales.TWithLangIsT | src/locales/index.ts:43-66 | translating in a given language equals translating after switching to it, and an empty parameter list equals none |
| Locales.SetLanguage | src/locales/index.ts:29-35 | the language read back is the one just set |

## Left out

- Drawing, rendering and the browser. Out of scope:
  - React rendering and three.js object management;
  - the `materialRef` null check;
  - bounding spheres and `randomOffset` attributes;
  - MediaPipe set-up and the camera;
  - the debug canvas drawing in `onResults`, including its early return on a missing canvas or 2D context;
  - FileReader and dropzone plumbing;
  - MediaRecorder events, `stopRecording`, the recording timer and audio capture.
- Outside-world values are parameters, not computations. This covers:
  - `Math.random`, `Date.now()`, `setTimeout` and `setInterval`;
  - sin, cos, `length`, `normalize` and `exp` values in the shaders;
  - image decoding and canvas text rendering, which become pixel sequences;
  - GLTF loading and `applyMatrix4`: model vertices arrive in world coordinates;
  - THREE.Color string parsing, which is the `toRgb` parameter.
- Effects 1 to 8 and 10 of `applyEffect`: their trigonometric and noise fields are the `field` input. Only the dispatch and the rotate branch are stated.
- `colorTransitionRef` and `lightingTransitionRef` (ParticleSystem.tsx) are updated but never read, so they are not modelled.
- Scene's previous-source comparison is modelled as value equality. The source compares arrays by reference, so a cubemap list that is equal but newly built would not be skipped there.
- Numbers are modelled as unbounded reals and integers:
  - there is no float rounding;
  - the Float32Array buffers are sequences of vectors;
  - `parseInt` NaN handling in the panels is not modelled.
- Not modelled from security.ts: `isValidUrl`, `isSafeRedirectUrl`, `generateCSRFToken`, `safeStorage`, `safeJsonParse`, `withRetryLimit`, `debounce` and `throttle`. They wrap browser APIs or timers. `isValidMimeType` and `isFileSizeValid` are plain list and comparison checks, and SourcePanel's file check covers the same ground. The `file.slice(0, 8)` read of the magic check is replaced by the byte prefix as input.
- Sanitize.SanitizeInput: `javascript:` is not proved absent from the output. The removals can rebuild it (for example `javajavascript:script:`), so the source does not promise it. The `typeof input !== 'string'` guard cannot fail for a Dafny string.
- Text.LowerChar: lowercasing folds ASCII letters only. The same holds for the case-insensitive matches built on it: `Text.CiOccursAt`, `Sanitize.KeywordAt`, the `javascript:` and `on…=` removals (`Sanitize.RemoveLiteral`, `Sanitize.RemoveHandlers`), `Security.IsAllowedFileType` and `SourcePanel.EntryAccepts`. Unicode case folding is not modelled.
- ParticleGenerator.FromImage: it takes the downscaled pixel data and needs both sides positive. A zero side, where the source's pixel read throws inside the load handler, is modelled by `ParticleGenerator.LoadImage` and the pending outcome of `Scene.Generate`.
- Scene.Generate: each run is atomic. In the source a change of source type, source data or count starts a new asynchronous run while an earlier one may still be waiting on its image (Scene.tsx:83 and 91). Overlapping runs, which can finish out of order and let an older result overwrite a newer one, are not modelled.
- HandTracker.OnResults: it requires every tracked hand to have at least ten landmarks, because the source reads landmark 9 unchecked. MediaPipe always supplies 21.
- RecordPanel.FormatTimeRoundTrip: the clock input is a natural number of seconds, because the panel's counter only counts whole seconds up from 0. Fractional or negative inputs to `formatTime` are not modelled.
- FragmentShader.GradientNeverShownExample: the smoothed index is an exact real. The source adds doubles, which is not modelled. With the factor 1/60 the double sequence also stops below 1, because once the gap to 1 is one unit in the last place the step is under half of it. A factor of 0.5, by contrast, rounds up to exactly 1 on frame 54.
- Security.TruncateInput: when the cut falls between the two halves of a surrogate pair, the source keeps the lone high surrogate. The model ends before that character, one code unit short, because a Dafny string holds only whole characters.
- Security.FilterFields: an allowed `__proto__` key is treated as an ordinary key. In the source the assignment replaces the result's prototype instead of adding a field. Getters that run on the read are not modelled either.
- RecordPanel.StartRecording: the recorder's asynchronous `onerror` and `onstop` handlers, and a `getUserMedia` failure that the source catches and ignores, are not modelled.
- FragmentShader.ShownModeSettles: the bound on frames uses a factor fixed over the frames. The source recomputes the factor from each frame's delta.
- The zustand persist and devtools middleware, `next.config.js`, the layout, the theme provider and the other panels are not part of this model.

## Findings

| source | as written | input that shows it | evidently intended | confidence | as-written member | corrected member |
|---|---|---|---|---|---|---|
| src/components/three/ParticleSystem.tsx:388-392 with src/shaders/particleShaders.ts:352 | the smoothed colour-mode index, a real that approaches the chosen mode geometrically, is written into the `int` uniform `uColorMode` and so truncated | switching from original (0) to gradient (1) at 60 frames a second and the default speed 0.5, a factor of 1/60: the index runs 1/60, 0.033, 0.049, … below 1 and truncates to 0 on every frame, so gradient is never shown (in exact arithmetic; in doubles the index stalls below 1, as each step adds less than half a unit in the last place once the gap is one unit) | the chosen mode appears once the smoothed index is close to it (rounding) | not executed | FragmentShader.TruncatedModeNeverArrives, FragmentShader.GradientNeverShownExample, FragmentShader.TruncatedColorMode | FragmentShader.ShownColorMode, FragmentShader.ShownModeSettles, FragmentShader.ShownModeStable |
| src/utils/security.ts:192-200 | `..` is removed before the leading separators and special characters, so removing a special character can rebuild what the earlier steps took out | `.:.` gives `..`; `</etc` gives `/etc` | a relative path with no `..` and none of the special characters | not executed | Security.SanitizePath, Security.PathTraversalSurvives, Security.AbsolutePathSurvives | Security.SafePath, Security.SafePathGuarantees |
