/** The particle generators with their foreign parts taken out: image
    decoding, text rasterisation and model loading are inputs (pixel and
    vertex sequences), and `Math.random()` draws are functions of the
    particle index. What remains is the downscale rule, the pixel filters,
    the integer-stride sampler and the centring and colour formulas. */
module ParticleGenerator {
  import opened Common

  /** A generator result: one position and one colour per particle (the
      source packs each into a flat array of three floats per particle). */
  datatype Buffers = Buffers(positions: seq<Vec3>, colors: seq<Vec3>) {
    predicate WellFormed() { |positions| == |colors| }
    function Count(): nat { |positions| }
  }

  /** A byte of canvas pixel data. */
  type Byte = x: int | 0 <= x < 256

  /** One RGBA pixel of `getImageData`, whose flat array holds four bytes
      per pixel in row-major order. */
  datatype Rgba = Rgba(r: Byte, g: Byte, b: Byte, a: Byte)

  // ------------------------------------------------------------ defaults

  /** The colour of a default particle at distance `radius` from the
      centre. */
  function DefaultColor(radius: real): Vec3 {
    var t := radius / 150.0;
    Vec3(0.05 + t * 0.5, 0.4 + t * 0.4, 0.9)
  }

  /** Every default colour is a valid colour, and the red and green
      channels grow with the radius. */
  lemma DefaultColorRange(radius: real, other: real)
    requires 0.0 <= radius < 150.0 && radius <= other < 150.0
    ensures UnitColor(DefaultColor(radius))
    ensures DefaultColor(radius).x <= DefaultColor(other).x
    ensures DefaultColor(radius).y <= DefaultColor(other).y
  {
  }

  /** `generateDefaultParticles(count)`: particle `i` sits at
      `direction(i) * radius(i)`, where `radius(i)` is `Math.random() * 150`
      and `direction(i)` the unit vector drawn from the two angles. */
  function DefaultParticles(count: nat, radius: nat -> real, direction: nat -> Vec3): (b: Buffers)
    ensures b.WellFormed() && b.Count() == count
    ensures forall i :: 0 <= i < count ==>
      b.positions[i] == Scale(direction(i), radius(i)) && b.colors[i] == DefaultColor(radius(i))
  {
    Buffers(seq(count, i requires 0 <= i => Scale(direction(i), radius(i))),
            seq(count, i requires 0 <= i => DefaultColor(radius(i))))
  }

  /** With every draw in [0, 1) every default particle gets a valid
      colour. */
  lemma DefaultParticlesColored(count: nat, unit: nat -> real, direction: nat -> Vec3)
    requires forall i :: 0.0 <= unit(i) < 1.0
    ensures var b := DefaultParticles(count, (i: nat) => unit(i) * 150.0, direction);
            forall i :: 0 <= i < count ==> UnitColor(b.colors[i])
  {
    var b := DefaultParticles(count, (i: nat) => unit(i) * 150.0, direction);
    forall i | 0 <= i < count
      ensures UnitColor(b.colors[i])
    {
      DefaultColorRange(unit(i) * 150.0, unit(i) * 150.0);
    }
  }

  // ------------------------------------------------------------ downscale

  const MaxImageSide: nat := 256

  /** The image size after the performance downscale: when a side exceeds
      256 both sides are multiplied by `min(256 / w, 256 / h)` and floored.
      A zero side gives an infinite ratio in JavaScript, so the other side's
      ratio is the minimum. */
  function Downscale(w: nat, h: nat): (r: (nat, nat))
    ensures r.0 <= MaxImageSide && r.1 <= MaxImageSide
    ensures r.0 <= w && r.1 <= h
    ensures w <= MaxImageSide && h <= MaxImageSide ==> r == (w, h)
  {
    if w <= MaxImageSide && h <= MaxImageSide then (w, h)
    else
      ScaledSide(w, h);
      ScaledSide(h, w);
      (ScaledFloor(w, Scaled(w, h)), ScaledFloor(h, Scaled(h, w)))
  }

  /** `Math.min(256 / w, 256 / h)`, where a zero side's quotient is
      infinite and so never the minimum. */
  function Ratio(w: nat, h: nat): real
    requires w > 0 || h > 0
  {
    if h == 0 then 256.0 / w as real
    else if w == 0 then 256.0 / h as real
    else Min(256.0 / w as real, 256.0 / h as real)
  }

  /** `Math.floor(x)` for a scaled side `x` that ends within both 256
      and the original side. */
  function ScaledFloor(side: nat, x: real): (r: nat)
    requires 0.0 <= x <= 256.0 && x <= side as real
    ensures r <= side && r <= MaxImageSide
  {
    x.Floor
  }

  /** A side scaled by the ratio ends within both 256 and itself. */
  lemma ScaledSide(w: nat, h: nat)
    requires w > MaxImageSide || h > MaxImageSide
    ensures Ratio(w, h) == Ratio(h, w)
    ensures 0.0 <= Ratio(w, h) < 1.0
    ensures 0.0 <= Scaled(w, h) <= 256.0 && Scaled(w, h) <= w as real
  {
    var wr := w as real;
    var hr := h as real;
    var ratio := Ratio(w, h);
    if w > 0 {
      assert wr * (256.0 / wr) == 256.0;
    }
    if h > 0 {
      assert hr * (256.0 / hr) == 256.0;
    }
    if w > 0 && ratio <= 256.0 / wr {
      assert wr * ratio <= wr * (256.0 / wr);
    }
    assert ratio <= 1.0;
    ScaleByUnit(wr, ratio);
    assert wr * ratio <= wr;
    var sc := Scaled(w, h);
    assert sc == wr * ratio;
    assert sc <= wr;
  }

  /** `side * ratio` before flooring. */
  function Scaled(w: nat, h: nat): real
    requires w > 0 || h > 0
  {
    w as real * Ratio(w, h)
  }

  // ------------------------------------------------------------ scanning

  /** Which pixels a generator keeps: images keep pixels with alpha above
      50, text keeps pixels whose mean channel value exceeds 128. */
  datatype Filter = ByAlpha | ByBrightness

  predicate Keeps(f: Filter, p: Rgba) {
    match f
    case ByAlpha => p.a > 50
    case ByBrightness => (p.r + p.g + p.b) as real / 3.0 > 128.0
  }

  /** A kept pixel, centred on the canvas and with y pointing up. */
  datatype Found = Found(x: real, y: real, px: Rgba)

  /** The pixel at row-major index `k` of a `w`-wide canvas of height `h`. */
  function Centred(p: Rgba, k: nat, w: nat, h: nat): Found
    requires w > 0
  {
    Found((k % w) as real - w as real / 2.0, -((k / w) as real - h as real / 2.0), p)
  }

  /** The kept pixels among the first `n`, in scan order: the reference
      definition of the generators' nested scan. */
  function Scan(f: Filter, pixels: seq<Rgba>, w: nat, h: nat, n: nat): (r: seq<Found>)
    requires w > 0 && n <= |pixels|
    ensures |r| <= n
    decreases n
  {
    if n == 0 then []
    else Scan(f, pixels, w, h, n - 1)
         + (if Keeps(f, pixels[n - 1]) then [Centred(pixels[n - 1], n - 1, w, h)] else [])
  }

  /** A pixel is found exactly when the filter keeps it: every entry of the
      scan is a kept pixel at its own coordinates, and every kept pixel
      appears in it. */
  lemma {:induction false} ScanExactlyKept(f: Filter, pixels: seq<Rgba>, w: nat, h: nat, n: nat)
    requires w > 0 && n <= |pixels|
    ensures forall v :: v in Scan(f, pixels, w, h, n) <==>
      exists k :: 0 <= k < n && Keeps(f, pixels[k]) && v == Centred(pixels[k], k, w, h)
    decreases n
  {
    if n > 0 {
      ScanExactlyKept(f, pixels, w, h, n - 1);
      var k := n - 1;
      forall v | v in Scan(f, pixels, w, h, n)
        ensures exists j :: 0 <= j < n && Keeps(f, pixels[j]) && v == Centred(pixels[j], j, w, h)
      {
        if v !in Scan(f, pixels, w, h, n - 1) {
          assert Keeps(f, pixels[k]) && v == Centred(pixels[k], k, w, h);
        }
      }
    }
  }

  /** `w * y + x` names row `y`, column `x`. */
  lemma RowMajor(y: nat, x: nat, w: nat)
    requires x < w
    ensures (w * y + x) / w == y && (w * y + x) % w == x
  {
    var k := w * y + x;
    var q := k / w;
    var r := k % w;
    assert k == w * q + r;
    var d := q - y;
    assert w * d == x - r;
    if d >= 1 {
      MulAtLeast(d, w);
    } else if d <= -1 {
      MulAtLeast(-d, w);
    }
  }

  lemma MulAtLeast(d: int, w: nat)
    requires d >= 1
    ensures w * d >= w
  {
  }

  /** The cell in row `y < h`, column `x < w` is on the canvas. */
  lemma RowInside(y: nat, x: nat, w: nat, h: nat)
    requires y < h && x < w
    ensures w * y + x < w * h
  {
    NextRow(y, w, h);
  }

  /** The next row starts `w` cells later and still within the canvas. */
  lemma NextRow(y: nat, w: nat, h: nat)
    requires y < h
    ensures w * y + w == w * (y + 1) <= w * h
  {
  }

  /** Scanning one more pixel appends it, at its row and column, exactly
      when the filter keeps it. */
  lemma ScanStep(f: Filter, pixels: seq<Rgba>, w: nat, h: nat, k: nat, y: nat, x: nat)
    requires x < w && y < h && |pixels| == w * h && k == w * y + x
    ensures k < |pixels|
    ensures Scan(f, pixels, w, h, k + 1) == Scan(f, pixels, w, h, k)
              + (if Keeps(f, pixels[k]) then [Found(x as real - w as real / 2.0, -(y as real - h as real / 2.0), pixels[k])] else [])
  {
    RowInside(y, x, w, h);
    RowMajor(y, x, w);
  }

  /** The nested row/column scan of `generateParticlesFromImage` and
      `generateTextParticles`: it produces exactly the reference scan over
      the whole canvas. */
  method ScanCanvas(f: Filter, pixels: seq<Rgba>, w: nat, h: nat) returns (found: seq<Found>)
    requires w > 0 && |pixels| == w * h
    ensures found == Scan(f, pixels, w, h, |pixels|)
  {
    found := [];
    var y := 0;
    var k := 0;
    while y < h
      invariant 0 <= y <= h
      invariant k == w * y && k <= |pixels|
      invariant found == Scan(f, pixels, w, h, k)
    {
      var x := 0;
      while x < w
        invariant 0 <= x <= w
        invariant k == w * y + x && k <= |pixels|
        invariant found == Scan(f, pixels, w, h, k)
      {
        ScanStep(f, pixels, w, h, k, y, x);
        var p := pixels[k];
        if Keeps(f, p) {
          found := found + [Found(x as real - w as real / 2.0, -(y as real - h as real / 2.0), p)];
        }
        x := x + 1;
        k := k + 1;
      }
      NextRow(y, w, h);
      y := y + 1;
    }
  }

  // ------------------------------------------------------------ sampling

  /** The number of particles emitted: `min(maxParticles, n)`. */
  function SampleCount(n: nat, max: nat): (c: nat)
    ensures c <= n && c <= max && (c == n || c == max)
  {
    if max <= n then max else n
  }

  /** The sampling stride `max(1, floor(n / count))`; it is only used when
      there is at least one particle to emit. */
  function Stride(n: nat, count: nat): (s: nat)
    requires 0 < count <= n
    ensures s >= 1
  {
    if n / count >= 1 then n / count else 1
  }

  /** Every index `i * stride` for `i < count` is inside the source, so the
      clamp `min(i * step, n - 1)` of the image and text samplers never
      changes it and the model sampler's unclamped index is in range. */
  lemma StrideInRange(n: nat, count: nat, i: nat)
    requires 0 < count <= n && i < count
    ensures i * Stride(n, count) < n
  {
    var q := n / count;
    assert q >= 1 by {
      assert count * 1 <= n;
    }
    assert count * q <= n;
    assert i * q <= (count - 1) * q;
    assert (count - 1) * q == count * q - q;
  }

  /** When the source has no more items than allowed the stride is 1. */
  lemma StrideOne(n: nat, max: nat)
    requires 0 < n <= max
    ensures Stride(n, SampleCount(n, max)) == 1
  {
  }

  /** `validPixels[Math.min(i * step, n - 1)]` for `i < count`. */
  function Sample<T>(items: seq<T>, max: nat): (r: seq<T>)
    ensures |r| == SampleCount(|items|, max)
    ensures forall i :: 0 <= i < |r| ==> r[i] in items
  {
    var n := |items|;
    var count := SampleCount(n, max);
    if count == 0 then []
    else
      var step := Stride(n, count);
      seq(count, i requires 0 <= i < count => items[if i * step <= n - 1 then i * step else n - 1])
  }

  /** Sampled particle `i` is source item `i * stride`, unclamped. */
  lemma SampleAt<T>(items: seq<T>, max: nat, i: nat)
    requires i < |Sample(items, max)|
    ensures i * Stride(|items|, |Sample(items, max)|) < |items|
    ensures Sample(items, max)[i] == items[i * Stride(|items|, |Sample(items, max)|)]
  {
    StrideInRange(|items|, |Sample(items, max)|, i);
  }

  /** When everything fits, every item is emitted exactly once in order. */
  lemma SampleAll<T>(items: seq<T>, max: nat)
    requires |items| <= max
    ensures Sample(items, max) == items
  {
    if |items| > 0 {
      StrideOne(|items|, max);
      forall i | 0 <= i < |items|
        ensures Sample(items, max)[i] == items[i]
      {
        SampleAt(items, max, i);
      }
    }
  }

  // ------------------------------------------------------------ image

  /** A byte as a colour channel in [0, 1]. */
  function Channel(v: Byte): (c: real)
    ensures 0.0 <= c <= 1.0
  {
    v as real / 255.0
  }

  function PixelColor(p: Rgba): (c: Vec3)
    ensures UnitColor(c)
  {
    Vec3(Channel(p.r), Channel(p.g), Channel(p.b))
  }

  /** What the image generator delivers for pixel data `w` wide: the
      sampled opaque pixels, each at its centred position doubled (with
      depth jitter) and coloured by the pixel. */
  ghost predicate ImageCloud(pixels: seq<Rgba>, w: nat, h: nat, max: nat, jitter: nat -> real, b: Buffers)
    requires w > 0 && |pixels| == w * h
  {
    var found := Scan(ByAlpha, pixels, w, h, |pixels|);
    && b.WellFormed() && b.Count() == SampleCount(|found|, max)
    && forall i :: 0 <= i < b.Count() ==>
         var v := Sample(found, max)[i];
         && v.px.a > 50
         && b.positions[i] == Vec3(v.x * 2.0, v.y * 2.0, (jitter(i) - 0.5) * 30.0)
         && b.colors[i] == PixelColor(v.px)
         && UnitColor(b.colors[i])
  }

  /** `generateParticlesFromImage` on a decoded image whose pixel data was
      drawn at the downscaled size `w` by `h`; `jitter(i)` is the random
      draw for particle `i`'s depth. */
  method FromImage(pixels: seq<Rgba>, w: nat, h: nat, max: nat, jitter: nat -> real) returns (b: Buffers)
    requires w > 0 && |pixels| == w * h
    ensures ImageCloud(pixels, w, h, max, jitter, b)
  {
    var found := ScanCanvas(ByAlpha, pixels, w, h);
    ScanExactlyKept(ByAlpha, pixels, w, h, |pixels|);
    var picked := Sample(found, max);
    assert forall v :: v in picked ==> v in found;
    b := Buffers(seq(|picked|, i requires 0 <= i < |picked| =>
                       Vec3(picked[i].x * 2.0, picked[i].y * 2.0, (jitter(i) - 0.5) * 30.0)),
                 seq(|picked|, i requires 0 <= i < |picked| => PixelColor(picked[i].px)));
  }

  /** The whole `onload` handler for an image `imgW` by `imgH`, whose
      pixel data is read at the downscaled size. When a downscaled side is
      0 the pixel read throws inside the handler, so the promise neither
      resolves nor rejects: `None` is that never-settling generation. */
  method LoadImage(imgW: nat, imgH: nat, pixels: seq<Rgba>, max: nat, jitter: nat -> real)
    returns (r: Option<Buffers>)
    requires |pixels| == Downscale(imgW, imgH).0 * Downscale(imgW, imgH).1
    ensures var (w, h) := Downscale(imgW, imgH);
            && (r.None? <==> w == 0 || h == 0)
            && (r.Some? ==> ImageCloud(pixels, w, h, max, jitter, r.value))
  {
    var (w, h) := Downscale(imgW, imgH);
    if w == 0 || h == 0 {
      r := None;
    } else {
      var b := FromImage(pixels, w, h, max, jitter);
      r := Some(b);
    }
  }

  /** A non-empty but very thin image: 1000 by 1 scales to 256 by 0, so
      its generation never settles. */
  lemma ThinImageNeverSettles()
    ensures Downscale(1000, 1) == (MaxImageSide, 0)
  {
    assert Ratio(1000, 1) == 256.0 / 1000.0;
    assert Scaled(1000, 1) == 256.0;
    assert Scaled(1, 1000) == 256.0 / 1000.0;
  }

  /** Every kept pixel's alpha exceeds 50 and it sits at the centred
      coordinates of its row and column. */
  lemma FoundPixelsOpaque(pixels: seq<Rgba>, w: nat, h: nat, v: Found)
    requires w > 0
    requires v in Scan(ByAlpha, pixels, w, h, |pixels|)
    ensures v.px.a > 50
    ensures exists k :: 0 <= k < |pixels| && pixels[k] == v.px && v == Centred(pixels[k], k, w, h)
  {
    ScanExactlyKept(ByAlpha, pixels, w, h, |pixels|);
  }

  // ------------------------------------------------------------ text

  const FontSize: real := 120.0

  /** The canvas for a text whose measured width is `measured`: the width
      is capped at 800 and padded by 40 (the canvas truncates it to an
      integer), the height is 1.5 times the font size plus 40. */
  function TextCanvas(measured: real): (r: (nat, nat))
    requires measured >= 0.0
    ensures 40 <= r.0 <= 840 && r.1 == 220
  {
    ((Min(measured, 800.0) + 40.0).Floor, (FontSize * 1.5 + 40.0).Floor)
  }

  /** The colour of a text particle at shade parameter `t`. */
  function TextColor(t: real): Vec3 {
    Vec3(0.1 + t * 0.8, 0.6, 1.0 - t * 0.3)
  }

  /** The shade parameter `(x + W / 2) / W` of a found pixel is its column
      over the canvas width, so it lies in [0, 1) and the colour is valid. */
  lemma TextShade(v: Found, k: nat, w: nat, h: nat, p: Rgba)
    requires w > 0 && v == Centred(p, k, w, h)
    ensures (v.x + w as real / 2.0) / w as real == (k % w) as real / w as real
    ensures 0.0 <= (v.x + w as real / 2.0) / w as real < 1.0
    ensures UnitColor(TextColor((v.x + w as real / 2.0) / w as real))
  {
    var t := (k % w) as real / w as real;
    assert (k % w) as real < w as real;
    assert t * w as real == (k % w) as real;
    assert t < 1.0;
  }

  /** `generateTextParticles` on the rasterised canvas of width `w` and
      height `h`. */
  method FromText(pixels: seq<Rgba>, w: nat, h: nat, max: nat, jitter: nat -> real) returns (b: Buffers)
    requires w > 0 && |pixels| == w * h
    ensures var found := Scan(ByBrightness, pixels, w, h, |pixels|);
            && b.WellFormed() && b.Count() == SampleCount(|found|, max)
            && forall i :: 0 <= i < b.Count() ==>
                 var v := Sample(found, max)[i];
                 && v.px.r + v.px.g + v.px.b > 384
                 && b.positions[i] == Vec3(v.x * 1.5, v.y * 1.5, (jitter(i) - 0.5) * 20.0)
                 && b.colors[i] == TextColor((v.x + w as real / 2.0) / w as real)
                 && UnitColor(b.colors[i])
  {
    var found := ScanCanvas(ByBrightness, pixels, w, h);
    ScanExactlyKept(ByBrightness, pixels, w, h, |pixels|);
    var picked := Sample(found, max);
    assert forall v :: v in picked ==> v in found;
    forall v | v in picked
      ensures v.px.r + v.px.g + v.px.b > 384
      ensures UnitColor(TextColor((v.x + w as real / 2.0) / w as real))
    {
      var k :| 0 <= k < |pixels| && Keeps(ByBrightness, pixels[k]) && v == Centred(pixels[k], k, w, h);
      TextShade(v, k, w, h, pixels[k]);
    }
    b := Buffers(seq(|picked|, i requires 0 <= i < |picked| =>
                       Vec3(picked[i].x * 1.5, picked[i].y * 1.5, (jitter(i) - 0.5) * 20.0)),
                 seq(|picked|, i requires 0 <= i < |picked| => TextColor((picked[i].x + w as real / 2.0) / w as real)));
  }

  // ------------------------------------------------------------ model

  /** A mesh of a loaded model: its vertices already in world coordinates
      and its optional per-vertex colour attribute. */
  datatype Mesh = Mesh(vertices: seq<Vec3>, colors: Option<seq<Vec3>>)

  predicate MeshOk(m: Mesh) {
    m.colors.Some? ==> |m.colors.value| == |m.vertices|
  }

  const ModelDefaultColor: Vec3 := Vec3(0.5, 0.7, 1.0)

  /** The vertices of all meshes in traversal order, scaled by 50, with
      their colours or the default colour. */
  function Collect(meshes: seq<Mesh>): (b: Buffers)
    requires forall m :: m in meshes ==> MeshOk(m)
    ensures b.WellFormed()
  {
    if |meshes| == 0 then Buffers([], [])
    else
      var m := meshes[0];
      assert MeshOk(m) by { assert m in meshes; }
      assert forall m' :: m' in meshes[1..] ==> m' in meshes;
      var rest := Collect(meshes[1..]);
      Buffers(seq(|m.vertices|, i requires 0 <= i < |m.vertices| => Scale(m.vertices[i], 50.0)) + rest.positions,
              (match m.colors
               case Some(cs) => cs
               case None => seq(|m.vertices|, _ => ModelDefaultColor)) + rest.colors)
  }

  /** A single uncoloured mesh gives scaled positions in the default colour. */
  lemma CollectUncolored(vs: seq<Vec3>)
    ensures Collect([Mesh(vs, None)]).positions == seq(|vs|, i requires 0 <= i < |vs| => Scale(vs[i], 50.0))
    ensures forall i :: 0 <= i < |vs| ==> Collect([Mesh(vs, None)]).colors[i] == ModelDefaultColor
  {
    assert [Mesh(vs, None)][1..] == [];
  }

  /** The number of vertices across all meshes. */
  function VertexTotal(meshes: seq<Mesh>): nat {
    if |meshes| == 0 then 0 else |meshes[0].vertices| + VertexTotal(meshes[1..])
  }

  /** Vertex `j`'s colour: the mesh's colour attribute when it has one,
      otherwise the default model colour. */
  function VertexColor(m: Mesh, j: nat): Vec3
    requires MeshOk(m) && j < |m.vertices|
  {
    match m.colors
    case Some(cs) => cs[j]
    case None => ModelDefaultColor
  }

  /** The first mesh's vertices open the collected cloud. */
  lemma CollectHead(meshes: seq<Mesh>, j: nat)
    requires forall m :: m in meshes ==> MeshOk(m)
    requires 0 < |meshes| && j < |meshes[0].vertices|
    ensures MeshOk(meshes[0]) && j < Collect(meshes).Count()
    ensures Collect(meshes).positions[j] == Scale(meshes[0].vertices[j], 50.0)
    ensures Collect(meshes).colors[j] == VertexColor(meshes[0], j)
  {
    assert meshes[0] in meshes;
  }

  /** After the first mesh's vertices come the other meshes' ones. */
  lemma CollectTail(meshes: seq<Mesh>, i: nat)
    requires forall m :: m in meshes ==> MeshOk(m)
    requires 0 < |meshes|
    ensures forall m :: m in meshes[1..] ==> MeshOk(m)
    ensures i < Collect(meshes[1..]).Count() ==>
              && |meshes[0].vertices| + i < Collect(meshes).Count()
              && Collect(meshes).positions[|meshes[0].vertices| + i] == Collect(meshes[1..]).positions[i]
              && Collect(meshes).colors[|meshes[0].vertices| + i] == Collect(meshes[1..]).colors[i]
  {
    assert meshes[0] in meshes;
    assert forall m' :: m' in meshes[1..] ==> m' in meshes;
  }

  /** The vertices before mesh `k` are the first mesh's and those before
      mesh `k - 1` of the rest. */
  lemma VertexTotalPrefix(meshes: seq<Mesh>, k: nat)
    requires 0 < k <= |meshes|
    ensures VertexTotal(meshes[..k]) == |meshes[0].vertices| + VertexTotal(meshes[1..][..k - 1])
  {
    assert meshes[..k][1..] == meshes[1..][..k - 1];
  }

  /** Every vertex of every mesh is collected: mesh `k`'s vertex `j` sits
      after the vertices of the meshes before it, scaled by 50 and with its
      own colour or the default one. */
  lemma {:induction false} CollectPlaces(meshes: seq<Mesh>, k: nat, j: nat)
    requires forall m :: m in meshes ==> MeshOk(m)
    requires k < |meshes| && j < |meshes[k].vertices|
    ensures MeshOk(meshes[k])
    ensures VertexTotal(meshes[..k]) + j < Collect(meshes).Count()
    ensures Collect(meshes).positions[VertexTotal(meshes[..k]) + j] == Scale(meshes[k].vertices[j], 50.0)
    ensures Collect(meshes).colors[VertexTotal(meshes[..k]) + j] == VertexColor(meshes[k], j)
    decreases k
  {
    assert meshes[k] in meshes;
    if k == 0 {
      assert meshes[..0] == [];
      CollectHead(meshes, j);
    } else {
      CollectTail(meshes, VertexTotal(meshes[1..][..k - 1]) + j);
      CollectPlaces(meshes[1..], k - 1, j);
      VertexTotalPrefix(meshes, k);
    }
  }

  /** Collecting keeps every vertex and nothing else. */
  lemma {:induction false} CollectCount(meshes: seq<Mesh>)
    requires forall m :: m in meshes ==> MeshOk(m)
    ensures Collect(meshes).Count() == VertexTotal(meshes)
  {
    if |meshes| > 0 {
      assert meshes[0] in meshes;
      assert forall m' :: m' in meshes[1..] ==> m' in meshes;
      CollectCount(meshes[1..]);
    }
  }

  /** `generateParticlesFromModel` after loading: collect, then sample with
      the unclamped index `i * step`, which stays in range. */
  function FromModel(meshes: seq<Mesh>, max: nat): (b: Buffers)
    requires forall m :: m in meshes ==> MeshOk(m)
    ensures b.WellFormed() && b.Count() == SampleCount(Collect(meshes).Count(), max)
  {
    var all := Collect(meshes);
    Buffers(Sample(all.positions, max), Sample(all.colors, max))
  }

  /** A model with at most `max` vertices is emitted unchanged. */
  lemma FromModelSmall(meshes: seq<Mesh>, max: nat)
    requires forall m :: m in meshes ==> MeshOk(m)
    requires Collect(meshes).Count() <= max
    ensures FromModel(meshes, max) == Collect(meshes)
  {
    SampleAll(Collect(meshes).positions, max);
    SampleAll(Collect(meshes).colors, max);
  }
}
