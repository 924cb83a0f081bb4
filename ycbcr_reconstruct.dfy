// What the chroma reconstruction of the YCbCr planner fetches and computes
// (lgc/builder/llpcSamplerYCbCrHandler.cpp; llpc/util/llpcSamplerYCbCrHelper.cpp
// holds the same wrapped, X and XY fetch helpers, text for text, and is
// modelled by the same functions).
//
// The image sample operation itself lies beyond the model: it is the
// parameter `op`, and every call of it is recorded as a `Fetch` naming the
// descriptors and the coordinate it was given. Each function below yields
// the fetches in the order the source emits them together with the value
// it assembles from their results.
module YCbCrReconstruct {
  import opened BitField
  import opened Outcomes
  import opened YCbCrTypes
  import opened YCbCrMath

  /** One `YCbCrCreateImageSampleInternal` call: image and sampler descriptors and the (s, t) coordinate. */
  datatype Fetch = Fetch(image: seq<u32>, sampler: seq<u32>, s: real, t: real)

  /** The image sample operation: the four lanes one fetch returns. */
  type ImageOp = Fetch -> Vec4

  /** A reconstructed (Cr, Cb) pair, or the failure, and the fetches made on the way. */
  datatype Sampled = Sampled(value: Outcome<Vec2>, fetches: seq<Fetch>)

  /** The extent a wrapped fetch divides by: halved on a subsampled axis. */
  function Extent(size: real, subsampled: bool): (r: real)
    ensures size > 0.0 ==> r > 0.0
  {
    if subsampled then size * 0.5 else size
  }

  // ---------------------------------------------------------------------
  // Wrapped fetch

  /** `YCbCrWrappedSampleInfo`. */
  datatype WrappedInfo = WrappedInfo(
    chromaWidth: real, chromaHeight: real, i: real, j: real,
    desc1: seq<u32>, desc2: seq<u32>, desc3: seq<u32>,
    planeNum: u32, subsampledX: bool, subsampledY: bool)

  /**
   * `YCbCrWrappedSample`: one fetch at (i, j) over the chroma extent. One
   * plane reads the chroma descriptor when subsampled in X and the luma one
   * otherwise, two planes read plane 2; both give lanes (0, 2). Three planes
   * read planes 2 and 3 and take Cr from lane 0 of plane 3 and Cb from lane
   * 2 of plane 2. Any other plane count is fatal.
   */
  function WrappedSample(w: WrappedInfo, sampler: seq<u32>, op: ImageOp): (r: Sampled)
    requires w.chromaWidth > 0.0 && w.chromaHeight > 0.0
    ensures r.value.Fatal? <==> !(1 <= w.planeNum <= 3)
    ensures r.value.Value? || r.value.Fatal?
    ensures |r.fetches| == (if w.planeNum == 3 then 2 else if r.value.Value? then 1 else 0)
    ensures forall f | f in r.fetches ::
      && f.sampler == sampler
      && f.s * Extent(w.chromaWidth, w.subsampledX) == w.i
      && f.t * Extent(w.chromaHeight, w.subsampledY) == w.j
    ensures w.planeNum == 1 ==> r.fetches[0].image == (if w.subsampledX then w.desc2 else w.desc1)
    ensures w.planeNum == 2 ==> r.fetches[0].image == w.desc2
    ensures w.planeNum == 3 ==> r.fetches[0].image == w.desc2 && r.fetches[1].image == w.desc3
    ensures w.planeNum == 1 || w.planeNum == 2 ==>
      r.value.value == [op(r.fetches[0])[0], op(r.fetches[0])[2]]
    ensures w.planeNum == 3 ==> r.value.value == [op(r.fetches[1])[0], op(r.fetches[0])[2]]
  {
    var s := w.i / Extent(w.chromaWidth, w.subsampledX);
    var t := w.j / Extent(w.chromaHeight, w.subsampledY);
    if w.planeNum == 1 || w.planeNum == 2 then
      var f := Fetch(if w.planeNum == 1 && !w.subsampledX then w.desc1 else w.desc2, sampler, s, t);
      Sampled(Value(Shuffle(op(f), op(f), [0, 2])), [f])
    else if w.planeNum == 3 then
      var f1 := Fetch(w.desc2, sampler, s, t);
      var f2 := Fetch(w.desc3, sampler, s, t);
      Sampled(Value(Shuffle(op(f2), op(f1), [0, 6])), [f1, f2])
    else
      Sampled(Fatal, [])
  }

  /** The image descriptor a wrapped fetch leaves in the sample info. */
  function WrappedLastImage(w: WrappedInfo): seq<u32>
  {
    if w.planeNum == 1 then (if w.subsampledX then w.desc2 else w.desc1)
    else if w.planeNum == 2 then w.desc2
    else if w.planeNum == 3 then w.desc3
    else w.desc1
  }

  // ---------------------------------------------------------------------
  // Explicit reconstruction, X only

  /** `XChromaSampleInfo`; I and J are the integral luma texel coordinates. */
  datatype XInfo = XInfo(desc1: seq<u32>, i: int, j: int, chromaWidth: real, chromaHeight: real,
                         xOffset: ChromaLocation)

  /**
   * `YCbCrReconstructLinearXChromaSample`: taps subI and subI + 1 of row j
   * of plane `desc1`, blended with the X weight, lanes (0, 2).
   */
  function ReconstructX(x: XInfo, sampler: seq<u32>, op: ImageOp): (r: Sampled)
    requires x.chromaWidth > 0.0 && x.chromaHeight > 0.0
    ensures r.value.Value? && |r.fetches| == 2
    ensures forall f | f in r.fetches ::
      f.image == x.desc1 && f.sampler == sampler && f.t * x.chromaHeight == x.j as real
    ensures r.fetches[0].s * x.chromaWidth == SubIndex(x.xOffset, x.i) as real
    ensures r.fetches[1].s * x.chromaWidth == SubIndex(x.xOffset, x.i) as real + 1.0
  {
    var s := SubIndex(x.xOffset, x.i);
    var t := x.j as real / x.chromaHeight;
    var a := Fetch(x.desc1, sampler, s as real / x.chromaWidth, t);
    var b := Fetch(x.desc1, sampler, (s as real + 1.0) / x.chromaWidth, t);
    var m := MixV(op(b), op(a), Weight(x.xOffset, IsEven(x.i)));
    Sampled(Value(Shuffle(m, m, [0, 2])), [a, b])
  }

  /** Lane `lane` of the texels of one row of a plane: tap k is the fetch at s = k / width. */
  function Row(op: ImageOp, image: seq<u32>, sampler: seq<u32>, width: real, t: real, lane: nat): int -> real
    requires width > 0.0 && lane < 4
  {
    k => op(Fetch(image, sampler, k as real / width, t))[lane]
  }

  /** The X path's Cr and Cb are the X-path blend of lanes 0 and 2 along row j. */
  lemma ReconstructXLanes(x: XInfo, sampler: seq<u32>, op: ImageOp)
    requires x.chromaWidth > 0.0 && x.chromaHeight > 0.0
    ensures var t := x.j as real / x.chromaHeight;
      && ReconstructX(x, sampler, op).value.value[0] == XTapBlend(x.xOffset, x.i, Row(op, x.desc1, sampler, x.chromaWidth, t, 0))
      && ReconstructX(x, sampler, op).value.value[1] == XTapBlend(x.xOffset, x.i, Row(op, x.desc1, sampler, x.chromaWidth, t, 2))
  {
    var s := SubIndex(x.xOffset, x.i);
    assert (s + 1) as real == s as real + 1.0;
  }

  /**
   * At the midpoint, and for odd I when cosited, the X path computes the
   * explicit reconstruction of the Vulkan specification.
   */
  lemma ReconstructXMatchesVulkan(x: XInfo, sampler: seq<u32>, op: ImageOp)
    requires x.chromaWidth > 0.0 && x.chromaHeight > 0.0
    requires x.xOffset == Midpoint || x.i % 2 != 0
    ensures var t := x.j as real / x.chromaHeight;
      && ReconstructX(x, sampler, op).value.value[0] == VulkanExplicit(x.xOffset, x.i, Row(op, x.desc1, sampler, x.chromaWidth, t, 0))
      && ReconstructX(x, sampler, op).value.value[1] == VulkanExplicit(x.xOffset, x.i, Row(op, x.desc1, sampler, x.chromaWidth, t, 2))
  {
    var t := x.j as real / x.chromaHeight;
    ReconstructXLanes(x, sampler, op);
    XTapBlendMatchesVulkan(x.xOffset, x.i, Row(op, x.desc1, sampler, x.chromaWidth, t, 0));
    XTapBlendMatchesVulkan(x.xOffset, x.i, Row(op, x.desc1, sampler, x.chromaWidth, t, 2));
  }

  // ---------------------------------------------------------------------
  // Explicit reconstruction, X and Y

  /** `XYChromaSampleInfo`. */
  datatype XYInfo = XYInfo(desc1: seq<u32>, desc2: seq<u32>, i: int, j: int,
                           chromaWidth: real, chromaHeight: real, planeNum: u32,
                           xOffset: ChromaLocation, yOffset: ChromaLocation)

  predicate XYExtents(x: XYInfo)
  {
    x.chromaWidth > 0.0 && x.chromaHeight > 0.0
  }

  /** Corner k of the XY path, in the order TL, TR, BL, BR, read from plane `image`. */
  function XYCorner(x: XYInfo, image: seq<u32>, sampler: seq<u32>, k: nat): (f: Fetch)
    requires XYExtents(x)
    ensures f.image == image && f.sampler == sampler
    ensures f.s * x.chromaWidth == (SubIndex(x.xOffset, x.i) + k % 2) as real
    ensures f.t * x.chromaHeight == (SubIndex(x.yOffset, x.j) + k / 2) as real
  {
    Fetch(image, sampler, Normalised(SubIndex(x.xOffset, x.i) + k % 2, x.chromaWidth),
          Normalised(SubIndex(x.yOffset, x.j) + k / 2, x.chromaHeight))
  }

  /** Texel index `n` over a positive extent: scaling back gives `n`. */
  function Normalised(n: int, extent: real): (c: real)
    requires extent > 0.0
    ensures c * extent == n as real
  {
    n as real / extent
  }

  /** `shuffle(cr, cb, {0, 6})`: Cr from lane 0 of one fetch, Cb from lane 2 of another. */
  function CrCb(cr: Vec4, cb: Vec4): (r: Vec2)
    ensures r == [cr[0], cb[2]]
  {
    Shuffle(cr, cb, [0, 6])
  }

  /**
   * `YCbCrReconstructLinearXYChromaSample`: the four corners around
   * (subI, subJ), from plane `desc1` for two planes, from planes `desc1` (Cb)
   * and `desc2` (Cr) corner by corner for three, blended bilinearly with the
   * X and Y weights. Any other plane count yields a null value and fetches
   * nothing.
   */
  function ReconstructXY(x: XYInfo, sampler: seq<u32>, op: ImageOp): (r: Sampled)
    requires XYExtents(x)
    ensures r.value.Value? || r.value.NullValue?
    ensures r.value.NullValue? <==> !(x.planeNum == 2 || x.planeNum == 3)
    ensures x.planeNum == 2 ==>
              |r.fetches| == 4 && forall k | 0 <= k < 4 :: r.fetches[k] == XYCorner(x, x.desc1, sampler, k)
    ensures x.planeNum == 3 ==>
              |r.fetches| == 8 &&
              forall k | 0 <= k < 8 :: r.fetches[k] == XYCorner(x, if k % 2 == 0 then x.desc1 else x.desc2, sampler, k / 2)
    ensures r.value.NullValue? ==> r.fetches == []
  {
    var alpha := Weight(x.xOffset, IsEven(x.i));
    var beta := Weight(x.yOffset, IsEven(x.j));
    if x.planeNum == 2 then
      var tl, tr, bl, br := XYCorner(x, x.desc1, sampler, 0), XYCorner(x, x.desc1, sampler, 1),
                            XYCorner(x, x.desc1, sampler, 2), XYCorner(x, x.desc1, sampler, 3);
      var m := BilinearBlendV(alpha, beta, op(tl), op(tr), op(bl), op(br));
      Sampled(Value(Shuffle(m, m, [0, 2])), [tl, tr, bl, br])
    else if x.planeNum == 3 then
      var fs := seq(8, k requires 0 <= k < 8 => XYCorner(x, if k % 2 == 0 then x.desc1 else x.desc2, sampler, k / 2));
      var tl, tr := CrCb(op(fs[1]), op(fs[0])), CrCb(op(fs[3]), op(fs[2]));
      var bl, br := CrCb(op(fs[5]), op(fs[4])), CrCb(op(fs[7]), op(fs[6]));
      Sampled(Value(BilinearBlendV(alpha, beta, tl, tr, bl, br)), fs)
    else
      Sampled(NullValue, [])
  }

  /** The plane and the lane the XY path reads output lane k (0 Cr, 1 Cb) from. */
  function XYPlane(x: XYInfo, k: nat): seq<u32>
  {
    if x.planeNum == 3 && k == 0 then x.desc2 else x.desc1
  }

  function XYLane(x: XYInfo, k: nat): (l: nat)
    ensures l < 4
  {
    if k == 0 then 0 else 2
  }

  /** Lane `lane` of a plane's texel at column `col` and row `row`. */
  function Texel(op: ImageOp, image: seq<u32>, sampler: seq<u32>, w: real, h: real, lane: nat, col: int, row: int): real
    requires w > 0.0 && h > 0.0 && lane < 4
  {
    op(Fetch(image, sampler, col as real / w, row as real / h))[lane]
  }

  /**
   * Each output lane of the XY path is the bilinear blend, with the X and
   * Y weights, of that lane of the plane's texels at the four corners
   * (subI, subJ), (subI + 1, subJ), (subI, subJ + 1) and (subI + 1, subJ + 1).
   */
  lemma ReconstructXYTexels(x: XYInfo, sampler: seq<u32>, op: ImageOp, k: nat)
    requires XYExtents(x) && (x.planeNum == 2 || x.planeNum == 3) && k < 2
    ensures var img, lane := XYPlane(x, k), XYLane(x, k);
      var si, sj := SubIndex(x.xOffset, x.i), SubIndex(x.yOffset, x.j);
      var w, h := x.chromaWidth, x.chromaHeight;
      ReconstructXY(x, sampler, op).value.value[k] ==
        BilinearBlend(Weight(x.xOffset, IsEven(x.i)), Weight(x.yOffset, IsEven(x.j)),
                      Texel(op, img, sampler, w, h, lane, si, sj), Texel(op, img, sampler, w, h, lane, si + 1, sj),
                      Texel(op, img, sampler, w, h, lane, si, sj + 1), Texel(op, img, sampler, w, h, lane, si + 1, sj + 1))
  {
    var img, lane := XYPlane(x, k), XYLane(x, k);
    var si, sj := SubIndex(x.xOffset, x.i), SubIndex(x.yOffset, x.j);
    var w, h := x.chromaWidth, x.chromaHeight;
    ReconstructXYCorners(x, sampler, op, k);
    XYCornerTexels(x, img, sampler, op, lane);
  }

  /** Lane k of the XY path is the bilinear blend of that lane at its four corners. */
  lemma ReconstructXYCorners(x: XYInfo, sampler: seq<u32>, op: ImageOp, k: nat)
    requires XYExtents(x) && (x.planeNum == 2 || x.planeNum == 3) && k < 2
    ensures var img, lane := XYPlane(x, k), XYLane(x, k);
      ReconstructXY(x, sampler, op).value.value[k] ==
        BilinearBlend(Weight(x.xOffset, IsEven(x.i)), Weight(x.yOffset, IsEven(x.j)),
                      op(XYCorner(x, img, sampler, 0))[lane], op(XYCorner(x, img, sampler, 1))[lane],
                      op(XYCorner(x, img, sampler, 2))[lane], op(XYCorner(x, img, sampler, 3))[lane])
  {
  }

  /**
   * The bilinear blend of the four corners around (subI, subJ) is the
   * XY-path blend along the columns of each row, then along the rows.
   */
  lemma BilinearIsSeparable(xo: ChromaLocation, yo: ChromaLocation, i: int, j: int, c: (int, int) -> real)
    ensures var si, sj := SubIndex(xo, i), SubIndex(yo, j);
      BilinearBlend(Weight(xo, IsEven(i)), Weight(yo, IsEven(j)), c(si, sj), c(si + 1, sj), c(si, sj + 1), c(si + 1, sj + 1))
        == XYTapBlend(yo, j, row => XYTapBlend(xo, i, col => c(col, row)))
  {
  }

  /** The four corners, top-left, top-right, bottom-left and bottom-right, as texels of the subsampled grid. */
  lemma XYCornerTexels(x: XYInfo, img: seq<u32>, sampler: seq<u32>, op: ImageOp, lane: nat)
    requires XYExtents(x) && lane < 4
    ensures var si, sj, w, h := SubIndex(x.xOffset, x.i), SubIndex(x.yOffset, x.j), x.chromaWidth, x.chromaHeight;
      && op(XYCorner(x, img, sampler, 0))[lane] == Texel(op, img, sampler, w, h, lane, si, sj)
      && op(XYCorner(x, img, sampler, 1))[lane] == Texel(op, img, sampler, w, h, lane, si + 1, sj)
      && op(XYCorner(x, img, sampler, 2))[lane] == Texel(op, img, sampler, w, h, lane, si, sj + 1)
      && op(XYCorner(x, img, sampler, 3))[lane] == Texel(op, img, sampler, w, h, lane, si + 1, sj + 1)
  {
    XYCornerTexel(x, img, sampler, op, lane, 0, 0, 0);
    XYCornerTexel(x, img, sampler, op, lane, 1, 1, 0);
    XYCornerTexel(x, img, sampler, op, lane, 2, 0, 1);
    XYCornerTexel(x, img, sampler, op, lane, 3, 1, 1);
  }

  lemma XYCornerTexel(x: XYInfo, img: seq<u32>, sampler: seq<u32>, op: ImageOp, lane: nat, k: nat, dx: nat, dy: nat)
    requires XYExtents(x) && lane < 4 && dx < 2 && k == dx + 2 * dy
    ensures op(XYCorner(x, img, sampler, k))[lane] ==
      Texel(op, img, sampler, x.chromaWidth, x.chromaHeight, lane,
            SubIndex(x.xOffset, x.i) + dx, SubIndex(x.yOffset, x.j) + dy)
  {
    assert k % 2 == dx && k / 2 == dy;
  }

  // ---------------------------------------------------------------------
  // Luma-linear blends of four chroma reconstructions

  /**
   * `BilinearBlend` of four results taken in the source's order TL, TR,
   * BR, BL; the fetches are those of the four in that order. `CreateFMix`
   * dereferences its operands, so a null result among the four is fatal,
   * as a fatal one is; an assertion failure is passed on otherwise.
   */
  function Blend4(alpha: real, beta: real, tl: Sampled, tr: Sampled, br: Sampled, bl: Sampled): (r: Sampled)
    ensures r.fetches == tl.fetches + tr.fetches + br.fetches + bl.fetches
    ensures r.value.Value? <==> tl.value.Value? && tr.value.Value? && br.value.Value? && bl.value.Value?
    ensures r.value.Fatal? <==>
              || tl.value.Fatal? || tr.value.Fatal? || br.value.Fatal? || bl.value.Fatal?
              || tl.value.NullValue? || tr.value.NullValue? || br.value.NullValue? || bl.value.NullValue?
    ensures !r.value.NullValue?
    ensures r.value.Value? ==>
              forall k | 0 <= k < 2 ::
                r.value.value[k] == BilinearBlend(alpha, beta, tl.value.value[k], tr.value.value[k], bl.value.value[k], br.value.value[k])
  {
    var fs := tl.fetches + tr.fetches + br.fetches + bl.fetches;
    if tl.value.Value? && tr.value.Value? && br.value.Value? && bl.value.Value? then
      Sampled(Value(BilinearBlendV(alpha, beta, tl.value.value, tr.value.value, bl.value.value, br.value.value)), fs)
    else if tl.value.AssertFails? || tr.value.AssertFails? || br.value.AssertFails? || bl.value.AssertFails? then
      if tl.value.Fatal? || tr.value.Fatal? || br.value.Fatal? || bl.value.Fatal?
         || tl.value.NullValue? || tr.value.NullValue? || br.value.NullValue? || bl.value.NullValue?
      then Sampled(Fatal, fs)
      else Sampled(AssertFails, fs)
    else
      Sampled(Fatal, fs)
  }

  // ---------------------------------------------------------------------
  // The reconstruction decision table of `SampleYCbCrData`

  datatype Strategy =
    | Implicit      // one wrapped fetch at the implicit chroma coordinate
    | Wrapped       // one wrapped fetch at (U, V), subsampling ignored
    | ExplicitX     // the X path at (I, J)
    | ExplicitXY    // the XY path at (I, J)
    | Wrapped4      // wrapped fetches at the four subsampled neighbours, blended
    | ExplicitX4    // the X path at the four luma neighbours, blended
    | ExplicitXY4   // the XY path at the four luma neighbours, blended

  /**
   * The strategy `SampleYCbCrData` selects. Without forced explicit
   * reconstruction, subsampled chroma is always sampled implicitly; linear
   * explicit reconstruction needs chroma subsampled in X and a linear
   * chroma filter; it is repeated at four neighbours for a linear luma
   * filter.
   */
  function ChooseStrategy(luma: SamplerFilter, chroma: SamplerFilter, force: bool, sx: bool, sy: bool): (st: Strategy)
    ensures st == Implicit <==> !force && (sx || sy)
    ensures st == Wrapped <==> (force || !(sx || sy)) && (!sx || (luma == Nearest && chroma == Nearest))
    ensures st == Wrapped4 <==> force && sx && luma == Linear && chroma == Nearest
    ensures st == ExplicitX <==> force && sx && !sy && luma == Nearest && chroma == Linear
    ensures st == ExplicitXY <==> force && sx && sy && luma == Nearest && chroma == Linear
    ensures st == ExplicitX4 <==> force && sx && !sy && luma == Linear && chroma == Linear
    ensures st == ExplicitXY4 <==> force && sx && sy && luma == Linear && chroma == Linear
  {
    if !force && (sx || sy) then Implicit
    else match luma
      case Nearest =>
        if chroma.Nearest? || !sx then Wrapped
        else if sy then ExplicitXY else ExplicitX
      case Linear =>
        if chroma.Nearest? || !sx then (if !sx then Wrapped else Wrapped4)
        else if sy then ExplicitXY4 else ExplicitX4
  }

  /** The planner state `SampleYCbCrData` reads. */
  datatype SamplePlan = SamplePlan(
    lumaFilter: SamplerFilter, chromaFilter: SamplerFilter, forceExplicit: bool,
    subsampledX: bool, subsampledY: bool, planeNum: u32,
    xOffset: ChromaLocation, yOffset: ChromaLocation,
    imgDescs: seq<seq<u32>>, chromaSampler: seq<u32>,
    width: real, height: real, u: real, v: real, i: int, j: int)

  predicate PlanOk(p: SamplePlan)
  {
    |p.imgDescs| == 3 && p.width > 0.0 && p.height > 0.0
  }

  /** `wrappedSampleInfo` as initialised. */
  function WrappedOf(p: SamplePlan): WrappedInfo
    requires PlanOk(p)
  {
    WrappedInfo(p.width, p.height, p.u, p.v, p.imgDescs[0], p.imgDescs[1], p.imgDescs[2],
                p.planeNum, p.subsampledX, p.subsampledY)
  }

  /** `xChromaInfo` at luma texel (i, j): half the width, the full height. */
  function XOf(p: SamplePlan, i: int, j: int): XInfo
    requires PlanOk(p)
  {
    XInfo(p.imgDescs[1], i, j, p.width * 0.5, p.height, p.xOffset)
  }

  /** `xyChromaInfo` at luma texel (i, j): half the width and half the height. */
  function XYOf(p: SamplePlan, i: int, j: int): XYInfo
    requires PlanOk(p)
  {
    XYInfo(p.imgDescs[1], p.imgDescs[2], i, j, p.width * 0.5, p.height * 0.5, p.planeNum, p.xOffset, p.yOffset)
  }

  /** The coordinate of a subsampled neighbour of the `Wrapped4` strategy: halved on a subsampled axis. */
  function HalfIf(x: real, subsampled: bool): real
  {
    if subsampled then x / 2.0 else x
  }

  /** Every fetch of `r` uses `sampler`. */
  predicate UsesSampler(r: Sampled, sampler: seq<u32>)
  {
    forall f | f in r.fetches :: f.sampler == sampler
  }

  lemma XYUsesSampler(x: XYInfo, sampler: seq<u32>, op: ImageOp)
    requires XYExtents(x)
    ensures UsesSampler(ReconstructXY(x, sampler, op), sampler)
  {
    var r := ReconstructXY(x, sampler, op);
    forall f | f in r.fetches ensures f.sampler == sampler {
      var k :| 0 <= k < |r.fetches| && r.fetches[k] == f;
    }
  }

  lemma Blend4UsesSampler(alpha: real, beta: real, tl: Sampled, tr: Sampled, br: Sampled, bl: Sampled, sampler: seq<u32>)
    requires UsesSampler(tl, sampler) && UsesSampler(tr, sampler) && UsesSampler(br, sampler) && UsesSampler(bl, sampler)
    ensures UsesSampler(Blend4(alpha, beta, tl, tr, br, bl), sampler)
  {
  }

  /**
   * Whether strategy `st` is fatal for `planeNum` planes: a wrapped fetch
   * outside one to three planes, and the blend of four XY paths, which
   * dereferences their null result, outside two or three.
   */
  predicate ChromaFatal(st: Strategy, planeNum: u32)
  {
    match st
    case Implicit => !(1 <= planeNum <= 3)
    case Wrapped => !(1 <= planeNum <= 3)
    case Wrapped4 => !(1 <= planeNum <= 3)
    case ExplicitXY4 => !(planeNum == 2 || planeNum == 3)
    case ExplicitX => false
    case ExplicitX4 => false
    case ExplicitXY => false
  }

  /**
   * The chroma pair `SampleYCbCrData` reconstructs, with its fetches, by
   * strategy; every chroma fetch uses the chroma sampler. The chroma is
   * null exactly when a single XY path meets a plane count other than two
   * or three, fatal exactly as `ChromaFatal` says, and never an assertion
   * failure.
   */
  function ChromaSample(p: SamplePlan, op: ImageOp): (r: Sampled)
    requires PlanOk(p)
    ensures UsesSampler(r, p.chromaSampler)
    ensures var st := ChooseStrategy(p.lumaFilter, p.chromaFilter, p.forceExplicit, p.subsampledX, p.subsampledY);
      && (r.value.NullValue? <==> st == ExplicitXY && !(p.planeNum == 2 || p.planeNum == 3))
      && (r.value.Fatal? <==> ChromaFatal(st, p.planeNum))
      && !r.value.AssertFails?
  {
    var w := WrappedOf(p);
    var s := p.chromaSampler;
    match ChooseStrategy(p.lumaFilter, p.chromaFilter, p.forceExplicit, p.subsampledX, p.subsampledY)
    case Implicit =>
      WrappedSample(w.(i := if p.subsampledX then ImplicitChromaUV(p.xOffset, p.u) else p.u,
                       j := if p.subsampledY then ImplicitChromaUV(p.yOffset, p.v) else p.v), s, op)
    case Wrapped =>
      WrappedSample(w.(subsampledX := false, subsampledY := false), s, op)
    case ExplicitX => ReconstructX(XOf(p, p.i, p.j), s, op)
    case ExplicitXY => XYUsesSampler(XYOf(p, p.i, p.j), s, op); ReconstructXY(XYOf(p, p.i, p.j), s, op)
    case Wrapped4 => Wrapped4Sample(p, op)
    case ExplicitX4 => ExplicitX4Sample(p, op)
    case ExplicitXY4 => ExplicitXY4Sample(p, op)
  }

  /** Linear luma, nearest chroma subsampled in X: four wrapped fetches at the halved neighbours, blended. */
  function Wrapped4Sample(p: SamplePlan, op: ImageOp): (r: Sampled)
    requires PlanOk(p)
    ensures UsesSampler(r, p.chromaSampler)
    ensures r.value.Value? || r.value.Fatal?
    ensures r.value.Fatal? <==> !(1 <= p.planeNum <= 3)
  {
    var w, s := WrappedOf(p), p.chromaSampler;
    var i0, i1 := HalfIf(p.i as real, p.subsampledX), HalfIf(p.i as real + 1.0, p.subsampledX);
    var j0, j1 := HalfIf(p.j as real, p.subsampledY), HalfIf(p.j as real + 1.0, p.subsampledY);
    var tl, tr := WrappedSample(w.(i := i0, j := j0), s, op), WrappedSample(w.(i := i1, j := j0), s, op);
    var br, bl := WrappedSample(w.(i := i1, j := j1), s, op), WrappedSample(w.(i := i0, j := j1), s, op);
    Blend4UsesSampler(UVOffset(p.u), UVOffset(p.v), tl, tr, br, bl, s);
    Blend4(UVOffset(p.u), UVOffset(p.v), tl, tr, br, bl)
  }

  /** Linear luma and chroma, subsampled in X only: the X path at the four luma neighbours, blended. */
  function ExplicitX4Sample(p: SamplePlan, op: ImageOp): (r: Sampled)
    requires PlanOk(p)
    ensures UsesSampler(r, p.chromaSampler)
    ensures r.value.Value?
  {
    var s := p.chromaSampler;
    var tl, tr := ReconstructX(XOf(p, p.i, p.j), s, op), ReconstructX(XOf(p, p.i + 1, p.j), s, op);
    var br, bl := ReconstructX(XOf(p, p.i + 1, p.j + 1), s, op), ReconstructX(XOf(p, p.i, p.j + 1), s, op);
    Blend4UsesSampler(UVOffset(p.u), UVOffset(p.v), tl, tr, br, bl, s);
    Blend4(UVOffset(p.u), UVOffset(p.v), tl, tr, br, bl)
  }

  /**
   * Linear luma and chroma, subsampled in X and Y: the XY path at the four
   * luma neighbours, blended; fatal where the XY path is null.
   */
  function ExplicitXY4Sample(p: SamplePlan, op: ImageOp): (r: Sampled)
    requires PlanOk(p)
    ensures UsesSampler(r, p.chromaSampler)
    ensures r.value.Value? || r.value.Fatal?
    ensures r.value.Fatal? <==> !(p.planeNum == 2 || p.planeNum == 3)
  {
    var s := p.chromaSampler;
    var tl, tr := ReconstructXY(XYOf(p, p.i, p.j), s, op), ReconstructXY(XYOf(p, p.i + 1, p.j), s, op);
    var br, bl := ReconstructXY(XYOf(p, p.i + 1, p.j + 1), s, op), ReconstructXY(XYOf(p, p.i, p.j + 1), s, op);
    XYUsesSampler(XYOf(p, p.i, p.j), s, op);
    XYUsesSampler(XYOf(p, p.i + 1, p.j), s, op);
    XYUsesSampler(XYOf(p, p.i + 1, p.j + 1), s, op);
    XYUsesSampler(XYOf(p, p.i, p.j + 1), s, op);
    Blend4UsesSampler(UVOffset(p.u), UVOffset(p.v), tl, tr, br, bl, s);
    Blend4(UVOffset(p.u), UVOffset(p.v), tl, tr, br, bl)
  }

  /** Fetches per wrapped fetch: two for three planes, one for one or two, none otherwise. */
  function WrappedFetches(planeNum: u32): nat
  {
    if planeNum == 3 then 2 else if 1 <= planeNum <= 2 then 1 else 0
  }

  /** Fetches per XY-path call: four corners, twice for three planes. */
  function XYFetches(planeNum: u32): nat
  {
    if planeNum == 2 then 4 else if planeNum == 3 then 8 else 0
  }

  /** How many chroma fetches each strategy makes. */
  lemma ChromaFetchCount(p: SamplePlan, op: ImageOp)
    requires PlanOk(p)
    ensures var st := ChooseStrategy(p.lumaFilter, p.chromaFilter, p.forceExplicit, p.subsampledX, p.subsampledY);
      |ChromaSample(p, op).fetches| ==
        match st
        case Implicit => WrappedFetches(p.planeNum)
        case Wrapped => WrappedFetches(p.planeNum)
        case ExplicitX => 2
        case ExplicitXY => XYFetches(p.planeNum)
        case Wrapped4 => 4 * WrappedFetches(p.planeNum)
        case ExplicitX4 => 8
        case ExplicitXY4 => 4 * XYFetches(p.planeNum)
  {
  }

  /** Nothing subsampled: one wrapped fetch at the luma coordinate, whatever the filters. */
  lemma FullResolutionChroma(p: SamplePlan, op: ImageOp)
    requires PlanOk(p) && !p.subsampledX && !p.subsampledY
    ensures ChromaSample(p, op) == WrappedSample(WrappedOf(p), p.chromaSampler, op)
  {
  }

  /**
   * The implicit strategy fetches once, at the chroma-plane coordinate of
   * (U, V) on each subsampled axis, over the halved extent.
   */
  lemma ImplicitFetchSite(p: SamplePlan, op: ImageOp)
    requires PlanOk(p) && !p.forceExplicit && p.subsampledX && 1 <= p.planeNum <= 2
    ensures var f := ChromaSample(p, op).fetches;
      |f| == 1 && 2.0 * (f[0].s * (p.width * 0.5)) == p.u + (if p.xOffset == CositedEven then 0.5 else 0.0)
  {
    var w := WrappedOf(p);
    var c := ImplicitChromaUV(p.xOffset, p.u);
    var r := WrappedSample(w.(i := c, j := if p.subsampledY then ImplicitChromaUV(p.yOffset, p.v) else p.v),
                           p.chromaSampler, op);
    assert r.fetches[0] in r.fetches;
  }

  // ---------------------------------------------------------------------
  // Lane assembly and swizzle

  /**
   * `shuffle(luma, chroma, {2, 0, 3, 1})` on the luma lanes (Y, A) and the
   * chroma pair (Cr, Cb): the sample in the order (Cr, Y, Cb, A).
   */
  function Assemble(luma: Vec4, chroma: Vec2): (d: Vec4)
    ensures d == [chroma[0], luma[1], chroma[1], luma[3]]
  {
    var ya := Shuffle(luma, luma, [1, 3]);
    Shuffle(ya, chroma, [2, 0, 3, 1])
  }

  /** Channels a valid swizzle can select: lanes of the sample twice over. */
  predicate SwizzleOk(sw: seq<ComponentSwizzle>)
  {
    |sw| == 4 && forall k | 0 <= k < 4 :: GetChannel(sw[k]) < 8
  }

  /** `shuffle(d, d, {R, G, B, A channels})`. */
  function ApplySwizzle(d: Vec4, sw: seq<ComponentSwizzle>): (r: Vec4)
    requires SwizzleOk(sw)
    ensures forall k | 0 <= k < 4 :: r[k] == d[GetChannel(sw[k]) % 4]
  {
    Shuffle(d, d, [GetChannel(sw[0]), GetChannel(sw[1]), GetChannel(sw[2]), GetChannel(sw[3])])
  }

  /**
   * A swizzle built from R, G, B or A selects that lane of the sample; one
   * built from Zero or One selects lane 0 (Cr) or lane 1 (Y) of it, not the
   * constant 0 or 1.
   */
  lemma SwizzleSelects(d: Vec4, v: u32)
    requires v <= SwizzleA
    ensures var s := FromU32(v).value;
      && SwizzleOk([s, s, s, s])
      && ApplySwizzle(d, [s, s, s, s])[0] == if v >= SwizzleR then d[v - 4] else d[v]
  {
  }

  /** The identity mapping (R, G, B, A) leaves the sample as assembled. */
  lemma IdentitySwizzle(d: Vec4)
    ensures var sw := [FromU32(SwizzleR).value, FromU32(SwizzleG).value, FromU32(SwizzleB).value, FromU32(SwizzleA).value];
      SwizzleOk(sw) && ApplySwizzle(d, sw) == d
  {
  }

  /** The luma fetch: the sample info's descriptors at (S, T). */
  function LumaFetch(image: seq<u32>, sampler: seq<u32>, s: real, t: real): (f: Fetch)
    ensures f.image == image && f.sampler == sampler && f.s == s && f.t == t
  {
    Fetch(image, sampler, s, t)
  }

  /**
   * `m_pYCbCrData` after `SampleYCbCrData`: the luma lanes (Y, A) of the
   * luma fetch and the reconstructed (Cr, Cb), assembled and swizzled. A
   * null chroma is dereferenced by `CreateShuffleVector` and is fatal; any
   * other failed chroma reconstruction is the result.
   */
  function YCbCrData(luma: Vec4, chroma: Outcome<Vec2>, sw: seq<ComponentSwizzle>): (r: Outcome<Vec4>)
    requires SwizzleOk(sw)
    ensures r.Value? <==> chroma.Value?
    ensures r.Fatal? <==> chroma.Fatal? || chroma.NullValue?
    ensures r.AssertFails? <==> chroma.AssertFails?
    ensures !r.NullValue?
    ensures r.Value? ==> forall k | 0 <= k < 4 ::
      r.value[k] == [chroma.value[0], luma[1], chroma.value[1], luma[3]][GetChannel(sw[k]) % 4]
  {
    match chroma
    case Value(c) => Value(ApplySwizzle(Assemble(luma, c), sw))
    case NullValue => Fatal
    case Fatal => Fatal
    case AssertFails => AssertFails
  }
}
