// The arithmetic of the YCbCr sampling lowering, over `real`: the
// coordinate transforms, the chroma reconstruction weights, the blends,
// range expansion and the model conversion of
// lgc/builder/llpcSamplerYCbCrHandler.cpp. llpc/util/llpcSamplerYCbCrHelper.cpp
// computes the same values with the same constants; these functions model
// both. The builder's float operations are taken as exact real arithmetic.
//
// The reference formulas are those of the Vulkan specification's Image
// Operations chapter (sections "Chroma Reconstruction", "Sampler Y'CBCR Range
// Expansion" and "Sampler Y'CBCR Model Conversion").
module YCbCrMath {
  import opened BitField
  import opened Outcomes
  import opened YCbCrTypes

  type Vec2 = v: seq<real> | |v| == 2 witness [0.0, 0.0]
  type Vec3 = v: seq<real> | |v| == 3 witness [0.0, 0.0, 0.0]
  type Vec4 = v: seq<real> | |v| == 4 witness [0.0, 0.0, 0.0, 0.0]

  function MinR(x: real, y: real): real { if x <= y then x else y }

  function MaxR(x: real, y: real): real { if x <= y then y else x }

  // ---------------------------------------------------------------------
  // Builder vector operations

  /** `CreateFMix(x, y, a)`: the point a of the way from x to y. */
  function Mix(x: real, y: real, a: real): (r: real)
    ensures r == (1.0 - a) * x + a * y
    ensures a == 0.0 ==> r == x
    ensures a == 1.0 ==> r == y
  {
    x + (y - x) * a
  }

  /** A weight in [0, 1] keeps the mix between its two ends. */
  lemma MixBetween(x: real, y: real, a: real)
    requires 0.0 <= a <= 1.0
    ensures MinR(x, y) <= Mix(x, y, a) <= MaxR(x, y)
  {
    if x <= y {
      MulBetween(y - x, a);
    } else {
      MulBetween(x - y, a);
      assert (y - x) * a == -((x - y) * a);
    }
  }

  lemma MulBetween(d: real, a: real)
    requires 0.0 <= d && 0.0 <= a <= 1.0
    ensures 0.0 <= d * a <= d
  {
    assert d * a <= d * 1.0;
  }

  /** Lane-wise `CreateFMix` on vectors of one length. */
  function MixV(x: seq<real>, y: seq<real>, a: real): (r: seq<real>)
    requires |x| == |y|
    ensures |r| == |x|
    ensures forall k | 0 <= k < |r| :: r[k] == Mix(x[k], y[k], a)
  {
    seq(|x|, k requires 0 <= k < |x| => Mix(x[k], y[k], a))
  }

  /** `CreateShuffleVector(a, b, mask)`: lane k is lane `mask[k]` of a followed by b. */
  function Shuffle(a: seq<real>, b: seq<real>, mask: seq<nat>): (r: seq<real>)
    requires forall k | 0 <= k < |mask| :: mask[k] < |a| + |b|
    ensures |r| == |mask|
    ensures forall k | 0 <= k < |r| :: r[k] == if mask[k] < |a| then a[mask[k]] else b[mask[k] - |a|]
  {
    seq(|mask|, k requires 0 <= k < |mask| => (a + b)[mask[k]])
  }

  /** `CreateFClamp(x, lo, hi)` on one lane. */
  function Clamp(x: real, lo: real, hi: real): (r: real)
    requires lo <= hi
    ensures lo <= r <= hi
    ensures lo <= x <= hi ==> r == x
  {
    if x < lo then lo else if x > hi then hi else x
  }

  // ---------------------------------------------------------------------
  // Coordinates

  /** `TransferSTtoUVCoords`: normalised coordinate times the extent. */
  function STtoUV(st: real, size: real): (uv: real)
    ensures size > 0.0 ==> uv / size == st
  {
    st * size
  }

  /** The texel coordinate divided by the extent is the normalised coordinate again. */
  lemma STtoUVInverse(st: real, size: real)
    requires size > 0.0
    ensures STtoUV(st, size) / size == st
  {
  }

  /**
   * `TransferUVtoIJCoords`: Nearest gives the texel whose span holds `uv`;
   * Linear gives the left texel of the pair whose centres enclose `uv`.
   */
  function UVtoIJ(filter: SamplerFilter, uv: real): (i: int)
    ensures filter == Nearest ==> i as real <= uv < i as real + 1.0
    ensures filter == Linear ==> i as real + 0.5 <= uv < i as real + 1.5
  {
    (if filter == Linear then uv - 0.5 else uv).Floor
  }

  /**
   * `CalculateUVoffset`: the bilinear weight, how far `uv` lies past the
   * centre of the texel Linear filtering picks.
   */
  function UVOffset(uv: real): (w: real)
    ensures 0.0 <= w < 1.0
    ensures UVtoIJ(Linear, uv) as real + 0.5 + w == uv
  {
    (uv - 0.5) - (uv - 0.5).Floor as real
  }

  /**
   * `YCbCrCalculateImplicitChromaUV`: the chroma-plane coordinate of a luma
   * coordinate when chroma is subsampled by two; chroma sites are cosited
   * with the even luma texels or lie midway between two luma texels.
   */
  function ImplicitChromaUV(offset: ChromaLocation, uv: real): (c: real)
    ensures offset == CositedEven ==> 2.0 * c - 0.5 == uv
    ensures offset == Midpoint ==> 2.0 * c == uv
  {
    (if offset == CositedEven then uv + 0.5 else uv) * 0.5
  }

  /**
   * The centre of chroma texel k is the centre of luma texel 2k when cosited,
   * and the boundary between luma texels 2k and 2k + 1 at the midpoint.
   */
  lemma ImplicitChromaSites(k: int)
    ensures ImplicitChromaUV(CositedEven, 2.0 * k as real + 0.5) == k as real + 0.5
    ensures ImplicitChromaUV(Midpoint, 2.0 * k as real + 1.0) == k as real + 0.5
  {
  }

  // ---------------------------------------------------------------------
  // Chroma reconstruction weights

  /** `CreateSMod` on `i32`: the remainder takes the sign of the dividend. */
  function SRem(a: int, b: int): (r: int)
    requires b > 0
    ensures -b < r < b
    ensures a >= 0 ==> r == a % b
    ensures a < 0 ==> r == -((-a) % b)
  {
    if a >= 0 then a % b else -((-a) % b)
  }

  /** `isEvenI`: `fptosi(I) srem 2 == 0`, for an integral I. */
  predicate IsEven(i: int)
    ensures IsEven(i) <==> i % 2 == 0
  {
    NegParity(i);
    SRem(i, 2) == 0
  }

  /** The signed remainder test agrees with evenness for negative I as well. */
  lemma IsEvenIsParity(i: int)
    ensures IsEven(i) <==> i % 2 == 0
  {
    if i < 0 {
      assert (-i) % 2 == 0 <==> i % 2 == 0 by { NegParity(i); }
    }
  }

  lemma NegParity(i: int)
    ensures (-i) % 2 == 0 <==> i % 2 == 0
  {
    var q := i / 2;
    if i % 2 == 0 {
      assert -i == 2 * (-q);
      DivModUnique(-i, 2, -q, 0);
    } else {
      assert -i == 2 * (-q - 1) + 1;
      DivModUnique(-i, 2, -q - 1, 1);
    }
  }

  /** `floor(I / 2.0)` of an integral I: the Euclidean half. */
  lemma FloorHalf(i: int)
    ensures (i as real / 2.0).Floor == i / 2
  {
    var q := i / 2;
    assert 2 * q <= i < 2 * q + 2;
    assert q as real <= i as real / 2.0 < q as real + 1.0;
  }

  /**
   * `subI`: the left chroma tap for luma texel i, `floor(i / 2)`, one further
   * left for an even i at the midpoint.
   */
  function SubIndex(offset: ChromaLocation, i: int): (s: int)
    ensures offset == CositedEven ==> 2 * s <= i <= 2 * s + 1
    ensures offset == Midpoint ==> 2 * s + 1 <= i <= 2 * s + 2
  {
    IsEvenIsParity(i);
    var s := HalfFloor(i);
    if offset != CositedEven && IsEven(i) then s - 1 else s
  }

  /** `floor(i / 2.0)` of an integral i, which is its Euclidean half. */
  function HalfFloor(i: int): (h: int)
    ensures h == i / 2
  {
    FloorHalf(i);
    (i as real / 2.0).Floor
  }

  /**
   * `pAlpha` / `pBeta`: the reconstruction weight; cosited (0, 1/2) for even
   * and odd i, midpoint (1/4, 3/4).
   */
  function Weight(offset: ChromaLocation, isEven: bool): (w: real)
    ensures 0.0 <= w < 1.0
    ensures offset == CositedEven ==> w == if isEven then 0.0 else 0.5
    ensures offset == Midpoint ==> w == if isEven then 0.25 else 0.75
  {
    if offset == CositedEven then (if isEven then 0.0 else 0.5)
    else (if isEven then 0.25 else 0.75)
  }

  /**
   * The explicit reconstruction of the Vulkan specification along one axis:
   * chroma value for luma texel i from the chroma texels `c`.
   */
  function VulkanExplicit(offset: ChromaLocation, i: int, c: int -> real): real
  {
    var h := i / 2;
    if offset == CositedEven then
      (if i % 2 == 0 then c(h) else 0.5 * c(h) + 0.5 * c(h + 1))
    else
      (if i % 2 == 0 then 0.25 * c(h - 1) + 0.75 * c(h) else 0.75 * c(h) + 0.25 * c(h + 1))
  }

  /** The X path's blend of its two taps: `fmix(tap(subI + 1), tap(subI), alpha)`. */
  function XTapBlend(offset: ChromaLocation, i: int, c: int -> real): (r: real)
    ensures var s := SubIndex(offset, i); MinR(c(s), c(s + 1)) <= r <= MaxR(c(s), c(s + 1))
  {
    var s := SubIndex(offset, i);
    MixBetween(c(s + 1), c(s), Weight(offset, IsEven(i)));
    Mix(c(s + 1), c(s), Weight(offset, IsEven(i)))
  }

  /** The XY path's horizontal blend: `fmix(tap(subI), tap(subI + 1), alpha)`. */
  function XYTapBlend(offset: ChromaLocation, i: int, c: int -> real): (r: real)
    ensures var s := SubIndex(offset, i); MinR(c(s), c(s + 1)) <= r <= MaxR(c(s), c(s + 1))
  {
    var s := SubIndex(offset, i);
    MixBetween(c(s), c(s + 1), Weight(offset, IsEven(i)));
    Mix(c(s), c(s + 1), Weight(offset, IsEven(i)))
  }

  /** The X path follows the Vulkan formula at the midpoint, and for odd i when cosited. */
  lemma XTapBlendMatchesVulkan(offset: ChromaLocation, i: int, c: int -> real)
    requires offset == Midpoint || i % 2 != 0
    ensures XTapBlend(offset, i, c) == VulkanExplicit(offset, i, c)
  {
    IsEvenIsParity(i);
    FloorHalf(i);
  }

  /**
   * Cosited, even i: the X path's weight 0 selects its first argument,
   * tap subI + 1, where the Vulkan formula takes tap i / 2 alone.
   */
  lemma XTapBlendCositedEven(i: int, c: int -> real)
    requires i % 2 == 0
    ensures XTapBlend(CositedEven, i, c) == c(i / 2 + 1)
    ensures VulkanExplicit(CositedEven, i, c) == c(i / 2)
  {
    IsEvenIsParity(i);
    FloorHalf(i);
  }

  /** The XY path follows the Vulkan formula for cosited chroma. */
  lemma XYTapBlendMatchesVulkan(i: int, c: int -> real)
    ensures XYTapBlend(CositedEven, i, c) == VulkanExplicit(CositedEven, i, c)
  {
    IsEvenIsParity(i);
    FloorHalf(i);
  }

  /**
   * At the midpoint the XY path gives each of its two taps the weight the
   * Vulkan formula gives the other one.
   */
  lemma XYTapBlendMidpoint(i: int, c: int -> real)
    ensures var s, w := SubIndex(Midpoint, i), Weight(Midpoint, IsEven(i));
      && XYTapBlend(Midpoint, i, c) == (1.0 - w) * c(s) + w * c(s + 1)
      && VulkanExplicit(Midpoint, i, c) == w * c(s) + (1.0 - w) * c(s + 1)
  {
    IsEvenIsParity(i);
    FloorHalf(i);
    if i % 2 == 0 {
      assert SubIndex(Midpoint, i) == i / 2 - 1;
    } else {
      assert SubIndex(Midpoint, i) == i / 2;
    }
  }

  /** The two explicit paths disagree: at a cosited even texel the X path takes the next tap. */
  lemma XAndXYPathsDisagree()
    ensures XTapBlend(CositedEven, 0, t => if t == 0 then 1.0 else 0.0) == 0.0
    ensures XYTapBlend(CositedEven, 0, t => if t == 0 then 1.0 else 0.0) == 1.0
  {
    XTapBlendCositedEven(0, t => if t == 0 then 1.0 else 0.0);
    XYTapBlendMatchesVulkan(0, t => if t == 0 then 1.0 else 0.0);
  }

  // ---------------------------------------------------------------------
  // Bilinear blend

  /**
   * `BilinearBlend`: the bilinear interpolation of four corners; alpha is
   * the horizontal and beta the vertical weight.
   */
  function BilinearBlend(alpha: real, beta: real, tl: real, tr: real, bl: real, br: real): (r: real)
    ensures r == (1.0 - alpha) * (1.0 - beta) * tl + alpha * (1.0 - beta) * tr
               + (1.0 - alpha) * beta * bl + alpha * beta * br
  {
    var top := Mix(tl, tr, alpha);
    var bot := Mix(bl, br, alpha);
    MixCombine(tl, tr, bl, br, alpha, beta);
    Mix(top, bot, beta)
  }

  lemma MixCombine(tl: real, tr: real, bl: real, br: real, alpha: real, beta: real)
    ensures Mix(Mix(tl, tr, alpha), Mix(bl, br, alpha), beta)
         == (1.0 - alpha) * (1.0 - beta) * tl + alpha * (1.0 - beta) * tr
          + (1.0 - alpha) * beta * bl + alpha * beta * br
  {
    var top := (1.0 - alpha) * tl + alpha * tr;
    var bot := (1.0 - alpha) * bl + alpha * br;
    calc {
      (1.0 - beta) * top + beta * bot;
      (1.0 - beta) * ((1.0 - alpha) * tl) + (1.0 - beta) * (alpha * tr)
        + beta * ((1.0 - alpha) * bl) + beta * (alpha * br);
    }
  }

  /** Weights (0,0), (1,0), (0,1), (1,1) select TL, TR, BL, BR. */
  lemma BilinearCorners(tl: real, tr: real, bl: real, br: real)
    ensures BilinearBlend(0.0, 0.0, tl, tr, bl, br) == tl
    ensures BilinearBlend(1.0, 0.0, tl, tr, bl, br) == tr
    ensures BilinearBlend(0.0, 1.0, tl, tr, bl, br) == bl
    ensures BilinearBlend(1.0, 1.0, tl, tr, bl, br) == br
  {
  }

  /** With weights in [0, 1] the blend stays within the corners' range. */
  lemma BilinearBetween(alpha: real, beta: real, tl: real, tr: real, bl: real, br: real, lo: real, hi: real)
    requires 0.0 <= alpha <= 1.0 && 0.0 <= beta <= 1.0
    requires lo <= tl <= hi && lo <= tr <= hi && lo <= bl <= hi && lo <= br <= hi
    ensures lo <= BilinearBlend(alpha, beta, tl, tr, bl, br) <= hi
  {
    var top := Mix(tl, tr, alpha);
    var bot := Mix(bl, br, alpha);
    MixBetween(tl, tr, alpha);
    MixBetween(bl, br, alpha);
    MixBetween(top, bot, beta);
    MixCombine(tl, tr, bl, br, alpha, beta);
  }

  /** `BilinearBlend` on vectors, lane by lane. */
  function BilinearBlendV(alpha: real, beta: real, tl: seq<real>, tr: seq<real>, bl: seq<real>, br: seq<real>): (r: seq<real>)
    requires |tl| == |tr| == |bl| == |br|
    ensures |r| == |tl|
    ensures forall k | 0 <= k < |r| :: r[k] == BilinearBlend(alpha, beta, tl[k], tr[k], bl[k], br[k])
  {
    MixV(MixV(tl, tr, alpha), MixV(bl, br, alpha), beta)
  }

  // ---------------------------------------------------------------------
  // Range expansion

  /** 2^n as a real. */
  function P2(n: nat): (p: real)
    ensures p >= 1.0
    ensures n >= 1 ==> p >= 2.0
  {
    Pow2(n) as real
  }

  lemma P2Step(n: nat)
    requires n >= 1
    ensures P2(n) == 2.0 * P2(n - 1)
  {
  }

  /**
   * The channel widths the shifts of `YCbCrRangeExpand` are defined for:
   * the full range shifts by n and n - 1 for the Cr and Cb widths, the
   * narrow range by n and n - 8 for all three.
   */
  predicate ExpandBits(range: nat, bits: seq<nat>)
  {
    |bits| == 3 &&
    (range == ItuFull ==> 1 <= bits[0] <= 31 && 1 <= bits[2] <= 31) &&
    (range == ItuNarrow ==> forall k | 0 <= k < 3 :: 8 <= bits[k] <= 31)
  }

  /** The full-range chroma offset `2^(n-1) / (2^n - 1)`. */
  function FullOffset(n: nat): real
    requires 1 <= n
  {
    P2Step(n);
    P2(n - 1) / (P2(n) - 1.0)
  }

  /** The narrow-range scale `(2^n - 1) / (q * 2^(n-8))`, q = 224 or 219. */
  function NarrowScale(n: nat, q: real): real
    requires 8 <= n && q > 0.0
  {
    (P2(n) - 1.0) / (q * P2(n - 8))
  }

  /** The narrow-range offset `(o * 2^(n-8)) / (q * 2^(n-8))`. */
  function NarrowOffset(n: nat, o: real, q: real): (r: real)
    requires 8 <= n && q > 0.0
    ensures r == o / q
  {
    NarrowOffsetIsRatio(P2(n - 8), o, q);
    (o * P2(n - 8)) / (q * P2(n - 8))
  }

  lemma NarrowOffsetIsRatio(p: real, o: real, q: real)
    requires p > 0.0 && q > 0.0
    ensures (o * p) / (q * p) == o / q
  {
  }

  /** One narrow-range lane: the sample scaled, less the offset o / q. */
  function NarrowLaneValue(x: real, n: nat, o: real, q: real): (r: real)
    requires 8 <= n && q > 0.0
    ensures r == x * NarrowScale(n, q) - o / q
  {
    x * NarrowScale(n, q) - NarrowOffset(n, o, q)
  }

  /**
   * `YCbCrRangeExpand` on (Cr, Y, Cb); an unknown range is fatal. The full
   * range recentres the chroma lanes and keeps Y; the narrow range rescales
   * all three lanes.
   */
  function RangeExpand(range: nat, bits: seq<nat>, x: Vec3): (r: Outcome<Vec3>)
    requires ExpandBits(range, bits)
    ensures r.Fatal? <==> range > ItuNarrow
    ensures r.Value? || r.Fatal?
    ensures range == ItuFull ==> r.Value? && r.value[1] == x[1]
    ensures range == ItuNarrow ==> r.Value? && r.value[0] == NarrowLaneValue(x[0], bits[0], 128.0, 224.0)
    ensures range == ItuNarrow ==> r.Value? && r.value[1] == NarrowLaneValue(x[1], bits[1], 16.0, 219.0)
    ensures range == ItuNarrow ==> r.value[2] == NarrowLaneValue(x[2], bits[2], 128.0, 224.0)
  {
    if range == ItuFull then
      Value([x[0] - FullOffset(bits[0]), x[1] - 0.0, x[2] - FullOffset(bits[2])])
    else if range == ItuNarrow then
      Value([NarrowLaneValue(x[0], bits[0], 128.0, 224.0),
             NarrowLaneValue(x[1], bits[1], 16.0, 219.0),
             NarrowLaneValue(x[2], bits[2], 128.0, 224.0)])
    else Fatal
  }

  /**
   * The full-range formula of the Vulkan specification: the sample of an
   * n-bit code c, c / (2^n - 1), expands to (c - 2^(n-1)) / (2^n - 1).
   */
  lemma FullRangeMatchesVulkan(bits: seq<nat>, x: Vec3, codeCr: real, codeCb: real)
    requires ExpandBits(ItuFull, bits)
    requires x[0] == codeCr / (P2(bits[0]) - 1.0) && x[2] == codeCb / (P2(bits[2]) - 1.0)
    ensures RangeExpand(ItuFull, bits, x).value[0] == (codeCr - P2(bits[0] - 1)) / (P2(bits[0]) - 1.0)
    ensures RangeExpand(ItuFull, bits, x).value[2] == (codeCb - P2(bits[2] - 1)) / (P2(bits[2]) - 1.0)
  {
    P2Step(bits[0]);
    P2Step(bits[2]);
    SubOverDenominator(codeCr, P2(bits[0] - 1), P2(bits[0]) - 1.0);
    SubOverDenominator(codeCb, P2(bits[2] - 1), P2(bits[2]) - 1.0);
  }

  lemma SubOverDenominator(a: real, b: real, d: real)
    requires d > 0.0
    ensures a / d - b / d == (a - b) / d
  {
  }

  /** The narrow-range code offsets and spans of (Cr, Y, Cb), in 8-bit units. */
  function NarrowCodeOffset(k: nat): real { if k == 1 then 16.0 else 128.0 }

  function NarrowCodeSpan(k: nat): real { if k == 1 then 219.0 else 224.0 }

  /** The normalised sample of an n-bit code c: c / (2^n - 1). */
  function Normalised(code: real, n: nat): real
    requires 1 <= n
  {
    code / (P2(n) - 1.0)
  }

  /**
   * The narrow-range formula of the Vulkan specification for an n-bit code
   * c with code offset o and span q (in 8-bit units): (c - o 2^(n-8)) / (q 2^(n-8)).
   */
  function NarrowFormula(code: real, n: nat, o: real, q: real): real
    requires 8 <= n && q > 0.0
  {
    (code - o * P2(n - 8)) / (q * P2(n - 8))
  }

  /**
   * The narrow-range formulas of the Vulkan specification, lane k: an n-bit
   * code c expands to (c - 16 * 2^(n-8)) / (219 * 2^(n-8)) for Y and to
   * (c - 128 * 2^(n-8)) / (224 * 2^(n-8)) for Cb and Cr.
   */
  lemma NarrowRangeMatchesVulkan(bits: seq<nat>, x: Vec3, code: real, k: nat)
    requires ExpandBits(ItuNarrow, bits) && k < 3
    requires x[k] == Normalised(code, bits[k])
    ensures 8 <= bits[k]
    ensures RangeExpand(ItuNarrow, bits, x).value[k] ==
      NarrowFormula(code, bits[k], NarrowCodeOffset(k), NarrowCodeSpan(k))
  {
    NarrowLaneOf(bits, x, k);
    NarrowLane(x[k], code, bits[k], NarrowCodeOffset(k), NarrowCodeSpan(k));
  }

  /** Lane k of the narrow-range expansion, with the lane's offset and span. */
  lemma NarrowLaneOf(bits: seq<nat>, x: Vec3, k: nat)
    requires ExpandBits(ItuNarrow, bits) && k < 3
    ensures 8 <= bits[k]
    ensures RangeExpand(ItuNarrow, bits, x).value[k] ==
      NarrowLaneValue(x[k], bits[k], NarrowCodeOffset(k), NarrowCodeSpan(k))
  {
    if k == 0 {
    } else if k == 1 {
    } else {
    }
  }

  lemma NarrowLane(x: real, code: real, n: nat, o: real, q: real)
    requires 8 <= n <= 31 && q > 0.0 && x == Normalised(code, n)
    ensures NarrowLaneValue(x, n, o, q) == NarrowFormula(code, n, o, q)
  {
    NarrowScaled(x, code, n, o, q);
  }

  /** The normalised sample scaled by the narrow-range scale, less o / q, is the Vulkan formula. */
  lemma NarrowScaled(x: real, code: real, n: nat, o: real, q: real)
    requires 8 <= n && q > 0.0 && x == Normalised(code, n)
    ensures x * NarrowScale(n, q) - o / q == NarrowFormula(code, n, o, q)
  {
    NarrowTerms(code, n, o, q);
    NarrowAlgebra(x, code, P2(n) - 1.0, P2(n - 8), o, q, NarrowScale(n, q), NarrowFormula(code, n, o, q));
  }

  lemma NarrowTerms(code: real, n: nat, o: real, q: real)
    requires 8 <= n && q > 0.0
    ensures P2(n) - 1.0 > 0.0 && P2(n - 8) > 0.0
    ensures Normalised(code, n) == code / (P2(n) - 1.0)
    ensures NarrowScale(n, q) == (P2(n) - 1.0) / (q * P2(n - 8))
    ensures NarrowFormula(code, n, o, q) == (code - o * P2(n - 8)) / (q * P2(n - 8))
  {
    P2Monotone(n);
  }

  /** x = c / m scaled by s = m / (q p), less o / q, is f = (c - o p) / (q p). */
  lemma NarrowAlgebra(x: real, code: real, m: real, p: real, o: real, q: real, s: real, f: real)
    requires m > 0.0
    requires p > 0.0
    requires q > 0.0
    requires x == code / m
    requires s == m / (q * p)
    requires f == (code - o * p) / (q * p)
    ensures x * s - o / q == f
  {
    CancelScale(code, m, q * p);
    NarrowOffsetIsRatio(p, o, q);
    SubOverDenominator(code, o * p, q * p);
  }

  lemma P2Monotone(n: nat)
    requires n >= 1
    ensures P2(n) >= 2.0
  {
    P2Step(n);
  }

  lemma CancelScale(c: real, m: real, d: real)
    requires m > 0.0 && d > 0.0
    ensures c / m * (m / d) == c / d
  {
  }

  // ---------------------------------------------------------------------
  // Model conversion

  /** A ITU-R luma weighting: Kr and Kb, with Kg = 1 - Kr - Kb. */
  datatype LumaCoefficients = LumaCoefficients(kr: real, kb: real)

  /** BT.709, BT.601 and BT.2020, by model code. */
  function Coefficients(model: nat): LumaCoefficients
    requires YCbCr709 <= model <= YCbCr2020
  {
    if model == YCbCr709 then LumaCoefficients(0.2126, 0.0722)
    else if model == YCbCr601 then LumaCoefficients(0.299, 0.114)
    else LumaCoefficients(0.2627, 0.0593)
  }

  /**
   * The `convMat` rows of `YCbCrConvertColor`, as the decimal constants of
   * the source: R = row0 . (Cr, Y, Cb), and so on.
   */
  function ConvRows(model: nat): (rows: seq<Vec3>)
    requires YCbCr709 <= model <= YCbCr2020
    ensures |rows| == 3
  {
    if model == YCbCr601 then
      [[1.402, 1.0, 0.0], [-0.419198 / 0.587, 1.0, -0.202008 / 0.587], [0.0, 1.0, 1.772]]
    else if model == YCbCr709 then
      [[1.5748, 1.0, 0.0], [-0.33480248 / 0.7152, 1.0, -0.13397432 / 0.7152], [0.0, 1.0, 1.8556]]
    else
      [[1.4746, 1.0, 0.0], [-0.38737742 / 0.6780, 1.0, -0.11156702 / 0.6780], [0.0, 1.0, 1.8814]]
  }

  /** `CreateDotProduct` of two 3-vectors. */
  function Dot(a: Vec3, b: Vec3): real
  {
    a[0] * b[0] + a[1] * b[1] + a[2] * b[2]
  }

  /** The Y'CbCr encoding of an R'G'B' colour under coefficients `k`, as (Cr, Y, Cb). */
  function Encode(k: LumaCoefficients, r: real, g: real, b: real): Vec3
    requires k.kr != 1.0 && k.kb != 1.0
  {
    var y := k.kr * r + (1.0 - k.kr - k.kb) * g + k.kb * b;
    [(r - y) / (2.0 * (1.0 - k.kr)), y, (b - y) / (2.0 * (1.0 - k.kb))]
  }

  /**
   * The matrix is the exact inverse of the encoding its ITU-R luma
   * weights define: it maps the (Cr, Y, Cb) of any colour back to the colour.
   */
  lemma ConvRowsInvertEncoding(model: nat, r: real, g: real, b: real)
    requires YCbCr709 <= model <= YCbCr2020
    ensures var k := Coefficients(model); var e := Encode(k, r, g, b); var m := ConvRows(model);
      Dot(m[0], e) == r && Dot(m[1], e) == g && Dot(m[2], e) == b
  {
  }

  /** The clamp of the expanded (Cr, Y, Cb): [-0.5, 0.5] x [0, 1] x [-0.5, 0.5]. */
  function ClampExpanded(x: Vec3): (r: Vec3)
    ensures -0.5 <= r[0] <= 0.5 && 0.0 <= r[1] <= 1.0 && -0.5 <= r[2] <= 0.5
  {
    [Clamp(x[0], -0.5, 0.5), Clamp(x[1], 0.0, 1.0), Clamp(x[2], -0.5, 0.5)]
  }

  /** The final clamp of every lane to [0, 1]. */
  function Clamp01(x: Vec4): (r: Vec4)
    ensures forall k | 0 <= k < 4 :: 0.0 <= r[k] <= 1.0
    ensures forall k | 0 <= k < 4 :: 0.0 <= x[k] <= 1.0 ==> r[k] == x[k]
  {
    [Clamp(x[0], 0.0, 1.0), Clamp(x[1], 0.0, 1.0), Clamp(x[2], 0.0, 1.0), Clamp(x[3], 0.0, 1.0)]
  }

  /** The bits the conversion needs: those of range expansion, unless no expansion happens. */
  predicate ConvertBits(model: nat, range: nat, bits: seq<nat>)
  {
    |bits| == 3 && (model != RgbIdentity ==> ExpandBits(range, bits))
  }

  /**
   * `YCbCrConvertColor` on the (Cr, Y, Cb, A) sample `op`. RgbIdentity
   * passes the sample through; YCbCrIdentity gives the clamped expanded
   * lanes; the ITU-R models multiply them by `convMat`. Alpha is lane 3 of
   * the sample throughout, and every model but YCbCrIdentity clamps all
   * four lanes to [0, 1]. An unknown model is fatal, and so is an unknown
   * range wherever the range is expanded.
   */
  function ConvertColor(model: nat, range: nat, bits: seq<nat>, op: Vec4): (r: Outcome<Vec4>)
    requires ConvertBits(model, range, bits)
    ensures r.Value? || r.Fatal?
    ensures r.Fatal? <==> model > YCbCr2020 || (model != RgbIdentity && range > ItuNarrow)
    ensures r.Value? && model != YCbCrIdentity ==> forall k | 0 <= k < 4 :: 0.0 <= r.value[k] <= 1.0
    ensures r.Value? && model == YCbCrIdentity ==>
      && -0.5 <= r.value[0] <= 0.5 && 0.0 <= r.value[1] <= 1.0 && -0.5 <= r.value[2] <= 0.5
      && r.value[3] == op[3]
    ensures model == RgbIdentity ==> r == Value(Clamp01(op))
  {
    if model == RgbIdentity then Value(Clamp01(op))
    else if model > YCbCr2020 then Fatal
    else
      var e := RangeExpand(range, bits, op[..3]);
      if e.Fatal? then Fatal
      else
        var x := ClampExpanded(e.value);
        if model == YCbCrIdentity then Value([x[0], x[1], x[2], op[3]])
        else
          var m := ConvRows(model);
          Value(Clamp01([Dot(m[0], x), Dot(m[1], x), Dot(m[2], x), op[3]]))
  }

  /**
   * A grey sample, whose expanded chroma is zero, converts to R = G = B =
   * its expanded luma under every ITU-R model, with alpha clamped.
   */
  lemma GreyConvertsToGrey(model: nat, range: nat, bits: seq<nat>, op: Vec4)
    requires YCbCr709 <= model <= YCbCr2020 && range <= ItuNarrow && ConvertBits(model, range, bits)
    requires var e := RangeExpand(range, bits, op[..3]).value; e[0] == 0.0 && e[2] == 0.0 && 0.0 <= e[1] <= 1.0
    ensures var y := RangeExpand(range, bits, op[..3]).value[1];
      ConvertColor(model, range, bits, op) == Value([y, y, y, Clamp(op[3], 0.0, 1.0)])
  {
    var e := RangeExpand(range, bits, op[..3]).value;
    var x := ClampExpanded(e);
    assert x == [0.0, e[1], 0.0];
    var m := ConvRows(model);
    LumaColumn(model);
    DotGrey(m[0], e[1]);
    DotGrey(m[1], e[1]);
    DotGrey(m[2], e[1]);
  }

  /** Every row of the conversion matrix weighs Y by 1. */
  lemma LumaColumn(model: nat)
    requires YCbCr709 <= model <= YCbCr2020
    ensures ConvRows(model)[0][1] == 1.0 && ConvRows(model)[1][1] == 1.0 && ConvRows(model)[2][1] == 1.0
  {
  }

  /** A row with Y weight 1 maps the grey (0, y, 0) to y. */
  lemma DotGrey(row: Vec3, y: real)
    requires row[1] == 1.0
    ensures Dot(row, [0.0, y, 0.0]) == y
  {
  }

  /**
   * The ITU-R models recover any colour in the unit cube from its exact
   * expanded encoding, when that encoding fits the chroma clamp.
   */
  lemma ConvertRecoversColour(model: nat, range: nat, bits: seq<nat>, op: Vec4, r: real, g: real, b: real)
    requires YCbCr709 <= model <= YCbCr2020 && range <= ItuNarrow && ConvertBits(model, range, bits)
    requires 0.0 <= r <= 1.0 && 0.0 <= g <= 1.0 && 0.0 <= b <= 1.0 && 0.0 <= op[3] <= 1.0
    requires RangeExpand(range, bits, op[..3]).value == Encode(Coefficients(model), r, g, b)
    requires var e := Encode(Coefficients(model), r, g, b); -0.5 <= e[0] <= 0.5 && 0.0 <= e[1] <= 1.0 && -0.5 <= e[2] <= 0.5
    ensures ConvertColor(model, range, bits, op) == Value([r, g, b, op[3]])
  {
    ConvRowsInvertEncoding(model, r, g, b);
  }
}
