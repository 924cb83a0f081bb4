// The YCbCr planner object, `SamplerYCbCrHelper`
// (lgc/builder/llpcSamplerYCbCrHandler.h, lgc/builder/llpcSamplerYCbCrHandler.cpp):
// the decoded conversion metadata, the luma and chroma descriptors, the
// sample coordinates, and the steps the image lowering calls on it in turn.
//
// The descriptor work runs on the register handlers of the other modules
// (the image descriptor handler of sq_img_rsrc_reg_handler.dfy stands for
// the lgc-side handler, whose `GetReg`/`SetReg` by `SqRsrcRegs` are its
// `GetParam`/`SetParam`), and each step is proved against the functions that
// state what it computes: `ChromaSamplerDesc`, `ChromaPlaneDescs`,
// `ChromaSample`, `YCbCrData` and `ConvertColor`.
module YCbCrSampler {
  import opened BitField
  import opened Outcomes
  import opened SqImgRsrcTables
  import opened SqImgSampRegHelper
  import opened YCbCrTypes
  import opened YCbCrMath
  import opened YCbCrLayout
  import opened YCbCrAddress
  import opened YCbCrReconstruct
  import opened YCbCrChromaDesc
  import SqImgRsrcHandler

  /**
   * The fields of `SamplerYCbCrConversionMetaData` the planner reads,
   * already decoded from their bit-fields; the filters and chroma
   * locations as their enumerations.
   */
  datatype ConversionMetaData = ConversionMetaData(
    planes: u32, xSubSampled: bool, ySubSampled: bool, forceExplicitReconstruct: bool,
    xBitCount: u32, yBitCount: u32, zBitCount: u32, wBitCount: u32,
    swizzleR: u32, swizzleG: u32, swizzleB: u32, swizzleA: u32,
    lumaFilter: SamplerFilter, chromaFilter: SamplerFilter,
    xChromaOffset: ChromaLocation, yChromaOffset: ChromaLocation,
    yCbCrRange: nat, yCbCrModel: nat, tileOptimal: bool,
    channelBitsR: u32, channelBitsG: u32, channelBitsB: u32,
    dstSelXYZW: u32,       // `word1.dstSelXYZW`
    sqImgRsrcWord1: u32)   // `word3.sqImgRsrcWord1`

  /**
   * `m_bpp`: the four channel widths together for a single-plane format, the
   * first channel's otherwise; the sum is taken in 32 bits.
   */
  function BitsPerPixel(md: ConversionMetaData): (bpp: u32)
    ensures md.planes != 1 ==> bpp == md.xBitCount
    ensures md.planes == 1 && md.xBitCount + md.yBitCount + md.zBitCount + md.wBitCount < WORD ==>
      bpp == md.xBitCount + md.yBitCount + md.zBitCount + md.wBitCount
  {
    if md.planes == 1 then
      var xy := Add(md.xBitCount, md.yBitCount);
      var xyz := Add(xy, md.zBitCount);
      var sum := md.xBitCount + md.yBitCount + md.zBitCount + md.wBitCount;
      assert sum < WORD ==> Add(xyz, md.wBitCount) == sum by {
        if sum < WORD {
          AddNoWrap(md.xBitCount, md.yBitCount);
          AddNoWrap(xy, md.zBitCount);
          AddNoWrap(xyz, md.wBitCount);
        }
      }
      Add(xyz, md.wBitCount)
    else md.xBitCount
  }

  /** `std::vector::resize(n)`: the first n entries kept, null (empty) ones appended. */
  function Resize(v: seq<seq<u32>>, n: nat): (r: seq<seq<u32>>)
    ensures |r| == n
    ensures forall k | 0 <= k < n :: r[k] == if k < |v| then v[k] else []
    decreases if |v| < n then n - |v| else |v| - n
  {
    if |v| == n then v
    else if |v| > n then Resize(v[..|v| - 1], n)
    else Resize(v + [[]], n)
  }

  /** `YCbCrSampleInfo`: the descriptors the next image fetch uses, updated in place by the planner. */
  class YCbCrSampleInfo {
    var imageDesc: seq<u32>
    var samplerDesc: seq<u32>

    constructor (imageDesc: seq<u32>, samplerDesc: seq<u32>)
      ensures this.imageDesc == imageDesc && this.samplerDesc == samplerDesc
    {
      this.imageDesc := imageDesc;
      this.samplerDesc := samplerDesc;
    }
  }

  /**
   * The planner members that `SetGfxIpVersion` and
   * `SetYCbCrConversionMetaData` assign: `m_pGfxIp->major`, `m_planeNum`
   * through `m_bits`, and the two words of `m_pMetaData` the chroma
   * descriptors copy: `word3.sqImgRsrcWord1` (`format`) and
   * `word1.dstSelXYZW` (`dstSel`).
   */
  datatype Config = Config(
    gfxMajor: nat, planeNum: u32, subsampledX: bool, subsampledY: bool, forceExplicit: bool,
    tileOptimal: bool, xBitCount: u32, bpp: u32,
    swizzleR: ComponentSwizzle, swizzleG: ComponentSwizzle, swizzleB: ComponentSwizzle, swizzleA: ComponentSwizzle,
    lumaFilter: SamplerFilter, chromaFilter: SamplerFilter,
    xChromaOffset: ChromaLocation, yChromaOffset: ChromaLocation,
    yCbCrRange: nat, yCbCrModel: nat, bits: seq<u32>, format: u32, dstSel: u32)

  /** The output swizzle, R, G, B, A. */
  function Swizzles(c: Config): seq<ComponentSwizzle>
  {
    [c.swizzleR, c.swizzleG, c.swizzleB, c.swizzleA]
  }

  /** The inputs `GenImgDescChroma` reads besides the luma descriptor. */
  function Inputs(c: Config): DescInputs
    requires |c.bits| == 3
  {
    DescInputs(c.bits[0], c.bpp, c.xBitCount, c.tileOptimal, c.planeNum, c.format, c.dstSel)
  }

  /**
   * The descriptor members: `m_pSamplerDescLuma`, `m_pImgDescLuma`,
   * `m_pSamplerDescChroma` and `m_pImgDescChromas`, in which an empty entry
   * is a null descriptor.
   */
  datatype DescState = DescState(samplerDescLuma: seq<u32>, imgDescLuma: seq<u32>, samplerDescChroma: seq<u32>,
                                 imgDescChromas: seq<seq<u32>>)

  /**
   * `m_pWidth` and `m_pHeight`, the luma extent as floats; `m_pS`, `m_pT`,
   * the normalised coordinate; `m_pU`, `m_pV`, the same in texels; `m_pI`,
   * `m_pJ`, the integral texel.
   */
  datatype CoordState = CoordState(width: real, height: real, s: real, t: real, u: real, v: real, i: int, j: int)

  /** The planner state `SampleYCbCrData` reads. */
  function PlanOf(c: Config, d: DescState, x: CoordState): SamplePlan
  {
    SamplePlan(c.lumaFilter, c.chromaFilter, c.forceExplicit, c.subsampledX, c.subsampledY, c.planeNum,
               c.xChromaOffset, c.yChromaOffset, d.imgDescChromas, d.samplerDescChroma, x.width, x.height,
               x.u, x.v, x.i, x.j)
  }

  /** The inputs of `GenImgDescChroma` that come from the metadata. */
  function InputsOf(md: ConversionMetaData): DescInputs
  {
    DescInputs(md.channelBitsR, BitsPerPixel(md), md.xBitCount, md.tileOptimal, md.planes,
               md.sqImgRsrcWord1, md.dstSelXYZW)
  }

  /** Every component swizzle of the metadata is a valid selector (at most A). */
  predicate SwizzlesInRange(md: ConversionMetaData)
  {
    md.swizzleR <= SwizzleA && md.swizzleG <= SwizzleA && md.swizzleB <= SwizzleA && md.swizzleA <= SwizzleA
  }

  /** The settings `SetYCbCrConversionMetaData` derives from valid metadata, on GFX major `major`. */
  function SettingsOf(major: nat, md: ConversionMetaData): (c: Config)
    requires SwizzlesInRange(md)
    ensures |c.bits| == 3 && Inputs(c) == InputsOf(md)
  {
    Config(major, md.planes, md.xSubSampled, md.ySubSampled, md.forceExplicitReconstruct, md.tileOptimal,
           md.xBitCount, BitsPerPixel(md),
           FromU32(md.swizzleR).value, FromU32(md.swizzleG).value, FromU32(md.swizzleB).value, FromU32(md.swizzleA).value,
           md.lumaFilter, md.chromaFilter, md.xChromaOffset, md.yChromaOffset, md.yCbCrRange, md.yCbCrModel,
           [md.channelBitsR, md.channelBitsG, md.channelBitsB], md.sqImgRsrcWord1, md.dstSelXYZW)
  }

  /**
   * `SamplerYCbCrHelper`: the planner of one YCbCr image sample. Its
   * members are grouped as `Config`, `DescState` and `CoordState` say. The
   * converting constructor runs the set-up steps in order (`Configure`,
   * then `GenImgDescChroma`); the image lowering then sets the
   * coordinates, samples and converts.
   */
  class SamplerYCbCrHelper {
    var settings: Config
    /** `m_pYCbCrSampleInfo`: shared with the caller, and updated by `SampleYCbCrData`. */
    var sampleInfo: YCbCrSampleInfo
    var descs: DescState
    var coords: CoordState
    /** `m_pYCbCrData`: the swizzled sample `SampleYCbCrData` assembles. */
    var yCbCrData: Outcome<Vec4>
    /** The image fetches emitted so far, in order. */
    var fetchLog: seq<Fetch>

    /** `SamplerYCbCrHelper() = default`: nothing set yet, no chroma descriptors, no fetches. */
    constructor ()
      ensures settings == Config(0, 0, false, false, false, false, 0, 0,
        FromChannel(0), FromChannel(0), FromChannel(0), FromChannel(0), Nearest, Nearest,
        CositedEven, CositedEven, 0, 0, [0, 0, 0], 0, 0)
      ensures descs == DescState([], [], [], [])
      ensures coords == CoordState(0.0, 0.0, 0.0, 0.0, 0.0, 0.0, 0, 0)
      ensures yCbCrData == NullValue && fetchLog == [] && fresh(sampleInfo)
    {
      settings := Config(0, 0, false, false, false, false, 0, 0,
        FromChannel(0), FromChannel(0), FromChannel(0), FromChannel(0), Nearest, Nearest,
        CositedEven, CositedEven, 0, 0, [0, 0, 0], 0, 0);
      sampleInfo := new YCbCrSampleInfo([], []);
      descs := DescState([], [], [], []);
      coords := CoordState(0.0, 0.0, 0.0, 0.0, 0.0, 0.0, 0, 0);
      yCbCrData, fetchLog := NullValue, [];
    }

    /**
     * The converting constructor up to its last step: `SetGfxIpVersion`,
     * `SetYCbCrConversionMetaData`, `SetYCbCrSampleInfo` and
     * `GenSamplerDescChroma`, in order, on a new helper. A swizzle above A
     * fails its assertion. The constructor then calls `GenImgDescChroma`,
     * whose contract is stated there.
     */
    static method Configure(md: ConversionMetaData, info: YCbCrSampleInfo, major: nat)
      returns (r: Outcome<SamplerYCbCrHelper>)
      requires SampDWords <= |info.samplerDesc| <= 32
      ensures r.AssertFails? <==> !SwizzlesInRange(md)
      ensures r.Value? || r.AssertFails?
      ensures r.Value? ==>
        var h := r.value;
        && fresh(h) && h.settings == SettingsOf(major, md) && h.sampleInfo == info
        && h.descs == DescState(info.samplerDesc, info.imageDesc,
                                ChromaSamplerDesc(info.samplerDesc, md.chromaFilter, md.forceExplicitReconstruct),
                                [info.imageDesc, [], []])
        && h.coords == CoordState(0.0, 0.0, 0.0, 0.0, 0.0, 0.0, 0, 0)
        && h.yCbCrData == NullValue && h.fetchLog == []
    {
      var h := new SamplerYCbCrHelper();
      h.SetGfxIpVersion(major);
      var failed := h.SetYCbCrConversionMetaData(md);
      if failed {
        return AssertFails;
      }
      assert h.descs.imgDescChromas == [[], [], []];
      h.SetYCbCrSampleInfo(info);
      assert h.descs == DescState(info.samplerDesc, info.imageDesc, info.samplerDesc, [info.imageDesc, [], []]);
      h.GenSamplerDescChroma();
      return Value(h);
    }

    /** `SetGfxIpVersion`. */
    method SetGfxIpVersion(major: nat)
      modifies this
      ensures unchanged(this`descs, this`coords, this`sampleInfo, this`yCbCrData, this`fetchLog)
      ensures settings == old(settings).(gfxMajor := major)
    {
      settings := settings.(gfxMajor := major);
    }

    /**
     * `SetYCbCrConversionMetaData`: copies the metadata into the settings,
     * with `m_bpp` as `BitsPerPixel` gives it, and makes room for three
     * chroma descriptors. Assigning a swizzle above A fails its assertion.
     */
    method SetYCbCrConversionMetaData(md: ConversionMetaData) returns (failed: bool)
      modifies this
      ensures unchanged(this`coords, this`sampleInfo, this`yCbCrData, this`fetchLog)
      ensures failed <==> !SwizzlesInRange(md)
      ensures failed ==> unchanged(this)
      ensures !failed ==> settings == SettingsOf(old(settings.gfxMajor), md)
      ensures !failed ==> descs == old(descs).(imgDescChromas := Resize(old(descs.imgDescChromas), 3))
    {
      var planeNum := md.planes;
      var bpp := if planeNum == 1 then Add(Add(Add(md.xBitCount, md.yBitCount), md.zBitCount), md.wBitCount)
                 else md.xBitCount;
      var swizzleR := Assign(settings.swizzleR, md.swizzleR);
      if !swizzleR.Value? { return true; }
      var swizzleG := Assign(settings.swizzleG, md.swizzleG);
      if !swizzleG.Value? { return true; }
      var swizzleB := Assign(settings.swizzleB, md.swizzleB);
      if !swizzleB.Value? { return true; }
      var swizzleA := Assign(settings.swizzleA, md.swizzleA);
      if !swizzleA.Value? { return true; }
      settings := Config(settings.gfxMajor, planeNum, md.xSubSampled, md.ySubSampled, md.forceExplicitReconstruct,
                         md.tileOptimal, md.xBitCount, bpp, swizzleR.value, swizzleG.value, swizzleB.value,
                         swizzleA.value, md.lumaFilter, md.chromaFilter, md.xChromaOffset, md.yChromaOffset,
                         md.yCbCrRange, md.yCbCrModel, [md.channelBitsR, md.channelBitsG, md.channelBitsB], md.sqImgRsrcWord1, md.dstSelXYZW);
      descs := descs.(imgDescChromas := Resize(descs.imgDescChromas, 3));
      failed := false;
    }

    /**
     * `SetYCbCrSampleInfo`: the luma descriptors are the sample info's, and
     * both chroma sampler and plane 1's descriptor start as the luma ones.
     */
    method SetYCbCrSampleInfo(info: YCbCrSampleInfo)
      requires 1 <= |descs.imgDescChromas|
      modifies this
      ensures unchanged(this`settings, this`coords, this`yCbCrData, this`fetchLog)
      ensures sampleInfo == info
      ensures descs == DescState(info.samplerDesc, info.imageDesc, info.samplerDesc,
                                 old(descs.imgDescChromas)[0 := info.imageDesc])
    {
      sampleInfo := info;
      var samplerDescLuma := sampleInfo.samplerDesc;
      var imgDescLuma := sampleInfo.imageDesc;
      descs := DescState(samplerDescLuma, imgDescLuma, samplerDescLuma, descs.imgDescChromas[0 := imgDescLuma]);
    }

    /** `GenSamplerDescChroma`: the chroma sampler derived from the luma one by the chroma filter. */
    method GenSamplerDescChroma()
      requires SampDWords <= |descs.samplerDescLuma| <= 32
      modifies this
      ensures unchanged(this`settings, this`coords, this`sampleInfo, this`yCbCrData, this`fetchLog)
      ensures descs == old(descs).(samplerDescChroma :=
        ChromaSamplerDesc(old(descs.samplerDescLuma), old(settings.chromaFilter), old(settings.forceExplicit)))
    {
      var chroma := YCbCrGenerateSamplerDesc(descs.samplerDescLuma, settings.chromaFilter, settings.forceExplicit);
      descs := descs.(samplerDescChroma := chroma);
    }

    /**
     * `GenImgDescChroma`: the plane layout and plane addresses of the luma
     * descriptor, the luma extent, and the chroma plane descriptors
     * `ChromaPlaneDescs` states, in entries 1 and 2 (an entry the plane count
     * does not produce is left as it was). The lgc register handler rejects
     * any generation but GFX9 and GFX10, and GFX10 has no Pitch to read (its
     * layout already fails below 8 bits per pixel).
     */
    method GenImgDescChroma() returns (fatal: bool)
      requires |descs.imgDescChromas| == 3 && |settings.bits| == 3 && DescDWords <= |descs.imgDescLuma| <= 32
      requires LayoutInputs(settings.gfxMajor, settings.bpp, settings.tileOptimal)
      modifies this
      ensures unchanged(this`settings, this`sampleInfo, this`yCbCrData, this`fetchLog)
      ensures fatal <==> old(settings.gfxMajor) != 9
      ensures fatal ==> unchanged(this)
      ensures !fatal ==>
        var d := old(descs.imgDescLuma);
        && descs == old(descs).(imgDescChromas := ChromaSlots(old(descs.imgDescChromas), ChromaPlaneDescs(d, Inputs(old(settings)))))
        && coords == old(coords).(width := Param(9, d, Width) as real, height := Param(9, d, Height) as real)
    {
      var width, height, descs12;
      fatal, width, height, descs12 := BuildChromaDescs(descs.imgDescLuma, settings.gfxMajor, Inputs(settings));
      if fatal {
        return;
      }
      coords := coords.(width := width as real, height := height as real);
      descs := descs.(imgDescChromas := ChromaSlots(descs.imgDescChromas, descs12));
    }

    /**
     * `SetCoord`: the texel coordinate of (S, T) over the luma extent, and
     * the integral texel the luma filter starts from.
     */
    method SetCoord(s: real, t: real)
      modifies this
      ensures unchanged(this`settings, this`descs, this`sampleInfo, this`yCbCrData, this`fetchLog)
      ensures var w, h, f := old(coords.width), old(coords.height), old(settings.lumaFilter);
        coords == CoordState(w, h, s, t, STtoUV(s, w), STtoUV(t, h), UVtoIJ(f, STtoUV(s, w)), UVtoIJ(f, STtoUV(t, h)))
    {
      var u := STtoUV(s, coords.width);
      var v := STtoUV(t, coords.height);
      var i := UVtoIJ(settings.lumaFilter, u);
      var j := UVtoIJ(settings.lumaFilter, v);
      coords := coords.(s := s, t := t, u := u, v := v, i := i, j := j);
    }

    /**
     * `SampleYCbCrData`: one luma fetch at (S, T) with the sample info's
     * descriptors, then the chroma sampler in the sample info and the
     * chroma reconstruction `ChromaSample` chooses, then the lanes
     * assembled and swizzled; a null chroma crashes the assembly, so the
     * data is never null. The sample info is left with the chroma sampler
     * and the image of the last fetch.
     */
    method SampleYCbCrData(op: ImageOp)
      requires |descs.imgDescChromas| == 3 && coords.width > 0.0 && coords.height > 0.0
      requires SwizzleOk(Swizzles(settings))
      modifies this, sampleInfo
      ensures unchanged(this`settings, this`descs, this`coords, this`sampleInfo)
      ensures var luma := LumaFetch(old(sampleInfo.imageDesc), old(sampleInfo.samplerDesc), old(coords.s), old(coords.t));
        var chroma := ChromaSample(PlanOf(old(settings), old(descs), old(coords)), op);
        && fetchLog == old(fetchLog) + [luma] + chroma.fetches
        && yCbCrData == YCbCrData(op(luma), chroma.value, Swizzles(old(settings)))
        && sampleInfo.samplerDesc == old(descs.samplerDescChroma)
        && sampleInfo.imageDesc == if chroma.fetches == [] then old(sampleInfo.imageDesc)
                                   else chroma.fetches[|chroma.fetches| - 1].image
      ensures !yCbCrData.NullValue?
    {
      var lumaFetch := LumaFetch(sampleInfo.imageDesc, sampleInfo.samplerDesc, coords.s, coords.t);
      fetchLog := fetchLog + [lumaFetch];
      var imageOpLuma := op(lumaFetch);
      sampleInfo.samplerDesc := descs.samplerDescChroma;
      var chroma := ChromaSample(PlanOf(settings, descs, coords), op);
      fetchLog := fetchLog + chroma.fetches;
      if chroma.fetches != [] {
        sampleInfo.imageDesc := chroma.fetches[|chroma.fetches| - 1].image;
      }
      yCbCrData := YCbCrData(imageOpLuma, chroma.value, Swizzles(settings));
    }

    /**
     * `ConvertColorSpace`: `YCbCrConvertColor` of the assembled sample with
     * the model, range and channel depths of the metadata; a sample that
     * could not be assembled stays the failure it is.
     */
    method ConvertColorSpace() returns (r: Outcome<Vec4>)
      requires ConvertBits(settings.yCbCrModel, settings.yCbCrRange, settings.bits)
      ensures r == if yCbCrData.Value? then ConvertColor(settings.yCbCrModel, settings.yCbCrRange, settings.bits, yCbCrData.value)
                   else yCbCrData
    {
      if yCbCrData.Value? {
        r := ConvertColor(settings.yCbCrModel, settings.yCbCrRange, settings.bits, yCbCrData.value);
      } else {
        r := yCbCrData;
      }
    }
  }

  /**
   * The chroma descriptor slots after `GenImgDescChroma` stores the planes it
   * produced: slot 0 is untouched, and a slot whose descriptor was not
   * produced keeps what it held.
   */
  function ChromaSlots(slots: seq<seq<u32>>, c: ChromaDescs): (r: seq<seq<u32>>)
    requires |slots| == 3
    ensures |r| == 3 && r[0] == slots[0]
    ensures r[1] == (if c.desc1 == [] then slots[1] else c.desc1)
    ensures r[2] == (if c.desc2 == [] then slots[2] else c.desc2)
    ensures slots[1] == [] && slots[2] == [] ==> r == [slots[0], c.desc1, c.desc2]
  {
    [slots[0], if c.desc1 == [] then slots[1] else c.desc1, if c.desc2 == [] then slots[2] else c.desc2]
  }

  /**
   * The register work of `GenImgDescChroma` on luma descriptor `d`: a
   * register handler over a copy of `d`, the address handler's layout and
   * plane addresses, the luma Width and Height, and the chroma descriptors
   * read back after each plane's writes. A plane count outside 1 to 3 still
   * rewrites Width and Format but reads nothing back. Fatal on any
   * generation but GFX9.
   */
  method BuildChromaDescs(d: seq<u32>, major: nat, inp: DescInputs)
    returns (fatal: bool, w: u32, h: u32, c: ChromaDescs)
    requires DescDWords <= |d| <= 32 && LayoutInputs(major, inp.bpp, inp.tileOptimal)
    ensures fatal <==> major != 9
    ensures !fatal ==> w == Param(9, d, Width) && h == Param(9, d, Height) && c == ChromaPlaneDescs(d, inp)
  {
    var created := SqImgRsrcHandler.SqImgRsrcRegHandler.Create(d, major);
    if created.Fatal? {
      return true, 0, 0, ChromaDescs([], []);
    }
    var proxy := created.value;
    var rd;
    fatal, rd := ReadLuma(proxy, inp);
    if fatal {
      return true, 0, 0, ChromaDescs([], []);
    }
    w, h := rd.width, rd.height;
    c := WriteChromaDescs(proxy, inp, rd);
  }

  /**
   * What `GenImgDescChroma` reads from the luma descriptor before it
   * writes: the address handler's layout and plane addresses, then Width,
   * Height and Pitch. A failing layout (GFX10 below 8 bits per pixel) stops
   * it before the plane addresses.
   */
  method ReadLuma(proxy: SqImgRsrcHandler.SqImgRsrcRegHandler, inp: DescInputs)
    returns (fatal: bool, rd: LumaReads)
    requires proxy.Valid() && LayoutInputs(proxy.major, inp.bpp, inp.tileOptimal)
    modifies proxy.regs, proxy.regs.view
    ensures proxy.Valid() && proxy.Contents() == old(proxy.Contents())
    ensures fatal <==> proxy.major != 9
    ensures !fatal ==> rd == LumaReadsOf(old(proxy.Contents()), inp)
  {
    ghost var d := proxy.Contents();
    var addrHelper := new YCbCrAddressHandler(proxy, proxy.major);
    var unsupported := addrHelper.GenHeightAndPitch(inp.bits0, inp.bpp, inp.xBitCount, inp.tileOptimal, inp.planeNum);
    if unsupported {
      return true, LumaReads(0, 0, 0, 0, []);
    }
    addrHelper.GenBaseAddress(inp.planeNum);
    var width := proxy.GetParam(Width);
    var height := proxy.GetParam(Height);
    var pitch := proxy.GetParam(Pitch);
    if pitch.Fatal? {
      return true, LumaReads(0, 0, 0, 0, []);
    }
    fatal := false;
    rd := LumaReads(width.value, height.value, pitch.value, addrHelper.GetPitchCb(), addrHelper.planeBaseAddresses);
    assert rd == LumaReadsOf(d, inp);
  }

  /**
   * The writes of `GenImgDescChroma` on the handler of the luma
   * descriptor, given what was read from it: plane 2's descriptor read
   * back after its writes, then plane 3's after further writes over it.
   */
  method WriteChromaDescs(proxy: SqImgRsrcHandler.SqImgRsrcRegHandler, inp: DescInputs, rd: LumaReads)
    returns (c: ChromaDescs)
    requires proxy.Valid() && proxy.major == 9 && |rd.planes| == Min(inp.planeNum, 3)
    modifies proxy.regs, proxy.regs.view
    ensures c == ChromaDescsFrom(old(proxy.Contents()), inp, rd)
  {
    c := ChromaDescs([], []);
    if 1 <= inp.planeNum <= 3 {
      PutDesc1(proxy, inp, rd);
      var desc1 := proxy.GetRegister();
      c := c.(desc1 := desc1);
      if inp.planeNum == 3 {
        PutDesc2(proxy, rd);
        var desc2 := proxy.GetRegister();
        c := c.(desc2 := desc2);
      }
    } else {
      var ignored := proxy.SetParam(Width, LShr(rd.width, 1));
      ignored := proxy.SetParam(Format, inp.format);
    }
  }

  /** `YCbCrGenerateSamplerDesc`: the three sampler fields written through the sampler register helper. */
  method YCbCrGenerateSamplerDesc(samplerDesc: seq<u32>, filter: SamplerFilter, force: bool) returns (r: seq<u32>)
    requires SampDWords <= |samplerDesc| <= 32
    ensures r == ChromaSamplerDesc(samplerDesc, filter, force)
  {
    var imgRegHelper := new SqImgSampRegHelperGfx9(samplerDesc);
    imgRegHelper.SetFilterMode(0);
    if filter == Nearest || force {
      SetXYFilters(imgRegHelper, 0);
    } else {
      SetXYFilters(imgRegHelper, 1);
    }
    r := imgRegHelper.view.GetRegister();
  }

  /** `SetXYMagFilter(v)` and then `SetXYMinFilter(v)`. */
  method SetXYFilters(imgRegHelper: SqImgSampRegHelperGfx9, v: u32)
    requires imgRegHelper.Valid()
    modifies imgRegHelper.view
    ensures imgRegHelper.Valid()
    ensures imgRegHelper.view.Contents() ==
      StoreField(StoreField(old(imgRegHelper.view.Contents()), SampTable()[XYMagFilter], v), SampTable()[XYMinFilter], v)
  {
    imgRegHelper.SetXYMagFilter(v);
    imgRegHelper.SetXYMinFilter(v);
  }

  /**
   * One `SetReg` of a chroma descriptor parameter on the GFX9 handler,
   * whose return value the planner ignores: every writable parameter has a
   * GFX9 field, so the write always lands.
   */
  method PutWrite(proxy: SqImgRsrcHandler.SqImgRsrcRegHandler, p: nat, v: u32)
    requires proxy.Valid() && proxy.major == 9 && Writable(p)
    modifies proxy.regs, proxy.regs.view
    ensures proxy.Valid() && proxy.Contents() == Put(old(proxy.Contents()), p, v)
  {
    var fatal := proxy.SetParam(p, v);
  }

  /** Two writes, one `SetReg` each, in order. */
  method PutWrites2(proxy: SqImgRsrcHandler.SqImgRsrcRegHandler, ws: seq<Write>)
    requires proxy.Valid() && proxy.major == 9 && WritesOk(ws) && |ws| == 2
    modifies proxy.regs, proxy.regs.view
    ensures proxy.Valid() && proxy.Contents() == PutAll(old(proxy.Contents()), ws)
  {
    ghost var d := proxy.Contents();
    PutWrite(proxy, ws[0].param, ws[0].value);
    PutWrite(proxy, ws[1].param, ws[1].value);
    PutTwo(d, ws);
    assert ws[2..] == [];
  }

  /** Three writes, one `SetReg` each, in order. */
  method PutWrites3(proxy: SqImgRsrcHandler.SqImgRsrcRegHandler, ws: seq<Write>)
    requires proxy.Valid() && proxy.major == 9 && WritesOk(ws) && |ws| == 3
    modifies proxy.regs, proxy.regs.view
    ensures proxy.Valid() && proxy.Contents() == PutAll(old(proxy.Contents()), ws)
  {
    ghost var d := proxy.Contents();
    PutWrite(proxy, ws[0].param, ws[0].value);
    PutWrite(proxy, ws[1].param, ws[1].value);
    PutWrite(proxy, ws[2].param, ws[2].value);
    PutThree(d, ws);
  }

  /** The writes of `Desc1Writes`, one `SetReg` each, in order. */
  method PutDesc1(proxy: SqImgRsrcHandler.SqImgRsrcRegHandler, inp: DescInputs, rd: LumaReads)
    requires proxy.Valid() && proxy.major == 9
    requires 1 <= inp.planeNum <= 3 && (2 <= inp.planeNum ==> 1 < |rd.planes|)
    modifies proxy.regs, proxy.regs.view
    ensures proxy.Valid()
    ensures proxy.Contents() == PutAll(old(proxy.Contents()), Desc1Writes(inp, rd))
  {
    ghost var d := proxy.Contents();
    var sizes := [Write(Width, LShr(rd.width, 1)), Write(Format, inp.format)];
    PutWrites2(proxy, sizes);
    PutDesc1Rest(proxy, inp, rd);
    PutAllConcat(d, sizes, Desc1Writes(inp, rd)[2..]);
    assert Desc1Writes(inp, rd) == sizes + Desc1Writes(inp, rd)[2..];
  }

  /** The writes of `Desc1Writes` after the sizes. */
  method PutDesc1Rest(proxy: SqImgRsrcHandler.SqImgRsrcRegHandler, inp: DescInputs, rd: LumaReads)
    requires proxy.Valid() && proxy.major == 9
    requires 1 <= inp.planeNum <= 3 && (2 <= inp.planeNum ==> 1 < |rd.planes|)
    modifies proxy.regs, proxy.regs.view
    ensures WritesOk(Desc1Writes(inp, rd)[2..])
    ensures proxy.Valid()
    ensures proxy.Contents() == PutAll(old(proxy.Contents()), Desc1Writes(inp, rd)[2..])
  {
    if inp.planeNum == 1 {
      var rest := [Write(DstSelXYZW, inp.dstSel), Write(BcSwizzle, 6), Write(Pitch, rd.pitchCb)];
      PutWrites3(proxy, rest);
      assert Desc1Writes(inp, rd)[2..] == rest;
    } else {
      PutPlanar(proxy, inp, rd);
    }
  }

  /** The writes of `Desc1Writes` after the sizes, for two or three planes. */
  method PutPlanar(proxy: SqImgRsrcHandler.SqImgRsrcRegHandler, inp: DescInputs, rd: LumaReads)
    requires proxy.Valid() && proxy.major == 9
    requires 2 <= inp.planeNum <= 3 && 1 < |rd.planes|
    modifies proxy.regs, proxy.regs.view
    ensures WritesOk(Desc1Writes(inp, rd)[2..])
    ensures proxy.Valid()
    ensures proxy.Contents() == PutAll(old(proxy.Contents()), Desc1Writes(inp, rd)[2..])
  {
    ghost var d := proxy.Contents();
    var plane := [Write(BaseAddress, rd.planes[1]), Write(Height, LShr(rd.height, 1))];
    PutWrites2(proxy, plane);
    var sel: u32 := if inp.planeNum == 2 then inp.dstSel else 0x300;
    var swz: u32 := if inp.planeNum == 2 then 6 else 4;
    var rest := [Write(DstSelXYZW, sel), Write(BcSwizzle, swz), Write(Pitch, LShr(rd.pitch, 1))];
    ThreeOk(rest);
    PutWrites3(proxy, rest);
    PutAllConcat(d, plane, rest);
    Desc1Planar(inp, rd);
    assert Desc1Writes(inp, rd)[2..] == plane + rest;
  }

  /** Three writes to writable parameters. */
  lemma ThreeOk(ws: seq<Write>)
    requires |ws| == 3 && Writable(ws[0].param) && Writable(ws[1].param) && Writable(ws[2].param)
    ensures WritesOk(ws)
  {
  }

  /** `Desc1Writes` of a two- or three-plane format, written out. */
  lemma Desc1Planar(inp: DescInputs, rd: LumaReads)
    requires 2 <= inp.planeNum <= 3 && 1 < |rd.planes|
    ensures WritesOk(Desc1Writes(inp, rd)[2..])
    ensures Desc1Writes(inp, rd)[2..] ==
      [Write(BaseAddress, rd.planes[1]), Write(Height, LShr(rd.height, 1))] +
      [Write(DstSelXYZW, if inp.planeNum == 2 then inp.dstSel else 0x300),
       Write(BcSwizzle, if inp.planeNum == 2 then 6 else 4), Write(Pitch, LShr(rd.pitch, 1))]
  {
  }

  /** The writes of `Desc2Writes`, one `SetReg` each, in order. */
  method PutDesc2(proxy: SqImgRsrcHandler.SqImgRsrcRegHandler, rd: LumaReads)
    requires proxy.Valid() && proxy.major == 9 && 2 < |rd.planes|
    modifies proxy.regs, proxy.regs.view
    ensures proxy.Valid()
    ensures proxy.Contents() == PutAll(old(proxy.Contents()), Desc2Writes(rd))
  {
    PutWrites3(proxy, [Write(BaseAddress, rd.planes[2]), Write(DstSelXYZW, 0x204), Write(BcSwizzle, 5)]);
  }

  /** `PutAll` of three writes, one `Put` after the other. */
  lemma PutThree(d: seq<u32>, ws: seq<Write>)
    requires DescDWords <= |d| && WritesOk(ws) && |ws| == 3
    ensures PutAll(d, ws) ==
      Put(Put(Put(d, ws[0].param, ws[0].value), ws[1].param, ws[1].value), ws[2].param, ws[2].value)
  {
    PutTwo(d, ws);
    var d2 := Put(Put(d, ws[0].param, ws[0].value), ws[1].param, ws[1].value);
    PutOne(d2, ws[2..]);
  }

  /** `PutAll` of one write is its `Put`. */
  lemma PutOne(d: seq<u32>, ws: seq<Write>)
    requires DescDWords <= |d| && WritesOk(ws) && |ws| == 1
    ensures PutAll(d, ws) == Put(d, ws[0].param, ws[0].value)
  {
    assert ws[1..] == [];
  }

  /** `PutAll` of two writes or more: the first two `Put`s, then the rest. */
  lemma PutTwo(d: seq<u32>, ws: seq<Write>)
    requires DescDWords <= |d| && WritesOk(ws) && 2 <= |ws|
    ensures WritesOk(ws[2..])
    ensures PutAll(d, ws) == PutAll(Put(Put(d, ws[0].param, ws[0].value), ws[1].param, ws[1].value), ws[2..])
  {
    assert ws[1..][1..] == ws[2..];
  }
}
