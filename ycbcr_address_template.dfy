// The templated plane address helper `YCbCrAddressHelper<T>` of the older
// llpc builder (llpc/builder/llpcSamplerYCbCrHelper.h), instantiated with the
// GFX9 or the GFX10 image descriptor helper of sq_img_rsrc_reg_helper.dfy.
// It appends one plane address per call, selected by plane number, and each
// generation has its own `GenHeightAndPitch` specialisation. The contracts
// are stated with the lgc handler's functions, so each of them is also the
// proof that this copy computes what the lgc handler computes.
module YCbCrAddressTemplate {
  import opened BitField
  import opened Outcomes
  import opened SqImgRsrcTables
  import opened YCbCrLayout
  import opened YCbCrAddress
  import SqImgRsrcHelper
  import SqImgRsrcHandler

  /** `YCbCrAddressHelper<T>` with `T` the descriptor helper of `regHelper.major`. */
  class YCbCrAddressHelper {
    /** `m_pSqImgRsrcRegHelper`. */
    const regHelper: SqImgRsrcHelper.SqImgRsrcRegHelper
    /** `m_PlaneBaseAddresses`. */
    var planeBaseAddresses: seq<u32>
    var pitchY: u32
    var heightY: u32
    var pitchCb: u32
    var heightCb: u32
    /** `m_pInt32One`. */
    const one: u32
    /** Whether `GenHeightAndPitch` has assigned the pitches and heights. */
    ghost var hasLayout: bool

    ghost predicate Valid()
      reads regHelper, regHelper.regs, regHelper.regs.view
    {
      regHelper.Valid() && one == 1
    }

    /** The pitch and height fields. */
    function Layout(): PlaneLayout
      reads this
    {
      PlaneLayout(pitchY, heightY, pitchCb, heightCb)
    }

    /** A new helper has no plane addresses yet, and `m_pInt32One` is 1. */
    constructor (regHelper: SqImgRsrcHelper.SqImgRsrcRegHelper)
      requires regHelper.Valid()
      ensures Valid() && this.regHelper == regHelper
      ensures planeBaseAddresses == [] && one == 1 && !hasLayout
    {
      this.regHelper := regHelper;
      planeBaseAddresses := [];
      one := 1;
      pitchY, heightY, pitchCb, heightCb := 0, 0, 0, 0;
      hasLayout := false;
    }

    /** `GetPlane(idx)`: defined for the addresses generated so far. */
    function GetPlane(idx: nat): (r: u32)
      reads this
      requires idx < |planeBaseAddresses|
      ensures r in planeBaseAddresses && r == planeBaseAddresses[idx]
    {
      planeBaseAddresses[idx]
    }

    function GetPitchY(): (r: u32)
      reads this
      ensures r == Layout().pitchY
    {
      pitchY
    }

    function GetPitchCb(): (r: u32)
      reads this
      ensures r == Layout().pitchCb
    {
      pitchCb
    }

    function GetHeightY(): (r: u32)
      reads this
      ensures r == Layout().heightY
    {
      heightY
    }

    function GetHeightCb(): (r: u32)
      reads this
      ensures r == Layout().heightCb
    {
      heightCb
    }

    /**
     * `GenBaseAddress(planeNum)`: plane 1 is the descriptor's base address,
     * plane 2 lies the luma plane's size past entry 0 and plane 3 the chroma
     * plane's size past entry 1; any other number appends nothing. The
     * entry read must exist, and the sizes must have been generated.
     */
    method GenBaseAddress(planeNum: u32)
      requires Valid()
      requires planeNum == 2 ==> |planeBaseAddresses| >= 1 && hasLayout
      requires planeNum == 3 ==> |planeBaseAddresses| >= 2 && hasLayout
      modifies this, regHelper.regs, regHelper.regs.view
      ensures Valid() && regHelper.Contents() == old(regHelper.Contents())
      ensures Layout() == old(Layout()) && hasLayout == old(hasLayout)
      ensures planeBaseAddresses ==
        PlaneStep(old(planeBaseAddresses), Param(regHelper.major, old(regHelper.Contents()), BaseAddress), Layout(), planeNum)
    {
      ghost var d := regHelper.Contents();
      if planeNum == 1 {
        var b := regHelper.GetParam(BaseAddress);
        SqImgRsrcHelper.GetParamAgrees(regHelper.major, d, BaseAddress);
        planeBaseAddresses := planeBaseAddresses + [b.value];
      } else if planeNum == 2 {
        planeBaseAddresses := planeBaseAddresses + [Add(planeBaseAddresses[0], LShr(Mul(pitchY, heightY), 8))];
      } else if planeNum == 3 {
        planeBaseAddresses := planeBaseAddresses + [Add(planeBaseAddresses[1], LShr(Mul(pitchCb, heightCb), 8))];
      }
    }

    /**
     * The GFX9 specialisation of `GenHeightAndPitch`: the same pitches and
     * heights as the lgc handler on the same descriptor. `bpp` and
     * `planeNum` are not used.
     */
    method GenHeightAndPitchGfx9(bits: u32, bpp: u32, xBitCount: u32, isTileOptimal: bool, planeNum: u32)
      requires Valid() && regHelper.major == 9
      modifies this, regHelper.regs, regHelper.regs.view
      ensures Valid() && regHelper.Contents() == old(regHelper.Contents())
      ensures planeBaseAddresses == old(planeBaseAddresses)
      ensures hasLayout && Value(Layout()) == DescLayout(9, old(regHelper.Contents()), bits, bpp, xBitCount, isTileOptimal)
    {
      var l := ReadGfx9(bits, xBitCount, isTileOptimal);
      SetLayout(l);
    }

    /** The descriptor reads of the GFX9 specialisation and the layout they give. */
    method ReadGfx9(bits: u32, xBitCount: u32, isTileOptimal: bool) returns (l: PlaneLayout)
      requires Valid() && regHelper.major == 9
      modifies regHelper.regs, regHelper.regs.view
      ensures Valid() && regHelper.Contents() == old(regHelper.Contents())
      ensures Value(l) == DescLayout(9, old(regHelper.Contents()), bits, 0, xBitCount, isTileOptimal)
    {
      ghost var d := regHelper.Contents();
      var height := regHelper.GetParam(Height);
      var pitch := regHelper.GetParam(Pitch);
      SqImgRsrcHelper.GetParamAgrees(9, d, Height);
      SqImgRsrcHelper.GetParamAgrees(9, d, Pitch);
      var pIsTileOpt := false;
      if isTileOptimal {
        var tile := regHelper.GetParam(IsTileOpt);
        SqImgRsrcHelper.GetParamAgrees(9, d, IsTileOpt);
        pIsTileOpt := tile.value != 0;
      }
      l := Gfx9Layout(bits, xBitCount, height.value, pitch.value, pIsTileOpt);
    }

    /**
     * The GFX10 specialisation of `GenHeightAndPitch`: fatal below 8 bits
     * per pixel, where `256 / (bpp >> 3)` divides by zero; otherwise the
     * same pitches and heights as the lgc handler on the same descriptor.
     * `bits`, `xBitCount` and `planeNum` are not used.
     */
    method GenHeightAndPitchGfx10(bits: u32, bpp: u32, xBitCount: u32, isTileOptimal: bool, planeNum: u32)
      returns (fatal: bool)
      requires Valid() && regHelper.major == 10 && LayoutInputs(10, bpp, isTileOptimal)
      modifies this, regHelper.regs, regHelper.regs.view
      ensures Valid() && regHelper.Contents() == old(regHelper.Contents())
      ensures planeBaseAddresses == old(planeBaseAddresses)
      ensures fatal <==> bpp < 8
      ensures fatal ==> hasLayout == old(hasLayout) && Layout() == old(Layout())
      ensures !fatal ==>
        hasLayout && Value(Layout()) == DescLayout(10, old(regHelper.Contents()), bits, bpp, xBitCount, isTileOptimal)
    {
      var l := ReadGfx10(bpp, isTileOptimal);
      if l.Fatal? {
        return true;
      }
      SetLayout(l.value);
      fatal := false;
    }

    /**
     * The descriptor reads of the GFX10 specialisation and the layout they
     * give; a zero element size is fatal before anything is read.
     */
    method ReadGfx10(bpp: u32, isTileOptimal: bool) returns (l: Outcome<PlaneLayout>)
      requires Valid() && regHelper.major == 10 && LayoutInputs(10, bpp, isTileOptimal)
      modifies regHelper.regs, regHelper.regs.view
      ensures Valid() && regHelper.Contents() == old(regHelper.Contents())
      ensures l == DescLayout(10, old(regHelper.Contents()), 0, bpp, 0, isTileOptimal)
    {
      if ElementBytes(bpp) == 0 {
        return Fatal;
      }
      ghost var d := regHelper.Contents();
      var height := regHelper.GetParam(Height);
      var width := regHelper.GetParam(Width);
      SqImgRsrcHelper.GetParamAgrees(10, d, Height);
      SqImgRsrcHelper.GetParamAgrees(10, d, Width);
      var pIsTileOpt := false;
      if isTileOptimal {
        var tile := regHelper.GetParam(IsTileOpt);
        SqImgRsrcHelper.GetParamAgrees(10, d, IsTileOpt);
        pIsTileOpt := tile.value != 0;
      }
      l := Value(Gfx10Layout(bpp, height.value, width.value, pIsTileOpt));
    }

    /** Stores a generated layout: the pitches and heights, nothing else. */
    method SetLayout(l: PlaneLayout)
      modifies this
      ensures hasLayout && Layout() == l && planeBaseAddresses == old(planeBaseAddresses)
    {
      pitchY, heightY, pitchCb, heightCb, hasLayout := l.pitchY, l.heightY, l.pitchCb, l.heightCb, true;
    }
  }
}
