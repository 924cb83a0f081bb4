// The plane address handler of the lgc YCbCr lowering
// (lgc/builder/llpcYCbCrAddressHandler.h, lgc/builder/llpcYCbCrAddressHandler.cpp).
// llpc/builder/llpcYCbCrAddressHelper.h and llpc/builder/llpcYCbCrAddressHelper.cpp
// hold a line-for-line copy of the same class under another name; this
// class models both.
//
// The register handler it reads through is the image descriptor handler of
// sq_img_rsrc_reg_handler.dfy: `GetReg(SqRsrcRegs::Height)` there is the
// handler's `GetParam(Height)`, the biased parameter value.
module YCbCrAddress {
  import opened BitField
  import opened Outcomes
  import opened SqImgRsrcTables
  import opened YCbCrLayout
  import SqImgRsrcHandler

  /**
   * GFX10 divides 256 by the element size `bpp >> 3` before it reads the
   * descriptor; below 8 bits per pixel that size is zero.
   */
  predicate ZeroElementBytes(major: nat, bpp: u32)
  {
    major == 10 && ElementBytes(bpp) == 0
  }

  /**
   * What the tile-optimal GFX10 path needs of a nonzero element size for its
   * `log2`: a power of two of at most 2^16 bytes.
   */
  predicate LayoutInputs(major: nat, bpp: u32, isTileOptimal: bool)
  {
    major == 10 && ElementBytes(bpp) != 0 && isTileOptimal ==> TileBpp(bpp)
  }

  /** A parameter the handler reads without failing, on dwords `d`. */
  function Param(major: nat, d: seq<u32>, p: nat): u32
    requires Supported(major) && DescDWords <= |d| && p < EnumCount && !(major == 10 && p == Pitch)
  {
    SqImgRsrcHandler.ParamValue(major, d, p).value
  }

  /**
   * The layout `GenHeightAndPitch` computes for descriptor dwords `d`:
   * GFX9 reads Height and Pitch, GFX10 Height and Width, and both read
   * IsTileOpt only when the image is tile-optimal. GFX10 with a zero
   * element size divides by zero, which is fatal.
   */
  function DescLayout(major: nat, d: seq<u32>, bits: u32, bpp: u32, xBitCount: u32, isTileOptimal: bool)
    : (r: Outcome<PlaneLayout>)
    requires Supported(major) && DescDWords <= |d| && LayoutInputs(major, bpp, isTileOptimal)
    ensures r.Value? || r.Fatal?
    ensures r.Fatal? <==> major == 10 && bpp < 8
  {
    var tiled := isTileOptimal && Param(major, d, IsTileOpt) != 0;
    if major == 9 then Value(Gfx9Layout(bits, xBitCount, Param(9, d, Height), Param(9, d, Pitch), tiled))
    else if ZeroElementBytes(major, bpp) then Fatal
    else Value(Gfx10Layout(bpp, Param(10, d, Height), Param(10, d, Width), tiled))
  }

  /** The parameters the layout is read from. */
  predicate LayoutParam(p: nat)
  {
    p == Height || p == Pitch || p == Width || p == IsTileOpt
  }

  /**
   * Writing any other parameter of the descriptor (its base address, format,
   * swizzle, ...) leaves the layout computed from it unchanged.
   */
  lemma LayoutKeptBySetParam(major: nat, d: seq<u32>, p: nat, v: u32,
                             bits: u32, bpp: u32, xBitCount: u32, isTileOptimal: bool)
    requires Supported(major) && DescDWords <= |d| && LayoutInputs(major, bpp, isTileOptimal)
    requires !LayoutParam(p) && SqImgRsrcHandler.WithParam(major, d, p, v).Value?
    ensures DescDWords <= |SqImgRsrcHandler.WithParam(major, d, p, v).value|
    ensures DescLayout(major, SqImgRsrcHandler.WithParam(major, d, p, v).value, bits, bpp, xBitCount, isTileOptimal) ==
      DescLayout(major, d, bits, bpp, xBitCount, isTileOptimal)
  {
    var e := SqImgRsrcHandler.WithParam(major, d, p, v).value;
    SqImgRsrcHandler.ParamFrame(major, d, p, Height, v);
    SqImgRsrcHandler.ParamFrame(major, d, p, IsTileOpt, v);
    if major == 9 {
      SqImgRsrcHandler.ParamFrame(major, d, p, Pitch, v);
    } else {
      SqImgRsrcHandler.ParamFrame(major, d, p, Width, v);
    }
  }

  /**
   * `YCbCrAddressHandler`: the plane base addresses and the luma and chroma
   * pitches and heights of one multi-planar image.
   */
  class YCbCrAddressHandler {
    /** `m_pRegHelper`. */
    const regHelper: SqImgRsrcHandler.SqImgRsrcRegHandler
    /** `m_pGfxIpVersion->major`. */
    const gfxMajor: nat
    /** `m_PlaneBaseAddresses`. */
    var planeBaseAddresses: seq<u32>
    var pitchY: u32
    var heightY: u32
    var pitchCb: u32
    var heightCb: u32
    /** `m_pOne`. */
    const one: u32
    /** Whether `GenHeightAndPitch` has assigned the pitches and heights. */
    ghost var hasLayout: bool

    /**
     * The register handler is valid and, for a supported generation, was
     * built for the same GFX version (both hold the same `GfxIpVersion`).
     */
    ghost predicate Valid()
      reads regHelper, regHelper.regs, regHelper.regs.view
    {
      && regHelper.Valid()
      && (Supported(gfxMajor) ==> gfxMajor == regHelper.major)
      && one == 1
    }

    /** The pitch and height fields. */
    function Layout(): PlaneLayout
      reads this
    {
      PlaneLayout(pitchY, heightY, pitchCb, heightCb)
    }

    /** A new handler has no plane addresses yet, and `m_pOne` is 1. */
    constructor (regHelper: SqImgRsrcHandler.SqImgRsrcRegHandler, gfxMajor: nat)
      requires regHelper.Valid() && (Supported(gfxMajor) ==> gfxMajor == regHelper.major)
      ensures Valid() && this.regHelper == regHelper && this.gfxMajor == gfxMajor
      ensures planeBaseAddresses == [] && one == 1 && !hasLayout
    {
      this.regHelper := regHelper;
      this.gfxMajor := gfxMajor;
      planeBaseAddresses := [];
      one := 1;
      pitchY, heightY, pitchCb, heightCb := 0, 0, 0, 0;
      hasLayout := false;
    }

    /** `GetPlane(idx)`: defined for the addresses generated so far. */
    function GetPlane(idx: nat): (r: u32)
      reads this
      requires idx < |planeBaseAddresses|
      ensures r in planeBaseAddresses && r == planeBaseAddresses[idx]
    {
      planeBaseAddresses[idx]
    }

    function GetPitchY(): (r: u32)
      reads this
      ensures r == Layout().pitchY
    {
      pitchY
    }

    function GetPitchCb(): (r: u32)
      reads this
      ensures r == Layout().pitchCb
    {
      pitchCb
    }

    function GetHeightY(): (r: u32)
      reads this
      ensures r == Layout().heightY
    {
      heightY
    }

    function GetHeightCb(): (r: u32)
      reads this
      ensures r == Layout().heightCb
    {
      heightCb
    }

    /**
     * `GenBaseAddress(planeNum)`: appends min(planeNum, 3) plane addresses,
     * the first being the descriptor's base address; the later ones use the
     * pitches and heights, so those must have been generated.
     */
    method GenBaseAddress(planeNum: u32)
      requires Valid() && (planeNum > 1 ==> hasLayout)
      modifies this, regHelper.regs, regHelper.regs.view
      ensures Valid() && regHelper.Contents() == old(regHelper.Contents())
      ensures Layout() == old(Layout()) && hasLayout == old(hasLayout)
      ensures planeBaseAddresses ==
        PlanesAfter(old(planeBaseAddresses), Param(regHelper.major, old(regHelper.Contents()), BaseAddress), Layout(), planeNum)
    {
      ghost var base := Param(regHelper.major, regHelper.Contents(), BaseAddress);
      if planeNum > 0 {
        var b := regHelper.GetParam(BaseAddress);
        planeBaseAddresses := planeBaseAddresses + [b.value];
        if planeNum > 1 {
          planeBaseAddresses := planeBaseAddresses + [Add(planeBaseAddresses[0], LShr(Mul(pitchY, heightY), 8))];
          if planeNum > 2 {
            planeBaseAddresses := planeBaseAddresses + [Add(planeBaseAddresses[1], LShr(Mul(pitchCb, heightCb), 8))];
          }
        }
      }
    }

    /**
     * `GenHeightAndPitch`: assigns the pitches and heights of the luma and
     * chroma planes from the descriptor; any generation but GFX9 and GFX10
     * is fatal, and so is GFX10 below 8 bits per pixel, where `256 /
     * (bpp >> 3)` divides by zero. IsTileOpt is read only for a
     * tile-optimal image. `planeNum` is not used.
     */
    method GenHeightAndPitch(bits: u32, bpp: u32, xBitCount: u32, isTileOptimal: bool, planeNum: u32)
      returns (fatal: bool)
      requires Valid() && LayoutInputs(gfxMajor, bpp, isTileOptimal)
      modifies this, regHelper.regs, regHelper.regs.view
      ensures Valid() && regHelper.Contents() == old(regHelper.Contents())
      ensures planeBaseAddresses == old(planeBaseAddresses)
      ensures fatal <==> !Supported(gfxMajor) || (gfxMajor == 10 && bpp < 8)
      ensures fatal ==> hasLayout == old(hasLayout) && Layout() == old(Layout())
      ensures !fatal ==>
        hasLayout && Value(Layout()) == DescLayout(gfxMajor, old(regHelper.Contents()), bits, bpp, xBitCount, isTileOptimal)
    {
      if gfxMajor == 9 {
        GenGfx9(bits, xBitCount, isTileOptimal);
        fatal := false;
      } else if gfxMajor == 10 {
        fatal := GenGfx10(bpp, isTileOptimal);
      } else {
        fatal := true;
      }
    }

    /**
     * The GFX9 case of `GenHeightAndPitch`: Height and Pitch, and IsTileOpt
     * for a tile-optimal image, then the arithmetic of `Gfx9Layout`.
     */
    method GenGfx9(bits: u32, xBitCount: u32, isTileOptimal: bool)
      requires Valid() && gfxMajor == 9
      modifies this, regHelper.regs, regHelper.regs.view
      ensures Valid() && regHelper.Contents() == old(regHelper.Contents())
      ensures planeBaseAddresses == old(planeBaseAddresses)
      ensures hasLayout && Value(Layout()) == DescLayout(9, old(regHelper.Contents()), bits, 0, xBitCount, isTileOptimal)
    {
      var l := ReadGfx9(bits, xBitCount, isTileOptimal);
      SetLayout(l);
    }

    /** The descriptor reads of the GFX9 case and the layout they give. */
    method ReadGfx9(bits: u32, xBitCount: u32, isTileOptimal: bool) returns (l: PlaneLayout)
      requires Valid() && gfxMajor == 9
      modifies regHelper.regs, regHelper.regs.view
      ensures Valid() && regHelper.Contents() == old(regHelper.Contents())
      ensures Value(l) == DescLayout(9, old(regHelper.Contents()), bits, 0, xBitCount, isTileOptimal)
    {
      var height := regHelper.GetParam(Height);
      var pitch := regHelper.GetParam(Pitch);
      var pIsTileOpt := false;
      if isTileOptimal {
        var tile := regHelper.GetParam(IsTileOpt);
        pIsTileOpt := tile.value != 0;
      }
      l := Gfx9Layout(bits, xBitCount, height.value, pitch.value, pIsTileOpt);
    }

    /**
     * The GFX10 case of `GenHeightAndPitch`: fatal below 8 bits per pixel;
     * otherwise Height and Width, and IsTileOpt for a tile-optimal image,
     * then the arithmetic of `Gfx10Layout`.
     */
    method GenGfx10(bpp: u32, isTileOptimal: bool) returns (fatal: bool)
      requires Valid() && gfxMajor == 10 && LayoutInputs(10, bpp, isTileOptimal)
      modifies this, regHelper.regs, regHelper.regs.view
      ensures Valid() && regHelper.Contents() == old(regHelper.Contents())
      ensures planeBaseAddresses == old(planeBaseAddresses)
      ensures fatal <==> bpp < 8
      ensures fatal ==> hasLayout == old(hasLayout) && Layout() == old(Layout())
      ensures !fatal ==> hasLayout && Value(Layout()) == DescLayout(10, old(regHelper.Contents()), 0, bpp, 0, isTileOptimal)
    {
      var l := ReadGfx10(bpp, isTileOptimal);
      if l.Fatal? {
        return true;
      }
      SetLayout(l.value);
      fatal := false;
    }

    /**
     * The descriptor reads of the GFX10 case and the layout they give; a
     * zero element size is fatal before anything is read.
     */
    method ReadGfx10(bpp: u32, isTileOptimal: bool) returns (l: Outcome<PlaneLayout>)
      requires Valid() && gfxMajor == 10 && LayoutInputs(10, bpp, isTileOptimal)
      modifies regHelper.regs, regHelper.regs.view
      ensures Valid() && regHelper.Contents() == old(regHelper.Contents())
      ensures l == DescLayout(10, old(regHelper.Contents()), 0, bpp, 0, isTileOptimal)
    {
      if ElementBytes(bpp) == 0 {
        return Fatal;
      }
      var height := regHelper.GetParam(Height);
      var width := regHelper.GetParam(Width);
      var pIsTileOpt := false;
      if isTileOptimal {
        var tile := regHelper.GetParam(IsTileOpt);
        pIsTileOpt := tile.value != 0;
      }
      l := Value(Gfx10Layout(bpp, height.value, width.value, pIsTileOpt));
    }

    /** Stores a generated layout: the pitches and heights, nothing else. */
    method SetLayout(l: PlaneLayout)
      modifies this
      ensures hasLayout && Layout() == l && planeBaseAddresses == old(planeBaseAddresses)
    {
      pitchY, heightY, pitchCb, heightCb, hasLayout := l.pitchY, l.heightY, l.pitchCb, l.heightCb, true;
    }
  }
}
