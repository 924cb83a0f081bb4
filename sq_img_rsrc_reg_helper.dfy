// The image resource descriptor helper `SqImgRsrcRegHelper<T>` with its
// GFX9 and GFX10 subclasses (llpc/util/llpcSqImgRsrcRegHelper.h,
// llpc/util/llpcSqImgRsrcRegHelper.cpp): the same job as
// `SqImgRsrcRegHandler`, written as one switch per generation over the
// generation's own field ids. The template parameter, which picks the
// generation at compile time, is the helper's `major`.
module SqImgRsrcHelper {
  import opened BitField
  import opened Outcomes
  import opened GfxRegHandler
  import opened GfxRegHelper
  import opened SqImgRsrcTables
  import SqImgRsrcHandler

  /** `SqImgRsrcRegHelperGfx9::m_bitsStateList` field ranges. */
  function HelperGfx9Table(): (t: seq<BitsInfo>)
    ensures t == Gfx9Table()
  {
    [ BitsInfo(0,  0, 32), BitsInfo(1,  0,  8), BitsInfo(1, 20,  9), BitsInfo(2,  0, 14),
      BitsInfo(2, 14, 14), BitsInfo(3,  0, 12), BitsInfo(3, 20,  5), BitsInfo(4,  0, 13),
      BitsInfo(4, 13, 12), BitsInfo(4, 29,  3) ]
  }

  /** `SqImgRsrcRegHelperGfx10::m_bitsStateList` field ranges. */
  function HelperGfx10Table(): (t: seq<BitsInfo>)
    ensures t == Gfx10Table()
  {
    [ BitsInfo(0,  0, 32), BitsInfo(1,  0,  8), BitsInfo(1, 20,  9), BitsInfo(1, 30,  2),
      BitsInfo(2,  0, 14), BitsInfo(2, 14, 16), BitsInfo(3,  0, 12), BitsInfo(3, 20,  5),
      BitsInfo(3, 25,  3), BitsInfo(4,  0, 16) ]
  }

  /** `SqImgRsrcRegHelperGfx9::GetParam`: an id outside the switch gives null. */
  function Gfx9ParamValue(d: seq<u32>, p: nat): (r: Outcome<u32>)
    requires DescDWords <= |d|
    ensures r.NullValue? <==> p >= EnumCount
    ensures r.Value? || r.NullValue?
  {
    if p == BaseAddress || p == BaseAddressHi || p == Format || p == DstSelXYZW || p == Depth || p == BcSwizzle then
      Value(FieldAt(9, d, p))
    else if p == Width || p == Height || p == Pitch then Value(Add(FieldAt(9, d, p), 1))
    else if p == IsTileOpt then Value(if FieldAt(9, d, p) != 0 then 1 else 0)
    else NullValue
  }

  /** `SqImgRsrcRegHelperGfx9::SetParam`: IsTileOpt is fatal; an id outside the switch changes nothing. */
  function Gfx9WithParam(d: seq<u32>, p: nat, v: u32): (r: Outcome<seq<u32>>)
    requires DescDWords <= |d|
    ensures r.Fatal? <==> p == IsTileOpt
    ensures r.Value? || r.Fatal?
    ensures p >= EnumCount ==> r == Value(d)
  {
    if p == BaseAddress || p == BaseAddressHi || p == Format || p == DstSelXYZW || p == Depth || p == BcSwizzle then
      Value(StoreAt(9, d, p, v))
    else if p == Width || p == Height || p == Pitch then Value(StoreAt(9, d, p, Sub(v, 1)))
    else if p == IsTileOpt then Fatal
    else Value(d)
  }

  /** The GFX10 field id each generic parameter uses in the helper's switch (none for Pitch). */
  function Gfx10Field(p: nat): Option<nat>
  {
    if p == BaseAddress || p == BaseAddressHi || p == Format then Some(p)
    else if p == Height then Some(Gfx10Height)
    else if p == DstSelXYZW then Some(Gfx10DstSelXYZW)
    else if p == IsTileOpt then Some(Gfx10IsTileOpt)
    else if p == Depth then Some(Gfx10Depth)
    else if p == BcSwizzle then Some(Gfx10BcSwizzle)
    else None
  }

  /** `SqImgRsrcRegHelperGfx10::GetRegCombine`: reads WidthLo and WidthHi whatever ids it is given, shifting by `idLo`'s offset. */
  function Gfx10Combined(d: seq<u32>, idLo: nat): u32
    requires DescDWords <= |d| && idLo < EnumCount
  {
    TableEntry(10, idLo);
    Combine(FieldAt(10, d, Gfx10WidthLo), FieldAt(10, d, Gfx10WidthHi), HelperGfx10Table()[idLo].offset)
  }

  /** `SqImgRsrcRegHelperGfx10::GetParam`: Pitch and any id outside the switch give null. */
  function Gfx10ParamValue(d: seq<u32>, p: nat): (r: Outcome<u32>)
    requires DescDWords <= |d|
    ensures r.NullValue? <==> p >= EnumCount || p == Pitch
    ensures r.Value? || r.NullValue?
  {
    if p == Width then Value(Add(Gfx10Combined(d, Gfx10WidthLo), 1))
    else match Gfx10Field(p)
      case None => NullValue
      case Some(f) =>
        if p == Height then Value(Add(FieldAt(10, d, f), 1))
        else if p == IsTileOpt then Value(if FieldAt(10, d, f) != 0 then 1 else 0)
        else Value(FieldAt(10, d, f))
  }

  /** `SqImgRsrcRegHelperGfx10::SetParam`: IsTileOpt is fatal; Pitch and ids outside the switch change nothing. */
  function Gfx10WithParam(d: seq<u32>, p: nat, v: u32): (r: Outcome<seq<u32>>)
    requires DescDWords <= |d|
    ensures r.Fatal? <==> p == IsTileOpt
    ensures r.Value? || r.Fatal?
    ensures p >= EnumCount || p == Pitch ==> r == Value(d)
  {
    if p == Width then
      var shift := HelperGfx10Table()[Gfx10WidthLo].offset;
      var w := Sub(v, 1);
      Value(StoreAt(10, StoreAt(10, d, Gfx10WidthLo, SplitLo(w, shift)), Gfx10WidthHi, SplitHi(w, shift)))
    else if p == IsTileOpt then Fatal
    else match Gfx10Field(p)
      case None => Value(d)
      case Some(f) =>
        if p == Height then Value(StoreAt(10, d, f, Sub(v, 1)))
        else Value(StoreAt(10, d, f, v))
  }

  /** `SqImgRsrcRegHelper<T>::GetParam`: forwards to the generation's own `GetParam`. */
  function HelperParamValue(major: nat, d: seq<u32>, p: nat): (r: Outcome<u32>)
    requires Supported(major) && DescDWords <= |d|
    ensures r.NullValue? <==> p >= EnumCount || (major == 10 && p == Pitch)
    ensures r.Value? || r.NullValue?
  {
    if major == 9 then Gfx9ParamValue(d, p) else Gfx10ParamValue(d, p)
  }

  /** `SqImgRsrcRegHelper<T>::SetParam`: forwards to the generation's own `SetParam`. */
  function HelperWithParam(major: nat, d: seq<u32>, p: nat, v: u32): (r: Outcome<seq<u32>>)
    requires Supported(major) && DescDWords <= |d|
    ensures r.Fatal? <==> p == IsTileOpt
    ensures r.Value? || r.Fatal?
  {
    if major == 9 then Gfx9WithParam(d, p, v) else Gfx10WithParam(d, p, v)
  }

  /**
   * The helper reads every parameter as the handler does; where the handler
   * is fatal (an id outside the enumeration, GFX10 Pitch) the helper returns
   * null instead.
   */
  lemma GetParamAgrees(major: nat, d: seq<u32>, p: nat)
    requires Supported(major) && DescDWords <= |d|
    ensures SqImgRsrcHandler.ParamValue(major, d, p).Value? ==>
      HelperParamValue(major, d, p) == SqImgRsrcHandler.ParamValue(major, d, p)
    ensures SqImgRsrcHandler.ParamValue(major, d, p).Fatal? <==> HelperParamValue(major, d, p).NullValue?
  {
    if major == 9 {
      GetParamAgrees9(d, p);
    } else {
      GetParamAgrees10(d, p);
    }
  }

  /** Apart from Width, the helper's GFX10 switch picks the handler's lookup entry. */
  lemma Gfx10FieldIsLookup(p: nat)
    requires p < EnumCount && p != Width
    ensures Lookup(10, p) == Gfx10Field(p)
  {
  }

  lemma GetParamAgrees9(d: seq<u32>, p: nat)
    requires DescDWords <= |d|
    ensures SqImgRsrcHandler.ParamValue(9, d, p).Value? ==>
      HelperParamValue(9, d, p) == SqImgRsrcHandler.ParamValue(9, d, p)
  {
  }

  lemma GetParamAgrees10(d: seq<u32>, p: nat)
    requires DescDWords <= |d|
    ensures SqImgRsrcHandler.ParamValue(10, d, p).Value? ==>
      HelperParamValue(10, d, p) == SqImgRsrcHandler.ParamValue(10, d, p)
  {
    if p == Width {
      SqImgRsrcHandler.Gfx10WidthCase(d, 1);
    } else if p < EnumCount {
      Gfx10FieldIsLookup(p);
    }
  }

  /**
   * The helper writes every parameter as the handler does, and both stop on
   * IsTileOpt; GFX10 Pitch, fatal in the handler, is ignored by the helper.
   */
  lemma SetParamAgrees(major: nat, d: seq<u32>, p: nat, v: u32)
    requires Supported(major) && DescDWords <= |d|
    ensures p != IsTileOpt && SqImgRsrcHandler.WithParam(major, d, p, v).Fatal? ==> HelperWithParam(major, d, p, v) == Value(d)
    ensures !SqImgRsrcHandler.WithParam(major, d, p, v).Fatal? ==>
      HelperWithParam(major, d, p, v) == SqImgRsrcHandler.WithParam(major, d, p, v)
    ensures HelperWithParam(major, d, p, v).Fatal? <==> p == IsTileOpt
  {
    if major == 9 {
      SetParamAgrees9(d, p, v);
    } else {
      SetParamAgrees10(d, p, v);
    }
  }

  lemma SetParamAgrees9(d: seq<u32>, p: nat, v: u32)
    requires DescDWords <= |d|
    ensures p != IsTileOpt && SqImgRsrcHandler.WithParam(9, d, p, v).Fatal? ==> HelperWithParam(9, d, p, v) == Value(d)
    ensures !SqImgRsrcHandler.WithParam(9, d, p, v).Fatal? ==>
      HelperWithParam(9, d, p, v) == SqImgRsrcHandler.WithParam(9, d, p, v)
  {
  }

  lemma SetParamAgrees10(d: seq<u32>, p: nat, v: u32)
    requires DescDWords <= |d|
    ensures p != IsTileOpt && SqImgRsrcHandler.WithParam(10, d, p, v).Fatal? ==> HelperWithParam(10, d, p, v) == Value(d)
    ensures !SqImgRsrcHandler.WithParam(10, d, p, v).Fatal? ==>
      HelperWithParam(10, d, p, v) == SqImgRsrcHandler.WithParam(10, d, p, v)
  {
    if p == Width {
      SqImgRsrcHandler.Gfx10WidthCase(d, v);
    } else if p < EnumCount {
      Gfx10FieldIsLookup(p);
      if p == Height {
      } else if p == Pitch || p == IsTileOpt {
      } else {
        assert SqImgRsrcHandler.IsRaw(p);
      }
    }
  }

  /**
   * `SqImgRsrcRegHelper<T>` instantiated for generation `major`: the view
   * and the `m_bitsStateList` cache are the `GfxRegHelper` it holds.
   */
  class SqImgRsrcRegHelper {
    const regs: GfxRegHelper
    /** The generation the template argument selects. */
    const major: nat

    ghost predicate Valid()
      reads this, regs, regs.view
    {
      && Supported(major)
      && regs.Valid()
      && regs.bitsInfo == (if major == 9 then HelperGfx9Table() else HelperGfx10Table())
      && DescDWords <= |regs.view.dwords|
    }

    ghost function Contents(): (c: seq<u32>)
      reads this, regs, regs.view
      requires Valid()
      ensures DescDWords <= |c|
    {
      regs.view.Contents()
    }

    /** Binds `register`; every entry of the generation's list starts unknown and unmodified. */
    constructor (register: seq<u32>, major: nat)
      requires Supported(major) && DescDWords <= |register| <= 32
      ensures Valid() && fresh(regs) && fresh(regs.view)
      ensures this.major == major && Contents() == register && regs.view.DirtyIndices() == {}
      ensures regs.bitsState == seq(EnumCount, _ => FreshBitsState())
    {
      this.major := major;
      var h := new GfxRegHelper(register, true);
      if major == 9 { Gfx9IsFieldTable(); } else { Gfx10IsFieldTable(); }
      h.BindTable(major, if major == 9 then HelperGfx9Table() else HelperGfx10Table());
      regs := h;
    }

    /** `GetReg(id)`, that is `GetRegCommon(m_bitsStateList, id)`. */
    method GetReg(id: nat) returns (v: u32)
      requires Valid() && id < EnumCount
      modifies regs, regs.view
      ensures Valid()
      ensures v == FieldAt(major, old(Contents()), id)
      ensures Contents() == old(Contents()) && regs.view.DirtyIndices() == old(regs.view.DirtyIndices())
      ensures regs.bitsState == old(regs.bitsState)[id := BitsState(Some(v), false)]
    {
      v := regs.GetRegCommon(id);
    }

    /** `SetReg(id, v)`, that is `SetRegCommon(m_bitsStateList, id, v)`. */
    method SetReg(id: nat, v: u32)
      requires Valid() && id < EnumCount
      modifies regs, regs.view
      ensures Valid()
      ensures Contents() == StoreAt(major, old(Contents()), id, v)
      ensures regs.bitsState == old(regs.bitsState)[id := old(regs.bitsState[id]).(isModified := true)]
    {
      regs.SetRegCommon(id, v);
    }

    /** GFX10 `GetRegCombine`: always WidthLo and WidthHi, shifted by `idLo`'s offset. */
    method GetRegCombine(idLo: nat, idHi: nat) returns (v: u32)
      requires Valid() && major == 10 && idLo < EnumCount && idHi < EnumCount
      modifies regs, regs.view
      ensures Valid()
      ensures v == Gfx10Combined(old(Contents()), idLo)
      ensures Contents() == old(Contents()) && regs.view.DirtyIndices() == old(regs.view.DirtyIndices())
    {
      var lo := GetReg(Gfx10WidthLo);
      var hi := GetReg(Gfx10WidthHi);
      TableEntry(10, idLo);
      v := Or(ShlW(hi, regs.bitsInfo[idLo].offset), lo);
    }

    /** GFX10 `SetRegCombine`: splits `v` at `idLo`'s offset and writes both parts through `SetReg`. */
    method SetRegCombine(idLo: nat, idHi: nat, v: u32)
      requires Valid() && major == 10 && idLo < EnumCount && idHi < EnumCount && idLo != idHi
      modifies regs, regs.view
      ensures Valid()
      ensures WellFormed(Table(10)[idLo])
      ensures Contents() == StoreAt(10, StoreAt(10, old(Contents()), idLo, SplitLo(v, Table(10)[idLo].offset)),
                                    idHi, SplitHi(v, Table(10)[idLo].offset))
    {
      TableEntry(10, idLo);
      var shift := regs.bitsInfo[idLo].offset;
      var lo := Ubfe(v, 0, shift);
      var hi := LShr(v, shift);
      SetReg(idLo, lo);
      SetReg(idHi, hi);
    }

    /** `SqImgRsrcRegHelperGfx9::GetParam`. */
    method GetParamGfx9(p: nat) returns (r: Outcome<u32>)
      requires Valid() && major == 9
      modifies regs, regs.view
      ensures Valid()
      ensures r == Gfx9ParamValue(old(Contents()), p)
      ensures Contents() == old(Contents()) && regs.view.DirtyIndices() == old(regs.view.DirtyIndices())
    {
      if p == BaseAddress || p == BaseAddressHi || p == Format || p == DstSelXYZW || p == Depth || p == BcSwizzle {
        var x := GetReg(p);
        r := Value(x);
      } else if p == Width || p == Height || p == Pitch {
        var x := GetReg(p);
        r := Value(Add(x, 1));
      } else if p == IsTileOpt {
        var x := GetReg(p);
        r := Value(if x != 0 then 1 else 0);
      } else {
        r := NullValue;
      }
    }

    /** `SqImgRsrcRegHelperGfx9::SetParam`; `fatal` reports the IsTileOpt case. */
    method SetParamGfx9(p: nat, v: u32) returns (fatal: bool)
      requires Valid() && major == 9
      modifies regs, regs.view
      ensures Valid()
      ensures fatal <==> Gfx9WithParam(old(Contents()), p, v).Fatal?
      ensures !fatal ==> Contents() == Gfx9WithParam(old(Contents()), p, v).value
    {
      fatal := false;
      if p == BaseAddress || p == BaseAddressHi || p == Format || p == DstSelXYZW || p == Depth || p == BcSwizzle {
        SetReg(p, v);
      } else if p == Width || p == Height || p == Pitch {
        SetReg(p, Sub(v, 1));
      } else if p == IsTileOpt {
        fatal := true;
      }
    }

    /** `SqImgRsrcRegHelperGfx10::GetParam`. */
    method GetParamGfx10(p: nat) returns (r: Outcome<u32>)
      requires Valid() && major == 10
      modifies regs, regs.view
      ensures Valid()
      ensures r == Gfx10ParamValue(old(Contents()), p)
      ensures Contents() == old(Contents()) && regs.view.DirtyIndices() == old(regs.view.DirtyIndices())
    {
      if p == Width {
        var x := GetRegCombine(Gfx10WidthLo, Gfx10WidthHi);
        return Value(Add(x, 1));
      }
      var field := Gfx10Field(p);
      if field.None? {
        return NullValue;
      }
      var x := GetReg(field.value);
      if p == Height {
        r := Value(Add(x, 1));
      } else if p == IsTileOpt {
        r := Value(if x != 0 then 1 else 0);
      } else {
        r := Value(x);
      }
    }

    /** `SqImgRsrcRegHelperGfx10::SetParam`; `fatal` reports the IsTileOpt case. */
    method SetParamGfx10(p: nat, v: u32) returns (fatal: bool)
      requires Valid() && major == 10
      modifies regs, regs.view
      ensures Valid()
      ensures fatal <==> Gfx10WithParam(old(Contents()), p, v).Fatal?
      ensures !fatal ==> Contents() == Gfx10WithParam(old(Contents()), p, v).value
    {
      fatal := false;
      if p == Width {
        SetRegCombine(Gfx10WidthLo, Gfx10WidthHi, Sub(v, 1));
      } else if p == IsTileOpt {
        fatal := true;
      } else {
        var field := Gfx10Field(p);
        if field.Some? {
          if p == Height {
            SetReg(field.value, Sub(v, 1));
          } else {
            SetReg(field.value, v);
          }
        }
      }
    }

    /** `SqImgRsrcRegHelper<T>::GetParam`: static dispatch to the generation's `GetParam`, nothing else. */
    method GetParam(p: nat) returns (r: Outcome<u32>)
      requires Valid()
      modifies regs, regs.view
      ensures Valid()
      ensures r == HelperParamValue(major, old(Contents()), p)
      ensures Contents() == old(Contents()) && regs.view.DirtyIndices() == old(regs.view.DirtyIndices())
    {
      if major == 9 {
        r := GetParamGfx9(p);
      } else {
        r := GetParamGfx10(p);
      }
    }

    /** `SqImgRsrcRegHelper<T>::SetParam`: static dispatch to the generation's `SetParam`, nothing else. */
    method SetParam(p: nat, v: u32) returns (fatal: bool)
      requires Valid()
      modifies regs, regs.view
      ensures Valid()
      ensures fatal <==> HelperWithParam(major, old(Contents()), p, v).Fatal?
      ensures !fatal ==> Contents() == HelperWithParam(major, old(Contents()), p, v).value
    {
      if major == 9 {
        fatal := SetParamGfx9(p, v);
      } else {
        fatal := SetParamGfx10(p, v);
      }
    }
  }
}
