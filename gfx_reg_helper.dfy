// The per-field value cache over a register view: `GfxRegHelper`
// (llpc/util/llpcGfxRegHelper.h, llpc/util/llpcGfxRegHelper.cpp).
//
// Every field id has a `BitsInfo` (where the field lives) and a `BitsState`
// (the last value read, and whether the field was written since). The image
// resource handler and helper (llpc/util/llpcSqImgRsrcRegHandler.cpp,
// llpc/util/llpcSqImgRsrcRegHelper.cpp) run the same cache algorithm on their
// own `BitsState` lists; they use this class for it.
module GfxRegHelper {
  import opened BitField
  import opened Outcomes
  import opened GfxRegHandler

  /** `BitsState`: the cached field value (`nullptr` = `None`) and the modified flag. */
  datatype BitsState = BitsState(value: Option<u32>, isModified: bool)

  /** The value-initialised `BitsState`: unknown and unmodified. */
  function FreshBitsState(): (s: BitsState)
    ensures s.value.None? && !s.isModified
  {
    BitsState(None, false)
  }

  /** A field table: well-formed fields inside `dwordCount` dwords, no two sharing a bit. */
  ghost predicate FieldTable(infos: seq<BitsInfo>, dwordCount: nat)
  {
    && (forall k | 0 <= k < |infos| :: WellFormed(infos[k]) && infos[k].index < dwordCount)
    && (forall a, b | 0 <= a < |infos| && 0 <= b < |infos| && a != b :: Disjoint(infos[a], infos[b]))
  }

  /** `GetRegCombine`: the high part shifted left by `shift` (in 32 bits), or-ed with the low part. */
  function Combine(lo: u32, hi: u32, shift: nat): u32
    requires shift < 32
  {
    Or(ShlW(hi, shift), lo)
  }

  /** The low part `SetRegCombine` writes: `ubfe(v, 0, shift)`. */
  function SplitLo(v: u32, shift: nat): u32
    requires shift <= 32
  {
    Ubfe(v, 0, shift)
  }

  /** The high part `SetRegCombine` writes: `v >> shift`. */
  function SplitHi(v: u32, shift: nat): u32
  {
    LShr(v, shift)
  }

  class GfxRegHelper {
    /** The inherited `GfxIpRegHandlerBase` part. */
    const view: GfxIpRegHandlerBase
    /** `m_bitsInfo`; empty while no table is bound. */
    var bitsInfo: seq<BitsInfo>
    /** `m_bitsState`; empty while no table is bound. */
    var bitsState: seq<BitsState>
    /** `m_pGfxIpVersion->major`, or `None` while no version is bound. */
    var gfxMajor: Option<nat>

    ghost predicate Valid()
      reads this, view
    {
      && view.Valid()
      && |bitsState| == |bitsInfo|
      && FieldTable(bitsInfo, |view.dwords|)
      && (forall k | 0 <= k < |bitsState| && bitsState[k].value.Some? && !bitsState[k].isModified ::
            bitsState[k].value.value == FieldOf(view.Contents(), bitsInfo[k]))
    }

    /** A new helper has a fresh view and neither field tables nor a GFX version. */
    constructor (newRegister: seq<u32>, isVector: bool)
      requires 1 <= |newRegister| <= 32 && (!isVector ==> |newRegister| == 1)
      ensures Valid() && fresh(view)
      ensures bitsInfo == [] && bitsState == [] && gfxMajor == None
      ensures view.Contents() == newRegister && view.DirtyIndices() == {}
    {
      view := new GfxIpRegHandlerBase(newRegister, isVector);
      bitsInfo := [];
      bitsState := [];
      gfxMajor := None;
    }

    /**
     * Points the helper at a field table with all entries unknown and
     * unmodified, as the constructors of the derived handlers do.
     */
    method BindTable(major: nat, infos: seq<BitsInfo>)
      requires view.Valid() && FieldTable(infos, |view.dwords|)
      modifies this
      ensures Valid()
      ensures bitsInfo == infos && bitsState == seq(|infos|, _ => FreshBitsState()) && gfxMajor == Some(major)
    {
      bitsInfo := infos;
      bitsState := seq(|infos|, _ => FreshBitsState());
      gfxMajor := Some(major);
    }

    /**
     * `GetRegCommon`: re-extracts the field when it is unknown or modified,
     * marks it clean, and returns the field of the current register value.
     */
    method GetRegCommon(id: nat) returns (v: u32)
      requires Valid() && id < |bitsInfo|
      modifies this, view
      ensures Valid()
      ensures v == old(FieldOf(view.Contents(), bitsInfo[id]))
      ensures view.Contents() == old(view.Contents()) && view.DirtyIndices() == old(view.DirtyIndices())
      ensures bitsInfo == old(bitsInfo) && gfxMajor == old(gfxMajor)
      ensures bitsState == old(bitsState)[id := BitsState(Some(v), false)]
      ensures old(bitsState[id]).value.Some? && !old(bitsState[id]).isModified ==> v == old(bitsState[id]).value.value
    {
      var s := bitsState[id];
      var value: u32;
      if s.value.None? || s.isModified {
        value := view.GetBits(bitsInfo[id]);
      } else {
        value := s.value.value;
      }
      bitsState := bitsState[id := BitsState(Some(value), false)];
      v := value;
    }

    /** `SetRegCommon`: writes the field and flags only entry `id` as modified. */
    method SetRegCommon(id: nat, v: u32)
      requires Valid() && id < |bitsInfo|
      modifies this, view
      ensures Valid()
      ensures view.Contents() == old(StoreField(view.Contents(), bitsInfo[id], v))
      ensures view.DirtyIndices() == old(view.DirtyIndices() + {bitsInfo[id].index})
      ensures bitsInfo == old(bitsInfo) && gfxMajor == old(gfxMajor)
      ensures bitsState == old(bitsState)[id := old(bitsState[id]).(isModified := true)]
    {
      ghost var c := view.Contents();
      view.SetBits(bitsInfo[id], v);
      bitsState := bitsState[id := bitsState[id].(isModified := true)];
      forall k | 0 <= k < |bitsState| && bitsState[k].value.Some? && !bitsState[k].isModified
        ensures bitsState[k].value.value == FieldOf(view.Contents(), bitsInfo[k])
      {
        FieldOfStoreFrame(c, bitsInfo[id], bitsInfo[k], v);
      }
    }

    /** `GetRegCombine`: `(hi << info[idLo].offset) | lo` of the two current fields. */
    method GetRegCombine(idLo: nat, idHi: nat) returns (v: u32)
      requires Valid() && idLo < |bitsInfo| && idHi < |bitsInfo|
      modifies this, view
      ensures Valid()
      ensures v == old(Combine(FieldOf(view.Contents(), bitsInfo[idLo]), FieldOf(view.Contents(), bitsInfo[idHi]), bitsInfo[idLo].offset))
      ensures view.Contents() == old(view.Contents()) && view.DirtyIndices() == old(view.DirtyIndices())
      ensures bitsInfo == old(bitsInfo) && gfxMajor == old(gfxMajor)
      ensures |bitsState| == old(|bitsState|)
      ensures forall k | 0 <= k < |bitsState| && k != idLo && k != idHi :: bitsState[k] == old(bitsState[k])
    {
      var lo := GetRegCommon(idLo);
      var hi := GetRegCommon(idHi);
      v := Or(ShlW(hi, bitsInfo[idLo].offset), lo);
    }

    /** `SetRegCombine`: splits `v` at `info[idLo].offset` and writes both parts, marking both modified. */
    method SetRegCombine(idLo: nat, idHi: nat, v: u32)
      requires Valid() && idLo < |bitsInfo| && idHi < |bitsInfo| && idLo != idHi
      modifies this, view
      ensures Valid()
      ensures view.Contents() ==
        old(StoreField(StoreField(view.Contents(), bitsInfo[idLo], SplitLo(v, bitsInfo[idLo].offset)),
                       bitsInfo[idHi], SplitHi(v, bitsInfo[idLo].offset)))
      ensures bitsInfo == old(bitsInfo) && gfxMajor == old(gfxMajor)
      ensures bitsState[idLo].isModified && bitsState[idHi].isModified
      ensures forall k | 0 <= k < |bitsState| && k != idLo && k != idHi :: bitsState[k] == old(bitsState[k])
    {
      var shift := bitsInfo[idLo].offset;
      var lo := Ubfe(v, 0, shift);
      var hi := LShr(v, shift);
      SetRegCommon(idLo, lo);
      SetRegCommon(idHi, hi);
    }
  }
}
