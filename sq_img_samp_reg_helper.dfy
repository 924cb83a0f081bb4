// The sampler descriptor (S#) fields the YCbCr lowering edits:
// `SqImgSampRegHelperGfx9` (llpc/util/llpcSqImgSampRegHelper.h,
// llpc/util/llpcSqImgSampRegHelper.cpp) and the `SqSampRegs` ids of
// llpc/util/llpcGfxRegHelper.h.
module SqImgSampRegHelper {
  import opened BitField
  import opened GfxRegHandler
  import opened GfxRegHelper

  // `SqSampRegs` ids.
  const FilterMode: nat := 0
  const XYMagFilter: nat := 1
  const XYMinFilter: nat := 2
  const SqSampRegsCount: nat := 3

  /** Sampler fields lie in dwords 0..2. */
  const SampDWords: nat := 3

  /** The three GFX9 sampler fields, in `SqSampRegs` order. */
  function SampTable(): (t: seq<BitsInfo>)
    ensures |t| == SqSampRegsCount
    ensures forall k | 0 <= k < |t| :: WellFormed(t[k]) && t[k].index < SampDWords
  {
    [ BitsInfo(0, 30, 2),    // m_filterModeBitsInfo
      BitsInfo(2, 20, 2),    // m_xyMagFilterBitsInfo
      BitsInfo(2, 22, 2) ]   // m_xyMinFilterBitsInfo
  }

  /** The three entries written out. */
  lemma SampEntries()
    ensures SampTable()[FilterMode] == BitsInfo(0, 30, 2)
    ensures SampTable()[XYMagFilter] == BitsInfo(2, 20, 2)
    ensures SampTable()[XYMinFilter] == BitsInfo(2, 22, 2)
  {
  }

  /** The fields are well-formed, lie in dwords 0..2 and share no bit. */
  lemma SampIsFieldTable()
    ensures |SampTable()| == SqSampRegsCount
    ensures FieldTable(SampTable(), SampDWords)
  {
  }

  /**
   * xyMagFilter and xyMinFilter together are exactly dword 2 bits 20..23, the
   * four bits the older planner rewrites in one step.
   */
  lemma MagMinCoverBits20To23(j: nat)
    ensures var mag, min := SampTable()[XYMagFilter], SampTable()[XYMinFilter];
      mag.index == 2 && min.index == 2 &&
      ((20 <= j < 24) <==> (mag.offset <= j < mag.offset + mag.count || min.offset <= j < min.offset + min.count))
  {
  }

  /** Every sampler field holds two bits: a write reads back as v mod 4. */
  lemma SampRoundTrip(d: seq<u32>, id: nat, v: u32)
    requires id < SqSampRegsCount && SampDWords <= |d|
    ensures FieldOf(StoreField(d, SampTable()[id], v), SampTable()[id]) == v % 4
  {
    FieldOfStore(d, SampTable()[id], v);
    Pow2Fields();
  }

  /** Writing one sampler field leaves the other two unchanged. */
  lemma SampFrame(d: seq<u32>, id: nat, other: nat, v: u32)
    requires id < SqSampRegsCount && other < SqSampRegsCount && id != other && SampDWords <= |d|
    ensures FieldOf(StoreField(d, SampTable()[id], v), SampTable()[other]) == FieldOf(d, SampTable()[other])
  {
    SampIsFieldTable();
    FieldOfStoreFrame(d, SampTable()[id], SampTable()[other], v);
  }

  /** Writing two-bit values to FilterMode, XYMagFilter and XYMinFilter in turn: each reads back. */
  lemma SampThreeStores(d: seq<u32>, vm: u32, va: u32, vi: u32)
    requires SampDWords <= |d| && vm < 4 && va < 4 && vi < 4
    ensures var r := StoreField(StoreField(StoreField(d, SampTable()[FilterMode], vm),
                                           SampTable()[XYMagFilter], va), SampTable()[XYMinFilter], vi);
      && FieldOf(r, SampTable()[FilterMode]) == vm
      && FieldOf(r, SampTable()[XYMagFilter]) == va
      && FieldOf(r, SampTable()[XYMinFilter]) == vi
  {
    SampEntries();
    ThreeStores(d, SampTable()[FilterMode], SampTable()[XYMagFilter], SampTable()[XYMinFilter], vm, va, vi);
    TwoBits(vm);
    TwoBits(va);
    TwoBits(vi);
  }

  /** A two-bit value is its own residue. */
  lemma TwoBits(x: u32)
    requires x < 4
    ensures x % Pow2(2) == x
  {
    Pow2Fields();
  }

  /** `SqImgSampRegHelperGfx9`: a register view with one getter and setter per field. */
  class SqImgSampRegHelperGfx9 {
    const view: GfxIpRegHandlerBase

    ghost predicate Valid()
      reads this, view
    {
      view.Valid() && SampDWords <= |view.dwords|
    }

    constructor (register: seq<u32>)
      requires SampDWords <= |register| <= 32
      ensures Valid() && fresh(view)
      ensures view.Contents() == register && view.DirtyIndices() == {}
    {
      view := new GfxIpRegHandlerBase(register, true);
    }

    /** Reads field `id` through `GetBits`: a 2-bit value. */
    method GetSampField(id: nat) returns (v: u32)
      requires Valid() && id < SqSampRegsCount
      modifies view
      ensures Valid()
      ensures v == FieldOf(old(view.Contents()), SampTable()[id]) && v < 4
      ensures view.Contents() == old(view.Contents()) && view.DirtyIndices() == old(view.DirtyIndices())
    {
      SampIsFieldTable();
      v := view.GetBits(SampTable()[id]);
      UbfeIsDivMod(old(view.Contents())[SampTable()[id].index], SampTable()[id].offset, 2);
      Pow2Fields();
    }

    /** Writes field `id` through `SetBits`, marking its dword dirty for `GetRegister`. */
    method SetSampField(id: nat, v: u32)
      requires Valid() && id < SqSampRegsCount
      modifies view
      ensures Valid()
      ensures view.Contents() == StoreField(old(view.Contents()), SampTable()[id], v)
      ensures view.DirtyIndices() == old(view.DirtyIndices()) + {SampTable()[id].index}
    {
      SampIsFieldTable();
      view.SetBits(SampTable()[id], v);
    }

    method GetFilterMode() returns (v: u32)
      requires Valid()
      modifies view
      ensures Valid()
      ensures v == FieldOf(old(view.Contents()), SampTable()[FilterMode]) && v < 4
      ensures view.Contents() == old(view.Contents())
    {
      v := GetSampField(FilterMode);
    }

    method SetFilterMode(v: u32)
      requires Valid()
      modifies view
      ensures Valid()
      ensures view.Contents() == StoreField(old(view.Contents()), SampTable()[FilterMode], v)
      ensures view.DirtyIndices() == old(view.DirtyIndices()) + {0}
    {
      SetSampField(FilterMode, v);
    }

    method GetXYMagFilter() returns (v: u32)
      requires Valid()
      modifies view
      ensures Valid()
      ensures v == FieldOf(old(view.Contents()), SampTable()[XYMagFilter]) && v < 4
      ensures view.Contents() == old(view.Contents())
    {
      v := GetSampField(XYMagFilter);
    }

    method SetXYMagFilter(v: u32)
      requires Valid()
      modifies view
      ensures Valid()
      ensures view.Contents() == StoreField(old(view.Contents()), SampTable()[XYMagFilter], v)
      ensures view.DirtyIndices() == old(view.DirtyIndices()) + {2}
    {
      SetSampField(XYMagFilter, v);
    }

    method GetXYMinFilter() returns (v: u32)
      requires Valid()
      modifies view
      ensures Valid()
      ensures v == FieldOf(old(view.Contents()), SampTable()[XYMinFilter]) && v < 4
      ensures view.Contents() == old(view.Contents())
    {
      v := GetSampField(XYMinFilter);
    }

    method SetXYMinFilter(v: u32)
      requires Valid()
      modifies view
      ensures Valid()
      ensures view.Contents() == StoreField(old(view.Contents()), SampTable()[XYMinFilter], v)
      ensures view.DirtyIndices() == old(view.DirtyIndices()) + {2}
    {
      SetSampField(XYMinFilter, v);
    }
  }
}
