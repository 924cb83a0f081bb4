// Field layouts of the image resource descriptor (T#) on GFX9 and GFX10
// (llpc/util/llpcSqImgRsrcRegHandler.h, llpc/util/llpcSqImgRsrcRegHelper.h).
//
// Generic parameter ids (`SqRsrcParams` / `SqRsrcRegs`) do not match the
// hardware fields one to one: a per-generation lookup maps each parameter to
// the generation's own field list, which on GFX10 splits Width in two and has
// no Pitch.
module SqImgRsrcTables {
  import opened BitField
  import opened Outcomes
  import opened GfxRegHelper

  // Generic parameter ids, in declaration order.
  const BaseAddress: nat := 0
  const BaseAddressHi: nat := 1
  const Format: nat := 2
  const Width: nat := 3
  const Height: nat := 4
  const DstSelXYZW: nat := 5
  const IsTileOpt: nat := 6
  const Depth: nat := 7
  const Pitch: nat := 8
  const BcSwizzle: nat := 9
  const EnumCount: nat := 10

  // GFX10 field ids that differ from the generic ids.
  const Gfx10WidthLo: nat := 3
  const Gfx10WidthHi: nat := 4
  const Gfx10Height: nat := 5
  const Gfx10DstSelXYZW: nat := 6
  const Gfx10IsTileOpt: nat := 7
  const Gfx10BcSwizzle: nat := 8
  const Gfx10Depth: nat := 9

  /** Number of dwords the descriptor fields reach into. */
  const DescDWords: nat := 5

  /** GFX9 fields, indexed by `SqRsrcRegs9` (which equals the generic order). */
  function Gfx9Table(): (t: seq<BitsInfo>)
    ensures |t| == EnumCount
    ensures forall k | 0 <= k < |t| :: t[k].index < DescDWords && 0 < t[k].count && t[k].offset + t[k].count <= 32
  {
    [ BitsInfo(0,  0, 32),   // BaseAddress
      BitsInfo(1,  0,  8),   // BaseAddressHi
      BitsInfo(1, 20,  9),   // Format
      BitsInfo(2,  0, 14),   // Width
      BitsInfo(2, 14, 14),   // Height
      BitsInfo(3,  0, 12),   // DstSelXYZW
      BitsInfo(3, 20,  5),   // IsTileOpt
      BitsInfo(4,  0, 13),   // Depth
      BitsInfo(4, 13, 12),   // Pitch
      BitsInfo(4, 29,  3) ]  // BcSwizzle
  }

  /** GFX10 fields, indexed by `SqRsrcRegs10`. */
  function Gfx10Table(): (t: seq<BitsInfo>)
    ensures |t| == EnumCount
    ensures forall k | 0 <= k < |t| :: t[k].index < DescDWords && 0 < t[k].count && t[k].offset + t[k].count <= 32
  {
    [ BitsInfo(0,  0, 32),   // BaseAddress
      BitsInfo(1,  0,  8),   // BaseAddressHi
      BitsInfo(1, 20,  9),   // Format
      BitsInfo(1, 30,  2),   // WidthLo
      BitsInfo(2,  0, 14),   // WidthHi
      BitsInfo(2, 14, 16),   // Height
      BitsInfo(3,  0, 12),   // DstSelXYZW
      BitsInfo(3, 20,  5),   // IsTileOpt
      BitsInfo(3, 25,  3),   // BcSwizzle
      BitsInfo(4,  0, 16) ]  // Depth
  }

  /** The GFX9 lookup table: every parameter has its same-numbered field. */
  function Gfx9Lookup(p: nat): (r: Option<nat>)
    requires p < EnumCount
    ensures r == Some(p)
  {
    [Some(0), Some(1), Some(2), Some(3), Some(4), Some(5), Some(6), Some(7), Some(8), Some(9)][p]
  }

  /** The GFX10 lookup table: Width goes to WidthLo, Pitch has no field. */
  function Gfx10Lookup(p: nat): (r: Option<nat>)
    requires p < EnumCount
    ensures r.None? <==> p == Pitch
    ensures r.Some? ==> r.value < EnumCount && r.value != Gfx10WidthHi
  {
    [ Some(0), Some(1), Some(2), Some(Gfx10WidthLo), Some(Gfx10Height), Some(Gfx10DstSelXYZW),
      Some(Gfx10IsTileOpt), Some(Gfx10Depth), None, Some(Gfx10BcSwizzle) ][p]
  }

  predicate Supported(major: nat)
  {
    major == 9 || major == 10
  }

  function Table(major: nat): (t: seq<BitsInfo>)
    requires Supported(major)
    ensures |t| == EnumCount
  {
    if major == 9 then Gfx9Table() else Gfx10Table()
  }

  function Lookup(major: nat, p: nat): (r: Option<nat>)
    requires Supported(major) && p < EnumCount
    ensures r.Some? ==> r.value < EnumCount
  {
    if major == 9 then Gfx9Lookup(p) else Gfx10Lookup(p)
  }

  /** Every GFX9 field lies in dwords 0..4, fits in its dword, and no two share a bit. */
  lemma Gfx9IsFieldTable()
    ensures FieldTable(Gfx9Table(), DescDWords)
  {
    var t := Gfx9Table();
    forall a, b | 0 <= a < |t| && 0 <= b < |t| && a != b
      ensures Disjoint(t[a], t[b])
    {
    }
  }

  /** Every GFX10 field lies in dwords 0..4, fits in its dword, and no two share a bit. */
  lemma Gfx10IsFieldTable()
    ensures FieldTable(Gfx10Table(), DescDWords)
  {
    var t := Gfx10Table();
    forall a, b | 0 <= a < |t| && 0 <= b < |t| && a != b
      ensures Disjoint(t[a], t[b])
    {
    }
  }

  /** Dword 4 on GFX9 holds Depth [0,13), Pitch [13,25) and BcSwizzle [29,32). */
  lemma Gfx9Dword4()
    ensures forall k | 0 <= k < EnumCount && Gfx9Table()[k].index == 4 :: k in {Depth, Pitch, BcSwizzle}
    ensures Gfx9Table()[Depth] == BitsInfo(4, 0, 13) && Gfx9Table()[Pitch] == BitsInfo(4, 13, 12)
    ensures Gfx9Table()[BcSwizzle] == BitsInfo(4, 29, 3)
  {
  }

  /**
   * GFX10 Width is split into WidthLo (dword 1, bits 30-31) and WidthHi
   * (dword 2, bits 0-13), stored next to each other, so the entry after the
   * one the lookup gives for Width is WidthHi.
   */
  lemma Gfx10WidthSplit()
    ensures Gfx10Lookup(Width) == Some(Gfx10WidthLo) && Gfx10WidthLo + 1 == Gfx10WidthHi
    ensures Gfx10Table()[Gfx10WidthLo] == BitsInfo(1, 30, 2) && Gfx10Table()[Gfx10WidthHi] == BitsInfo(2, 0, 14)
  {
  }

  /** GFX10 has no Pitch field; every other parameter has one, and no two share it. */
  lemma Gfx10LookupShape()
    ensures forall p | 0 <= p < EnumCount :: Gfx10Lookup(p).None? <==> p == Pitch
    ensures forall p, q | 0 <= p < EnumCount && 0 <= q < EnumCount && p != q && Gfx10Lookup(p).Some? ::
      Gfx10Lookup(p) != Gfx10Lookup(q)
    ensures forall p | 0 <= p < EnumCount && Gfx10Lookup(p).Some? :: Gfx10Lookup(p).value != Gfx10WidthHi
  {
  }

  /** Each table entry is a well-formed field inside the five descriptor dwords. */
  lemma TableEntry(major: nat, f: nat)
    requires Supported(major) && f < EnumCount
    ensures WellFormed(Table(major)[f]) && Table(major)[f].index < DescDWords
  {
    if major == 9 { Gfx9IsFieldTable(); } else { Gfx10IsFieldTable(); }
  }

  /** Distinct entries of one table share no bit. */
  lemma TableDisjoint(major: nat, f: nat, g: nat)
    requires Supported(major) && f < EnumCount && g < EnumCount && f != g
    ensures Disjoint(Table(major)[f], Table(major)[g])
  {
    if major == 9 { Gfx9IsFieldTable(); } else { Gfx10IsFieldTable(); }
  }

  /** The value of table entry `f` in the descriptor dwords `d` (`GetBits`). */
  function FieldAt(major: nat, d: seq<u32>, f: nat): u32
    requires Supported(major) && f < EnumCount && DescDWords <= |d|
  {
    TableEntry(major, f);
    FieldOf(d, Table(major)[f])
  }

  /** The descriptor dwords after writing `v` to table entry `f` (`SetBits`). */
  function StoreAt(major: nat, d: seq<u32>, f: nat, v: u32): (r: seq<u32>)
    requires Supported(major) && f < EnumCount && DescDWords <= |d|
    ensures |r| == |d|
  {
    TableEntry(major, f);
    StoreField(d, Table(major)[f], v)
  }

  /** Reading back an entry gives the low `count` bits of what was written. */
  lemma FieldAtStore(major: nat, d: seq<u32>, f: nat, v: u32)
    requires Supported(major) && f < EnumCount && DescDWords <= |d|
    ensures FieldAt(major, StoreAt(major, d, f, v), f) ==
      if Table(major)[f].count == 32 then v else v % Pow2(Table(major)[f].count)
  {
    TableEntry(major, f);
    FieldOfStore(d, Table(major)[f], v);
  }

  /** Writing an entry leaves every other entry of the table unchanged. */
  lemma FieldAtStoreFrame(major: nat, d: seq<u32>, f: nat, g: nat, v: u32)
    requires Supported(major) && f < EnumCount && g < EnumCount && f != g && DescDWords <= |d|
    ensures FieldAt(major, StoreAt(major, d, f, v), g) == FieldAt(major, d, g)
  {
    TableEntry(major, f);
    TableEntry(major, g);
    TableDisjoint(major, f, g);
    FieldOfStoreFrame(d, Table(major)[f], Table(major)[g], v);
  }
}
