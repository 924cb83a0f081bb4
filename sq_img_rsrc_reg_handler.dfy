// The image resource descriptor handler `SqImgRsrcRegHandler`
// (llpc/util/llpcSqImgRsrcRegHandler.cpp): generic parameters on top of the
// per-generation field tables, with the hardware's value-minus-one encoding
// for sizes, the split Width of GFX10 and the read-only IsTileOpt flag.
//
// `ParamValue` and `WithParam` state what `GetParam` and `SetParam` compute
// on the descriptor dwords; the class runs the cached algorithm and is proved
// to agree with them.
module SqImgRsrcHandler {
  import opened BitField
  import opened Outcomes
  import opened GfxRegHandler
  import opened GfxRegHelper
  import opened SqImgRsrcTables

  /** The parameters read and written without any encoding. */
  predicate IsRaw(p: nat)
  {
    p == BaseAddress || p == BaseAddressHi || p == Format || p == DstSelXYZW || p == Depth || p == BcSwizzle
  }

  /** The parameters stored as value - 1 in a single field. */
  predicate IsBiased(major: nat, p: nat)
  {
    p == Height || p == Pitch || (p == Width && major == 9)
  }

  /**
   * What `GetParam(p)` yields for descriptor dwords `d`. An id outside the
   * enumeration is fatal, and so is GFX10 Pitch, whose lookup entry is a
   * null pointer that `GetReg` dereferences. IsTileOpt is the i1
   * `field != 0`, given here as 1 or 0.
   */
  function ParamValue(major: nat, d: seq<u32>, p: nat): (r: Outcome<u32>)
    requires Supported(major) && DescDWords <= |d|
    ensures r.Fatal? <==> p >= EnumCount || (major == 10 && p == Pitch)
    ensures r.Value? || r.Fatal?
    ensures p == IsTileOpt ==> r.Value? && r.value <= 1
  {
    if p >= EnumCount then Fatal
    else match Lookup(major, p)
      case None => Fatal
      case Some(f) =>
        if IsRaw(p) then Value(FieldAt(major, d, f))
        else if p == Height || p == Pitch then Value(Add(FieldAt(major, d, f), 1))
        else if p == Width then
          if major == 9 then Value(Add(FieldAt(major, d, f), 1))
          else
            TableEntry(major, f);
            Value(Add(Combine(FieldAt(major, d, f), FieldAt(major, d, f + 1), Table(major)[f].offset), 1))
        else Value(if FieldAt(major, d, f) != 0 then 1 else 0)
  }

  /**
   * The descriptor dwords after `SetParam(p, v)`. Setting IsTileOpt, or
   * GFX10 Pitch (a null lookup entry), is fatal; an id outside the
   * enumeration matches no case and changes nothing.
   */
  function WithParam(major: nat, d: seq<u32>, p: nat, v: u32): (r: Outcome<seq<u32>>)
    requires Supported(major) && DescDWords <= |d|
    ensures r.Fatal? <==> p == IsTileOpt || (major == 10 && p == Pitch)
    ensures r.Value? || r.Fatal?
    ensures r.Value? ==> |r.value| == |d|
    ensures p >= EnumCount ==> r == Value(d)
  {
    if p >= EnumCount then Value(d)
    else match Lookup(major, p)
      case None => Fatal
      case Some(f) =>
        if IsRaw(p) then Value(StoreAt(major, d, f, v))
        else if p == Height || p == Pitch then Value(StoreAt(major, d, f, Sub(v, 1)))
        else if p == Width then
          if major == 9 then Value(StoreAt(major, d, f, Sub(v, 1)))
          else
            TableEntry(major, f);
            var shift := Table(major)[f].offset;
            var w := Sub(v, 1);
            Value(StoreAt(major, StoreAt(major, d, f, SplitLo(w, shift)), f + 1, SplitHi(w, shift)))
        else Fatal
  }

  // Unfoldings of `ParamValue` and `WithParam`, one per kind of parameter.

  lemma RawGet(major: nat, d: seq<u32>, p: nat)
    requires Supported(major) && DescDWords <= |d| && IsRaw(p)
    ensures Lookup(major, p).Some?
    ensures ParamValue(major, d, p) == Value(FieldAt(major, d, Lookup(major, p).value))
  {
  }

  lemma RawSet(major: nat, d: seq<u32>, p: nat, v: u32)
    requires Supported(major) && DescDWords <= |d| && IsRaw(p)
    ensures Lookup(major, p).Some?
    ensures WithParam(major, d, p, v) == Value(StoreAt(major, d, Lookup(major, p).value, v))
  {
  }

  lemma BiasedGet(major: nat, d: seq<u32>, p: nat)
    requires Supported(major) && DescDWords <= |d| && IsBiased(major, p) && !(major == 10 && p == Pitch)
    ensures Lookup(major, p).Some?
    ensures ParamValue(major, d, p) == Value(Add(FieldAt(major, d, Lookup(major, p).value), 1))
  {
    assert !IsRaw(p);
  }

  lemma BiasedSet(major: nat, d: seq<u32>, p: nat, v: u32)
    requires Supported(major) && DescDWords <= |d| && IsBiased(major, p) && !(major == 10 && p == Pitch)
    ensures Lookup(major, p).Some?
    ensures WithParam(major, d, p, v) == Value(StoreAt(major, d, Lookup(major, p).value, Sub(v, 1)))
  {
    assert !IsRaw(p);
  }

  lemma FlagCase(major: nat, d: seq<u32>, p: nat)
    requires Supported(major) && DescDWords <= |d| && p < EnumCount && Lookup(major, p).Some?
    requires !IsRaw(p) && p != Height && p != Pitch && p != Width
    ensures ParamValue(major, d, p) == Value(if FieldAt(major, d, Lookup(major, p).value) != 0 then 1 else 0)
  {
  }

  lemma Gfx10WidthCase(d: seq<u32>, v: u32)
    requires DescDWords <= |d|
    ensures ParamValue(10, d, Width) ==
      Value(Add(Combine(FieldAt(10, d, Gfx10WidthLo), FieldAt(10, d, Gfx10WidthHi), 30), 1))
    ensures WithParam(10, d, Width, v) ==
      Value(StoreAt(10, StoreAt(10, d, Gfx10WidthLo, SplitLo(Sub(v, 1), 30)), Gfx10WidthHi, SplitHi(Sub(v, 1), 30)))
  {
    Gfx10WidthGet(d);
    Gfx10WidthSet(d, v);
  }

  lemma Gfx10WidthGet(d: seq<u32>)
    requires DescDWords <= |d|
    ensures ParamValue(10, d, Width) ==
      Value(Add(Combine(FieldAt(10, d, Gfx10WidthLo), FieldAt(10, d, Gfx10WidthHi), 30), 1))
  {
    Gfx10WidthEntries();
  }

  lemma Gfx10WidthSet(d: seq<u32>, v: u32)
    requires DescDWords <= |d|
    ensures WithParam(10, d, Width, v) ==
      Value(StoreAt(10, StoreAt(10, d, Gfx10WidthLo, SplitLo(Sub(v, 1), 30)), Gfx10WidthHi, SplitHi(Sub(v, 1), 30)))
  {
    Gfx10WidthEntries();
  }

  /** Raw parameters read back the low `count` bits of what was written. */
  lemma RawRoundTrip(major: nat, d: seq<u32>, p: nat, v: u32)
    requires Supported(major) && DescDWords <= |d| && IsRaw(p)
    ensures var info := Table(major)[Lookup(major, p).value];
      ParamValue(major, WithParam(major, d, p, v).value, p) ==
        Value(if info.count == 32 then v else v % Pow2(info.count))
  {
    RawSet(major, d, p, v);
    var f := Lookup(major, p).value;
    RawGet(major, StoreAt(major, d, f, v), p);
    FieldAtStore(major, d, f, v);
  }

  /**
   * Height, Pitch and GFX9 Width are stored as v - 1 and read as field + 1,
   * so any v from 1 to 2^count reads back unchanged.
   */
  lemma BiasedRoundTrip(major: nat, d: seq<u32>, p: nat, v: u32)
    requires Supported(major) && DescDWords <= |d| && IsBiased(major, p) && WithParam(major, d, p, v).Value?
    ensures var info := Table(major)[Lookup(major, p).value];
      ParamValue(major, WithParam(major, d, p, v).value, p) == Value(Add(ModPow2(Sub(v, 1), info.count), 1))
  {
    BiasedSet(major, d, p, v);
    var f := Lookup(major, p).value;
    var d1 := StoreAt(major, d, f, Sub(v, 1));
    BiasedGet(major, d1, p);
    FieldAtStore(major, d, f, Sub(v, 1));
    BiasedNarrow(major, p);
  }

  /** Every field stored as value - 1 is narrower than a dword. */
  lemma BiasedNarrow(major: nat, p: nat)
    requires Supported(major) && IsBiased(major, p) && Lookup(major, p).Some?
    ensures Table(major)[Lookup(major, p).value].count < 32
  {
  }

  /** Any size from 1 to 2^count survives the value - 1 encoding unchanged. */
  lemma BiasedRoundTripInRange(major: nat, d: seq<u32>, p: nat, v: u32)
    requires Supported(major) && DescDWords <= |d| && IsBiased(major, p) && WithParam(major, d, p, v).Value?
    requires 1 <= v <= Pow2(Table(major)[Lookup(major, p).value].count)
    ensures ParamValue(major, WithParam(major, d, p, v).value, p) == Value(v)
  {
    BiasedRoundTrip(major, d, p, v);
    BiasArith(v, Table(major)[Lookup(major, p).value].count);
  }

  lemma BiasArith(v: u32, n: nat)
    requires 1 <= v <= Pow2(n)
    ensures Add(ModPow2(Sub(v, 1), n), 1) == v
  {
    assert Sub(v, 1) == v - 1 by { WrapId(v - 1); }
    var m := Pow2(n);
    assert (v - 1) % m == v - 1 by { ModId(v - 1, m); }
    assert Add(v - 1, 1) == v by { WrapId(v); }
  }

  /**
   * The bits of `w` that survive the GFX10 Width split at offset 30: bits 0-1
   * (the 2-bit WidthLo field) and bits 30-31 (the part of `w >> 30` that
   * WidthHi shifted back by 30 still holds in 32 bits).
   */
  function KeptBySplit(w: u32): (r: u32)
    ensures r % 4 == w % 4 && r / Pow2(30) == w / Pow2(30)
    ensures r % Pow2(30) < 4
  {
    Pow2Fields();
    KeptParts(w);
    w / 0x4000_0000 * 0x4000_0000 + w % 4
  }

  lemma KeptParts(w: u32)
    ensures var r := w / 0x4000_0000 * 0x4000_0000 + w % 4;
      r < WORD && r % 4 == w % 4 && r / 0x4000_0000 == w / 0x4000_0000 && r % 0x4000_0000 < 4
  {
    var q := w / 0x4000_0000;
    assert q < 4;
    var r := q * 0x4000_0000 + w % 4;
    DivModUnique(r, 0x4000_0000, q, w % 4);
    DivModUnique(r, 4, q * 0x1000_0000, w % 4);
  }

  /** `ubfe(w, 0, 30)` kept in a 2-bit field is `w mod 4`. */
  lemma SplitLoMod4(w: u32)
    ensures SplitLo(w, 30) % 4 == w % 4
  {
    UbfeIsDivMod(w, 0, 30);
    Pow2Fields();
    assert Pow2(0) == 1;
    assert SplitLo(w, 30) == w % 0x4000_0000;
    ModMod4(w);
  }

  lemma ModMod4(w: nat)
    ensures w % 0x4000_0000 % 4 == w % 4
  {
    var q := w / 0x4000_0000;
    var r := w % 0x4000_0000;
    assert w == 4 * (q * 0x1000_0000) + r;
    DivModUnique(w, 4, q * 0x1000_0000 + r / 4, r % 4);
  }

  /** `w >> 30` is below 4 and fits WidthHi's 14 bits. */
  lemma SplitHiSmall(w: u32)
    ensures SplitHi(w, 30) == w / Pow2(30) && SplitHi(w, 30) < 4 && SplitHi(w, 30) % Pow2(14) == SplitHi(w, 30)
  {
    ShrIsDiv(w, 30);
    Pow2Fields();
    ModId(SplitHi(w, 30), 0x4000);
  }

  /** With both parts below 4, `(hi << 30) | lo` is `hi * 2^30 + lo`. */
  lemma CombineAt30(lo: u32, hi: u32)
    requires lo < 4 && hi < 4
    ensures Combine(lo, hi, 30) == hi * Pow2(30) + lo
  {
    Pow2Word();
    Pow2Fields();
    var y := hi * 0x4000_0000;
    ShlIsMul(hi, 30);
    LowIsMod(Shl(hi, 30), 32);
    WrapId(y);
    assert ShlW(hi, 30) == y;
    DivModUnique(y, 4, hi * 0x1000_0000, 0);
    OrNDisjoint(y, lo, 2, 32);
  }

  /**
   * GFX10 Width goes through the combine pair, which splits and joins at
   * WidthLo's offset (30) rather than its width (2): the round trip keeps
   * only bits 0-1 and 30-31 of v - 1.
   */
  lemma Gfx10WidthRoundTrip(d: seq<u32>, v: u32)
    requires DescDWords <= |d|
    ensures ParamValue(10, WithParam(10, d, Width, v).value, Width) == Value(Add(KeptBySplit(Sub(v, 1)), 1))
  {
    var w := Sub(v, 1);
    var d2 := StoreAt(10, StoreAt(10, d, Gfx10WidthLo, SplitLo(w, 30)), Gfx10WidthHi, SplitHi(w, 30));
    Gfx10WidthCase(d, v);
    Gfx10WidthCase(d2, v);
    Gfx10WidthParts(d, w);
    CombineIsKept(w, FieldAt(10, d2, Gfx10WidthLo), FieldAt(10, d2, Gfx10WidthHi));
  }

  /** Joining the two parts a write keeps gives `KeptBySplit`. */
  lemma CombineIsKept(w: u32, lo: u32, hi: u32)
    requires lo == w % 4 && hi == w / Pow2(30)
    ensures Combine(lo, hi, 30) == KeptBySplit(w)
  {
    KeptIsCombine(w);
    CombineAt30(lo, hi);
  }

  /** The two parts of a GFX10 Width write read back as bits 0-1 and bits 30-31 of the value. */
  lemma Gfx10WidthParts(d: seq<u32>, w: u32)
    requires DescDWords <= |d|
    ensures var d2 := StoreAt(10, StoreAt(10, d, Gfx10WidthLo, SplitLo(w, 30)), Gfx10WidthHi, SplitHi(w, 30));
      FieldAt(10, d2, Gfx10WidthLo) == w % 4 && FieldAt(10, d2, Gfx10WidthHi) == w / Pow2(30)
  {
    var lo := SplitLo(w, 30);
    var hi := SplitHi(w, 30);
    var d1 := StoreAt(10, d, Gfx10WidthLo, lo);
    assert Table(10)[Gfx10WidthLo].count == 2 && Table(10)[Gfx10WidthHi].count == 14;
    FieldAtStore(10, d, Gfx10WidthLo, lo);
    FieldAtStoreFrame(10, d1, Gfx10WidthHi, Gfx10WidthLo, hi);
    assert Pow2(2) == 4;
    SplitLoMod4(w);
    FieldAtStore(10, d1, Gfx10WidthHi, hi);
    SplitHiSmall(w);
  }

  lemma KeptIsCombine(w: u32)
    ensures w % 4 < 4 && w / Pow2(30) < 4
    ensures KeptBySplit(w) == w / Pow2(30) * Pow2(30) + w % 4
  {
    SplitHiSmall(w);
    Pow2Fields();
  }

  /**
   * Every GFX10 width up to 2^30 reads back as ((v - 1) mod 4) + 1: width 5
   * is stored as 4, which the split drops entirely, and reads back as 1.
   */
  lemma Gfx10WidthWraps(d: seq<u32>, v: u32)
    requires DescDWords <= |d| && 1 <= v <= 0x4000_0000
    ensures ParamValue(10, WithParam(10, d, Width, v).value, Width) == Value((v - 1) % 4 + 1)
  {
    Gfx10WidthRoundTrip(d, v);
    KeptBelow30(v);
  }

  lemma KeptBelow30(v: u32)
    requires 1 <= v <= 0x4000_0000
    ensures Add(KeptBySplit(Sub(v, 1)), 1) == (v - 1) % 4 + 1
  {
    Pow2Fields();
    var w := Sub(v, 1);
    assert w == v - 1 by { WrapId(v - 1); }
    var k := KeptBySplit(w);
    SmallKept(k, w);
  }

  lemma SmallKept(k: nat, w: nat)
    requires w < 0x4000_0000 && k % 4 == w % 4 && k / 0x4000_0000 == w / 0x4000_0000 && k % 0x4000_0000 < 4
    ensures k == w % 4
  {
    assert k / 0x4000_0000 == 0;
    assert k < 4;
  }

  /** The table entries parameter `p` occupies: WidthLo and WidthHi for GFX10 Width, else its lookup entry. */
  function Entries(major: nat, p: nat): (e: set<nat>)
    requires Supported(major) && p < EnumCount && Lookup(major, p).Some?
    ensures Lookup(major, p).value in e
    ensures forall g | g in e :: g < EnumCount
  {
    var f := Lookup(major, p).value;
    if major == 10 && p == Width then {f, f + 1} else {f}
  }

  /** Every parameter but GFX10 Width occupies just its own entry. */
  lemma SingleEntry(major: nat, p: nat)
    requires Supported(major) && p < EnumCount && Lookup(major, p).Some? && !(major == 10 && p == Width)
    ensures Entries(major, p) == {Lookup(major, p).value}
  {
  }

  /** Distinct parameters occupy distinct entries. */
  lemma EntriesApart(major: nat, p: nat, q: nat)
    requires Supported(major) && p < EnumCount && q < EnumCount && p != q
    requires Lookup(major, p).Some? && Lookup(major, q).Some?
    ensures Entries(major, p) !! Entries(major, q)
  {
    if major == 10 {
      Gfx10LookupShape();
    }
  }

  /** `GetParam(q)` depends only on the entries `q` occupies. */
  lemma ParamValueReads(major: nat, d: seq<u32>, e: seq<u32>, q: nat)
    requires Supported(major) && DescDWords <= |d| && DescDWords <= |e| && q < EnumCount && Lookup(major, q).Some?
    requires forall g | g in Entries(major, q) :: FieldAt(major, d, g) == FieldAt(major, e, g)
    ensures ParamValue(major, d, q) == ParamValue(major, e, q)
  {
    var f := Lookup(major, q).value;
    assert FieldAt(major, d, f) == FieldAt(major, e, f);
    if major == 10 && q == Width {
      Gfx10WidthEntries();
      assert FieldAt(major, d, f + 1) == FieldAt(major, e, f + 1);
      SameFieldsSameParam(major, d, e, q, true);
    } else {
      SameFieldsSameParam(major, d, e, q, false);
    }
  }

  /** `GetParam(q)` as a function of the field `q` names and, for a split field, the next one. */
  lemma SameFieldsSameParam(major: nat, d: seq<u32>, e: seq<u32>, q: nat, split: bool)
    requires Supported(major) && DescDWords <= |d| && DescDWords <= |e| && q < EnumCount && Lookup(major, q).Some?
    requires split <==> major == 10 && q == Width
    requires FieldAt(major, d, Lookup(major, q).value) == FieldAt(major, e, Lookup(major, q).value)
    requires split ==> (Lookup(major, q).value + 1 < EnumCount &&
      FieldAt(major, d, Lookup(major, q).value + 1) == FieldAt(major, e, Lookup(major, q).value + 1))
    ensures ParamValue(major, d, q) == ParamValue(major, e, q)
  {
  }

  /** `SetParam(p)` changes no entry outside those `p` occupies. */
  lemma WithParamKeeps(major: nat, d: seq<u32>, p: nat, v: u32, g: nat)
    requires Supported(major) && DescDWords <= |d| && p < EnumCount && g < EnumCount
    requires WithParam(major, d, p, v).Value? && g !in Entries(major, p)
    ensures FieldAt(major, WithParam(major, d, p, v).value, g) == FieldAt(major, d, g)
  {
    if major == 10 && p == Width {
      assert Entries(10, Width) == {Gfx10WidthLo, Gfx10WidthHi} by { Gfx10WidthEntries(); }
      Gfx10WidthKeeps(d, v, g);
    } else {
      SingleKeeps(major, d, p, v, g);
    }
  }

  lemma Gfx10WidthEntries()
    ensures Lookup(10, Width) == Some(Gfx10WidthLo) && Entries(10, Width) == {Gfx10WidthLo, Gfx10WidthHi}
    ensures Table(10)[Gfx10WidthLo].offset == 30
  {
    assert Lookup(10, Width) == Some(Gfx10WidthLo);
  }

  lemma Gfx10WidthKeeps(d: seq<u32>, v: u32, g: nat)
    requires DescDWords <= |d| && g < EnumCount && g != Gfx10WidthLo && g != Gfx10WidthHi
    ensures FieldAt(10, WithParam(10, d, Width, v).value, g) == FieldAt(10, d, g)
  {
    Gfx10WidthCase(d, v);
    var d1 := StoreAt(10, d, Gfx10WidthLo, SplitLo(Sub(v, 1), 30));
    FieldAtStoreFrame(10, d, Gfx10WidthLo, g, SplitLo(Sub(v, 1), 30));
    FieldAtStoreFrame(10, d1, Gfx10WidthHi, g, SplitHi(Sub(v, 1), 30));
  }

  lemma SingleKeeps(major: nat, d: seq<u32>, p: nat, v: u32, g: nat)
    requires Supported(major) && DescDWords <= |d| && p < EnumCount && g < EnumCount
    requires WithParam(major, d, p, v).Value? && g !in Entries(major, p) && !(major == 10 && p == Width)
    ensures FieldAt(major, WithParam(major, d, p, v).value, g) == FieldAt(major, d, g)
  {
    var f := Lookup(major, p).value;
    if IsRaw(p) {
      RawSet(major, d, p, v);
      FieldAtStoreFrame(major, d, f, g, v);
    } else {
      BiasedSet(major, d, p, v);
      FieldAtStoreFrame(major, d, f, g, Sub(v, 1));
    }
  }

  /** Setting one parameter leaves every other parameter's value unchanged. */
  lemma ParamFrame(major: nat, d: seq<u32>, p: nat, q: nat, v: u32)
    requires Supported(major) && DescDWords <= |d| && p != q && WithParam(major, d, p, v).Value?
    ensures ParamValue(major, WithParam(major, d, p, v).value, q) == ParamValue(major, d, q)
  {
    if p < EnumCount && q < EnumCount && Lookup(major, q).Some? {
      var e := WithParam(major, d, p, v).value;
      EntriesApart(major, p, q);
      forall g | g in Entries(major, q) ensures FieldAt(major, e, g) == FieldAt(major, d, g) {
        WithParamKeeps(major, d, p, v, g);
      }
      ParamValueReads(major, e, d, q);
    }
  }

  /**
   * `SqImgRsrcRegHandler`: a register view over an image descriptor with
   * one `BitsState` per field of its generation's table. The view and the
   * `BitsState` cache are the `GfxRegHelper` it holds.
   */
  class SqImgRsrcRegHandler {
    const regs: GfxRegHelper
    /** `m_pGfxIpVersion->major`. */
    const major: nat

    ghost predicate Valid()
      reads this, regs, regs.view
    {
      && Supported(major)
      && regs.Valid()
      && regs.bitsInfo == Table(major)
      && regs.gfxMajor == Some(major)
      && DescDWords <= |regs.view.dwords|
    }

    /** The descriptor dwords the handler currently stands for. */
    ghost function Contents(): (c: seq<u32>)
      reads this, regs, regs.view
      requires Valid()
      ensures DescDWords <= |c|
    {
      regs.view.Contents()
    }

    /** Binds `register` and selects the generation's table, every entry unknown and unmodified. */
    constructor (register: seq<u32>, major: nat)
      requires Supported(major) && DescDWords <= |register| <= 32
      ensures Valid() && fresh(regs) && fresh(regs.view)
      ensures this.major == major && Contents() == register && regs.view.DirtyIndices() == {}
      ensures regs.bitsState == seq(EnumCount, _ => FreshBitsState())
    {
      this.major := major;
      var h := new GfxRegHelper(register, true);
      if major == 9 { Gfx9IsFieldTable(); } else { Gfx10IsFieldTable(); }
      h.BindTable(major, Table(major));
      regs := h;
    }

    /** The constructor's version switch: only GFX9 and GFX10 have tables; any other major is fatal. */
    static method Create(register: seq<u32>, major: nat) returns (r: Outcome<SqImgRsrcRegHandler>)
      requires DescDWords <= |register| <= 32
      ensures r.Fatal? <==> !Supported(major)
      ensures r.Value? || r.Fatal?
      ensures r.Value? ==> fresh(r.value) && fresh(r.value.regs) && fresh(r.value.regs.view)
      ensures r.Value? ==> r.value.Valid() && r.value.major == major && r.value.Contents() == register
    {
      if !Supported(major) {
        return Fatal;
      }
      var h := new SqImgRsrcRegHandler(register, major);
      return Value(h);
    }

    /**
     * `GetRegister` of the underlying view: the current dwords, the dirty
     * ones written back; what the handler stands for is unchanged.
     */
    method GetRegister() returns (r: seq<u32>)
      requires Valid()
      modifies regs.view
      ensures Valid()
      ensures r == old(Contents()) && Contents() == old(Contents()) && regs.view.DirtyIndices() == {}
    {
      r := regs.view.GetRegister();
    }

    /** `GetReg`: the cached read of table entry `f`. */
    method GetReg(f: nat) returns (v: u32)
      requires Valid() && f < EnumCount
      modifies regs, regs.view
      ensures Valid()
      ensures v == FieldAt(major, old(Contents()), f)
      ensures Contents() == old(Contents()) && regs.view.DirtyIndices() == old(regs.view.DirtyIndices())
      ensures regs.bitsState == old(regs.bitsState)[f := BitsState(Some(v), false)]
    {
      v := regs.GetRegCommon(f);
    }

    /** `SetReg`: writes table entry `f` and flags it modified, so the next `GetReg` re-extracts it. */
    method SetReg(f: nat, v: u32)
      requires Valid() && f < EnumCount
      modifies regs, regs.view
      ensures Valid()
      ensures Contents() == StoreAt(major, old(Contents()), f, v)
      ensures regs.bitsState == old(regs.bitsState)[f := old(regs.bitsState[f]).(isModified := true)]
    {
      regs.SetRegCommon(f, v);
    }

    /** `GetRegCombine`: `(hi << lo.offset) | lo` of two table entries. */
    method GetRegCombine(lo: nat, hi: nat) returns (v: u32)
      requires Valid() && lo < EnumCount && hi < EnumCount
      modifies regs, regs.view
      ensures Valid()
      ensures WellFormed(Table(major)[lo])
      ensures v == Combine(FieldAt(major, old(Contents()), lo), FieldAt(major, old(Contents()), hi), Table(major)[lo].offset)
      ensures Contents() == old(Contents()) && regs.view.DirtyIndices() == old(regs.view.DirtyIndices())
      ensures |regs.bitsState| == old(|regs.bitsState|)
      ensures forall g | 0 <= g < |regs.bitsState| && g != lo && g != hi :: regs.bitsState[g] == old(regs.bitsState[g])
    {
      TableEntry(major, lo);
      v := regs.GetRegCombine(lo, hi);
    }

    /** `SetRegCombine`: splits `v` at `lo.offset`, writing the low part to `lo` and the rest to `hi`. */
    method SetRegCombine(lo: nat, hi: nat, v: u32)
      requires Valid() && lo < EnumCount && hi < EnumCount && lo != hi
      modifies regs, regs.view
      ensures Valid()
      ensures WellFormed(Table(major)[lo])
      ensures Contents() == StoreAt(major, StoreAt(major, old(Contents()), lo, SplitLo(v, Table(major)[lo].offset)),
                                    hi, SplitHi(v, Table(major)[lo].offset))
    {
      TableEntry(major, lo);
      regs.SetRegCombine(lo, hi, v);
    }

    /** `GetParam`: the value `ParamValue` gives for the current dwords; nothing is written. */
    method GetParam(p: nat) returns (r: Outcome<u32>)
      requires Valid()
      modifies regs, regs.view
      ensures Valid()
      ensures r == ParamValue(major, old(Contents()), p)
      ensures Contents() == old(Contents()) && regs.view.DirtyIndices() == old(regs.view.DirtyIndices())
    {
      if p >= EnumCount {
        return Fatal;
      }
      var entry := Lookup(major, p);
      if entry.None? {
        return Fatal;
      }
      if p == Width && major == 10 {
        r := GetWidthGfx10();
      } else {
        r := GetSingle(p, entry.value);
      }
    }

    /** The `GetParam` cases that read one field: the raw, the biased and the flag parameters. */
    method GetSingle(p: nat, f: nat) returns (r: Outcome<u32>)
      requires Valid() && p < EnumCount && Lookup(major, p) == Some(f) && !(p == Width && major == 10)
      modifies regs, regs.view
      ensures Valid()
      ensures r == ParamValue(major, old(Contents()), p)
      ensures Contents() == old(Contents()) && regs.view.DirtyIndices() == old(regs.view.DirtyIndices())
    {
      ghost var d := Contents();
      var x := GetReg(f);
      if IsRaw(p) {
        RawGet(major, d, p);
        r := Value(x);
      } else if p == Height || p == Pitch || p == Width {
        BiasedGet(major, d, p);
        r := Value(Add(x, 1));
      } else {
        FlagCase(major, d, p);
        r := Value(if x != 0 then 1 else 0);
      }
    }

    /** The GFX10 Width case of `GetParam`: the two width fields combined. */
    method GetWidthGfx10() returns (r: Outcome<u32>)
      requires Valid() && major == 10
      modifies regs, regs.view
      ensures Valid()
      ensures r == ParamValue(major, old(Contents()), Width)
      ensures Contents() == old(Contents()) && regs.view.DirtyIndices() == old(regs.view.DirtyIndices())
    {
      ghost var d := Contents();
      Gfx10WidthCase(d, 0);
      Gfx10WidthEntries();
      var x := GetRegCombine(Gfx10WidthLo, Gfx10WidthHi);
      assert x == Combine(FieldAt(10, d, Gfx10WidthLo), FieldAt(10, d, Gfx10WidthHi), 30);
      r := Value(Add(x, 1));
    }

    /**
     * `SetParam`: `fatal` reports the unreachable cases (IsTileOpt, GFX10
     * Pitch); otherwise the dwords become what `WithParam` gives.
     */
    method SetParam(p: nat, v: u32) returns (fatal: bool)
      requires Valid()
      modifies regs, regs.view
      ensures Valid()
      ensures fatal <==> WithParam(major, old(Contents()), p, v).Fatal?
      ensures !fatal ==> Contents() == WithParam(major, old(Contents()), p, v).value
    {
      if p >= EnumCount {
        return false;
      }
      var entry := Lookup(major, p);
      if entry.None? || p == IsTileOpt {
        return true;
      }
      var f := entry.value;
      fatal := false;
      if IsRaw(p) {
        SetReg(f, v);
      } else if p == Height || p == Pitch || major == 9 {
        SetReg(f, Sub(v, 1));
      } else {
        SetRegCombine(f, f + 1, Sub(v, 1));
      }
    }
  }
}
