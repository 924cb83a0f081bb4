// The chroma descriptors the YCbCr planner derives from the luma ones:
// `YCbCrGenerateSamplerDesc` and the descriptor writes of `GenImgDescChroma`
// (lgc/builder/llpcSamplerYCbCrHandler.cpp), and the older planner's
// raw-bit `ReplaceBitsInWord` and `YCbCrGenerateSamplerDesc`
// (llpc/util/llpcSamplerYCbCrHelper.cpp).
//
// The image descriptor is written through the GFX9 register handler of
// sq_img_rsrc_reg_handler.dfy, one `SetReg` (there `SetParam`) at a time;
// `PutAll` applies such a list of writes, and `PutAllReads` says that each
// parameter then reads back its last write.
module YCbCrChromaDesc {
  import opened BitField
  import opened Outcomes
  import opened SqImgRsrcTables
  import opened SqImgSampRegHelper
  import opened YCbCrTypes
  import opened YCbCrLayout
  import opened YCbCrAddress
  import SqImgRsrcHandler

  // ---------------------------------------------------------------------
  // Image descriptor writes

  /** A parameter `SetReg` can write: any but IsTileOpt, which is read-only. */
  predicate Writable(p: nat)
  {
    p < EnumCount && p != IsTileOpt
  }

  /** `SetReg(p, v)` on a GFX9 image descriptor. */
  function Put(d: seq<u32>, p: nat, v: u32): (r: seq<u32>)
    requires DescDWords <= |d| && Writable(p)
    ensures |r| == |d|
    ensures SqImgRsrcHandler.WithParam(9, d, p, v) == Value(r)
  {
    SqImgRsrcHandler.WithParam(9, d, p, v).value
  }

  /**
   * What parameter `p` reads back after `v` was written to it: v itself for
   * the 32-bit base address, its low bits for the other raw fields, and
   * ((v - 1) mod 2^count) + 1 for the sizes stored as value - 1.
   */
  function Stored(p: nat, v: u32): u32
    requires Writable(p)
  {
    var n := Gfx9Table()[p].count;
    if SqImgRsrcHandler.IsRaw(p) then (if n == 32 then v else ModPow2(v, n))
    else Add(ModPow2(Sub(v, 1), n), 1)
  }

  /** After `SetReg(p, v)`, `p` reads back `Stored(p, v)` and every other parameter reads as before. */
  lemma PutReads(d: seq<u32>, p: nat, v: u32, q: nat)
    requires DescDWords <= |d| && Writable(p)
    ensures SqImgRsrcHandler.ParamValue(9, Put(d, p, v), q) ==
      if p == q then Value(Stored(p, v)) else SqImgRsrcHandler.ParamValue(9, d, q)
  {
    if p == q {
      if SqImgRsrcHandler.IsRaw(p) {
        SqImgRsrcHandler.RawRoundTrip(9, d, p, v);
      } else {
        SqImgRsrcHandler.BiasedRoundTrip(9, d, p, v);
      }
    } else {
      SqImgRsrcHandler.ParamFrame(9, d, p, q, v);
    }
  }

  /** One `SetReg` call. */
  datatype Write = Write(param: nat, value: u32)

  predicate WritesOk(ws: seq<Write>)
  {
    forall k | 0 <= k < |ws| :: Writable(ws[k].param)
  }

  /** The descriptor after the writes `ws`, in order. */
  function PutAll(d: seq<u32>, ws: seq<Write>): (r: seq<u32>)
    requires DescDWords <= |d| && WritesOk(ws)
    ensures |r| == |d|
    decreases |ws|
  {
    if ws == [] then d else PutAll(Put(d, ws[0].param, ws[0].value), ws[1..])
  }

  /** The value last written to `q` in `ws`, if any. */
  function LastWrite(ws: seq<Write>, q: nat): (r: Option<u32>)
    ensures r.Some? <==> exists k | 0 <= k < |ws| :: ws[k].param == q
    decreases |ws|
  {
    if ws == [] then None
    else
      var rest := LastWrite(ws[1..], q);
      assert forall k | 1 <= k < |ws| :: ws[k] == ws[1..][k - 1];
      if rest.Some? then rest
      else if ws[0].param == q then Some(ws[0].value)
      else None
  }

  /** The value a parameter reads after the writes `ws`: its last write, or what it read before. */
  function ReadAfter(d: seq<u32>, ws: seq<Write>, q: nat): Outcome<u32>
    requires DescDWords <= |d| && WritesOk(ws)
  {
    match LastWrite(ws, q)
    case Some(v) => assert Writable(q) by { LastWriteParam(ws, q); } Value(Stored(q, v))
    case None => SqImgRsrcHandler.ParamValue(9, d, q)
  }

  lemma {:induction false} LastWriteParam(ws: seq<Write>, q: nat)
    requires WritesOk(ws) && LastWrite(ws, q).Some?
    ensures Writable(q)
  {
    var k :| 0 <= k < |ws| && ws[k].param == q;
  }

  /** The last write to `q` is the one at `k` when no later write names `q`. */
  lemma {:induction false} LastWriteAt(ws: seq<Write>, q: nat, k: nat)
    requires k < |ws| && ws[k].param == q
    requires forall m | k < m < |ws| :: ws[m].param != q
    ensures LastWrite(ws, q) == Some(ws[k].value)
    decreases |ws|
  {
    assert forall m | 1 <= m < |ws| :: ws[1..][m - 1] == ws[m];
    if k > 0 {
      LastWriteAt(ws[1..], q, k - 1);
    }
  }

  /** Each parameter reads back its last write; an unwritten one reads as before. */
  lemma {:induction false} PutAllReads(d: seq<u32>, ws: seq<Write>, q: nat)
    requires DescDWords <= |d| && WritesOk(ws)
    ensures SqImgRsrcHandler.ParamValue(9, PutAll(d, ws), q) == ReadAfter(d, ws, q)
    decreases |ws|
  {
    if ws != [] {
      var e := Put(d, ws[0].param, ws[0].value);
      WritesOkTail(ws);
      PutAllReads(e, ws[1..], q);
      PutReads(d, ws[0].param, ws[0].value, q);
    }
  }

  /** A parameter whose last write was `v` reads back `Stored(q, v)`. */
  lemma ReadLast(d: seq<u32>, ws: seq<Write>, q: nat, v: u32)
    requires DescDWords <= |d| && WritesOk(ws) && LastWrite(ws, q) == Some(v)
    ensures Writable(q)
    ensures SqImgRsrcHandler.ParamValue(9, PutAll(d, ws), q) == Value(Stored(q, v))
  {
    LastWriteParam(ws, q);
    PutAllReads(d, ws, q);
  }

  /** A parameter the writes never name reads as before. */
  lemma ReadUnwritten(d: seq<u32>, ws: seq<Write>, q: nat)
    requires DescDWords <= |d| && WritesOk(ws) && LastWrite(ws, q) == None
    ensures SqImgRsrcHandler.ParamValue(9, PutAll(d, ws), q) == SqImgRsrcHandler.ParamValue(9, d, q)
  {
    PutAllReads(d, ws, q);
  }

  lemma WritesOkTail(ws: seq<Write>)
    requires WritesOk(ws) && ws != []
    ensures WritesOk(ws[1..])
  {
    forall k | 0 <= k < |ws[1..]| ensures Writable(ws[1..][k].param) {
      assert ws[1..][k] == ws[k + 1];
    }
  }

  lemma WritesOkSnoc(ws: seq<Write>, w: Write)
    requires WritesOk(ws) && Writable(w.param)
    ensures WritesOk(ws + [w])
  {
    forall k | 0 <= k < |ws + [w]| ensures Writable((ws + [w])[k].param) {
      if k < |ws| { assert (ws + [w])[k] == ws[k]; }
    }
  }

  /** Appending a write to the list is one more `SetReg` on the result. */
  lemma {:induction false} PutAllSnoc(d: seq<u32>, ws: seq<Write>, w: Write)
    requires DescDWords <= |d| && WritesOk(ws) && Writable(w.param)
    ensures WritesOk(ws + [w])
    ensures PutAll(d, ws + [w]) == Put(PutAll(d, ws), w.param, w.value)
    decreases |ws|
  {
    WritesOkSnoc(ws, w);
    if ws == [] {
      assert ws + [w] == [w] && [w][1..] == [];
      assert PutAll(d, [w]) == PutAll(Put(d, w.param, w.value), []);
    } else {
      var e := Put(d, ws[0].param, ws[0].value);
      assert (ws + [w])[0] == ws[0] && (ws + [w])[1..] == ws[1..] + [w];
      WritesOkTail(ws);
      PutAllSnoc(e, ws[1..], w);
      assert PutAll(d, ws) == PutAll(e, ws[1..]);
      assert PutAll(d, ws + [w]) == PutAll(e, ws[1..] + [w]);
    }
  }

  /** Two write lists one after the other are the second applied to the result of the first. */
  lemma {:induction false} PutAllConcat(d: seq<u32>, ws: seq<Write>, vs: seq<Write>)
    requires DescDWords <= |d| && WritesOk(ws) && WritesOk(vs)
    ensures WritesOk(ws + vs)
    ensures PutAll(d, ws + vs) == PutAll(PutAll(d, ws), vs)
    decreases |ws|
  {
    assert forall k | 0 <= k < |ws + vs| :: (ws + vs)[k] == if k < |ws| then ws[k] else vs[k - |ws|];
    if ws == [] {
      assert ws + vs == vs;
    } else {
      assert (ws + vs)[1..] == ws[1..] + vs;
      WritesOkTail(ws);
      PutAllConcat(Put(d, ws[0].param, ws[0].value), ws[1..], vs);
    }
  }

  // ---------------------------------------------------------------------
  // `GenImgDescChroma`

  /** A GFX9 parameter as `GetReg` reads it. */
  function Read(e: seq<u32>, q: nat): Outcome<u32>
    requires DescDWords <= |e|
  {
    SqImgRsrcHandler.ParamValue(9, e, q)
  }

  /** A size (Width, Height, Pitch) reads between 1 and 2^count: field + 1 of a `count`-bit field. */
  lemma SizeBounds(d: seq<u32>, p: nat)
    requires DescDWords <= |d| && SqImgRsrcHandler.IsBiased(9, p)
    ensures Read(d, p).Value? && 1 <= Read(d, p).value <= Pow2(Gfx9Table()[p].count)
  {
    SqImgRsrcHandler.BiasedGet(9, d, p);
    FieldBelow(d, p);
    BiasedBound(FieldAt(9, d, p), Gfx9Table()[p].count);
  }

  /** A field below 2^n, n < 32, plus one stays in 1..2^n without wrapping. */
  lemma BiasedBound(x: u32, n: nat)
    requires n < 32 && x < Pow2(n)
    ensures 1 <= Add(x, 1) <= Pow2(n)
  {
    assert Pow2(n) < WORD by {
      Pow2Monotone(n, 31);
      Pow2Word();
      Pow2Add(31, 1);
    }
    AddOne(x);
  }

  lemma FieldBelow(d: seq<u32>, p: nat)
    requires DescDWords <= |d| && p < EnumCount && Gfx9Table()[p].count < 32
    ensures FieldAt(9, d, p) < Pow2(Gfx9Table()[p].count)
  {
    var info := Gfx9Table()[p];
    TableEntry(9, p);
    UbfeIsDivMod(d[info.index], info.offset, info.count);
  }

  lemma AddOne(x: u32)
    requires x + 1 < WORD
    ensures Add(x, 1) == x + 1
  {
    WrapId(x + 1);
  }

  /** A size of two or more, halved by `x >> 1`, is stored exactly (`x / 2` is again in range). */
  lemma HalvedSize(p: nat, x: u32)
    requires SqImgRsrcHandler.IsBiased(9, p) && 2 <= x <= Pow2(Gfx9Table()[p].count)
    ensures Stored(p, LShr(x, 1)) == x / 2
  {
    HalfIsShift(x);
    SqImgRsrcHandler.BiasArith(x / 2, Gfx9Table()[p].count);
  }

  /** A size of one halves to zero, which the value - 1 encoding stores as the largest size, 2^count. */
  lemma HalvedSizeOneWraps(p: nat)
    requires SqImgRsrcHandler.IsBiased(9, p)
    ensures Stored(p, LShr(1, 1)) == Pow2(Gfx9Table()[p].count)
  {
    HalfIsShift(1);
    var n := Gfx9Table()[p].count;
    assert 0 < n < 32;
    ZeroWrapsToTop(n);
  }

  /** The planner inputs `GenImgDescChroma` reads besides the luma descriptor. */
  datatype DescInputs = DescInputs(
    bits0: u32, bpp: u32, xBitCount: u32, tileOptimal: bool, planeNum: u32,
    format: u32,   // `word3.sqImgRsrcWord1` of the conversion metadata
    dstSel: u32)   // `word1.dstSelXYZW` of the conversion metadata

  /**
   * What `GenImgDescChroma` has read before its first write: the luma
   * Width, Height and Pitch, and the chroma pitch and plane addresses of
   * the address handler.
   */
  datatype LumaReads = LumaReads(width: u32, height: u32, pitch: u32, pitchCb: u32, planes: seq<u32>)

  function LumaReadsOf(d: seq<u32>, inp: DescInputs): (r: LumaReads)
    requires DescDWords <= |d|
    ensures |r.planes| == Min(inp.planeNum, 3)
    ensures r.width == Param(9, d, Width) && r.height == Param(9, d, Height) && r.pitch == Param(9, d, Pitch)
  {
    var l := DescLayout(9, d, inp.bits0, inp.bpp, inp.xBitCount, inp.tileOptimal).value;
    LumaReads(Param(9, d, Width), Param(9, d, Height), Param(9, d, Pitch), l.pitchCb,
              PlanesAfter([], Param(9, d, BaseAddress), l, inp.planeNum))
  }

  /** The writes that produce `m_pImgDescChromas[1]`, by plane count. */
  function Desc1Writes(inp: DescInputs, rd: LumaReads): (ws: seq<Write>)
    requires 2 <= inp.planeNum <= 3 ==> 1 < |rd.planes|
    ensures WritesOk(ws)
  {
    [Write(Width, LShr(rd.width, 1)), Write(Format, inp.format)] +
      if inp.planeNum == 1 then
        [Write(DstSelXYZW, inp.dstSel), Write(BcSwizzle, 6), Write(Pitch, rd.pitchCb)]
      else if 2 <= inp.planeNum <= 3 then
        [Write(BaseAddress, rd.planes[1]), Write(Height, LShr(rd.height, 1))] +
          if inp.planeNum == 2 then [Write(DstSelXYZW, inp.dstSel), Write(BcSwizzle, 6), Write(Pitch, LShr(rd.pitch, 1))]
          else [Write(DstSelXYZW, 0x300), Write(BcSwizzle, 4), Write(Pitch, LShr(rd.pitch, 1))]
      else []
  }

  /** The writes that turn the Cb plane's descriptor into the Cr plane's, for three planes. */
  function Desc2Writes(rd: LumaReads): (ws: seq<Write>)
    requires 2 < |rd.planes|
    ensures WritesOk(ws)
  {
    [Write(BaseAddress, rd.planes[2]), Write(DstSelXYZW, 0x204), Write(BcSwizzle, 5)]
  }

  /** `m_pImgDescChromas[1]` and `[2]`; an empty sequence is a descriptor left null. */
  datatype ChromaDescs = ChromaDescs(desc1: seq<u32>, desc2: seq<u32>)

  /**
   * The chroma plane descriptors `GenImgDescChroma` builds from the GFX9
   * luma descriptor `d`: one for plane 2 for one to three planes, and one
   * for plane 3, derived from the plane 2 one, for three planes.
   */
  function ChromaPlaneDescs(d: seq<u32>, inp: DescInputs): (r: ChromaDescs)
    requires DescDWords <= |d|
    ensures r.desc1 != [] <==> 1 <= inp.planeNum <= 3
    ensures r.desc2 != [] <==> inp.planeNum == 3
    ensures r.desc1 != [] ==> |r.desc1| == |d|
    ensures r.desc2 != [] ==> |r.desc2| == |d|
  {
    ChromaDescsFrom(d, inp, LumaReadsOf(d, inp))
  }

  /** The same, given what was read from `d` before the first write. */
  function ChromaDescsFrom(d: seq<u32>, inp: DescInputs, rd: LumaReads): (r: ChromaDescs)
    requires DescDWords <= |d| && |rd.planes| == Min(inp.planeNum, 3)
    ensures r.desc1 != [] <==> 1 <= inp.planeNum <= 3
    ensures r.desc2 != [] <==> inp.planeNum == 3
    ensures r.desc1 != [] ==> |r.desc1| == |d|
    ensures r.desc2 != [] ==> |r.desc2| == |d|
  {
    if 1 <= inp.planeNum <= 3 then
      var c1 := PutAll(d, Desc1Writes(inp, rd));
      ChromaDescs(c1, if inp.planeNum == 3 then PutAll(c1, Desc2Writes(rd)) else [])
    else ChromaDescs([], [])
  }

  /**
   * The last value each parameter receives from the writes of plane 2's
   * descriptor; BaseAddressHi, IsTileOpt and Depth are never written, nor
   * are BaseAddress and Height for one plane.
   */
  lemma Desc1Last(inp: DescInputs, rd: LumaReads, q: nat)
    requires 1 <= inp.planeNum <= 3 && (2 <= inp.planeNum ==> 1 < |rd.planes|)
    ensures var n := inp.planeNum;
      LastWrite(Desc1Writes(inp, rd), q) ==
        if q == Width then Some(LShr(rd.width, 1))
        else if q == Format then Some(inp.format)
        else if q == DstSelXYZW then Some(if n == 3 then 0x300 else inp.dstSel)
        else if q == BcSwizzle then Some(if n == 3 then 4 else 6)
        else if q == Pitch then Some(if n == 1 then rd.pitchCb else LShr(rd.pitch, 1))
        else if q == BaseAddress && n != 1 then Some(rd.planes[1])
        else if q == Height && n != 1 then Some(LShr(rd.height, 1))
        else None
  {
    var ws := Desc1Writes(inp, rd);
    if q == Width {
      LastWriteAt(ws, q, 0);
    } else if q == Format {
      LastWriteAt(ws, q, 1);
    } else if inp.planeNum == 1 {
      if q == DstSelXYZW { LastWriteAt(ws, q, 2); }
      else if q == BcSwizzle { LastWriteAt(ws, q, 3); }
      else if q == Pitch { LastWriteAt(ws, q, 4); }
    } else {
      if q == BaseAddress { LastWriteAt(ws, q, 2); }
      else if q == Height { LastWriteAt(ws, q, 3); }
      else if q == DstSelXYZW { LastWriteAt(ws, q, 4); }
      else if q == BcSwizzle { LastWriteAt(ws, q, 5); }
      else if q == Pitch { LastWriteAt(ws, q, 6); }
    }
  }

  /** The writes of plane 3's descriptor name BaseAddress, DstSelXYZW and BcSwizzle once each. */
  lemma Desc2Last(rd: LumaReads, q: nat)
    requires 2 < |rd.planes|
    ensures LastWrite(Desc2Writes(rd), q) ==
      if q == BaseAddress then Some(rd.planes[2])
      else if q == DstSelXYZW then Some(0x204)
      else if q == BcSwizzle then Some(5)
      else None
  {
    var ws := Desc2Writes(rd);
    if q == BaseAddress { LastWriteAt(ws, q, 0); }
    else if q == DstSelXYZW { LastWriteAt(ws, q, 1); }
    else if q == BcSwizzle { LastWriteAt(ws, q, 2); }
  }

  /**
   * What each parameter of the plane 2 descriptor reads: every plane count
   * writes the halved luma width and the metadata format; one plane writes
   * the metadata destination select, swizzle 6 and the chroma pitch of the
   * layout; two and three planes write plane 2's address, the halved luma
   * height and pitch, and the metadata destination select with swizzle 6
   * (two planes) or select 0x300 with swizzle 4 (three). Every other
   * parameter reads as the luma descriptor has it.
   */
  lemma Desc1Fields(d: seq<u32>, inp: DescInputs, rd: LumaReads, q: nat)
    requires DescDWords <= |d| && 1 <= inp.planeNum <= 3 && (2 <= inp.planeNum ==> 1 < |rd.planes|)
    ensures var n := inp.planeNum;
      Read(PutAll(d, Desc1Writes(inp, rd)), q) ==
        if q == Width then Value(Stored(Width, LShr(rd.width, 1)))
        else if q == Format then Value(ModPow2(inp.format, 9))
        else if q == DstSelXYZW then Value(if n == 3 then 0x300 else ModPow2(inp.dstSel, 12))
        else if q == BcSwizzle then Value(if n == 3 then 4 else 6)
        else if q == Pitch then Value(Stored(Pitch, if n == 1 then rd.pitchCb else LShr(rd.pitch, 1)))
        else if q == BaseAddress && n != 1 then Value(rd.planes[1])
        else if q == Height && n != 1 then Value(Stored(Height, LShr(rd.height, 1)))
        else Read(d, q)
  {
    var ws, n := Desc1Writes(inp, rd), inp.planeNum;
    Desc1Last(inp, rd, q);
    if q == Width {
      ReadLast(d, ws, q, LShr(rd.width, 1));
    } else if q == Format {
      ReadLast(d, ws, q, inp.format);
      FormatStored(inp.format);
    } else if q == DstSelXYZW {
      var v := if n == 3 then 0x300 else inp.dstSel;
      ReadLast(d, ws, q, v);
      Desc1SmallCodes(n, q, v);
    } else if q == BcSwizzle {
      var v := if n == 3 then 4 else 6;
      ReadLast(d, ws, q, v);
      Desc1SmallCodes(n, q, v);
    } else if q == Pitch {
      ReadLast(d, ws, q, if n == 1 then rd.pitchCb else LShr(rd.pitch, 1));
    } else if q == BaseAddress && n != 1 {
      ReadLast(d, ws, q, rd.planes[1]);
    } else if q == Height && n != 1 {
      ReadLast(d, ws, q, LShr(rd.height, 1));
    } else {
      ReadUnwritten(d, ws, q);
    }
  }

  /** Format is a raw nine-bit field. */
  lemma FormatStored(v: u32)
    ensures Writable(Format) && Stored(Format, v) == ModPow2(v, 9)
  {
  }

  /** The destination selects and swizzles the plane 2 descriptor writes fit their fields. */
  lemma Desc1SmallCodes(n: nat, q: nat, v: u32)
    requires (q == DstSelXYZW && n == 3 && v == 0x300) || (q == DstSelXYZW && n != 3) || (q == BcSwizzle && (v == 4 || v == 6))
    ensures q == DstSelXYZW && n == 3 ==> Stored(q, v) == 0x300
    ensures q == DstSelXYZW && n != 3 ==> Stored(q, v) == ModPow2(v, 12)
    ensures q == BcSwizzle ==> Stored(q, v) == v
  {
    Pow2Fields();
    if q == BcSwizzle || n == 3 {
      StoredSmall(q, v);
    }
  }

  /**
   * For three planes, the plane 3 descriptor differs from the plane 2 one
   * only in its base address (plane 3), destination select (0x204) and
   * swizzle (5).
   */
  lemma Desc2Fields(c: seq<u32>, rd: LumaReads, q: nat)
    requires DescDWords <= |c| && 2 < |rd.planes|
    ensures Read(PutAll(c, Desc2Writes(rd)), q) ==
      if q == BaseAddress then Value(rd.planes[2])
      else if q == DstSelXYZW then Value(0x204)
      else if q == BcSwizzle then Value(5)
      else Read(c, q)
  {
    var ws := Desc2Writes(rd);
    var e := PutAll(c, ws);
    if q == BaseAddress {
      assert Read(e, q) == Value(Stored(q, rd.planes[2])) by {
        PutAllReads(c, ws, q);
        Desc2Last(rd, q);
      }
    } else if q == DstSelXYZW {
      assert Read(e, q) == Value(Stored(q, 0x204)) by {
        PutAllReads(c, ws, q);
        Desc2Last(rd, q);
      }
      StoredSmall(q, 0x204);
    } else if q == BcSwizzle {
      assert Read(e, q) == Value(Stored(q, 5)) by {
        PutAllReads(c, ws, q);
        Desc2Last(rd, q);
      }
      StoredSmall(q, 5);
    } else {
      assert Read(e, q) == Read(c, q) by {
        PutAllReads(c, ws, q);
        Desc2Last(rd, q);
      }
    }
  }

  /** A raw parameter keeps any value that fits its field. */
  lemma StoredSmall(p: nat, v: u32)
    requires Writable(p) && SqImgRsrcHandler.IsRaw(p) && v < Pow2(Gfx9Table()[p].count)
    ensures Stored(p, v) == v
  {
    var n := Gfx9Table()[p].count;
    if n != 32 {
      ModId(v, Pow2(n));
    }
  }

  /** The chroma planes of two- and three-plane images get half the luma height and pitch (for sizes of two or more). */
  lemma Desc1Halves(d: seq<u32>, inp: DescInputs)
    requires DescDWords <= |d| && 2 <= inp.planeNum <= 3
    requires Param(9, d, Height) >= 2 && Param(9, d, Pitch) >= 2
    ensures var c := ChromaPlaneDescs(d, inp).desc1;
      && Read(c, Height) == Value(Param(9, d, Height) / 2)
      && Read(c, Pitch) == Value(Param(9, d, Pitch) / 2)
  {
    var rd := LumaReadsOf(d, inp);
    assert ChromaPlaneDescs(d, inp).desc1 == PutAll(d, Desc1Writes(inp, rd));
    Desc1Fields(d, inp, rd, Height);
    Desc1Fields(d, inp, rd, Pitch);
    SizeBounds(d, Height);
    SizeBounds(d, Pitch);
    HalvedSize(Height, Param(9, d, Height));
    HalvedSize(Pitch, Param(9, d, Pitch));
  }

  /** Every chroma plane gets half the luma width when that is two or more, and 2^14 for a luma width of one. */
  lemma Desc1Width(d: seq<u32>, inp: DescInputs)
    requires DescDWords <= |d| && 1 <= inp.planeNum <= 3
    ensures var c, w := ChromaPlaneDescs(d, inp).desc1, Param(9, d, Width);
      Read(c, Width) == Value(if w == 1 then 0x4000 else w / 2)
  {
    var rd := LumaReadsOf(d, inp);
    assert ChromaPlaneDescs(d, inp).desc1 == PutAll(d, Desc1Writes(inp, rd));
    Desc1Fields(d, inp, rd, Width);
    SizeBounds(d, Width);
    WidthHalves(Param(9, d, Width));
  }

  lemma WidthHalves(w: u32)
    requires 1 <= w <= Pow2(Gfx9Table()[Width].count)
    ensures Stored(Width, LShr(w, 1)) == if w == 1 then 0x4000 else w / 2
  {
    if w == 1 {
      HalvedSizeOneWraps(Width);
      Pow2Fields();
    } else {
      HalvedSize(Width, w);
    }
  }

  // ---------------------------------------------------------------------
  // Chroma sampler descriptor

  /** The xy filter `YCbCrGenerateSamplerDesc` selects: point (0) for nearest or forced explicit reconstruction, else linear (1). */
  function ChromaXYFilter(filter: SamplerFilter, force: bool): u32
  {
    if filter == Nearest || force then 0 else 1
  }

  /**
   * `YCbCrGenerateSamplerDesc` of the lgc planner: FilterMode set to blend
   * (0), and both xy filters to the selected one, through the sampler
   * register fields.
   */
  function ChromaSamplerDesc(d: seq<u32>, filter: SamplerFilter, force: bool): (r: seq<u32>)
    requires SampDWords <= |d|
    ensures |r| == |d|
  {
    SampEntries();
    var f := ChromaXYFilter(filter, force);
    StoreField(StoreField(StoreField(d, SampTable()[FilterMode], 0), SampTable()[XYMagFilter], f),
               SampTable()[XYMinFilter], f)
  }

  /**
   * The chroma sampler has FilterMode 0 and both xy filters equal to the
   * selected one.
   */
  lemma ChromaSamplerFields(d: seq<u32>, filter: SamplerFilter, force: bool)
    requires SampDWords <= |d|
    ensures var r, f := ChromaSamplerDesc(d, filter, force), ChromaXYFilter(filter, force);
      && FieldOf(r, SampTable()[FilterMode]) == 0
      && FieldOf(r, SampTable()[XYMagFilter]) == f
      && FieldOf(r, SampTable()[XYMinFilter]) == f
  {
    SampThreeStores(d, 0, ChromaXYFilter(filter, force), ChromaXYFilter(filter, force));
  }

  /** Only dwords 0 and 2 change. */
  lemma ChromaSamplerFrame(d: seq<u32>, filter: SamplerFilter, force: bool)
    requires SampDWords <= |d|
    ensures var r := ChromaSamplerDesc(d, filter, force);
      forall k | 0 <= k < |d| && k != 0 && k != 2 :: r[k] == d[k]
  {
    SampEntries();
  }

  // ---------------------------------------------------------------------
  // The older planner's raw-bit sampler descriptor

  /** An i32 or a vector-of-i32 operand of `ReplaceBitsInWord`. */
  datatype Operand = Scalar(x: u32) | Vector(lanes: seq<u32>)

  /** The operand's lanes, a scalar repeated `n` times. */
  function Splat(o: Operand, n: nat): (r: seq<u32>)
    ensures o.Scalar? ==> |r| == n && forall k | 0 <= k < n :: r[k] == o.x
    ensures o.Vector? ==> r == o.lanes
  {
    match o
    case Scalar(x) => seq(n, _ => x)
    case Vector(l) => l
  }

  /** Two vector operands have the same number of lanes (the IR's vector types agree). */
  predicate OperandsAgree(word: Operand, data: Operand)
  {
    word.Vector? && data.Vector? ==> |word.lanes| == |data.lanes|
  }

  /** The lane count of the result: that of whichever operand is a vector. */
  function LaneCount(word: Operand, data: Operand): nat
  {
    if word.Vector? then |word.lanes| else if data.Vector? then |data.lanes| else 1
  }

  /**
   * `ReplaceBitsInWord(word, beginBit, adjustBits, data)`: a scalar operand
   * next to a vector one is splatted, and each lane becomes
   * `(word & ~mask) | ((data << beginBit) & mask)`.
   */
  function ReplaceBitsInWord(word: Operand, beginBit: nat, adjustBits: nat, data: Operand): (r: Operand)
    requires beginBit < 32 && adjustBits < 32 && OperandsAgree(word, data)
    ensures r.Scalar? <==> word.Scalar? && data.Scalar?
    ensures r.Vector? ==> |r.lanes| == LaneCount(word, data)
  {
    if word.Scalar? && data.Scalar? then Scalar(ReplaceBits(word.x, beginBit, adjustBits, data.x))
    else
      var n := LaneCount(word, data);
      var w, v := Splat(word, n), Splat(data, n);
      Vector(seq(n, k requires 0 <= k < n => ReplaceBits(w[k], beginBit, adjustBits, v[k])))
  }

  /**
   * Each lane of the result takes bits [beginBit, beginBit + adjustBits)
   * from the data, shifted, and every other bit from the word.
   */
  lemma ReplaceBitsInWordBits(word: Operand, beginBit: nat, adjustBits: nat, data: Operand, k: nat, j: nat)
    requires beginBit < 32 && adjustBits < 32 && OperandsAgree(word, data) && j < 32
    requires k < LaneCount(word, data)
    ensures var n := LaneCount(word, data);
      var r := ReplaceBitsInWord(word, beginBit, adjustBits, data);
      var lane := if r.Scalar? then r.x else r.lanes[k];
      Bit(lane, j) <==>
        if beginBit <= j < beginBit + adjustBits then Bit(Splat(data, n)[k], j - beginBit)
        else Bit(Splat(word, n)[k], j)
  {
    var n := LaneCount(word, data);
    BitReplace(Splat(word, n)[k], beginBit, adjustBits, Splat(data, n)[k], j);
  }

  /** The four bits the older planner writes at bit 20 of dword 2: 0b0000, or 0b0101 for two linear filters. */
  function RawXYFilter(filter: SamplerFilter, force: bool): u32
  {
    if filter == Nearest || force then 0 else 5
  }

  /**
   * The older `YCbCrGenerateSamplerDesc` on a four-dword sampler
   * descriptor: dword 0 bits 30-31 cleared, dword 2 bits 20-23 set to
   * `RawXYFilter`, dwords 1 and 3 copied.
   */
  function RawSamplerDesc(d: seq<u32>, filter: SamplerFilter, force: bool): (r: seq<u32>)
    requires |d| == 4
    ensures |r| == 4
  {
    var w0 := ReplaceBitsInWord(Scalar(d[0]), 30, 2, Scalar(0));
    var w2 := ReplaceBitsInWord(Scalar(d[2]), 20, 4, Scalar(RawXYFilter(filter, force)));
    ScalarReplace(d[0], 30, 2, 0);
    ScalarReplace(d[2], 20, 4, RawXYFilter(filter, force));
    [w0.x, d[1], w2.x, d[3]]
  }

  /** On two scalars `ReplaceBitsInWord` is `ReplaceBits`. */
  lemma ScalarReplace(word: u32, beginBit: nat, adjustBits: nat, data: u32)
    requires beginBit < 32 && adjustBits < 32
    ensures ReplaceBitsInWord(Scalar(word), beginBit, adjustBits, Scalar(data)) == Scalar(ReplaceBits(word, beginBit, adjustBits, data))
  {
  }

  /** Dword 0 of the older planner's descriptor. */
  lemma RawSamplerWord0(d: seq<u32>, filter: SamplerFilter, force: bool)
    requires |d| == 4
    ensures RawSamplerDesc(d, filter, force)[0] == ReplaceBits(d[0], 30, 2, 0)
  {
  }

  /** Dword 2 of the older planner's descriptor. */
  lemma RawSamplerWord2(d: seq<u32>, filter: SamplerFilter, force: bool)
    requires |d| == 4
    ensures RawSamplerDesc(d, filter, force)[2] == ReplaceBits(d[2], 20, 4, RawXYFilter(filter, force))
  {
  }

  /** Dwords 1 and 3 pass through the older planner. */
  lemma RawSamplerKept(d: seq<u32>, filter: SamplerFilter, force: bool)
    requires |d| == 4
    ensures RawSamplerDesc(d, filter, force)[1] == d[1] && RawSamplerDesc(d, filter, force)[3] == d[3]
  {
  }

  /** Dwords 1 and 3 pass through the lgc planner. */
  lemma ChromaSamplerKept(d: seq<u32>, filter: SamplerFilter, force: bool)
    requires |d| == 4
    ensures ChromaSamplerDesc(d, filter, force)[1] == d[1] && ChromaSamplerDesc(d, filter, force)[3] == d[3]
  {
    ChromaSamplerFrame(d, filter, force);
  }

  /** Four-dword descriptors that agree dword by dword are equal. */
  lemma FourWordsEqual(a: seq<u32>, b: seq<u32>)
    requires |a| == 4 && |b| == 4
    requires a[0] == b[0] && a[1] == b[1] && a[2] == b[2] && a[3] == b[3]
    ensures a == b
  {
  }

  /** Dword 0 of the lgc planner's descriptor. */
  lemma ChromaSamplerWord0(d: seq<u32>, filter: SamplerFilter, force: bool)
    requires |d| == 4
    ensures ChromaSamplerDesc(d, filter, force)[0] == ReplaceBits(d[0], 30, 2, 0)
  {
    SampIsFieldTable();
  }

  /** Dword 2 of the lgc planner's descriptor. */
  lemma ChromaSamplerWord2(d: seq<u32>, filter: SamplerFilter, force: bool)
    requires |d| == 4
    ensures var f := ChromaXYFilter(filter, force);
      ChromaSamplerDesc(d, filter, force)[2] == ReplaceBits(ReplaceBits(d[2], 20, 2, f), 22, 2, f)
  {
    SampIsFieldTable();
  }

  /**
   * The older planner's raw bit edits give the descriptor the field writes
   * give: 0b0101 at bit 20 is xyMagFilter = xyMinFilter = 1.
   */
  lemma {:induction false} RawSamplerDescAgrees(d: seq<u32>, filter: SamplerFilter, force: bool)
    requires |d| == 4
    ensures RawSamplerDesc(d, filter, force) == ChromaSamplerDesc(d, filter, force)
  {
    RawSamplerWord0(d, filter, force);
    RawSamplerWord2(d, filter, force);
    RawSamplerKept(d, filter, force);
    ChromaSamplerWord0(d, filter, force);
    ChromaSamplerWord2(d, filter, force);
    ChromaSamplerKept(d, filter, force);
    ReplaceTwoPairs(d[2], 20, ChromaXYFilter(filter, force), RawXYFilter(filter, force));
    FourWordsEqual(RawSamplerDesc(d, filter, force), ChromaSamplerDesc(d, filter, force));
  }
}
