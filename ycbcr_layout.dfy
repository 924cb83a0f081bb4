// Plane layout of a multi-planar (YCbCr) image: the values the address
// handlers compute (lgc/builder/llpcYCbCrAddressHandler.cpp,
// llpc/builder/llpcYCbCrAddressHelper.cpp, llpc/builder/llpcSamplerYCbCrHelper.h)
// from the descriptor's Height, Pitch, Width and IsTileOpt parameters.
//
// Every builder operation is a 32-bit wrapping operation on `u32`; the
// constants the source computes on the host (`bpp >> 3`, `256 / eb`,
// `1u << n`) are computed here the same way.
module YCbCrLayout {
  import opened BitField

  // ---------------------------------------------------------------------------
  // Power2Align

  /**
   * `Power2Align(x, align)`: `(x + (align - 1)) & ~(align - 1)`, in 32 bits.
   * No bit of `align - 1` survives, so for a power-of-two alignment the
   * result is a multiple of it.
   */
  function Power2Align(x: u32, align: u32): (r: u32)
    ensures And(r, Sub(align, 1)) == 0
  {
    var alignM1 := Sub(align, 1);
    AndNotClears(Add(x, alignM1), alignM1);
    And(Add(x, alignM1), Not(alignM1))
  }

  /** `(y & ~m) & m` is 0: masking with the complement keeps no bit of m. */
  lemma AndNotClears(y: u32, m: u32)
    ensures And(And(y, Not(m)), m) == 0
  {
    Pow2Word();
    var z := And(And(y, Not(m)), m);
    forall j | 0 <= j < 32 ensures Bit(z, j) == Bit(0, j) {
      BitAnd(And(y, Not(m)), m, 32, j);
      BitAnd(y, Not(m), 32, j);
      BitNot(m, 32, j);
      BitZero(j);
    }
    BitsEqual(z, 0, 32);
  }

  /** Bit j of `y & ~(2^k - 1)` is bit j of y with the low k bits cleared. */
  lemma BitClearLow(y: u32, k: nat, j: nat)
    requires k < 32 && j < 32
    ensures Bit(And(y, Not(Mask(k))), j) == Bit(Shl(Shr(y, k), k), j)
  {
    BitAnd(y, Not(Mask(k)), 32, j);
    BitNot(Mask(k), 32, j);
    BitMask(k, j);
    BitShl(Shr(y, k), k, j);
    if j >= k {
      BitShr(y, k, j - k);
    }
  }

  /** Masking with `~(2^k - 1)` clears the low k bits: it rounds down to a multiple of 2^k. */
  lemma ClearLowBits(y: u32, k: nat)
    requires k < 32
    ensures And(y, Not(Mask(k))) == (y / Pow2(k)) * Pow2(k)
  {
    var z := Shl(Shr(y, k), k);
    SplitAt(y, k);
    Pow2Word();
    assert z < Pow2(32);
    forall j | 0 <= j < 32 ensures Bit(And(y, Not(Mask(k))), j) == Bit(z, j) {
      BitClearLow(y, k, j);
    }
    BitsEqual(And(y, Not(Mask(k))), z, 32);
    ShlIsMul(Shr(y, k), k);
    ShrIsDiv(y, k);
  }

  /** 2^k for k < 32 is a 32-bit value, and 2^k - 1 is `Mask(k)`. */
  lemma SmallPow2(k: nat)
    requires k < 32
    ensures Pow2(k) < WORD && Sub(Pow2(k), 1) == Mask(k)
  {
    Pow2Monotone(k + 1, 32);
    Pow2Word();
    SubNoWrap(Pow2(k), 1);
  }

  /**
   * For a power-of-two alignment and no overflow, `Power2Align` gives the
   * least multiple of the alignment that is at least `x`.
   */
  lemma Power2AlignRoundsUp(x: u32, k: nat)
    requires k < 32 && x + Pow2(k) - 1 < WORD
    ensures Pow2(k) < WORD
    ensures Power2Align(x, Pow2(k)) % Pow2(k) == 0
    ensures x <= Power2Align(x, Pow2(k)) < x + Pow2(k)
  {
    var m := Pow2(k);
    SmallPow2(k);
    var s := Sub(m, 1);
    var a := Add(x, s);
    assert a == x + m - 1 by { AddNoWrap(x, s); }
    var r := Power2Align(x, m);
    assert r == And(a, Not(Mask(k)));
    ClearLowBits(a, k);
    RoundDownAt(a, m, r);
  }

  /** `RoundDown` for a multiple already named. */
  lemma RoundDownAt(y: int, a: int, r: int)
    requires y >= 0 && a > 0 && r == (y / a) * a
    ensures r <= y < r + a && r % a == 0
  {
    RoundDown(y, a);
  }

  /** `(y / a) * a` is the multiple of a just at or below y. */
  lemma RoundDown(y: int, a: int)
    requires y >= 0 && a > 0
    ensures (y / a) * a <= y < (y / a) * a + a
    ensures ((y / a) * a) % a == 0
  {
    var q := y / a;
    assert y == a * q + y % a;
    DivModUnique(q * a, a, q, 0);
  }

  /** A 32-bit multiple of 2^k leaves room for 2^k - 1 more. */
  lemma MultipleHeadroom(r: u32, k: nat)
    requires k < 32 && r % Pow2(k) == 0
    ensures r + Pow2(k) - 1 < WORD
  {
    Pow2Sum(32 - k, k, 32);
    Pow2Word();
    HeadroomArith(r, Pow2(k), Pow2(32 - k));
  }

  /** A multiple of a below p * a is at most p * a - a. */
  lemma HeadroomArith(r: int, a: int, p: int)
    requires a > 0 && p > 0 && 0 <= r < p * a && r % a == 0
    ensures r + a - 1 < p * a
  {
    var q := r / a;
    assert r == q * a;
    assert q < p;
    assert (q + 1) * a <= p * a;
  }

  /** Aligning an aligned value changes nothing. */
  lemma Power2AlignIdempotent(x: u32, k: nat)
    requires k < 32 && x + Pow2(k) - 1 < WORD
    ensures Pow2(k) < WORD
    ensures Power2Align(Power2Align(x, Pow2(k)), Pow2(k)) == Power2Align(x, Pow2(k))
  {
    Power2AlignRoundsUp(x, k);
    var r := Power2Align(x, Pow2(k));
    MultipleHeadroom(r, k);
    Power2AlignRoundsUp(r, k);
    var r2 := Power2Align(r, Pow2(k));
    MultiplesApart(r, r2, Pow2(k));
  }

  /** Two multiples of m less than m apart are equal. */
  lemma MultiplesApart(r: int, s: int, m: int)
    requires m > 0 && r % m == 0 && s % m == 0 && r <= s < r + m
    ensures r == s
  {
    var q := r / m;
    var t := s / m;
    assert r == q * m && s == t * m;
    assert 0 <= (t - q) * m < m;
    MulBound(m, t - q);
  }

  // ---------------------------------------------------------------------------
  // Element size and the GFX10 tile block

  /** `n` is a power of two. */
  predicate IsPow2(n: nat)
    decreases n
  {
    n == 1 || (n >= 2 && n % 2 == 0 && IsPow2(n / 2))
  }

  /** The exponent of a power of two (`log2` of an exact power). */
  function Log2(n: nat): (e: nat)
    requires IsPow2(n)
    ensures Pow2(e) == n
    decreases n
  {
    if n == 1 then 0 else 1 + Log2(n / 2)
  }

  /** 2^e is a power of two. */
  lemma {:induction false} Pow2IsPow2(e: nat)
    ensures IsPow2(Pow2(e))
  {
    if e > 0 {
      Pow2IsPow2(e - 1);
      assert Pow2(e) / 2 == Pow2(e - 1);
    }
  }

  /** `bpp >> 3` on the host: whole bytes per element. */
  function ElementBytes(bpp: u32): u32
  {
    bpp / 8
  }

  /**
   * The element sizes the GFX10 tile-optimal path is defined for: a power
   * of two of at most 2^16 bytes, so that `16 - log2(eb)` does not wrap.
   */
  predicate TileBpp(bpp: u32)
  {
    IsPow2(ElementBytes(bpp)) && Log2(ElementBytes(bpp)) <= 16
  }

  /** The width and height alignment of a 64 KiB tile block. */
  datatype TileAlign = TileAlign(pitchAlign: u32, heightAlign: u32)

  /** The width exponent of a 64 KiB tile block: `(L + 1) / 2` for `L = 16 - log2(eb)`. */
  function TileWidthLog2(bpp: u32): (w: nat)
    requires TileBpp(bpp)
    ensures w <= 8
  {
    (16 - Log2(ElementBytes(bpp)) + 1) / 2
  }

  /** The height exponent: what `L` leaves after the width, never more than the width's. */
  function TileHeightLog2(bpp: u32): (h: nat)
    requires TileBpp(bpp)
    ensures h <= TileWidthLog2(bpp)
    ensures TileWidthLog2(bpp) + h + Log2(ElementBytes(bpp)) == 16
  {
    16 - Log2(ElementBytes(bpp)) - TileWidthLog2(bpp)
  }

  /**
   * `L = 16 - log2(eb)` elements per 64 KiB block, of which the width
   * takes `w = (L + 1) / 2` bits; `1u << w` and `1u << (L - w)`.
   */
  function TileAlignOpt(bpp: u32): (t: TileAlign)
    requires TileBpp(bpp)
    ensures t.pitchAlign == Pow2(TileWidthLog2(bpp)) && t.heightAlign == Pow2(TileHeightLog2(bpp))
    ensures 1 <= t.heightAlign <= t.pitchAlign <= 256
  {
    var log2Width := TileWidthLog2(bpp);
    var log2Height := TileHeightLog2(bpp);
    TileShifts(log2Width, log2Height);
    TileAlign(ShlW(1, log2Width), ShlW(1, log2Height))
  }

  /** For h <= w <= 8: `1 << w` is 2^w, `1 << h` is 2^h, and 1 <= 2^h <= 2^w <= 256. */
  lemma TileShifts(w: nat, h: nat)
    requires h <= w <= 8
    ensures w < 32 && ShlW(1, w) == Pow2(w) && ShlW(1, h) == Pow2(h)
    ensures 1 <= Pow2(h) <= Pow2(w) <= 256
  {
    ShlOne(w);
    ShlOne(h);
    Pow2Monotone(0, h);
    Pow2Monotone(h, w);
    Pow2Monotone(w, 8);
    Pow2Word();
  }

  /**
   * A tile block is at least as wide as it is high, both sides are powers
   * of two, and width x height x element bytes is 2^16.
   */
  lemma TileBlock(bpp: u32)
    requires TileBpp(bpp)
    ensures var t := TileAlignOpt(bpp);
      && t.pitchAlign >= t.heightAlign
      && IsPow2(t.pitchAlign) && IsPow2(t.heightAlign)
      && t.pitchAlign * t.heightAlign * ElementBytes(bpp) == 0x1_0000
  {
    var w, h := TileWidthLog2(bpp), TileHeightLog2(bpp);
    Pow2IsPow2(w);
    Pow2IsPow2(h);
    TileProduct(w, h, Log2(ElementBytes(bpp)));
  }

  /** 2^w 2^h 2^e = 2^16 when w + h + e = 16. */
  lemma TileProduct(w: nat, h: nat, e: nat)
    requires w + h + e == 16
    ensures Pow2(w) * Pow2(h) * Pow2(e) == 0x1_0000
  {
    Pow2Sum(w, h, w + h);
    MulSubst(Pow2(w), Pow2(h), Pow2(e), Pow2(w + h));
    Pow2Product16(w + h, e);
  }

  lemma Pow2Product16(a: nat, b: nat)
    requires a + b == 16
    ensures Pow2(a) * Pow2(b) == 0x1_0000
  {
    Pow2Sum(a, b, 16);
    Pow2Word();
  }

  /** Replacing a product by its value inside a longer product. */
  lemma MulSubst(x: int, y: int, z: int, p: int)
    requires x * y == p
    ensures x * y * z == p * z
  {
  }

  // ---------------------------------------------------------------------------
  // Pitches and heights

  /** The four values `GenHeightAndPitch` leaves in the handler. */
  datatype PlaneLayout = PlaneLayout(pitchY: u32, heightY: u32, pitchCb: u32, heightCb: u32)

  /**
   * GFX9: the luma pitch is Pitch times the bytes per element, the chroma
   * plane has half the pitch and half the height; a tiled image multiplies
   * the pitches by `bits >> 3` and then by 32 instead. `tiled` is
   * "tile-optimal and the descriptor's IsTileOpt is set".
   */
  function Gfx9Layout(bits: u32, xBitCount: u32, height: u32, pitch: u32, tiled: bool): (l: PlaneLayout)
    ensures l.heightY == height && l.heightCb == height / 2
  {
    HalfIsShift(height);
    var pitchHalf := LShr(pitch, 1);
    var heightHalf := LShr(height, 1);
    if tiled then
      PlaneLayout(ShlW(Mul(pitch, bits / 8), 5), height, ShlW(Mul(pitchHalf, bits / 8), 5), heightHalf)
    else
      PlaneLayout(Mul(pitch, xBitCount / 8), height, Mul(pitchHalf, xBitCount / 8), heightHalf)
  }

  /**
   * GFX10: the pitch is the Width aligned to `256 / eb` elements, in bytes;
   * a tiled image aligns widths and heights to the tile block instead. A
   * zero element size is the fatal case of the caller (`DescLayout`).
   */
  function Gfx10Layout(bpp: u32, height: u32, width: u32, tiled: bool): (l: PlaneLayout)
    requires 8 <= bpp && (tiled ==> TileBpp(bpp))
    ensures !tiled ==> l.heightY == height && l.heightCb == height / 2
    ensures tiled ==> var m := Sub(TileAlignOpt(bpp).heightAlign, 1); And(l.heightY, m) == 0 && And(l.heightCb, m) == 0
  {
    HalfIsShift(height);
    var eb := ElementBytes(bpp);
    var pitchAlign := 256 / eb;
    var heightHalf := LShr(height, 1);
    var widthHalf := LShr(width, 1);
    if tiled then
      var t := TileAlignOpt(bpp);
      PlaneLayout(Mul(Power2Align(width, t.pitchAlign), eb), Power2Align(height, t.heightAlign),
                  Mul(Power2Align(widthHalf, t.pitchAlign), eb), Power2Align(heightHalf, t.heightAlign))
    else
      PlaneLayout(Mul(Power2Align(width, pitchAlign), eb), height,
                  Mul(Power2Align(widthHalf, pitchAlign), eb), heightHalf)
  }

  /** Halving by `>> 1`. */
  lemma HalfIsShift(x: u32)
    ensures LShr(x, 1) == x / 2
  {
    ShrIsDiv(x, 1);
  }

  /**
   * The chroma plane has half the luma height (rounded down) in every
   * case except a tiled GFX10 image, where both heights are aligned to the
   * tile block after halving.
   */
  lemma ChromaHeightHalved(bits: u32, xBitCount: u32, bpp: u32, height: u32, pitch: u32, width: u32, tiled: bool)
    requires 8 <= bpp && (tiled ==> TileBpp(bpp))
    ensures Gfx9Layout(bits, xBitCount, height, pitch, tiled).heightY == height
    ensures Gfx9Layout(bits, xBitCount, height, pitch, tiled).heightCb == height / 2
    ensures !tiled ==> Gfx10Layout(bpp, height, width, tiled).heightY == height
    ensures !tiled ==> Gfx10Layout(bpp, height, width, tiled).heightCb == height / 2
    ensures tiled ==> Gfx10Layout(bpp, height, width, tiled).heightCb == Power2Align(height / 2, TileAlignOpt(bpp).heightAlign)
  {
    HalfIsShift(height);
  }

  /** Without overflow, the GFX9 pitches are Pitch (and Pitch / 2) in bytes, times 32 when tiled. */
  lemma Gfx9Pitches(bits: u32, xBitCount: u32, height: u32, pitch: u32, tiled: bool)
    requires pitch * (if tiled then bits / 8 * 32 else xBitCount / 8) < WORD
    ensures var l := Gfx9Layout(bits, xBitCount, height, pitch, tiled);
      && l.pitchY == pitch * (if tiled then bits / 8 * 32 else xBitCount / 8)
      && l.pitchCb == pitch / 2 * (if tiled then bits / 8 * 32 else xBitCount / 8)
  {
    HalfIsShift(pitch);
    var f: u32 := if tiled then bits / 8 else xBitCount / 8;
    var g := if tiled then 32 else 1;
    HalfProduct(pitch, f, g);
    MulNoWrap(pitch, f);
    MulNoWrap(pitch / 2, f);
    if tiled {
      ShlShift5(pitch * f);
      ShlShift5(pitch / 2 * f);
    }
  }

  /** p / 2 * f * g <= p * f * g <= p * (f * g) for naturals. */
  lemma HalfProduct(p: nat, f: nat, g: nat)
    requires g >= 1
    ensures p / 2 * f <= p * f && p * f <= p * f * g && p * f * g == p * (f * g)
    ensures p / 2 * f * g <= p * f * g && p / 2 * f * g == p / 2 * (f * g)
  {
    assert p / 2 <= p;
    assert p * f * g == p * (f * g);
  }

  /** `CreateMul` does not wrap when the product fits. */
  lemma MulNoWrap(x: u32, y: u32)
    requires x * y < WORD
    ensures Mul(x, y) == x * y
  {
    WrapId(x * y);
  }

  /** `x << 5` is 32 x when it fits. */
  lemma ShlShift5(x: u32)
    requires x * 32 < WORD
    ensures ShlW(x, 5) == x * 32
  {
    Pow2Five();
    ShlWIsMul(x, 5);
  }

  /**
   * GFX10 linear layout with element size 2^e <= 256 and widths below 2^24:
   * each pitch is the row size in bytes rounded up to a multiple of 256.
   */
  lemma Gfx10LinearPitch(bpp: u32, height: u32, width: u32)
    requires 8 <= bpp && IsPow2(ElementBytes(bpp)) && Log2(ElementBytes(bpp)) <= 8
    requires width < 0x100_0000
    ensures var l := Gfx10Layout(bpp, height, width, false); var eb := ElementBytes(bpp);
      && l.pitchY % 256 == 0 && width * eb <= l.pitchY < width * eb + 256
      && l.pitchCb % 256 == 0 && width / 2 * eb <= l.pitchCb < width / 2 * eb + 256
  {
    var eb := ElementBytes(bpp);
    var e := Log2(eb);
    LinearPitchAlign(eb, e);
    HalfIsShift(width);
    LinearRowPitch(width, eb, 256 / eb, e);
    LinearRowPitch(width / 2, eb, 256 / eb, e);
  }

  /** A row of `x` elements of `eb` = 2^e bytes, aligned to `a` = 2^(8 - e) elements, is its byte size rounded up to 256. */
  lemma LinearRowPitch(x: u32, eb: u32, a: u32, e: nat)
    requires e <= 8 && x < 0x100_0000 && a == Pow2(8 - e) && eb == Pow2(e)
    ensures var r := Mul(Power2Align(x, a), eb);
      r % 256 == 0 && x * eb <= r < x * eb + 256
  {
    var k := 8 - e;
    assert 0 < a <= 256 by { Pow2Monotone(0, k); Pow2Monotone(k, 8); Pow2Word(); }
    assert 0 < eb <= 256 by { Pow2Monotone(0, e); Pow2Monotone(e, 8); Pow2Word(); }
    Power2AlignRoundsUp(x, k);
    var al := Power2Align(x, a);
    assert a * eb == 256 by { Pow2Sum(k, e, 8); Pow2Word(); }
    ScaleBounds(x, al, a, eb);
    MulNoWrap(al, eb);
  }

  /** For eb = 2^e <= 256, the linear pitch alignment `256 / eb` is 2^(8 - e) elements. */
  lemma LinearPitchAlign(eb: nat, e: nat)
    requires e <= 8 && eb == Pow2(e)
    ensures 256 / eb == Pow2(8 - e)
    ensures 1 <= 256 / eb <= 256
  {
    var q := Pow2(8 - e);
    assert 256 == eb * q by { Pow2Sum(e, 8 - e, 8); Pow2Word(); }
    assert 1 <= q <= 256 by { Pow2Monotone(0, 8 - e); Pow2Monotone(8 - e, 8); Pow2Word(); }
    DivExact(256, eb, q);
  }

  /** An exact quotient. */
  lemma DivExact(a: int, b: int, q: int)
    requires b > 0 && a == b * q
    ensures a / b == q
  {
    DivModUnique(a, b, q, 0);
  }

  /**
   * Scaling a multiple `a` of `m` with x <= a < x + m by `s` gives a
   * multiple of m s with x s <= a s < x s + m s; it fits in 32 bits when
   * x < 2^24 and m, s <= 256.
   */
  lemma ScaleBounds(x: nat, a: nat, m: nat, s: nat)
    requires m > 0 && s > 0 && m * s <= 256 && s <= 256 && x < 0x100_0000
    requires a % m == 0 && x <= a < x + m
    ensures (a * s) % (m * s) == 0
    ensures x * s <= a * s < x * s + m * s
    ensures a * s < WORD
  {
    var q := a / m;
    MulAssoc(q, m, s);
    DivModUnique(a * s, m * s, q, 0);
    MulLess(x, a, s);
    MulLess(a, x + m, s);
    MulDistrib(x, m, s);
    MulLess(x, 0x100_0000, s);
    MulLess(s, 257, 0x100_0000);
  }

  lemma MulAssoc(q: int, m: int, s: int)
    ensures q * m * s == q * (m * s)
  {
  }

  /** Multiplying by a positive number keeps the order. */
  lemma MulLess(a: int, b: int, s: int)
    requires s > 0
    ensures a <= b ==> a * s <= b * s
    ensures a < b ==> a * s < b * s
  {
  }

  lemma MulDistrib(x: int, m: int, s: int)
    ensures (x + m) * s == x * s + m * s
  {
  }

  // ---------------------------------------------------------------------------
  // Plane base addresses

  /** The smaller of two counts. */
  function Min(a: nat, b: nat): nat
  {
    if a < b then a else b
  }

  /** `addr_256B(pitch * height)`: a plane's size in 256-byte units. */
  function PlaneSize256(pitch: u32, height: u32): u32
  {
    LShr(Mul(pitch, height), 8)
  }

  /**
   * `GenBaseAddress(planeNum)` of the lgc handler: appends the descriptor's
   * base address, then each further plane at the previous one plus the
   * previous plane's size. Entries [0] and [1] index the whole list.
   */
  function PlanesAfter(planes: seq<u32>, base: u32, l: PlaneLayout, planeNum: nat): (r: seq<u32>)
    ensures |r| == |planes| + Min(planeNum, 3)
    ensures r[..|planes|] == planes
  {
    if planeNum == 0 then planes
    else
      var p1 := planes + [base];
      if planeNum == 1 then p1
      else
        var p2 := p1 + [Add(p1[0], PlaneSize256(l.pitchY, l.heightY))];
        if planeNum == 2 then p2
        else p2 + [Add(p2[1], PlaneSize256(l.pitchCb, l.heightCb))]
  }

  /**
   * From an empty list: min(planeNum, 3) addresses; the first is the base,
   * and each next one lies `(pitch * height mod 2^32) / 256` further on,
   * all modulo 2^32.
   */
  lemma PlaneAddresses(base: u32, l: PlaneLayout, planeNum: nat)
    ensures var r := PlanesAfter([], base, l, planeNum);
      && |r| == Min(planeNum, 3)
      && (planeNum >= 1 ==> r[0] == base)
      && (planeNum >= 2 ==> r[1] == (base + (l.pitchY * l.heightY) % WORD / 256) % WORD)
      && (planeNum >= 3 ==> r[2] == (r[1] + (l.pitchCb * l.heightCb) % WORD / 256) % WORD)
  {
    Pow2Word();
    ShrIsDiv(Mul(l.pitchY, l.heightY), 8);
    ShrIsDiv(Mul(l.pitchCb, l.heightCb), 8);
  }

  /**
   * `GenBaseAddress(k)` of the templated helper: k = 1 appends the base,
   * k = 2 the second plane after entry [0], k = 3 the third after entry [1];
   * any other k appends nothing.
   */
  function PlaneStep(planes: seq<u32>, base: u32, l: PlaneLayout, k: nat): (r: seq<u32>)
    requires k == 2 ==> |planes| >= 1
    requires k == 3 ==> |planes| >= 2
    ensures |r| == |planes| + (if 1 <= k <= 3 then 1 else 0)
    ensures r[..|planes|] == planes
  {
    if k == 1 then planes + [base]
    else if k == 2 then planes + [Add(planes[0], PlaneSize256(l.pitchY, l.heightY))]
    else if k == 3 then planes + [Add(planes[1], PlaneSize256(l.pitchCb, l.heightCb))]
    else planes
  }

  /** Calling the templated step with 1, 2, ..., n gives what the nested lgc version gives for n. */
  lemma StepsMatchNested(planes: seq<u32>, base: u32, l: PlaneLayout)
    ensures PlaneStep(planes, base, l, 1) == PlanesAfter(planes, base, l, 1)
    ensures PlaneStep(PlaneStep(planes, base, l, 1), base, l, 2) == PlanesAfter(planes, base, l, 2)
    ensures PlaneStep(PlaneStep(PlaneStep(planes, base, l, 1), base, l, 2), base, l, 3) ==
      PlanesAfter(planes, base, l, 3)
  {
    var p1 := planes + [base];
    assert p1[0] == (if |planes| == 0 then base else planes[0]);
  }
}
