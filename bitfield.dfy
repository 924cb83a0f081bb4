// 32-bit unsigned dword arithmetic, as the LLVM builder calls of the source
// compute it: `CreateAdd/Sub/Mul` wrap modulo 2^32, `CreateShl/LShr/And/Or`
// work bit by bit, and `amdgcn_ubfe(x, o, c)` is `(x >> o) & (2^c - 1)`.
//
// A dword is an `int` in [0, 2^32). The bitwise operations are defined one bit
// at a time (least significant bit first), so that their laws are proved by
// induction on bit positions.
module BitField {

  const WORD: nat := 0x1_0000_0000

  type u32 = x: int | 0 <= x < WORD

  function Pow2(n: nat): (p: nat)
    ensures p >= 1
  {
    if n == 0 then 1 else 2 * Pow2(n - 1)
  }

  /** Bit `j` of `x`. */
  predicate Bit(x: nat, j: nat)
  {
    if j == 0 then x % 2 == 1 else Bit(x / 2, j - 1)
  }

  /** The low `n` bits of `x`. */
  function Low(x: nat, n: nat): (r: nat)
    ensures r < Pow2(n)
  {
    if n == 0 then 0 else 2 * Low(x / 2, n - 1) + x % 2
  }

  /** Logical shift right by `o`. */
  function Shr(x: nat, o: nat): nat
  {
    if o == 0 then x else Shr(x / 2, o - 1)
  }

  /** Shift left by `o`, without truncation. */
  function Shl(x: nat, o: nat): nat
  {
    if o == 0 then x else 2 * Shl(x, o - 1)
  }

  /** Bitwise and of the low `n` bits. */
  function AndN(x: nat, y: nat, n: nat): (r: nat)
    ensures r < Pow2(n)
  {
    if n == 0 then 0 else 2 * AndN(x / 2, y / 2, n - 1) + (if x % 2 == 1 && y % 2 == 1 then 1 else 0)
  }

  /** Bitwise or of the low `n` bits. */
  function OrN(x: nat, y: nat, n: nat): (r: nat)
    ensures r < Pow2(n)
  {
    if n == 0 then 0 else 2 * OrN(x / 2, y / 2, n - 1) + (if x % 2 == 1 || y % 2 == 1 then 1 else 0)
  }

  /** Bitwise complement of the low `n` bits. */
  function NotN(x: nat, n: nat): (r: nat)
    ensures r < Pow2(n)
  {
    if n == 0 then 0 else 2 * NotN(x / 2, n - 1) + (1 - x % 2)
  }

  lemma {:induction false} Pow2Add(a: nat, b: nat)
    ensures Pow2(a + b) == Pow2(a) * Pow2(b)
  {
    if a > 0 {
      Pow2Add(a - 1, b);
    }
  }

  lemma Pow2Word()
    ensures Pow2(8) == 256 && Pow2(16) == 0x1_0000 && Pow2(32) == WORD
  {
    assert Pow2(2) == 4;
    assert Pow2(4) == 16 by { Pow2Add(2, 2); }
    assert Pow2(8) == 256 by { Pow2Add(4, 4); }
    assert Pow2(16) == 0x1_0000 by { Pow2Add(8, 8); }
    Pow2Add(16, 16);
  }

  /** The powers the descriptor layouts use. */
  lemma Pow2Fields()
    ensures Pow2(2) == 4 && Pow2(14) == 0x4000 && Pow2(30) == 0x4000_0000
  {
    Pow2Word();
    assert Pow2(14) == 0x4000 by { Pow2Add(8, 6); Pow2Add(4, 2); }
    assert Pow2(30) == 0x4000_0000 by { Pow2Add(16, 14); }
  }

  lemma {:induction false} Pow2Monotone(a: nat, b: nat)
    requires a <= b
    ensures Pow2(a) <= Pow2(b)
  {
    if a < b {
      Pow2Monotone(a, b - 1);
    }
  }

  lemma MulBound(m: int, k: int)
    requires m > 0 && -m < m * k < m
    ensures k == 0
  {
  }

  /** Euclidean division has one quotient and one remainder. */
  lemma DivModUnique(x: int, m: int, q: int, r: int)
    requires m > 0 && x == m * q + r && 0 <= r < m
    ensures x / m == q && x % m == r
  {
    var q0, r0 := x / m, x % m;
    assert m * (q - q0) == r0 - r;
    MulBound(m, q - q0);
  }

  // ---------------------------------------------------------------------------
  // Bits of the primitive operations

  lemma {:induction false} BitZero(j: nat)
    ensures !Bit(0, j)
  {
    if j > 0 {
      BitZero(j - 1);
    }
  }

  lemma {:induction false} BitLow(x: nat, n: nat, j: nat)
    ensures Bit(Low(x, n), j) <==> j < n && Bit(x, j)
  {
    if n > 0 && j > 0 {
      assert Low(x, n) / 2 == Low(x / 2, n - 1);
      BitLow(x / 2, n - 1, j - 1);
    } else if n == 0 {
      BitZero(j);
    }
  }

  lemma {:induction false} BitShr(x: nat, o: nat, j: nat)
    ensures Bit(Shr(x, o), j) <==> Bit(x, o + j)
  {
    if o > 0 {
      BitShr(x / 2, o - 1, j);
    }
  }

  lemma {:induction false} BitShl(x: nat, o: nat, j: nat)
    ensures Bit(Shl(x, o), j) <==> o <= j && Bit(x, j - o)
  {
    if o > 0 && j > 0 {
      assert Shl(x, o) / 2 == Shl(x, o - 1);
      BitShl(x, o - 1, j - 1);
    }
  }

  lemma {:induction false} BitAnd(x: nat, y: nat, n: nat, j: nat)
    ensures Bit(AndN(x, y, n), j) <==> j < n && Bit(x, j) && Bit(y, j)
  {
    if n > 0 && j > 0 {
      assert AndN(x, y, n) / 2 == AndN(x / 2, y / 2, n - 1);
      BitAnd(x / 2, y / 2, n - 1, j - 1);
    } else if n == 0 {
      BitZero(j);
    }
  }

  lemma {:induction false} BitOr(x: nat, y: nat, n: nat, j: nat)
    ensures Bit(OrN(x, y, n), j) <==> j < n && (Bit(x, j) || Bit(y, j))
  {
    if n > 0 && j > 0 {
      assert OrN(x, y, n) / 2 == OrN(x / 2, y / 2, n - 1);
      BitOr(x / 2, y / 2, n - 1, j - 1);
    } else if n == 0 {
      BitZero(j);
    }
  }

  lemma {:induction false} BitNot(x: nat, n: nat, j: nat)
    ensures Bit(NotN(x, n), j) <==> j < n && !Bit(x, j)
  {
    if n > 0 && j > 0 {
      assert NotN(x, n) / 2 == NotN(x / 2, n - 1);
      BitNot(x / 2, n - 1, j - 1);
    } else if n == 0 {
      BitZero(j);
    }
  }

  /** A number below 2^n has no bit at position n or above. */
  lemma {:induction false} BitAbove(x: nat, n: nat, j: nat)
    requires x < Pow2(n) && n <= j
    ensures !Bit(x, j)
  {
    if j > 0 {
      if n > 0 {
        BitAbove(x / 2, n - 1, j - 1);
      } else {
        BitAbove(x / 2, 0, j - 1);
      }
    }
  }

  /** Bit j of 2^c - 1 is set exactly below c. */
  lemma {:induction false} BitOnes(c: nat, j: nat)
    ensures Bit(Pow2(c) - 1, j) <==> j < c
  {
    if c > 0 && j > 0 {
      assert (Pow2(c) - 1) / 2 == Pow2(c - 1) - 1;
      BitOnes(c - 1, j - 1);
    } else if c == 0 {
      BitAbove(0, 0, j);
    }
  }

  /** The only bit of 2^i is bit i. */
  lemma {:induction false} BitPow2(i: nat, j: nat)
    ensures Bit(Pow2(i), j) <==> i == j
  {
    if i > 0 && j > 0 {
      BitPow2(i - 1, j - 1);
    } else if i == 0 && j > 0 {
      BitAbove(0, 0, j - 1);
    }
  }

  /** Two numbers below 2^n with the same low n bits are equal. */
  lemma {:induction false} BitsEqual(x: nat, y: nat, n: nat)
    requires x < Pow2(n) && y < Pow2(n)
    requires forall j | 0 <= j < n :: Bit(x, j) == Bit(y, j)
    ensures x == y
  {
    if n > 0 {
      assert Bit(x, 0) == Bit(y, 0);
      forall j | 0 <= j < n - 1 ensures Bit(x / 2, j) == Bit(y / 2, j) {
        assert Bit(x, j + 1) == Bit(y, j + 1);
      }
      BitsEqual(x / 2, y / 2, n - 1);
    }
  }

  // ---------------------------------------------------------------------------
  // Arithmetic meaning of the bit-level definitions

  lemma {:induction false} LowIsMod(x: nat, n: nat)
    ensures Low(x, n) == x % Pow2(n)
  {
    if n > 0 {
      LowIsMod(x / 2, n - 1);
      HalveDivMod(x, Pow2(n - 1));
    }
  }

  /** Dividing by 2p is halving and then dividing by p; the remainder keeps the halved-off bit. */
  lemma HalveDivMod(x: nat, p: nat)
    requires p >= 1
    ensures x / (2 * p) == (x / 2) / p && x % (2 * p) == 2 * ((x / 2) % p) + x % 2
  {
    var h := x / 2;
    var q, r := h / p, h % p;
    assert h == p * q + r;
    assert x == 2 * h + x % 2;
    assert 2 * (p * q) == (2 * p) * q;
    DivModUnique(x, 2 * p, q, 2 * r + x % 2);
  }

  lemma {:induction false} ShlIsMul(x: nat, o: nat)
    ensures Shl(x, o) == x * Pow2(o)
  {
    if o > 0 {
      ShlIsMul(x, o - 1);
    }
  }

  lemma {:induction false} ShrIsDiv(x: nat, o: nat)
    ensures Shr(x, o) == x / Pow2(o)
  {
    if o > 0 {
      ShrIsDiv(x / 2, o - 1);
      HalveDivMod(x, Pow2(o - 1));
    }
  }

  /** A number is its high part shifted back plus its low part. */
  lemma SplitAt(y: nat, k: nat)
    ensures y == Shl(Shr(y, k), k) + Low(y, k)
  {
    ShlIsMul(Shr(y, k), k);
    ShrIsDiv(y, k);
    LowIsMod(y, k);
  }

  /** A value whose bits all lie below 32 is a dword. */
  lemma Below32(x: nat, n: nat)
    requires n <= 32 && x < Pow2(n)
    ensures x < WORD
  {
    Pow2Monotone(n, 32);
    Pow2Word();
  }

  /** A number with no bit below 32 set is zero. */
  lemma NoBitsIsZero(x: u32)
    requires forall j | 0 <= j < 32 :: !Bit(x, j)
    ensures x == 0
  {
    Pow2Word();
    forall j | 0 <= j < 32 ensures Bit(x, j) == Bit(0, j) {
      BitZero(j);
    }
    BitsEqual(x, 0, 32);
  }

  lemma {:induction false} ShrStep(x: nat, i: nat)
    ensures Shr(x, i + 1) == Shr(x, i) / 2
  {
    if i > 0 {
      ShrStep(x / 2, i - 1);
    }
  }

  // ---------------------------------------------------------------------------
  // Dword operations of the builder

  /** Truncation to 32 bits; also the unsigned meaning of a negative difference. */
  function Wrap(x: int): u32
  {
    x % WORD
  }

  function Add(x: u32, y: u32): u32 { Wrap(x + y) }

  function Sub(x: u32, y: u32): u32 { Wrap(x - y) }

  function Mul(x: u32, y: u32): u32 { Wrap(x * y) }

  /** A value already in [0, m) is its own remainder. */
  lemma ModId(z: int, m: int)
    requires 0 <= z < m
    ensures z % m == z
  {
    DivModUnique(z, m, 0, z);
  }

  /** A value already in [0, 2^32) does not wrap. */
  lemma WrapId(z: int)
    requires 0 <= z < WORD
    ensures Wrap(z) == z
  {
    ModId(z, WORD);
  }

  /** A sum below 2^32 does not wrap. */
  lemma AddNoWrap(x: u32, y: u32)
    requires x + y < WORD
    ensures Add(x, y) == x + y
  {
    WrapId(x + y);
  }

  /** A difference that is not negative does not wrap. */
  lemma SubNoWrap(x: u32, y: u32)
    requires y <= x
    ensures Sub(x, y) == x - y
  {
    WrapId(x - y);
  }

  /** `CreateShl` on i32: bits shifted past bit 31 are lost. */
  function ShlW(x: u32, o: nat): u32
    requires o < 32
  {
    Pow2Word();
    Low(Shl(x, o), 32)
  }

  /** `CreateLShr` on i32. */
  function LShr(x: u32, o: nat): (r: u32)
    ensures r <= x
  {
    ShrIsDiv(x, o);
    Shr(x, o)
  }

  function And(x: u32, y: u32): u32 { Pow2Word(); AndN(x, y, 32) }

  function Or(x: u32, y: u32): u32 { Pow2Word(); OrN(x, y, 32) }

  function Not(x: u32): u32 { Pow2Word(); NotN(x, 32) }

  /** 2^count - 1, the value of `(1 << count) - 1` for count < 32. */
  function Mask(count: nat): u32
    requires count <= 32
  {
    Pow2Monotone(count, 32);
    Pow2Word();
    Pow2(count) - 1
  }

  /** `amdgcn_ubfe(x, offset, count)`: `(x >> offset) & (2^count - 1)`. */
  function Ubfe(x: u32, offset: nat, count: nat): u32
    requires offset + count <= 32
  {
    And(LShr(x, offset), Mask(count))
  }

  /** The mask of `ReplaceBits`: `((1 << count) - 1) << offset`, in 32 bits. */
  function RangeMask(offset: nat, count: nat): u32
    requires offset < 32 && count < 32
  {
    ShlW(Mask(count), offset)
  }

  /**
   * `ReplaceBits(dword, offset, count, newBits)` =
   * `(dword & ~mask) | ((newBits << offset) & mask)`.
   */
  function ReplaceBits(dword: u32, offset: nat, count: nat, newBits: u32): u32
    requires offset < 32 && count < 32
  {
    var mask := RangeMask(offset, count);
    Or(And(dword, Not(mask)), And(ShlW(newBits, offset), mask))
  }

  lemma BitUbfe(x: u32, offset: nat, count: nat, j: nat)
    requires offset + count <= 32
    ensures Bit(Ubfe(x, offset, count), j) <==> j < count && Bit(x, offset + j)
  {
    BitAnd(LShr(x, offset), Mask(count), 32, j);
    BitShr(x, offset, j);
    BitOnes(count, j);
    if count <= j < 32 {
      assert !Bit(Mask(count), j);
    }
  }

  /** `x mod 2^n`, still a dword. */
  function ModPow2(x: u32, n: nat): (r: u32)
    ensures r == x % Pow2(n) && r <= x
  {
    ModBelow(x, Pow2(n));
    x % Pow2(n)
  }

  lemma ModBelow(x: nat, m: nat)
    requires m >= 1
    ensures x % m <= x
  {
    var q := x / m;
    assert x == m * q + x % m;
    assert m * q >= 0;
  }

  /** `ubfe(x, offset, count)` is `(x / 2^offset) mod 2^count`. */
  lemma UbfeIsDivMod(x: u32, offset: nat, count: nat)
    requires offset + count <= 32
    ensures Ubfe(x, offset, count) == (x / Pow2(offset)) % Pow2(count)
  {
    var y := Low(Shr(x, offset), count);
    forall j | 0 <= j < 32 ensures Bit(Ubfe(x, offset, count), j) == Bit(y, j) {
      BitUbfe(x, offset, count, j);
      BitLow(Shr(x, offset), count, j);
      BitShr(x, offset, j);
    }
    Pow2Word();
    Pow2Monotone(count, 32);
    BitsEqual(Ubfe(x, offset, count), y, 32);
    LowIsMod(Shr(x, offset), count);
    ShrIsDiv(x, offset);
  }

  /** `y | x` is `y + x` when all bits of `x` lie below bit `k` and `y` is a multiple of 2^k. */
  lemma {:induction false} OrNDisjoint(y: nat, x: nat, k: nat, n: nat)
    requires x < Pow2(k) && y % Pow2(k) == 0 && x + y < Pow2(n)
    ensures OrN(y, x, n) == y + x
  {
    if n == 0 {
    } else if k == 0 {
      assert x == 0;
      OrNDisjoint(y / 2, 0, 0, n - 1);
    } else {
      var p := Pow2(k - 1);
      var m := y / Pow2(k);
      assert y == (2 * p) * m;
      assert y == 2 * (p * m);
      assert y / 2 == p * m && y % 2 == 0;
      assert (y / 2) % p == 0 by {
        DivModUnique(y / 2, p, m, 0);
      }
      OrNDisjoint(y / 2, x / 2, k - 1, n - 1);
    }
  }

  lemma BitRangeMask(offset: nat, count: nat, j: nat)
    requires offset < 32 && count < 32
    ensures Bit(RangeMask(offset, count), j) <==> j < 32 && offset <= j < offset + count
  {
    BitLow(Shl(Mask(count), offset), 32, j);
    BitShl(Mask(count), offset, j);
    if offset <= j {
      BitOnes(count, j - offset);
    }
  }

  /** `ReplaceBits` takes the range from `newBits` and every other bit from `dword`. */
  lemma BitReplace(dword: u32, offset: nat, count: nat, newBits: u32, j: nat)
    requires offset < 32 && count < 32 && j < 32
    ensures Bit(ReplaceBits(dword, offset, count, newBits), j) <==>
      if offset <= j < offset + count then Bit(newBits, j - offset) else Bit(dword, j)
  {
    var mask := RangeMask(offset, count);
    BitRangeMask(offset, count, j);
    BitNot(mask, 32, j);
    BitAnd(dword, Not(mask), 32, j);
    BitLow(Shl(newBits, offset), 32, j);
    BitShl(newBits, offset, j);
    BitAnd(ShlW(newBits, offset), mask, 32, j);
    BitOr(And(dword, Not(mask)), And(ShlW(newBits, offset), mask), 32, j);
  }

  /** `x & 1` is non-zero exactly when bit 0 of `x` is set. */
  lemma AndOne(x: u32)
    ensures And(x, 1) != 0 <==> Bit(x, 0)
  {
    forall j | 0 <= j < 32 ensures Bit(And(x, 1), j) <==> j == 0 && Bit(x, 0) {
      BitAnd(x, 1, 32, j);
      BitPow2(0, j);
    }
    if !Bit(x, 0) {
      NoBitsIsZero(And(x, 1));
    } else {
      BitZero(0);
    }
  }

  /** `x << o` in 32 bits is x 2^o when that fits. */
  lemma ShlWIsMul(x: u32, o: nat)
    requires o < 32 && x * Pow2(o) < WORD
    ensures ShlW(x, o) == x * Pow2(o)
  {
    var y := x * Pow2(o);
    assert Shl(x, o) == y by { ShlIsMul(x, o); }
    assert Low(y, 32) == y by { LowIsMod(y, 32); Pow2Word(); WrapId(y); }
  }

  /** 2^5 = 32. */
  lemma Pow2Five()
    ensures Pow2(5) == 32
  {
  }

  /** `1 << i`, for a dword index below 32, is 2^i. */
  lemma ShlOne(i: nat)
    requires i < 32
    ensures ShlW(1, i) == Pow2(i)
  {
    var p := Pow2(i);
    assert Shl(1, i) == p by { ShlIsMul(1, i); }
    assert p < WORD by { Pow2Word(); Pow2Monotone(i + 1, 32); }
    assert Low(p, 32) == p by { LowIsMod(p, 32); Pow2Word(); WrapId(p); }
  }

  /** `m | (1 << i)` sets bit i and keeps every other bit of m. */
  lemma BitOrPow2(m: u32, i: nat, j: nat)
    requires i < 32
    ensures Bit(Or(m, ShlW(1, i)), j) <==> j < 32 && (Bit(m, j) || j == i)
  {
    ShlOne(i);
    BitOr(m, ShlW(1, i), 32, j);
    BitPow2(i, j);
  }

  /** `m & (1 << i)` is non-zero exactly when bit i of m is set. */
  lemma AndPow2(m: u32, i: nat)
    requires i < 32
    ensures And(m, ShlW(1, i)) != 0 <==> Bit(m, i)
  {
    ShlOne(i);
    forall j | 0 <= j < 32 ensures Bit(And(m, ShlW(1, i)), j) <==> j == i && Bit(m, i) {
      BitAnd(m, ShlW(1, i), 32, j);
      BitPow2(i, j);
    }
    if !Bit(m, i) {
      NoBitsIsZero(And(m, ShlW(1, i)));
    } else {
      BitZero(i);
    }
  }

  lemma BitMask(count: nat, j: nat)
    requires count <= 32
    ensures Bit(Mask(count), j) <==> j < count
  {
    BitOnes(count, j);
  }

  // ---------------------------------------------------------------------------
  // Bit fields of a register

  /** A bit range inside one dword of a register: `BitsInfo` of the source. */
  datatype BitsInfo = BitsInfo(index: nat, offset: nat, count: nat)

  /** A range that lies inside its 32-bit dword and is not empty. */
  predicate WellFormed(b: BitsInfo)
  {
    0 < b.count && b.offset + b.count <= 32
  }

  /** Two ranges share no bit: different dwords, or non-overlapping intervals. */
  predicate Disjoint(a: BitsInfo, b: BitsInfo)
  {
    a.index != b.index || a.offset + a.count <= b.offset || b.offset + b.count <= a.offset
  }

  /** What `GetBits` reads from the dword a field lives in. */
  function GetField(dword: u32, info: BitsInfo): u32
    requires WellFormed(info)
  {
    if info.count == 32 then dword else Ubfe(dword, info.offset, info.count)
  }

  /** What `SetBits` stores into the dword a field lives in. */
  function SetField(dword: u32, info: BitsInfo, v: u32): u32
    requires WellFormed(info)
  {
    if info.count != 32 then ReplaceBits(dword, info.offset, info.count, v) else v
  }

  /**
   * A field read after a field write returns what was written: the whole
   * value for a 32-bit field, its low `count` bits otherwise.
   */
  lemma GetAfterSet(dword: u32, info: BitsInfo, v: u32)
    requires WellFormed(info)
    ensures GetField(SetField(dword, info, v), info) == if info.count == 32 then v else v % Pow2(info.count)
  {
    if info.count != 32 {
      var r := SetField(dword, info, v);
      var g := Ubfe(r, info.offset, info.count);
      forall j | 0 <= j < 32 ensures Bit(g, j) == Bit(Low(v, info.count), j) {
        BitUbfe(r, info.offset, info.count, j);
        BitLow(v, info.count, j);
        if j < info.count {
          BitReplace(dword, info.offset, info.count, v, info.offset + j);
        }
      }
      Pow2Word();
      BitsEqual(g, Low(v, info.count), 32);
      LowIsMod(v, info.count);
    }
  }

  /** Writing one field leaves every field with a disjoint bit range in the same dword as it was. */
  lemma SetFieldFrame(dword: u32, a: BitsInfo, b: BitsInfo, v: u32)
    requires WellFormed(a) && WellFormed(b) && a.index == b.index && Disjoint(a, b)
    ensures GetField(SetField(dword, a, v), b) == GetField(dword, b)
  {
    // Two disjoint non-empty ranges of one dword are both narrower than 32 bits.
    assert a.count < 32 && b.count < 32;
    var r := ReplaceBits(dword, a.offset, a.count, v);
    forall j | 0 <= j < 32 ensures Bit(Ubfe(r, b.offset, b.count), j) == Bit(Ubfe(dword, b.offset, b.count), j) {
      SetFieldFrameBit(dword, a, b, v, j);
    }
    Pow2Word();
    BitsEqual(Ubfe(r, b.offset, b.count), Ubfe(dword, b.offset, b.count), 32);
  }

  lemma SetFieldFrameBit(dword: u32, a: BitsInfo, b: BitsInfo, v: u32, j: nat)
    requires WellFormed(a) && WellFormed(b) && a.count < 32 && b.count < 32 && Disjoint(a, b) && a.index == b.index
    requires j < 32
    ensures var r := ReplaceBits(dword, a.offset, a.count, v);
      Bit(Ubfe(r, b.offset, b.count), j) == Bit(Ubfe(dword, b.offset, b.count), j)
  {
    var r := ReplaceBits(dword, a.offset, a.count, v);
    BitUbfe(r, b.offset, b.count, j);
    BitUbfe(dword, b.offset, b.count, j);
    if j < b.count {
      BitReplace(dword, a.offset, a.count, v, b.offset + j);
    }
  }

  /** Field read of a whole register, given as its dwords. */
  function FieldOf(d: seq<u32>, info: BitsInfo): u32
    requires WellFormed(info) && info.index < |d|
  {
    GetField(d[info.index], info)
  }

  /** Field write of a whole register: only the field's own dword changes. */
  function StoreField(d: seq<u32>, info: BitsInfo, v: u32): (r: seq<u32>)
    requires WellFormed(info) && info.index < |d|
    ensures |r| == |d|
    ensures forall k | 0 <= k < |d| && k != info.index :: r[k] == d[k]
  {
    d[info.index := SetField(d[info.index], info, v)]
  }

  /** Register-level form of `GetAfterSet`. */
  lemma FieldOfStore(d: seq<u32>, info: BitsInfo, v: u32)
    requires WellFormed(info) && info.index < |d|
    ensures FieldOf(StoreField(d, info, v), info) == if info.count == 32 then v else v % Pow2(info.count)
  {
    GetAfterSet(d[info.index], info, v);
  }

  /** Register-level form of `SetFieldFrame`, for fields in any dword. */
  lemma FieldOfStoreFrame(d: seq<u32>, a: BitsInfo, b: BitsInfo, v: u32)
    requires WellFormed(a) && WellFormed(b) && a.index < |d| && b.index < |d| && Disjoint(a, b)
    ensures FieldOf(StoreField(d, a, v), b) == FieldOf(d, b)
  {
    if a.index == b.index {
      SetFieldFrame(d[a.index], a, b, v);
    }
  }

  /** Three writes to pairwise disjoint fields: each field reads back its own value. */
  lemma ThreeStores(d: seq<u32>, a: BitsInfo, b: BitsInfo, c: BitsInfo, va: u32, vb: u32, vc: u32)
    requires WellFormed(a) && WellFormed(b) && WellFormed(c)
    requires a.index < |d| && b.index < |d| && c.index < |d|
    requires Disjoint(a, b) && Disjoint(a, c) && Disjoint(b, c)
    ensures var r := StoreField(StoreField(StoreField(d, a, va), b, vb), c, vc);
      && FieldOf(r, a) == (if a.count == 32 then va else va % Pow2(a.count))
      && FieldOf(r, b) == (if b.count == 32 then vb else vb % Pow2(b.count))
      && FieldOf(r, c) == (if c.count == 32 then vc else vc % Pow2(c.count))
  {
    var d0 := StoreField(d, a, va);
    var d1 := StoreField(d0, b, vb);
    FieldOfStore(d, a, va);
    FieldOfStoreFrame(d0, b, a, vb);
    FieldOfStoreFrame(d1, c, a, vc);
    FieldOfStore(d0, b, vb);
    FieldOfStoreFrame(d1, c, b, vc);
    FieldOfStore(d1, c, vc);
  }

  /**
   * Writing 0b0101 (or 0) to the four bits at `o` is writing 1 (or 0) to
   * the two bits at `o` and then to the two bits at `o + 2` (two adjacent
   * two-bit fields set to the same value in one step).
   */
  lemma ReplaceTwoPairs(x: u32, o: nat, f: u32, raw: u32)
    requires o <= 28 && ((f == 0 && raw == 0) || (f == 1 && raw == 5))
    ensures ReplaceBits(x, o, 4, raw) == ReplaceBits(ReplaceBits(x, o, 2, f), o + 2, 2, f)
  {
    var a := ReplaceBits(x, o, 4, raw);
    var b := ReplaceBits(ReplaceBits(x, o, 2, f), o + 2, 2, f);
    forall j | 0 <= j < 32 ensures Bit(a, j) == Bit(b, j) {
      ReplaceTwoPairsBit(x, o, f, raw, j);
    }
    Pow2Word();
    BitsEqual(a, b, 32);
  }

  /** One bit of `ReplaceTwoPairs`. */
  lemma ReplaceTwoPairsBit(x: u32, o: nat, f: u32, raw: u32, j: nat)
    requires o <= 28 && ((f == 0 && raw == 0) || (f == 1 && raw == 5))
    requires j < 32
    ensures Bit(ReplaceBits(x, o, 4, raw), j) == Bit(ReplaceBits(ReplaceBits(x, o, 2, f), o + 2, 2, f), j)
  {
    var mag := ReplaceBits(x, o, 2, f);
    BitReplace(x, o, 4, raw, j);
    BitReplace(mag, o + 2, 2, f, j);
    BitReplace(x, o, 2, f, j);
    if o <= j < o + 4 {
      SmallBits(f, j - o);
      SmallBits(f, j - o - 2);
    }
  }

  /** Bits of 0 and 1, and of 0 and 0b0101. */
  lemma SmallBits(f: u32, k: int)
    requires f <= 1
    ensures 0 <= k < 4 ==> (Bit(if f == 0 then 0 else 5, k) <==> (k == 0 || k == 2) && f == 1)
    ensures 0 <= k < 2 ==> (Bit(f, k) <==> k == 0 && f == 1)
  {
    if 0 <= k < 4 {
      assert Bit(5, 0) && !Bit(5, 1) && Bit(5, 2) && !Bit(5, 3);
      assert !Bit(0, 0) && !Bit(0, 1) && !Bit(0, 2) && !Bit(0, 3);
      assert Bit(1, 0) && !Bit(1, 1);
    }
  }

  /** Zero in the value - 1 encoding of an n-bit field reads back as 2^n. */
  lemma ZeroWrapsToTop(n: nat)
    requires 0 < n < 32
    ensures Add(ModPow2(Sub(0, 1), n), 1) == Pow2(n)
  {
    TopResiduePow2(n);
    assert Sub(0, 1) == WORD - 1 by { DivModUnique(-1, WORD, -1, WORD - 1); }
  }

  lemma TopResiduePow2(n: nat)
    requires 0 < n < 32
    ensures (WORD - 1) % Pow2(n) == Pow2(n) - 1 && Pow2(n) < WORD && Add(Pow2(n) - 1, 1) == Pow2(n)
  {
    Pow2Split(n);
    Pow2Monotone(1, 32 - n);
    TopResidue(Pow2(n), Pow2(32 - n));
  }

  lemma Pow2Split(n: nat)
    requires n <= 32
    ensures Pow2(n) * Pow2(32 - n) == WORD
  {
    Pow2Sum(n, 32 - n, 32);
    Pow2Word();
  }

  /** `Pow2Add` for a sum already named. */
  lemma Pow2Sum(a: nat, b: nat, n: nat)
    requires a + b == n
    ensures Pow2(a) * Pow2(b) == Pow2(n)
  {
    Pow2Add(a, b);
  }

  /** For m dividing 2^32 with cofactor k >= 2: (2^32 - 1) mod m = m - 1, and (m - 1) + 1 does not wrap. */
  lemma TopResidue(m: nat, k: nat)
    requires 1 <= m && 2 <= k && m * k == WORD
    ensures (WORD - 1) % m == m - 1 && m < WORD && Add(m - 1, 1) == m
  {
    assert m * (k - 1) == WORD - m;
    DivModUnique(WORD - 1, m, k - 1, m - 1);
    WrapId(m);
  }
}
