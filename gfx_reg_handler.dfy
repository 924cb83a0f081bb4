// The descriptor bit-field view `GfxIpRegHandlerBase`
// (llpc/util/llpcGfxRegHandler.h, llpc/util/llpcGfxRegHandler.cpp).
//
// The view binds a register value of n dwords and keeps one slot per dword.
// A slot is `None` until the dword is read or written for the first time; a
// written slot is flagged in the dirty bitmask until `GetRegister` inserts it
// back into the register value.
module GfxRegHandler {
  import opened BitField
  import opened Outcomes

  /**
   * What the slot vector looks like after `SetRegister` as the source writes
   * it: the vector branch clears the old slots, the scalar branch does not.
   */
  function SlotsAfterSetRegisterAsWritten(oldSlots: seq<Option<u32>>, laneCount: nat, isVector: bool): seq<Option<u32>>
  {
    if isVector then seq(laneCount, _ => None) else oldSlots + [None]
  }

  /**
   * Re-binding a view to a scalar register keeps the slot cached from the
   * previous binding at index 0, so `GetDWord(0)` would return the old dword.
   */
  lemma ScalarRebindKeepsStaleSlot()
    ensures var slots := SlotsAfterSetRegisterAsWritten([Some(1)], 1, false);
      |slots| == 2 && slots[0] == Some(1)
  {
  }

  /** Each known slot, or the bound lane where the slot is unknown. */
  function Merge(slots: seq<Option<u32>>, lanes: seq<u32>): (c: seq<u32>)
    requires |slots| == |lanes|
    ensures |c| == |slots|
    ensures forall i | 0 <= i < |slots| :: c[i] == if slots[i].Some? then slots[i].value else lanes[i]
  {
    seq(|slots|, i requires 0 <= i < |slots| => if slots[i].Some? then slots[i].value else lanes[i])
  }

  class GfxIpRegHandlerBase {
    /** `m_pRegister`: the bound value, not yet reflecting the dirty dwords. */
    var register: seq<u32>
    /** `m_pDWords`: one slot per dword, `None` until requested or updated. */
    var dwords: seq<Option<u32>>
    /** `m_dirtyDWords`: bit i is set when slot i was written after the last write-back. */
    var dirtyDWords: u32

    ghost predicate Valid()
      reads this
    {
      && 1 <= |register| <= 32
      && |dwords| == |register|
      && (forall i | |dwords| <= i < 32 :: !Bit(dirtyDWords, i))
      && (forall i | 0 <= i < |dwords| && Bit(dirtyDWords, i) :: dwords[i].Some?)
      && (forall i | 0 <= i < |dwords| && !Bit(dirtyDWords, i) && dwords[i].Some? :: dwords[i].value == register[i])
    }

    /** The register value the view stands for: each slot, or the bound lane where the slot is unknown. */
    ghost function Contents(): (c: seq<u32>)
      reads this
      requires Valid()
      ensures |c| == |dwords|
    {
      Merge(dwords, register)
    }

    /** The dword indices the dirty mask marks. */
    ghost function DirtyIndices(): set<nat>
      reads this
      requires Valid()
    {
      set i | 0 <= i < |dwords| && Bit(dirtyDWords, i)
    }

    /** The constructor binds through `SetRegister`. */
    constructor (newRegister: seq<u32>, isVector: bool)
      requires 1 <= |newRegister| <= 32 && (!isVector ==> |newRegister| == 1)
      ensures Valid()
      ensures register == newRegister && dwords == seq(|newRegister|, _ => None) && dirtyDWords == 0
      ensures Contents() == newRegister && DirtyIndices() == {}
    {
      register, dwords, dirtyDWords := newRegister, [], 0;
      new;
      SetRegister(newRegister, isVector);
    }

    /**
     * Binds a new register value: one unknown slot per lane (one for a scalar
     * i32) and a clean mask. Both branches start from an empty slot vector.
     */
    method SetRegister(newRegister: seq<u32>, isVector: bool)
      requires 1 <= |newRegister| <= 32 && (!isVector ==> |newRegister| == 1)
      modifies this
      ensures Valid()
      ensures register == newRegister && dwords == seq(|newRegister|, _ => None) && dirtyDWords == 0
      ensures Contents() == newRegister && DirtyIndices() == {}
    {
      dwords := [];
      if isVector {
        var i := 0;
        while i < |newRegister|
          invariant i <= |newRegister|
          invariant dwords == seq(i, _ => None)
        {
          dwords := dwords + [None];
          i := i + 1;
        }
      } else {
        dwords := dwords + [None];
      }
      register := newRegister;
      dirtyDWords := 0;
      forall i | 0 <= i < 32 ensures !Bit(dirtyDWords, i) {
        BitZero(i);
      }
    }

    /**
     * Inserts every dirty slot into the register value at its own index,
     * leaves the clean lanes untouched and clears the mask.
     */
    method GetRegister() returns (r: seq<u32>)
      requires Valid()
      modifies this
      ensures Valid()
      ensures r == old(Contents()) && register == r
      ensures dwords == old(dwords) && dirtyDWords == 0
      ensures Contents() == old(Contents()) && DirtyIndices() == {}
      ensures forall k | 0 <= k < |r| && k !in old(DirtyIndices()) :: r[k] == old(register[k])
      ensures old(dirtyDWords) == 0 ==> r == old(register)
    {
      ghost var c := Contents();
      var dirtyMask := dirtyDWords;
      var i: nat := 0;
      while dirtyMask > 0
        invariant i <= |dwords|
        invariant dirtyMask == Shr(dirtyDWords, i)
        invariant |register| == |dwords| && dwords == old(dwords) && dirtyDWords == old(dirtyDWords)
        invariant forall k | 0 <= k < |register| ::
          register[k] == if k < i && Bit(dirtyDWords, k) then dwords[k].value else old(register[k])
        decreases |dwords| - i
      {
        if i == |dwords| {
          forall j | 0 <= j < 32 ensures !Bit(dirtyMask, j) {
            BitShr(dirtyDWords, i, j);
            if i + j < 32 {
            } else {
              Pow2Word();
              BitAbove(dirtyDWords, 32, i + j);
            }
          }
          NoBitsIsZero(dirtyMask);
        }
        AndOne(dirtyMask);
        BitShr(dirtyDWords, i, 0);
        if And(dirtyMask, 1) != 0 {
          register := register[i := dwords[i].value];
        }
        ShrStep(dirtyDWords, i);
        ShrStep(dirtyMask, 0);
        dirtyMask := LShr(dirtyMask, 1);
        i := i + 1;
      }
      forall k | i <= k < |dwords| ensures !Bit(dirtyDWords, k) {
        BitShr(dirtyDWords, i, k - i);
        BitZero(k - i);
      }
      dirtyDWords := 0;
      forall j | 0 <= j < 32 ensures !Bit(dirtyDWords, j) {
        BitZero(j);
      }
      r := register;
    }

    /** `GetDWordsCount`: the number of slots, which is the number of bound lanes. */
    function GetDWordsCount(): (n: nat)
      reads this
      requires Valid()
      ensures n == |Contents()| && n == |register|
    {
      |dwords|
    }

    /** Fills slot `index` from lane `index` of the bound register if it is still unknown. */
    method ExtractDWordIfNecessary(index: nat)
      requires Valid() && index < |dwords|
      modifies this
      ensures Valid()
      ensures register == old(register) && dirtyDWords == old(dirtyDWords)
      ensures dwords == old(dwords)[index := if old(dwords[index]).None? then Some(register[index]) else old(dwords[index])]
      ensures Contents() == old(Contents())
    {
      if dwords[index].None? {
        dwords := dwords[index := Some(register[index])];
      }
    }

    /** The current dword `index`: the last value set there, else lane `index` of the register. */
    method GetDWord(index: nat) returns (v: u32)
      requires Valid() && index < |dwords|
      modifies this
      ensures Valid()
      ensures v == old(Contents())[index]
      ensures v == if old(dwords[index]).Some? then old(dwords[index]).value else old(register[index])
      ensures register == old(register) && dirtyDWords == old(dirtyDWords)
      ensures Contents() == old(Contents())
    {
      ExtractDWordIfNecessary(index);
      v := dwords[index].value;
    }

    /** Stores `v` in slot `index` and sets dirty bit `index` only. */
    method SetDWord(index: nat, v: u32)
      requires Valid() && index < |dwords|
      modifies this
      ensures Valid()
      ensures dwords == old(dwords)[index := Some(v)] && register == old(register)
      ensures dirtyDWords == Or(old(dirtyDWords), ShlW(1, index))
      ensures Contents() == old(Contents())[index := v]
      ensures DirtyIndices() == old(DirtyIndices()) + {index}
    {
      ghost var oldDirty := dirtyDWords;
      dwords := dwords[index := Some(v)];
      dirtyDWords := Or(dirtyDWords, ShlW(1, index));
      forall j | 0 <= j < 32 ensures Bit(dirtyDWords, j) <==> Bit(oldDirty, j) || j == index {
        BitOrPow2(oldDirty, index, j);
      }
    }

    /** `IsDWordModified`: bit `index` of the dirty mask. */
    function IsDWordModified(index: nat): (b: bool)
      reads this
      requires Valid() && index < |dwords|
      ensures b <==> index in DirtyIndices()
    {
      AndPow2(dirtyDWords, index);
      And(dirtyDWords, ShlW(1, index)) != 0
    }

    /** `GetBits`: the field `info` of the current register value. */
    method GetBits(info: BitsInfo) returns (v: u32)
      requires Valid() && WellFormed(info) && info.index < |dwords|
      modifies this
      ensures Valid()
      ensures v == FieldOf(old(Contents()), info)
      ensures register == old(register) && dirtyDWords == old(dirtyDWords)
      ensures Contents() == old(Contents())
    {
      if info.count == 32 {
        v := GetDWord(info.index);
        return;
      }
      ExtractDWordIfNecessary(info.index);
      v := Ubfe(dwords[info.index].value, info.offset, info.count);
    }

    /** `SetBits`: writes field `info` and marks only dword `info.index` dirty. */
    method SetBits(info: BitsInfo, v: u32)
      requires Valid() && WellFormed(info) && info.index < |dwords|
      modifies this
      ensures Valid()
      ensures register == old(register)
      ensures Contents() == StoreField(old(Contents()), info, v)
      ensures DirtyIndices() == old(DirtyIndices()) + {info.index}
    {
      ExtractDWordIfNecessary(info.index);
      if info.count != 32 {
        var newDWord := ReplaceBits(dwords[info.index].value, info.offset, info.count, v);
        SetDWord(info.index, newDWord);
      } else {
        SetDWord(info.index, v);
      }
    }
  }
}
