// Word-count bookkeeping of SPIR-V instructions in the translator.
//
// Section 2.3 of the SPIR-V specification ("Physical Layout of a SPIR-V
// Module and Instruction") gives every instruction a first word whose high
// half is its word count: the opcode word itself, then the result type and
// the result id when the instruction has them, then its operand words. The
// translator keeps that count in `WordCount` (a `SPIRVWord`, 32 bits) beside
// the operand vectors (`Ops`, `Pairs`, `BranchWeights`) and keeps the two in
// step when either is set.
module SpirvInstruction {
  import opened BitField
  import opened Outcomes

  /** `~0U`, the "no literal" default of the template's literal indices. */
  const NoLiteral: u32 := 0xFFFF_FFFF

  /** `MemoryAccessAlignedMask`: bit 1 of a memory-access mask (section 3.26 of the SPIR-V specification). */
  const AlignedMask: u32 := 2

  /** The one word a result id or a result type takes, when present. */
  function Words(present: bool): nat
  {
    if present then 1 else 0
  }

  /** `std::vector::resize(n)`: the first `n` words kept, new words zero. */
  function Resized(s: seq<u32>, n: nat): (r: seq<u32>)
    ensures |r| == n
    ensures forall i | 0 <= i < n :: r[i] == if i < |s| then s[i] else 0
  {
    if n <= |s| then s[..n] else s + seq(n - |s|, _ => 0)
  }

  // ---------------------------------------------------------------------------
  // `SPIRVInstTemplateBase`

  /** The word count `setOpWords` computes for `n` operand words, truncated to a `SPIRVWord`. */
  function WordCountFor(n: nat, hasId: bool, hasType: bool): (wc: u32)
    ensures n + 1 + Words(hasId) + Words(hasType) < WORD ==> wc == n + 1 + Words(hasId) + Words(hasType)
    ensures wc % WORD == (n + 1 + Words(hasId) + Words(hasType)) % WORD
  {
    WrapId(Wrap(n + 1 + Words(hasId) + Words(hasType)));
    Wrap(n + 1 + Words(hasId) + Words(hasType))
  }

  /** The operand words a word count leaves, in `SPIRVWord` arithmetic (`setWordCount`). */
  function OperandWords(wc: u32, hasId: bool, hasType: bool): (n: u32)
    ensures 1 + Words(hasId) + Words(hasType) <= wc ==> n + 1 + Words(hasId) + Words(hasType) == wc
    ensures wc < 1 + Words(hasId) + Words(hasType) ==> n >= WORD - 3
  {
    Wrap(wc - 1 - Words(hasId) - Words(hasType))
  }

  /**
   * `getExpectedNumOperands`: the word count less the opcode word, the id
   * and the type; a word count of 0 (not initialised) fails the assert.
   */
  function ExpectedNumOperands(wc: u32, hasId: bool, hasType: bool): (r: Outcome<u32>)
    ensures r.AssertFails? <==> wc == 0
    ensures r.Value? || r.AssertFails?
    ensures r.Value? && 1 + Words(hasId) + Words(hasType) <= wc ==>
      r.value + 1 + Words(hasId) + Words(hasType) == wc
  {
    if wc == 0 then AssertFails else Value(OperandWords(wc, hasId, hasType))
  }

  /** The expected operand count of the word count of `n` operands is `n`, unless the count wraps. */
  lemma OperandsRoundTrip(n: nat, hasId: bool, hasType: bool)
    requires n + 1 + Words(hasId) + Words(hasType) < WORD
    ensures WordCountFor(n, hasId, hasType) != 0
    ensures ExpectedNumOperands(WordCountFor(n, hasId, hasType), hasId, hasType) == Value(n)
  {
  }

  /** Conversely a word count that covers the opcode, id and type words is the count of its operands. */
  lemma WordCountRoundTrip(wc: u32, hasId: bool, hasType: bool)
    requires 1 + Words(hasId) + Words(hasType) <= wc
    ensures WordCountFor(OperandWords(wc, hasId, hasType), hasId, hasType) == wc
  {
  }

  /** `setOpWords` then `setWordCount(WordCount)` gives back the same operand words. */
  lemma SetWordCountKeepsOps(ops: seq<u32>, hasId: bool, hasType: bool)
    requires |ops| + 1 + Words(hasId) + Words(hasType) < WORD
    ensures Resized(ops, OperandWords(WordCountFor(|ops|, hasId, hasType), hasId, hasType)) == ops
  {
    var n := OperandWords(WordCountFor(|ops|, hasId, hasType), hasId, hasType);
    assert n == |ops|;
    assert ops[..|ops|] == ops;
  }

  /** The literal indices `initImpl` records: the three template arguments other than `~0U`. */
  function LiteralsOf(lit1: u32, lit2: u32, lit3: u32): (s: set<u32>)
    ensures forall i: u32 :: i in s <==> (i == lit1 || i == lit2 || i == lit3) && i != NoLiteral
  {
    {lit1, lit2, lit3} - {NoLiteral}
  }

  class InstTemplate {
    /** `WordCount`; 0 until the instruction's word count is known. */
    var wordCount: u32
    /** `hasId()`: the instruction has a result id word. */
    var hasId: bool
    /** `hasType()`: the instruction has a result type word. */
    var hasType: bool
    /** `HasVariWC`: the word count may grow past the fixed one. */
    var hasVariWC: bool
    /** `Ops`. */
    var ops: seq<u32>
    /** `Lit`, the indices of the literal operands. */
    var lit: set<u32>

    /** `isOperandLiteral(I)`. */
    predicate IsOperandLiteral(i: u32)
      reads this
    {
      i in lit
    }

    /**
     * `SPIRVInstTemplate<…, HasId, WC, HasVariableWC, Literal1, Literal2,
     * Literal3>` through `initImpl`: an instruction without an id has no
     * type either, a word count of 0 stays unset, and `~0U` adds no literal.
     */
    constructor (hasId: bool, wc: u32, variWC: bool, lit1: u32, lit2: u32, lit3: u32)
      ensures this.hasId == hasId && hasType == hasId && wordCount == wc && hasVariWC == variWC && ops == []
      ensures forall i: u32 :: IsOperandLiteral(i) <==> i in LiteralsOf(lit1, lit2, lit3)
    {
      this.hasId := hasId;
      hasType := hasId;
      wordCount := wc;
      hasVariWC := variWC;
      ops := [];
      lit := {};
      new;
      AddLit(lit1);
      AddLit(lit2);
      AddLit(lit3);
    }

    /** `addLit(L)`: records literal index `L`, except the `~0U` sentinel. */
    method AddLit(l: u32)
      modifies this
      ensures unchanged(this`wordCount, this`hasId, this`hasType, this`hasVariWC, this`ops)
      ensures forall i: u32 :: IsOperandLiteral(i) <==> old(IsOperandLiteral(i)) || (i == l && l != NoLiteral)
    {
      if l != NoLiteral {
        lit := lit + {l};
      }
    }

    /**
     * `setOpWords(TheOps)`: the operands and the word count they need. An
     * instruction whose word count is set keeps it when it matches; it may
     * only grow, and only for a variable word count, otherwise the assert
     * fails.
     */
    method SetOpWords(theOps: seq<u32>) returns (failed: bool)
      modifies this
      ensures unchanged(this`hasId, this`hasType, this`hasVariWC, this`lit)
      ensures var wc := WordCountFor(|theOps|, hasId, hasType);
        failed <==> old(wordCount) != 0 && old(wordCount) != wc && !(hasVariWC && wc >= old(wordCount))
      ensures failed ==> unchanged(this)
      ensures !failed ==> wordCount == WordCountFor(|theOps|, hasId, hasType) && ops == theOps
      ensures !failed && old(wordCount) != 0 ==> old(wordCount) <= wordCount
      ensures !failed && old(wordCount) != 0 && !hasVariWC ==> wordCount == old(wordCount)
      ensures !failed && |theOps| + 3 < WORD ==> ExpectedNumOperands(wordCount, hasId, hasType) == Value(|ops|)
    {
      var wc := WordCountFor(|theOps|, hasId, hasType);
      if wordCount != 0 && wordCount != wc && !(hasVariWC && wc >= wordCount) {
        return true;
      }
      failed := false;
      wordCount := wc;
      ops := theOps;
      if |theOps| + 3 < WORD {
        OperandsRoundTrip(|theOps|, hasId, hasType);
      }
    }

    /** `setWordCount(TheWordCount)`: the word count, and `Ops` resized to the operand words it leaves. */
    method SetWordCount(theWordCount: u32)
      modifies this
      ensures unchanged(this`hasId, this`hasType, this`hasVariWC, this`lit)
      ensures wordCount == theWordCount
      ensures ops == Resized(old(ops), OperandWords(theWordCount, hasId, hasType))
      ensures theWordCount != 0 ==> ExpectedNumOperands(wordCount, hasId, hasType) == Value(|ops|)
    {
      wordCount := theWordCount;
      ops := Resized(ops, OperandWords(theWordCount, hasId, hasType));
    }
  }

  // ---------------------------------------------------------------------------
  // `SPIRVMemoryAccess`

  /** The mask word names an alignment operand. */
  predicate Aligned(mask: u32)
  {
    And(mask, AlignedMask) != 0
  }

  class MemoryAccess {
    /** `TheMemoryAccessMask`. */
    var mask: u32
    /** `Alignment`. */
    var alignment: u32

    constructor ()
      ensures mask == 0 && alignment == 0
    {
      mask, alignment := 0, 0;
    }

    /**
     * `memoryAccessUpdate(MemoryAccess)`: no operands change nothing; one or
     * two set the mask, and the second is the alignment when the mask has
     * the Aligned bit, which in turn needs the second word. The size assert
     * comes before any write, the alignment assert after the mask write.
     */
    method Update(ma: seq<u32>) returns (failed: bool)
      modifies this
      ensures failed <==> |ma| > 2 || (|ma| == 1 && Aligned(ma[0]))
      ensures ma == [] || |ma| > 2 ==> unchanged(this)
      ensures 1 <= |ma| <= 2 ==> mask == ma[0]
      ensures 1 <= |ma| <= 2 ==> alignment == if |ma| == 2 && Aligned(ma[0]) then ma[1] else old(alignment)
    {
      failed := false;
      if |ma| == 0 {
        return;
      }
      if |ma| > 2 {
        return true;
      }
      mask := ma[0];
      if Aligned(ma[0]) {
        if |ma| != 2 {
          return true;
        }
        alignment := ma[1];
      }
    }
  }

  /** `SPIRVMemoryAccess(TheMemoryAccess)`: a zero mask and alignment, then `memoryAccessUpdate`. */
  method NewMemoryAccess(ma: seq<u32>) returns (r: Outcome<MemoryAccess>)
    ensures r.Value? || r.AssertFails?
    ensures r.AssertFails? <==> |ma| > 2 || (|ma| == 1 && Aligned(ma[0]))
    ensures r.Value? ==> fresh(r.value)
    ensures r.Value? ==> r.value.mask == (if ma == [] then 0 else ma[0])
    ensures r.Value? ==> r.value.alignment == (if |ma| == 2 && Aligned(ma[0]) then ma[1] else 0)
  {
    var m := new MemoryAccess();
    var failed := m.Update(ma);
    if failed {
      return AssertFails;
    }
    return Value(m);
  }

  // ---------------------------------------------------------------------------
  // `SPIRVSwitch`

  /** `OpSwitch`'s `FixedWordCount`: opcode, selector and default label. */
  const SwitchFixedWords: nat := 3

  /**
   * `getLiteralsCount`: the literal words of one case, one for a selector
   * narrower than a word and `width / 32` otherwise; they cover the
   * selector exactly when its width is a whole number of words.
   */
  function LiteralsCount(selectorBits: nat): (k: nat)
    ensures k >= 1
    ensures selectorBits >= 32 ==> k * 32 <= selectorBits < (k + 1) * 32
    ensures selectorBits % 32 == 0 && selectorBits > 0 ==> k * 32 == selectorBits
    ensures selectorBits <= 32 ==> k == 1
  {
    if selectorBits < 32 then 1 else selectorBits / 32
  }

  /** A case of `OpSwitch`: its literal words and its target label id. */
  datatype Case = Case(literals: seq<u32>, target: u32)

  /** Every case has `k` literal words. */
  predicate Uniform(cases: seq<Case>, k: nat)
  {
    forall i | 0 <= i < |cases| :: |cases[i].literals| == k
  }

  /** The pair words the constructor appends: each case's literals and then its label. */
  function Flatten(cases: seq<Case>): (ws: seq<u32>)
    ensures |ws| >= |cases|
    decreases |cases|
  {
    if cases == [] then []
    else Flatten(cases[..|cases| - 1]) + cases[|cases| - 1].literals + [cases[|cases| - 1].target]
  }

  /** With `k` literals per case, the pair words are `k + 1` per case. */
  lemma {:induction false} FlattenLength(cases: seq<Case>, k: nat)
    requires Uniform(cases, k)
    ensures |Flatten(cases)| == |cases| * (k + 1)
    decreases |cases|
  {
    if cases != [] {
      var n := |cases| - 1;
      assert Uniform(cases[..n], k);
      FlattenLength(cases[..n], k);
      assert |cases[n].literals| == k;
    }
  }

  /** Case `i` as `foreachPair` reads it from the pair words, with `k` literals per case. */
  function CaseAt(pairs: seq<u32>, k: nat, i: nat): (c: Case)
    requires (i + 1) * (k + 1) <= |pairs|
    ensures |c.literals| == k
  {
    Case(pairs[i * (k + 1) .. i * (k + 1) + k], pairs[i * (k + 1) + k])
  }

  /** Reading the flattened cases back, case by case, gives the cases. */
  lemma {:induction false} FlattenRoundTrip(cases: seq<Case>, k: nat, i: nat)
    requires Uniform(cases, k) && i < |cases|
    ensures (i + 1) * (k + 1) <= |Flatten(cases)|
    ensures CaseAt(Flatten(cases), k, i) == cases[i]
    decreases |cases|
  {
    var n := |cases| - 1;
    var front := cases[..n];
    assert Uniform(front, k);
    FlattenLength(front, k);
    var last := cases[n].literals + [cases[n].target];
    assert Flatten(cases) == Flatten(front) + last;
    if i < n {
      FlattenRoundTrip(front, k, i);
      CaseAtPrefix(Flatten(front), last, k, i);
    } else {
      CaseAtEnd(Flatten(front), cases[n], k, i);
    }
  }

  /** A case that lies within `f` reads the same after more words are appended. */
  lemma CaseAtPrefix(f: seq<u32>, g: seq<u32>, k: nat, i: nat)
    requires (i + 1) * (k + 1) <= |f|
    ensures CaseAt(f + g, k, i) == CaseAt(f, k, i)
  {
    var b := i * (k + 1);
    assert b + k < |f|;
    assert (f + g)[b .. b + k] == f[b .. b + k];
  }

  /** The case appended right after `i` whole cases reads back as case `i`. */
  lemma CaseAtEnd(f: seq<u32>, c: Case, k: nat, i: nat)
    requires |f| == i * (k + 1) && |c.literals| == k
    ensures (i + 1) * (k + 1) <= |f + c.literals + [c.target]|
    ensures CaseAt(f + c.literals + [c.target], k, i) == c
  {
    var ws := f + c.literals + [c.target];
    assert ws[|f| .. |f| + k] == c.literals;
  }

  class Switch {
    /** `WordCount`. */
    var wordCount: u32
    /** The bit width of the selector's type (`getSelect()->getType()->getBitWidth()`). */
    const selectorBits: nat
    /** `Select`, `Default`: the selector and default label ids. */
    const select: u32
    const default: u32
    /** `Pairs`: each case's literal words followed by its label id. */
    var pairs: seq<u32>

    /** `getPairSize`. */
    function PairSize(): (p: nat)
      reads this
      ensures p == LiteralsCount(selectorBits) + 1 && p >= 2
    {
      LiteralsCount(selectorBits) + 1
    }

    /** `getNumPairs`. */
    function NumPairs(): (n: nat)
      reads this
      ensures n * PairSize() <= |pairs| < (n + 1) * PairSize()
    {
      |pairs| / PairSize()
    }

    /** `validate`'s size checks: the word count covers the pair words, a whole number of cases. */
    predicate Valid()
      reads this
    {
      wordCount == |pairs| + SwitchFixedWords && |pairs| % PairSize() == 0
    }

    constructor Raw(wc: u32, selectorBits: nat, select: u32, default: u32, pairs: seq<u32>)
      ensures wordCount == wc && this.selectorBits == selectorBits && this.select == select
      ensures this.default == default && this.pairs == pairs
    {
      wordCount := wc;
      this.selectorBits := selectorBits;
      this.select := select;
      this.default := default;
      this.pairs := pairs;
    }

    /** `setWordCount(TheWordCount)`: `Pairs` resized to the words after the fixed three. */
    method SetWordCount(theWordCount: u32)
      modifies this
      ensures wordCount == theWordCount
      ensures pairs == Resized(old(pairs), Sub(theWordCount, SwitchFixedWords))
      ensures SwitchFixedWords <= theWordCount ==> wordCount == |pairs| + SwitchFixedWords
    {
      wordCount := theWordCount;
      pairs := Resized(pairs, Sub(theWordCount, SwitchFixedWords));
      if SwitchFixedWords <= theWordCount {
        SubNoWrap(theWordCount, SwitchFixedWords);
      }
    }
  }

  /**
   * The `SPIRVSwitch` constructor: the word count from the case count and
   * the first case's literal count (`ThePairs.at(0)`, which throws on no
   * cases), the pair words case by case, then `validate`.
   */
  method NewSwitch(selectorBits: nat, select: u32, default: u32, cases: seq<Case>)
    returns (r: Outcome<Switch>)
    ensures r.Value? || r.Fatal? || r.AssertFails?
    ensures r.Fatal? <==> cases == []
    ensures cases != [] ==>
      (r.AssertFails? <==>
        Wrap(|cases| * (|cases[0].literals| + 1) + SwitchFixedWords) != |Flatten(cases)| + SwitchFixedWords ||
        |Flatten(cases)| % (LiteralsCount(selectorBits) + 1) != 0)
    ensures r.Value? ==> fresh(r.value) && r.value.Valid() && r.value.pairs == Flatten(cases)
    ensures r.Value? ==> r.value.selectorBits == selectorBits && r.value.select == select && r.value.default == default
    ensures (cases != [] && Uniform(cases, LiteralsCount(selectorBits)) &&
             |cases| * (LiteralsCount(selectorBits) + 1) + SwitchFixedWords < WORD) ==>
      r.Value? && r.value.NumPairs() == |cases|
  {
    if cases == [] {
      return Fatal;
    }
    var wc := Wrap(|cases| * (|cases[0].literals| + 1) + SwitchFixedWords);
    var pairs: seq<u32> := [];
    var i := 0;
    while i < |cases|
      invariant 0 <= i <= |cases|
      invariant pairs == Flatten(cases[..i])
    {
      assert cases[..i + 1][..i] == cases[..i];
      pairs := pairs + cases[i].literals + [cases[i].target];
      i := i + 1;
    }
    assert cases[..|cases|] == cases;
    if Uniform(cases, LiteralsCount(selectorBits)) && |cases| * (LiteralsCount(selectorBits) + 1) + SwitchFixedWords < WORD {
      SwitchOfUniformCases(selectorBits, cases);
    }
    var s := new Switch.Raw(wc, selectorBits, select, default, pairs);
    if !s.Valid() {
      return AssertFails;
    }
    return Value(s);
  }

  /**
   * Cases with exactly the selector's literal count give a valid switch of
   * that many pairs, unless the word count wraps; `FlattenRoundTrip` reads
   * each of them back.
   */
  lemma SwitchOfUniformCases(selectorBits: nat, cases: seq<Case>)
    requires cases != [] && Uniform(cases, LiteralsCount(selectorBits))
    requires |cases| * (LiteralsCount(selectorBits) + 1) + SwitchFixedWords < WORD
    ensures var k := LiteralsCount(selectorBits);
      && Wrap(|cases| * (|cases[0].literals| + 1) + SwitchFixedWords) == |Flatten(cases)| + SwitchFixedWords
      && |Flatten(cases)| % (k + 1) == 0
      && |Flatten(cases)| / (k + 1) == |cases|
  {
    var m := LiteralsCount(selectorBits) + 1;
    var n := |cases|;
    FlattenLength(cases, m - 1);
    assert |cases[0].literals| + 1 == m;
    var len := |Flatten(cases)|;
    assert len == n * m;
    WrapId(len + SwitchFixedWords);
    DivModUnique(len, m, n, 0);
  }

  // ---------------------------------------------------------------------------
  // `SPIRVPhi`

  /** `OpPhi`'s `FixedWordCount`: opcode, result type and result id. */
  const PhiFixedWords: nat := 3

  class Phi {
    /** `WordCount`. */
    var wordCount: u32
    /** `Pairs`: (value id, parent block id) pairs, flattened. */
    var pairs: seq<u32>

    /** `validate`'s size checks: the word count covers the pairs, and they come in twos. */
    predicate Valid()
      reads this
    {
      wordCount == |pairs| + PhiFixedWords && |pairs| % 2 == 0
    }

    /** The incoming pairs `foreachPair` visits. */
    function NumPairs(): (n: nat)
      reads this
      ensures Valid() ==> 2 * n == |pairs|
    {
      |pairs| / 2
    }

    constructor Raw(wc: u32, pairs: seq<u32>)
      ensures wordCount == wc && this.pairs == pairs
    {
      wordCount := wc;
      this.pairs := pairs;
    }

    /** `addPair(Value, BB)`: appends the pair, recomputes the word count, then `validate`. */
    method AddPair(value: u32, block: u32) returns (failed: bool)
      modifies this
      ensures pairs == old(pairs) + [value, block]
      ensures wordCount == Wrap(|pairs| + PhiFixedWords)
      ensures failed <==> !Valid()
      ensures old(Valid()) && |pairs| + PhiFixedWords < WORD ==> !failed && NumPairs() == old(NumPairs()) + 1
    {
      pairs := pairs + [value, block];
      wordCount := Wrap(|pairs| + PhiFixedWords);
      if |pairs| + PhiFixedWords < WORD {
        WrapId(|pairs| + PhiFixedWords);
      }
      failed := !Valid();
    }

    /** `setPairs(ThePairs)`: the pairs, the word count they need, then `validate`. */
    method SetPairs(thePairs: seq<u32>) returns (failed: bool)
      modifies this
      ensures pairs == thePairs && wordCount == Wrap(|thePairs| + PhiFixedWords)
      ensures failed <==> !Valid()
      ensures failed <==> |thePairs| % 2 != 0 || |thePairs| + PhiFixedWords >= WORD
    {
      pairs := thePairs;
      wordCount := Wrap(|pairs| + PhiFixedWords);
      if |pairs| + PhiFixedWords < WORD {
        WrapId(|pairs| + PhiFixedWords);
      }
      failed := !Valid();
    }

    /** `setWordCount(TheWordCount)`: `Pairs` resized to the words after the fixed three. */
    method SetWordCount(theWordCount: u32)
      modifies this
      ensures wordCount == theWordCount
      ensures pairs == Resized(old(pairs), Sub(theWordCount, PhiFixedWords))
      ensures PhiFixedWords <= theWordCount ==> wordCount == |pairs| + PhiFixedWords
    {
      wordCount := theWordCount;
      pairs := Resized(pairs, Sub(theWordCount, PhiFixedWords));
      if PhiFixedWords <= theWordCount {
        SubNoWrap(theWordCount, PhiFixedWords);
      }
    }
  }

  /** The `SPIRVPhi` constructor: the pairs, their word count, then `validate`. */
  method NewPhi(thePairs: seq<u32>) returns (r: Outcome<Phi>)
    ensures r.Value? || r.AssertFails?
    ensures r.AssertFails? <==> |thePairs| % 2 != 0 || |thePairs| + PhiFixedWords >= WORD
    ensures r.Value? ==> fresh(r.value) && r.value.Valid() && r.value.pairs == thePairs
  {
    var p := new Phi.Raw(0, []);
    var failed := p.SetPairs(thePairs);
    if failed {
      return AssertFails;
    }
    return Value(p);
  }

  // ---------------------------------------------------------------------------
  // `SPIRVBranchConditional`

  class BranchConditional {
    /** `WordCount`. */
    var wordCount: u32
    /** `ConditionId`, `TrueLabelId`, `FalseLabelId`. */
    const condition: u32
    const trueLabel: u32
    const falseLabel: u32
    /** `BranchWeights`: none, or the true and false weights. */
    var weights: seq<u32>

    /** `validate`'s size checks: four words, or six with both weights. */
    predicate Valid()
      reads this
    {
      (wordCount == 4 || wordCount == 6) && wordCount == |weights| + 4
    }

    /** The unweighted constructor: four words and no weights. */
    constructor (condition: u32, trueLabel: u32, falseLabel: u32)
      ensures Valid() && wordCount == 4 && weights == []
      ensures this.condition == condition && this.trueLabel == trueLabel && this.falseLabel == falseLabel
    {
      wordCount := 4;
      this.condition := condition;
      this.trueLabel := trueLabel;
      this.falseLabel := falseLabel;
      weights := [];
    }

    /** The weighted constructor: six words, the true weight first. */
    constructor Weighted(condition: u32, trueLabel: u32, falseLabel: u32, trueWeight: u32, falseWeight: u32)
      ensures Valid() && wordCount == 6 && weights == [trueWeight, falseWeight]
      ensures this.condition == condition && this.trueLabel == trueLabel && this.falseLabel == falseLabel
    {
      wordCount := 6;
      this.condition := condition;
      this.trueLabel := trueLabel;
      this.falseLabel := falseLabel;
      weights := [trueWeight, falseWeight];
    }

    /**
     * `setWordCount(TheWordCount)`: the weights resized to the words after
     * the fixed four; the result passes `validate` exactly for 4 and 6.
     */
    method SetWordCount(theWordCount: u32)
      modifies this
      ensures wordCount == theWordCount
      ensures weights == Resized(old(weights), Sub(theWordCount, 4))
      ensures Valid() <==> theWordCount == 4 || theWordCount == 6
    {
      wordCount := theWordCount;
      weights := Resized(weights, Sub(theWordCount, 4));
      if 4 <= theWordCount {
        SubNoWrap(theWordCount, 4);
      } else {
        assert Sub(theWordCount, 4) == theWordCount - 4 + WORD;
      }
    }
  }
}
