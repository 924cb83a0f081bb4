// The enumerations and the `ComponentSwizzle` class shared by the YCbCr
// planners. lgc/builder/llpcSamplerYCbCrHandler.h and
// llpc/builder/llpcSamplerYCbCrHelper.h declare the same enumerations and the
// same `ComponentSwizzle`; llpc/util/llpcSamplerYCbCrHelper.h declares the same
// enumerations with an older `ComponentSwizzle` that computes the channel
// differently and whose assignment does not update it (the `Legacy` members).
module YCbCrTypes {
  import opened BitField
  import opened Outcomes

  /** `SamplerFilter`: Nearest 0, Linear 1. */
  datatype SamplerFilter = Nearest | Linear

  /** `ChromaLocation`: CositedEven 0, Midpoint 1. */
  datatype ChromaLocation = CositedEven | Midpoint

  function FilterCode(f: SamplerFilter): (c: nat)
    ensures c <= 1 && (c == 0 <==> f == Nearest)
  {
    match f
    case Nearest => 0
    case Linear => 1
  }

  function LocationCode(l: ChromaLocation): (c: nat)
    ensures c <= 1 && (c == 0 <==> l == CositedEven)
  {
    match l
    case CositedEven => 0
    case Midpoint => 1
  }

  /** The enumerator with code `c`, if there is one. */
  function FilterOf(c: nat): (r: Option<SamplerFilter>)
    ensures r.Some? <==> c <= 1
    ensures r.Some? ==> FilterCode(r.value) == c
  {
    if c == 0 then Some(Nearest) else if c == 1 then Some(Linear) else None
  }

  function LocationOf(c: nat): (r: Option<ChromaLocation>)
    ensures r.Some? <==> c <= 1
    ensures r.Some? ==> LocationCode(r.value) == c
  {
    if c == 0 then Some(CositedEven) else if c == 1 then Some(Midpoint) else None
  }

  /** Decoding the code of an enumerator gives it back. */
  lemma CodesRoundTrip(f: SamplerFilter, l: ChromaLocation)
    ensures FilterOf(FilterCode(f)) == Some(f)
    ensures LocationOf(LocationCode(l)) == Some(l)
  {
  }

  // `SamplerYCbCrModelConversion`, kept as the raw code: the conversion
  // switch has a default case for any other value.
  const RgbIdentity: nat := 0
  const YCbCrIdentity: nat := 1
  const YCbCr709: nat := 2
  const YCbCr601: nat := 3
  const YCbCr2020: nat := 4

  // `SamplerYCbCrRange`, kept as the raw code for the same reason.
  const ItuFull: nat := 0
  const ItuNarrow: nat := 1

  // `ComponentSwizzle::Channel` (`ComponentSwizzle::Value` in the older copies).
  const SwizzleZero: u32 := 0
  const SwizzleOne: u32 := 1
  const SwizzleR: u32 := 4
  const SwizzleG: u32 := 5
  const SwizzleB: u32 := 6
  const SwizzleA: u32 := 7

  /** `m_value` and `m_channel`. */
  datatype ComponentSwizzle = ComponentSwizzle(value: u32, channel: u32)

  /**
   * `ComponentSwizzle(const Channel)`: the channel is `swizzle - R` in
   * unsigned 32-bit arithmetic, so Zero and One wrap around.
   */
  function FromChannel(v: u32): (s: ComponentSwizzle)
    ensures s.value == v
    ensures v >= SwizzleR ==> s.channel == v - 4
    ensures v < SwizzleR ==> s.channel == WORD - 4 + v
  {
    ComponentSwizzle(v, Sub(v, SwizzleR))
  }

  /**
   * `ComponentSwizzle(const uint32_t)`: asserts `v <= A`; R, G, B, A select
   * lanes 0..3 and the other values lanes 4 and up.
   */
  function FromU32(v: u32): (r: Outcome<ComponentSwizzle>)
    ensures r.AssertFails? <==> v > SwizzleA
    ensures r.Value? || r.AssertFails?
    ensures r.Value? ==> r.value.value == v
    ensures r.Value? && v >= SwizzleR ==> r.value.channel == v - 4 && r.value.channel < 4
    ensures r.Value? && v < SwizzleR ==> r.value.channel == v + 4 && 4 <= r.value.channel < 8
  {
    if v > SwizzleA then AssertFails
    else Value(ComponentSwizzle(v, if v >= SwizzleR then Sub(v, SwizzleR) else Add(v, SwizzleR)))
  }

  /** `operator=(uint32_t)`: asserts `op <= A`, then sets both fields. */
  function Assign(s: ComponentSwizzle, op: u32): (r: Outcome<ComponentSwizzle>)
    ensures r.AssertFails? <==> op > SwizzleA
    ensures r.Value? ==> r.value.value == op && r.value.channel == FromU32(op).value.channel
  {
    if op > SwizzleA then AssertFails
    else Value(ComponentSwizzle(op, if op >= SwizzleR then Sub(op, SwizzleR) else Add(op, SwizzleR)))
  }

  /** Assignment yields what the converting constructor yields, whatever was there before. */
  lemma AssignIsConstruction(s: ComponentSwizzle, op: u32)
    ensures Assign(s, op) == FromU32(op)
  {
  }

  /** The constructed channels are pairwise different: the swizzle never merges two selectors. */
  lemma ChannelsInjective(v: u32, w: u32)
    requires FromU32(v).Value? && FromU32(w).Value? && v != w
    ensures FromU32(v).value.channel != FromU32(w).value.channel
  {
  }

  /** `GetChannel`. */
  function GetChannel(s: ComponentSwizzle): (c: u32)
    ensures FromU32(s.value).Value? && s == FromU32(s.value).value ==> c < 8 && (c < 4 <==> s.value >= SwizzleR)
  {
    s.channel
  }

  /** `operator==` and `operator!=` compare the stored value only. */
  predicate SwizzleEquals(s: ComponentSwizzle, op: u32)
  {
    s.value == op
  }

  /** Two swizzles holding the same value compare alike against every selector, whatever their channels. */
  lemma EqualityIgnoresChannel(s: ComponentSwizzle, t: ComponentSwizzle, op: u32)
    requires s.value == t.value && s.channel != t.channel
    ensures SwizzleEquals(s, op) == SwizzleEquals(t, op)
  {
  }

  /**
   * The older `ComponentSwizzle(const uint32_t)`: asserts `v <= A` and sets
   * the channel to `v - R` in unsigned 32-bit arithmetic.
   */
  function LegacyFromU32(v: u32): (r: Outcome<ComponentSwizzle>)
    ensures r.AssertFails? <==> v > SwizzleA
    ensures r.Value? || r.AssertFails?
    ensures r.Value? ==> r.value.value == v
    ensures r.Value? && v >= SwizzleR ==> r.value.channel == v - 4
    ensures r.Value? && v < SwizzleR ==> r.value.channel == WORD - 4 + v
  {
    if v > SwizzleA then AssertFails else Value(ComponentSwizzle(v, Sub(v, SwizzleR)))
  }

  /** The older `operator=(uint32_t)`: asserts `op <= A` and replaces the value only. */
  function LegacyAssign(s: ComponentSwizzle, op: u32): (r: Outcome<ComponentSwizzle>)
    ensures r.AssertFails? <==> op > SwizzleA
    ensures r.Value? ==> r.value.value == op && r.value.channel == s.channel
  {
    if op > SwizzleA then AssertFails else Value(s.(value := op))
  }

  /**
   * The older constructor agrees with the newer one exactly on R, G, B and
   * A; on Zero, One and the values between, its channel wraps around.
   */
  lemma LegacyAgreesOnColourSelectors(v: u32)
    requires v <= SwizzleA
    ensures LegacyFromU32(v) == FromU32(v) <==> v >= SwizzleR
    ensures v < SwizzleR ==> LegacyFromU32(v).value.channel >= WORD - 4
  {
  }

  /**
   * Assigning A to a swizzle built from R keeps R's channel under the older
   * class: `GetChannel` then answers 0 where a newly built A answers 3.
   */
  lemma LegacyAssignKeepsStaleChannel()
    ensures LegacyFromU32(SwizzleR).Value? && LegacyAssign(LegacyFromU32(SwizzleR).value, SwizzleA).Value?
    ensures GetChannel(LegacyAssign(LegacyFromU32(SwizzleR).value, SwizzleA).value) == 0
    ensures GetChannel(LegacyFromU32(SwizzleA).value) == 3
    ensures GetChannel(Assign(LegacyFromU32(SwizzleR).value, SwizzleA).value) == 3
  {
  }
}
