# YCbCr sampling lowering and descriptor bit fields, modelled in Dafny

This project models the part of the LLPC shader compiler that lowers a sample from a
multi-planar Y′CbCr image into ordinary image fetches plus arithmetic, together with the
machinery it is built on:

- **Descriptor bit-field view** (`GfxIpRegHandlerBase`): a register value of one or more
  32-bit dwords, a lazily filled slot cache and a dirty mask; `GetBits`/`SetBits` read and
  write one bit field, and `GetRegister` writes the dirty dwords back.
- **Field tables and cached field access** (`SqImgRsrcRegHandler`, the templated
  `SqImgRsrcRegHelper` with its GFX9/GFX10 subclasses, `GfxRegHelper`, the GFX9 sampler
  helper): per-generation layouts of the image resource descriptor, the value − 1
  encoding of sizes, the GFX10 split Width and the per-field `BitsState` cache.
- **Plane layout** (`YCbCrAddressHandler`, its older copy `YCbCrAddressHelper` and the
  templated helper): pitches and heights of the luma and chroma planes on GFX9 and GFX10
  and the plane base addresses in 256-byte units.
- **Sampling planner** (`SamplerYCbCrHelper` and the older planner): the chroma sampler
  and chroma plane descriptors, the ST→UV→IJ coordinate transforms, the choice of
  reconstruction strategy, the α/β weights and tap coordinates, the lane assembly and
  output swizzle, range expansion and model conversion (the "Chroma Reconstruction",
  "Sampler Y′CBCR Range Expansion" and "Sampler Y′CBCR Model Conversion" sections of the
  Image Operations chapter of the Vulkan specification).
- **SPIR-V instruction sizing** (`SPIRVInstTemplateBase`, `SPIRVMemoryAccess`, `SPIRVSwitch`,
  `SPIRVPhi`, `SPIRVBranchConditional`): the word-count and operand-count relation of
  section 2.3 of the SPIR-V specification, the memory-operand decoding of section 3.26 and
  the pair layouts of OpSwitch and OpPhi.

Values built by LLVM IR builder calls are modelled by what they compute: `CreateAdd`,
`CreateSub`, `CreateMul`, `CreateShl`, `CreateLShr`, `CreateAnd` and `CreateOr` are
32-bit unsigned operations that wrap (`BitField.Add`, `Sub`, `Mul`, `ShlW`, `LShr`, `And`,
`Or`, over `u32`, the integers below 2^32); `amdgcn_ubfe(x, o, c)` is
`(x >> o) & (2^c − 1)` (`BitField.Ubfe`); `CreateSelect` is `if`; `CreateFMix(x, y, a)` is
`x + (y − x)·a` over `real`. The image fetch is a function parameter: each fetch the planner
makes is recorded as a tap (the descriptor it would load and its lane selection), so the
reconstruction strategy is a postcondition about the list of taps.

A C++ `assert` on an input becomes an `AssertFails` outcome, and a returned null pointer
becomes `NullValue`. Five things become `Fatal`: a null chroma value that `BilinearBlend`
(`CreateFMix`) or the final `CreateShuffleVector` of `SampleYCbCrData` dereferences, an `llvm_unreachable` or `LLPC_NEVER_CALLED`,
the `std::out_of_range` that `ThePairs.at(0)` throws for an OpSwitch with no cases, the
read or write of GFX10 Pitch, which dereferences a missing table entry, and the GFX10
plane layout below 8 bits per pixel, where `256 / (bpp >> 3)` divides by zero
(module `Outcomes`), so the error paths are part of the model instead of preconditions.

Modules follow the source files: `BitField` (32-bit words and bit fields), `Outcomes`,
`GfxRegHandler`, `GfxRegHelper`, `SqImgRsrcTables`, `SqImgRsrcHandler`, `SqImgRsrcHelper`,
`SqImgSampRegHelper`, `YCbCrAddress`, `YCbCrAddressTemplate`, `YCbCrTypes`, `YCbCrMath`,
`YCbCrLayout`, `YCbCrChromaDesc`, `YCbCrReconstruct`, `YCbCrSampler` and `SpirvInstruction`.

Four behaviours of the code that the model keeps as written:

- The GFX10 Width is joined as `(hi << lo.offset) | lo` and split at `lo.offset`, that is
  at bit 30, not at WidthLo's width of 2 bits
  (llpc/util/llpcSqImgRsrcRegHandler.cpp:179, 190-196). The round trip therefore keeps
  only bits 0-1 and 30-31 of `v − 1`; `SqImgRsrcHandler.Gfx10WidthRoundTrip` states this
  and `Gfx10WidthWraps` spells out what a GFX10 width reads back as.
- The X-only reconstruction lerps `(tapB, tapA, α)` while the XY blend lerps
  `(TL, TR, α)`, so under CositedEven with an even I the X path yields tap subI + 1.
- At the midpoint the XY path gives each of its two horizontal taps the weight the Vulkan
  formula gives the other. For an even I it weights taps I/2 − 1 and I/2 by 3/4 and 1/4,
  where the formula weights them by 1/4 and 3/4; an odd I is swapped the same way
  (`YCbCrMath.XYTapBlendMidpoint`).
- The Cb height is halved unconditionally, and the chroma Width is halved for every plane
  count.

## Model

| member | source | states |
|---|---|---|
| BitField.UbfeIsDivMod | llpc/util/llpcGfxRegHandler.cpp:111-115 | `amdgcn_ubfe(x, offset, count)` is `(x / 2^offset) mod 2^count` |
| BitField.BitReplace | llpc/util/llpcGfxRegHandler.cpp:142-156 | bit j of `ReplaceBits(dword, offset, count, newBits)` is bit j − offset of `newBits` inside [offset, offset + count) and bit j of `dword` everywhere else |
| BitField.GetAfterSet | llpc/util/llpcGfxRegHandler.cpp:101-138 | the field read after a field write is the value written for a 32-bit field and its low `count` bits otherwise |
| BitField.SetFieldFrame | llpc/util/llpcGfxRegHandler.cpp:120-156 | writing one field leaves every disjoint field of the same dword as it was |
| BitField.StoreField | llpc/util/llpcGfxRegHandler.cpp:120-138 | a field write changes only the field's own dword and keeps the register length |
| BitField.FieldOfStore | llpc/util/llpcGfxRegHandler.cpp:101-138 | register-level read-after-write: `v` or `v mod 2^count` |
| BitField.FieldOfStoreFrame | llpc/util/llpcGfxRegHandler.cpp:120-138 | a field write leaves every disjoint field, in any dword, unchanged |
| BitField.ThreeStores | llpc/util/llpcGfxRegHandler.cpp:120-138 | after writes to three pairwise disjoint fields each reads back its own value |
| BitField.ReplaceTwoPairs | llpc/util/llpcSamplerYCbCrHelper.cpp:373-380 | writing 0b0101 (or 0) to the four bits at o equals writing 1 (or 0) to the two-bit fields at o and at o + 2 |
| BitField.ZeroWrapsToTop | llpc/util/llpcSqImgRsrcRegHandler.cpp:72-74 | writing the value 0 to an n-bit field in the value − 1 encoding stores 2^n − 1 (0 − 1 wraps to 2^32 − 1 and keeps its low n bits), which reads back as 2^n; a stored 0 reads back as 1 |
| GfxRegHandler.ScalarRebindKeepsStaleSlot | llpc/util/llpcGfxRegHandler.cpp:62-66 | re-binding to a scalar as written keeps the old slot at index 0 (two slots, the first still known) |
| GfxRegHandler.Merge | llpc/util/llpcGfxRegHandler.h:117-124 | each dword of the view is its known slot, else the bound lane |
| GfxRegHandler.GfxIpRegHandlerBase.constructor | llpc/util/llpcGfxRegHandler.h:62-66 | a new view is bound to the register with every slot unknown and a clean dirty mask |
| GfxRegHandler.GfxIpRegHandlerBase.SetRegister | llpc/util/llpcGfxRegHandler.cpp:43-70 | one unknown slot per lane (one for a scalar), a clean mask, and the view stands for the new register |
| GfxRegHandler.GfxIpRegHandlerBase.GetRegister | llpc/util/llpcGfxRegHandler.cpp:75-97 | the result has each dirty slot at its own index and the old lane everywhere else, the mask is cleared, the view's contents are unchanged, and a second call returns the same vector |
| GfxRegHandler.GfxIpRegHandlerBase.GetDWordsCount | llpc/util/llpcGfxRegHandler.h:72 | the number of slots equals the number of bound lanes |
| GfxRegHandler.GfxIpRegHandlerBase.ExtractDWordIfNecessary | llpc/util/llpcGfxRegHandler.h:107-113 | slot `index` is filled from lane `index` only when unknown; a known slot, every other slot, the mask and the contents stay as they were |
| GfxRegHandler.GfxIpRegHandlerBase.GetDWord | llpc/util/llpcGfxRegHandler.h:75-79 | returns the last value set at `index`, else lane `index` of the register; contents unchanged |
| GfxRegHandler.GfxIpRegHandlerBase.SetDWord | llpc/util/llpcGfxRegHandler.h:82-88 | slot `index` becomes `v`, only dirty bit `index` is set, and every other slot and bit is unchanged |
| GfxRegHandler.GfxIpRegHandlerBase.IsDWordModified | llpc/util/llpcGfxRegHandler.h:91-94 | true exactly when bit `index` of the dirty mask is set |
| GfxRegHandler.GfxIpRegHandlerBase.GetBits | llpc/util/llpcGfxRegHandler.cpp:101-116 | the whole dword for a 32-bit field, else `ubfe` of the field, of the current contents; contents unchanged |
| GfxRegHandler.GfxIpRegHandlerBase.SetBits | llpc/util/llpcGfxRegHandler.cpp:120-138 | the contents become `StoreField` of the old contents, and only dirty bit `info.index` is added |
| GfxRegHelper.FreshBitsState | llpc/util/llpcGfxRegHelper.h:41-45 | a value-initialised `BitsState` is unknown and unmodified |
| GfxRegHelper.GfxRegHelper.constructor | llpc/util/llpcGfxRegHelper.cpp:38-47 | a new helper has a freshly bound view, no field table, no state list and no GFX version |
| GfxRegHelper.GfxRegHelper.BindTable | llpc/util/llpcGfxRegHelper.h:73-77 | the helper points at the given field table with every entry unknown and unmodified, contents unchanged |
| GfxRegHelper.GfxRegHelper.GetRegCommon | llpc/util/llpcGfxRegHelper.cpp:61-79 | returns field `id` of the current contents; the entry is re-extracted exactly when unknown or modified, and is clean afterwards |
| GfxRegHelper.GfxRegHelper.SetRegCommon | llpc/util/llpcGfxRegHelper.h:60-65 | the contents become the field write of `v`, and only entry `id` is flagged modified |
| GfxRegHelper.GfxRegHelper.GetRegCombine | llpc/util/llpcGfxRegHelper.cpp:84-91 | returns `(hi << info[idLo].offset) \| lo` of the two current fields |
| GfxRegHelper.GfxRegHelper.SetRegCombine | llpc/util/llpcGfxRegHelper.cpp:96-111 | writes `ubfe(v, 0, lo.offset)` to lo and `v >> lo.offset` to hi, flagging both modified |
| SqImgRsrcTables.Gfx9Table | llpc/util/llpcSqImgRsrcRegHandler.h:88-100 | one entry for each of the ten GFX9 parameters, each a nonempty field inside one dword of dwords 0..4 |
| SqImgRsrcTables.Gfx9Lookup | llpc/util/llpcSqImgRsrcRegHandler.h:104-116 | every GFX9 parameter maps to the field of the same number |
| SqImgRsrcTables.Gfx9IsFieldTable | llpc/util/llpcSqImgRsrcRegHandler.h:88-100 | every GFX9 field lies in dwords 0..4 and inside 32 bits, and distinct fields share no bit |
| SqImgRsrcTables.Gfx10Table | llpc/util/llpcSqImgRsrcRegHandler.h:137-149 | ten GFX10 entries, WidthLo and WidthHi among them, each a nonempty field inside one dword of dwords 0..4 |
| SqImgRsrcTables.Gfx10Lookup | llpc/util/llpcSqImgRsrcRegHandler.h:153-165 | exactly Pitch has no GFX10 entry; every other parameter maps to a field, never to WidthHi |
| SqImgRsrcTables.Gfx10IsFieldTable | llpc/util/llpcSqImgRsrcRegHandler.h:137-149 | the same for the GFX10 fields |
| SqImgRsrcTables.Gfx9Dword4 | llpc/util/llpcSqImgRsrcRegHandler.h:97-99 | GFX9 dword 4 holds exactly Depth [0,13), Pitch [13,25) and BcSwizzle [29,32) |
| SqImgRsrcTables.Gfx10WidthSplit | llpc/util/llpcSqImgRsrcRegHandler.h:142-158 | GFX10 Width maps to WidthLo (dword 1 bits 30-31), and the next entry is WidthHi (dword 2 bits 0-13) |
| SqImgRsrcTables.Gfx10LookupShape | llpc/util/llpcSqImgRsrcRegHandler.h:153-165 | on GFX10 only Pitch has no field, no two parameters share one, and none maps to WidthHi |
| SqImgRsrcTables.TableEntry | llpc/util/llpcSqImgRsrcRegHandler.h:88-149 | every entry of either table is a well-formed field within the five descriptor dwords |
| SqImgRsrcTables.TableDisjoint | llpc/util/llpcSqImgRsrcRegHandler.h:88-149 | distinct entries of one table are disjoint |
| SqImgRsrcTables.FieldAtStore | llpc/util/llpcGfxRegHandler.cpp:101-138 | a table entry reads back the low `count` bits of what was written to it |
| SqImgRsrcTables.FieldAtStoreFrame | llpc/util/llpcGfxRegHandler.cpp:120-138 | writing one table entry leaves every other entry unchanged |
| SqImgRsrcHandler.ParamValue | llpc/util/llpcSqImgRsrcRegHandler.cpp:60-92 | what `GetParam(p)` yields: raw fields, field + 1 for Height, Pitch and GFX9 Width, the combine plus one for GFX10 Width, `field != 0` for IsTileOpt; an id outside the enumeration and GFX10 Pitch are fatal |
| SqImgRsrcHandler.WithParam | llpc/util/llpcSqImgRsrcRegHandler.cpp:94-130 | the dwords after `SetParam(p, v)`: the raw, v − 1 or split write; IsTileOpt and GFX10 Pitch are fatal; an unknown id changes nothing |
| SqImgRsrcHandler.RawRoundTrip | llpc/util/llpcSqImgRsrcRegHandler.cpp:63-107 | BaseAddress, BaseAddressHi, Format, DstSelXYZW, Depth and BcSwizzle read back the low `count` bits of what was written |
| SqImgRsrcHandler.BiasedRoundTrip | llpc/util/llpcSqImgRsrcRegHandler.cpp:72-116 | for every written v, Height, Pitch and GFX9 Width read back ((v − 1) mod 2^count) + 1, with v − 1 wrapping at 2^32 |
| SqImgRsrcHandler.BiasedRoundTripInRange | llpc/util/llpcSqImgRsrcRegHandler.cpp:108-111 | the value − 1 encoding of an n-bit field is exact for 1..2^n |
| SqImgRsrcHandler.Gfx10WidthRoundTrip | llpc/util/llpcSqImgRsrcRegHandler.cpp:173-200 | a GFX10 Width written as v reads back as `KeptBySplit(v − 1) + 1`, keeping only bits 0-1 and 30-31 of v − 1 |
| SqImgRsrcHandler.Gfx10WidthParts | llpc/util/llpcSqImgRsrcRegHandler.cpp:185-200 | the split writes `(v − 1) mod 4` to WidthLo and `(v − 1) >> 30` to WidthHi |
| SqImgRsrcHandler.Gfx10WidthWraps | llpc/util/llpcSqImgRsrcRegHandler.cpp:112-125 | every GFX10 width up to 2^30 reads back as `((v − 1) mod 4) + 1`; width 5 reads back as 1 |
| SqImgRsrcHandler.SingleEntry | llpc/util/llpcSqImgRsrcRegHandler.h:153-165 | every parameter but GFX10 Width occupies just its lookup entry |
| SqImgRsrcHandler.EntriesApart | llpc/util/llpcSqImgRsrcRegHandler.h:104-165 | distinct parameters occupy distinct entries |
| SqImgRsrcHandler.ParamValueReads | llpc/util/llpcSqImgRsrcRegHandler.cpp:60-92 | `GetParam(q)` depends only on the entries `q` occupies |
| SqImgRsrcHandler.WithParamKeeps | llpc/util/llpcSqImgRsrcRegHandler.cpp:94-130 | `SetParam(p)` changes no table entry outside those `p` occupies |
| SqImgRsrcHandler.ParamFrame | llpc/util/llpcSqImgRsrcRegHandler.cpp:94-130 | setting one parameter leaves every other parameter's value unchanged |
| SqImgRsrcHandler.SqImgRsrcRegHandler.constructor | llpc/util/llpcSqImgRsrcRegHandler.cpp:37-58 | binds the register and selects the generation's table with every entry unknown and unmodified |
| SqImgRsrcHandler.SqImgRsrcRegHandler.Create | llpc/util/llpcSqImgRsrcRegHandler.cpp:46-57 | only GFX major 9 or 10 yields a handler; any other major is fatal |
| SqImgRsrcHandler.SqImgRsrcRegHandler.GetRegister | llpc/util/llpcGfxRegHandler.cpp:75-97 | returns the current descriptor dwords and leaves what the handler stands for unchanged |
| SqImgRsrcHandler.SqImgRsrcRegHandler.GetReg | llpc/util/llpcSqImgRsrcRegHandler.cpp:136-154 | returns entry `f` of the current dwords, re-extracting when unknown or modified and clearing the flag |
| SqImgRsrcHandler.SqImgRsrcRegHandler.SetReg | llpc/util/llpcSqImgRsrcRegHandler.cpp:159-168 | writes entry `f` and flags it modified, so a following `GetReg` sees the new bits |
| SqImgRsrcHandler.SqImgRsrcRegHandler.GetRegCombine | llpc/util/llpcSqImgRsrcRegHandler.cpp:173-180 | `(hi << lo.offset) \| lo` of the two current entries |
| SqImgRsrcHandler.SqImgRsrcRegHandler.SetRegCombine | llpc/util/llpcSqImgRsrcRegHandler.cpp:185-200 | writes `ubfe(v, 0, lo.offset)` to lo and `v >> lo.offset` to hi |
| SqImgRsrcHandler.SqImgRsrcRegHandler.GetParam | llpc/util/llpcSqImgRsrcRegHandler.cpp:60-92 | the result is `ParamValue` of the current dwords, fatal exactly where that is, and nothing is written |
| SqImgRsrcHandler.SqImgRsrcRegHandler.GetSingle | llpc/util/llpcSqImgRsrcRegHandler.cpp:63-87 | the raw, biased and flag cases of `GetParam` agree with `ParamValue` |
| SqImgRsrcHandler.SqImgRsrcRegHandler.GetWidthGfx10 | llpc/util/llpcSqImgRsrcRegHandler.cpp:80-81 | the GFX10 Width case: the combined width fields plus one |
| SqImgRsrcHandler.SqImgRsrcRegHandler.SetParam | llpc/util/llpcSqImgRsrcRegHandler.cpp:94-130 | fatal exactly for IsTileOpt and GFX10 Pitch; otherwise the dwords become `WithParam` of the old ones |
| SqImgSampRegHelper.SampTable | llpc/util/llpcSqImgSampRegHelper.h:71-73 | the three GFX9 sampler fields in `SqSampRegs` order |
| SqImgSampRegHelper.SampEntries | llpc/util/llpcSqImgSampRegHelper.h:71-73 | FilterMode is dword 0 bits 30-31, xyMagFilter dword 2 bits 20-21, xyMinFilter dword 2 bits 22-23 |
| SqImgSampRegHelper.SampIsFieldTable | llpc/util/llpcSqImgSampRegHelper.h:71-73 | the three fields are well-formed, lie in dwords 0..2 and are pairwise disjoint |
| SqImgSampRegHelper.MagMinCoverBits20To23 | llpc/util/llpcSqImgSampRegHelper.h:72-73 | mag and min together are exactly dword 2 bits 20-23, the range the older planner rewrites at once |
| SqImgSampRegHelper.SampRoundTrip | llpc/util/llpcSqImgSampRegHelper.cpp:42-65 | a sampler field write reads back as v mod 4 |
| SqImgSampRegHelper.SampFrame | llpc/util/llpcSqImgSampRegHelper.cpp:42-65 | writing one filter field leaves the other two unchanged |
| SqImgSampRegHelper.SampThreeStores | llpc/util/llpcSqImgSampRegHelper.cpp:42-65 | writing all three fields in turn, each reads back its own two-bit value |
| SqImgSampRegHelper.SqImgSampRegHelperGfx9.constructor | llpc/util/llpcSqImgSampRegHelper.h:58-59 | binds the sampler register through the view with a clean cache |
| SqImgSampRegHelper.SqImgSampRegHelperGfx9.GetSampField | llpc/util/llpcSqImgSampRegHelper.cpp:37-60 | returns field `id` of the current contents, a value below 4 |
| SqImgSampRegHelper.SqImgSampRegHelperGfx9.SetSampField | llpc/util/llpcSqImgSampRegHelper.cpp:42-65 | writes field `id` through `SetBits`, marking its dword dirty |
| SqImgSampRegHelper.SqImgSampRegHelperGfx9.GetFilterMode | llpc/util/llpcSqImgSampRegHelper.cpp:37-40 | the FilterMode field of the current contents |
| SqImgSampRegHelper.SqImgSampRegHelperGfx9.SetFilterMode | llpc/util/llpcSqImgSampRegHelper.cpp:42-45 | writes the FilterMode field |
| SqImgSampRegHelper.SqImgSampRegHelperGfx9.GetXYMagFilter | llpc/util/llpcSqImgSampRegHelper.cpp:47-50 | the xyMagFilter field of the current contents |
| SqImgSampRegHelper.SqImgSampRegHelperGfx9.SetXYMagFilter | llpc/util/llpcSqImgSampRegHelper.cpp:52-55 | writes the xyMagFilter field |
| SqImgSampRegHelper.SqImgSampRegHelperGfx9.GetXYMinFilter | llpc/util/llpcSqImgSampRegHelper.cpp:57-60 | the xyMinFilter field of the current contents |
| SqImgSampRegHelper.SqImgSampRegHelperGfx9.SetXYMinFilter | llpc/util/llpcSqImgSampRegHelper.cpp:62-65 | writes the xyMinFilter field |
| SqImgRsrcHelper.HelperGfx9Table | llpc/util/llpcSqImgRsrcRegHelper.h:119-131 | the helper's GFX9 field table is the handler's GFX9 table |
| SqImgRsrcHelper.HelperGfx10Table | llpc/util/llpcSqImgRsrcRegHelper.h:172-184 | the helper's GFX10 field table is the handler's GFX10 table |
| SqImgRsrcHelper.Gfx9ParamValue | llpc/util/llpcSqImgRsrcRegHelper.cpp:68-97 | a GFX9 get yields null exactly for an id outside the enumeration, and never fails otherwise |
| SqImgRsrcHelper.Gfx9WithParam | llpc/util/llpcSqImgRsrcRegHelper.cpp:99-136 | a GFX9 set is fatal exactly for IsTileOpt, and an unknown id changes nothing |
| SqImgRsrcHelper.Gfx10ParamValue | llpc/util/llpcSqImgRsrcRegHelper.cpp:138-167 | a GFX10 get yields null exactly for Pitch and for an id outside the enumeration |
| SqImgRsrcHelper.Gfx10WithParam | llpc/util/llpcSqImgRsrcRegHelper.cpp:169-205 | a GFX10 set is fatal exactly for IsTileOpt; Pitch and unknown ids change nothing |
| SqImgRsrcHelper.HelperParamValue | llpc/util/llpcSqImgRsrcRegHelper.h:72-75 | the templated get forwards to the generation: null exactly for unknown ids and GFX10 Pitch |
| SqImgRsrcHelper.HelperWithParam | llpc/util/llpcSqImgRsrcRegHelper.h:77-80 | the templated set forwards to the generation: fatal exactly for IsTileOpt |
| SqImgRsrcHelper.GetParamAgrees | llpc/util/llpcSqImgRsrcRegHelper.cpp:68-167 | the helper reads every parameter as the handler does; where the handler is fatal the helper returns null |
| SqImgRsrcHelper.Gfx10FieldIsLookup | llpc/util/llpcSqImgRsrcRegHelper.cpp:138-167 | apart from Width, the helper's GFX10 switch picks the handler's lookup entry |
| SqImgRsrcHelper.SetParamAgrees | llpc/util/llpcSqImgRsrcRegHelper.cpp:99-205 | the helper writes every parameter as the handler does, both stop on IsTileOpt, and GFX10 Pitch, fatal in the handler, is ignored by the helper |
| SqImgRsrcHelper.SqImgRsrcRegHelper.constructor | llpc/util/llpcSqImgRsrcRegHelper.h:66-70 | binds the register; every entry of the generation's list starts unknown and unmodified |
| SqImgRsrcHelper.SqImgRsrcRegHelper.GetReg | llpc/util/llpcSqImgRsrcRegHelper.cpp:37-49 | returns entry `id` of the current dwords and leaves that entry cached and clean |
| SqImgRsrcHelper.SqImgRsrcRegHelper.SetReg | llpc/util/llpcSqImgRsrcRegHelper.cpp:51-56 | the dwords become the entry write, and entry `id` is flagged modified |
| SqImgRsrcHelper.SqImgRsrcRegHelper.GetRegCombine | llpc/util/llpcSqImgRsrcRegHelper.cpp:220-225 | reads WidthLo and WidthHi whatever the arguments and shifts hi by `idLo`'s offset |
| SqImgRsrcHelper.SqImgRsrcRegHelper.SetRegCombine | llpc/util/llpcSqImgRsrcRegHelper.cpp:230-242 | writes `ubfe(v, 0, offset)` to `idLo` and `v >> offset` to `idHi` through `SetReg` |
| SqImgRsrcHelper.SqImgRsrcRegHelper.GetParamGfx9 | llpc/util/llpcSqImgRsrcRegHelper.cpp:68-97 | the result is `Gfx9ParamValue` of the current dwords, and nothing is written |
| SqImgRsrcHelper.SqImgRsrcRegHelper.SetParamGfx9 | llpc/util/llpcSqImgRsrcRegHelper.cpp:99-136 | fatal exactly for IsTileOpt; otherwise the dwords become `Gfx9WithParam` of the old ones |
| SqImgRsrcHelper.SqImgRsrcRegHelper.GetParamGfx10 | llpc/util/llpcSqImgRsrcRegHelper.cpp:138-167 | the result is `Gfx10ParamValue` of the current dwords, and nothing is written |
| SqImgRsrcHelper.SqImgRsrcRegHelper.SetParamGfx10 | llpc/util/llpcSqImgRsrcRegHelper.cpp:169-205 | fatal exactly for IsTileOpt; otherwise the dwords become `Gfx10WithParam` of the old ones |
| SqImgRsrcHelper.SqImgRsrcRegHelper.GetParam | llpc/util/llpcSqImgRsrcRegHelper.h:72-75 | static dispatch: the generation's get and nothing else |
| SqImgRsrcHelper.SqImgRsrcRegHelper.SetParam | llpc/util/llpcSqImgRsrcRegHelper.h:77-80 | static dispatch: the generation's set and nothing else |
| YCbCrLayout.Power2Align | lgc/builder/llpcYCbCrAddressHandler.cpp:69-77 | `(x + (a − 1)) & ~(a − 1)` in 32 bits keeps no bit of a − 1, so for a power-of-two a the result is a multiple of a |
| YCbCrLayout.Power2AlignRoundsUp | lgc/builder/llpcYCbCrAddressHandler.cpp:69-77 | for a power-of-two alignment and no overflow, `Power2Align(x, a)` is the least multiple of a that is at least x |
| YCbCrLayout.Power2AlignIdempotent | lgc/builder/llpcYCbCrAddressHandler.cpp:69-77 | aligning an aligned value changes nothing |
| YCbCrLayout.ClearLowBits | lgc/builder/llpcYCbCrAddressHandler.cpp:73-76 | masking with `~(2^k − 1)` rounds down to a multiple of 2^k |
| YCbCrLayout.Log2 | lgc/builder/llpcYCbCrAddressHandler.cpp:162 | `log2` of an exact power of two is its exponent |
| YCbCrLayout.TileWidthLog2 | lgc/builder/llpcYCbCrAddressHandler.cpp:161-165 | the width exponent `(L + 1) / 2` of a 64 KiB block, with L = 16 − log2(eb), is at most 8 |
| YCbCrLayout.TileHeightLog2 | lgc/builder/llpcYCbCrAddressHandler.cpp:163-167 | the height exponent L − w is at most the width exponent, and the exponents of width, height and element size add up to 16 |
| YCbCrLayout.TileAlignOpt | lgc/builder/llpcYCbCrAddressHandler.cpp:161-167 | `1u << w` and `1u << (L − w)` are 2^w and 2^(L−w), with 1 ≤ height alignment ≤ width alignment ≤ 256 |
| YCbCrLayout.TileBlock | lgc/builder/llpcYCbCrAddressHandler.cpp:159-183 | a tile block is at least as wide as high, both sides are powers of two, and width × height × element bytes is 2^16 |
| YCbCrLayout.ChromaHeightHalved | lgc/builder/llpcYCbCrAddressHandler.cpp:94-182 | the Cb height is the luma height halved, unconditionally on GFX9 and for linear GFX10; a tiled GFX10 image aligns the halved height to the tile block |
| YCbCrLayout.Gfx9Layout | lgc/builder/llpcYCbCrAddressHandler.cpp:94-129 | the GFX9 luma height is the Height parameter and the Cb height is half of it, rounded down, tiled or not |
| YCbCrLayout.Gfx10Layout | lgc/builder/llpcYCbCrAddressHandler.cpp:134-183 | for 8 or more bits per pixel: a linear image keeps Height for luma and halves it for Cb; a tiled image's two heights are multiples of the tile-block height |
| YCbCrLayout.Gfx9Pitches | lgc/builder/llpcYCbCrAddressHandler.cpp:101-129 | without overflow the GFX9 pitches are Pitch and Pitch / 2 times `xBitCount >> 3`, or times `bits >> 3` and 32 when IsTileOpt is set |
| YCbCrLayout.Gfx10LinearPitch | lgc/builder/llpcYCbCrAddressHandler.cpp:132-157 | on linear GFX10 each pitch is the row's byte size rounded up to a multiple of 256 |
| YCbCrLayout.LinearRowPitch | lgc/builder/llpcYCbCrAddressHandler.cpp:144-146 | a row of x elements of 2^e bytes aligned to 2^(8−e) elements is its byte size rounded up to 256 |
| YCbCrLayout.LinearPitchAlign | lgc/builder/llpcYCbCrAddressHandler.cpp:134-135 | `256 / eb` is 2^(8−e) elements, between 1 and 256 |
| YCbCrLayout.PlanesAfter | lgc/builder/llpcYCbCrAddressHandler.cpp:43-65 | `GenBaseAddress(planeNum)` appends exactly min(planeNum, 3) addresses and keeps the existing ones |
| YCbCrLayout.PlaneAddresses | lgc/builder/llpcYCbCrAddressHandler.cpp:51-61 | from an empty list: the base, then plane0 + ((pitchY·heightY mod 2^32) >> 8), then plane1 + ((pitchCb·heightCb mod 2^32) >> 8), all modulo 2^32 |
| YCbCrLayout.PlaneStep | llpc/builder/llpcSamplerYCbCrHelper.h:192-214 | the switch-based step appends one address for k in 1..3 and nothing otherwise |
| YCbCrLayout.StepsMatchNested | llpc/builder/llpcSamplerYCbCrHelper.h:192-214 | calling the step with 1, 2, …, n gives what the nested lgc version gives for n |
| YCbCrAddress.DescLayout | lgc/builder/llpcYCbCrAddressHandler.cpp:82-190 | the GFX9 or GFX10 layout of the descriptor, and `Fatal` exactly on GFX10 below 8 bits per pixel, where `256 / (bpp >> 3)` divides by zero |
| YCbCrAddress.LayoutKeptBySetParam | lgc/builder/llpcYCbCrAddressHandler.cpp:89-190 | writing any parameter the layout does not read leaves the computed layout unchanged |
| YCbCrAddress.YCbCrAddressHandler.constructor | lgc/builder/llpcYCbCrAddressHandler.h:44-51 | a new handler has an empty plane-address list and `m_pOne` = 1 |
| YCbCrAddress.YCbCrAddressHandler.GenBaseAddress | lgc/builder/llpcYCbCrAddressHandler.cpp:43-65 | the address list becomes `PlanesAfter` of the old list, the descriptor's BaseAddress and the generated layout; descriptor and layout unchanged; the llpc copy at llpc/builder/llpcYCbCrAddressHelper.cpp:43-62 is the same |
| YCbCrAddress.YCbCrAddressHandler.GenHeightAndPitch | lgc/builder/llpcYCbCrAddressHandler.cpp:82-190 | fatal exactly for a generation other than 9 and 10 and for GFX10 below 8 bits per pixel, where `256 / (bpp >> 3)` divides by zero, and then the layout is left as it was; otherwise the pitches and heights become `DescLayout` of the descriptor, and IsTileOpt is read only for a tile-optimal image; the llpc copy at llpc/builder/llpcYCbCrAddressHelper.cpp:79-168 is the same |
| YCbCrAddress.YCbCrAddressHandler.GenGfx9 | lgc/builder/llpcYCbCrAddressHandler.cpp:91-131 | the GFX9 case stores the layout `DescLayout(9, …)` gives |
| YCbCrAddress.YCbCrAddressHandler.ReadGfx9 | lgc/builder/llpcYCbCrAddressHandler.cpp:94-129 | the GFX9 reads give the layout `DescLayout(9, …)` gives, and the descriptor is unchanged |
| YCbCrAddress.YCbCrAddressHandler.GenGfx10 | lgc/builder/llpcYCbCrAddressHandler.cpp:132-185 | fatal exactly below 8 bits per pixel, leaving the layout as it was; otherwise the GFX10 case stores the layout `DescLayout(10, …)` gives |
| YCbCrAddress.YCbCrAddressHandler.ReadGfx10 | lgc/builder/llpcYCbCrAddressHandler.cpp:134-183 | the result is `DescLayout(10, …)`: `Fatal` before any read below 8 bits per pixel, otherwise the layout of the GFX10 reads; the descriptor is unchanged |
| YCbCrAddress.YCbCrAddressHandler.SetLayout | lgc/builder/llpcYCbCrAddressHandler.h:66-75 | the getters then return the stored pitches and heights; the address list is unchanged |
| YCbCrAddress.YCbCrAddressHandler.GetPlane | lgc/builder/llpcYCbCrAddressHandler.h:63 | the address of plane idx in the generated list |
| YCbCrAddress.YCbCrAddressHandler.GetPitchY | lgc/builder/llpcYCbCrAddressHandler.h:66 | the luma pitch of the stored layout |
| YCbCrAddress.YCbCrAddressHandler.GetPitchCb | lgc/builder/llpcYCbCrAddressHandler.h:69 | the chroma pitch of the stored layout |
| YCbCrAddress.YCbCrAddressHandler.GetHeightY | lgc/builder/llpcYCbCrAddressHandler.h:72 | the luma height of the stored layout |
| YCbCrAddress.YCbCrAddressHandler.GetHeightCb | lgc/builder/llpcYCbCrAddressHandler.h:75 | the chroma height of the stored layout |
| YCbCrAddressTemplate.YCbCrAddressHelper.constructor | llpc/builder/llpcSamplerYCbCrHelper.h:162-168 | a new helper has an empty plane-address list and `m_pInt32One` = 1 |
| YCbCrAddressTemplate.YCbCrAddressHelper.GenBaseAddress | llpc/builder/llpcSamplerYCbCrHelper.h:192-214 | the address list becomes `PlaneStep` of the old one: one address for k in 1..3, k = 2 reading entry [0] and k = 3 entry [1] and the Cb size |
| YCbCrAddressTemplate.YCbCrAddressHelper.GenHeightAndPitchGfx9 | llpc/builder/llpcSamplerYCbCrHelper.h:216-247 | the GFX9 specialisation stores the lgc handler's GFX9 layout of the same descriptor |
| YCbCrAddressTemplate.YCbCrAddressHelper.ReadGfx9 | llpc/builder/llpcSamplerYCbCrHelper.h:219-246 | its reads give that layout without changing the descriptor |
| YCbCrAddressTemplate.YCbCrAddressHelper.GenHeightAndPitchGfx10 | llpc/builder/llpcSamplerYCbCrHelper.h:249-294 | fatal exactly below 8 bits per pixel, where `256 / (bpp >> 3)` divides by zero, leaving the layout as it was; otherwise the GFX10 specialisation stores the lgc handler's GFX10 layout of the same descriptor |
| YCbCrAddressTemplate.YCbCrAddressHelper.ReadGfx10 | llpc/builder/llpcSamplerYCbCrHelper.h:252-293 | the result is the lgc handler's `DescLayout(10, …)`: `Fatal` before any read below 8 bits per pixel, otherwise the layout its reads give, without changing the descriptor |
| YCbCrAddressTemplate.YCbCrAddressHelper.SetLayout | llpc/builder/llpcSamplerYCbCrHelper.h:175-178 | the getters then return the stored pitches and heights |
| YCbCrAddressTemplate.YCbCrAddressHelper.GetPlane | llpc/builder/llpcSamplerYCbCrHelper.h:174 | the address of plane idx in the generated list |
| YCbCrAddressTemplate.YCbCrAddressHelper.GetPitchY | llpc/builder/llpcSamplerYCbCrHelper.h:175 | the luma pitch of the stored layout |
| YCbCrAddressTemplate.YCbCrAddressHelper.GetPitchCb | llpc/builder/llpcSamplerYCbCrHelper.h:176 | the chroma pitch of the stored layout |
| YCbCrAddressTemplate.YCbCrAddressHelper.GetHeightY | llpc/builder/llpcSamplerYCbCrHelper.h:177 | the luma height of the stored layout |
| YCbCrAddressTemplate.YCbCrAddressHelper.GetHeightCb | llpc/builder/llpcSamplerYCbCrHelper.h:178 | the chroma height of the stored layout |
| YCbCrTypes.FilterCode | lgc/builder/llpcSamplerYCbCrHandler.h:44-48 | Nearest has code 0 and Linear code 1, the only codes used |
| YCbCrTypes.LocationCode | lgc/builder/llpcSamplerYCbCrHandler.h:68-72 | CositedEven has code 0 and Midpoint code 1, the only codes used |
| YCbCrTypes.FilterOf | lgc/builder/llpcSamplerYCbCrHandler.h:44-48 | a filter code decodes to the enumerator of that code, and to nothing for any other code |
| YCbCrTypes.LocationOf | lgc/builder/llpcSamplerYCbCrHandler.h:68-72 | a chroma-location code decodes to the enumerator of that code, and to nothing for any other code |
| YCbCrTypes.CodesRoundTrip | lgc/builder/llpcSamplerYCbCrHandler.h:44-72 | decoding the code of an enumerator gives it back |
| YCbCrTypes.FromChannel | lgc/builder/llpcSamplerYCbCrHandler.h:90 | a swizzle built from a selector keeps it as its value; its channel is the selector − R, wrapping at 2^32 for Zero and One |
| YCbCrTypes.FromU32 | lgc/builder/llpcSamplerYCbCrHandler.h:91-97 | the constructor fails its assertion exactly for values above A; R, G, B, A select lanes 0 to 3, Zero and One lanes above them |
| YCbCrTypes.AssignIsConstruction | lgc/builder/llpcSamplerYCbCrHandler.h:101-107 | assigning a value leaves the swizzle the constructor makes from it, whatever the swizzle held |
| YCbCrTypes.Assign | lgc/builder/llpcSamplerYCbCrHandler.h:101-107 | fails its assertion exactly above A; otherwise the value is the operand and the channel is the one the constructor derives from it |
| YCbCrTypes.ChannelsInjective | lgc/builder/llpcSamplerYCbCrHandler.h:91-97 | different selectors give different channels |
| YCbCrTypes.GetChannel | lgc/builder/llpcSamplerYCbCrHandler.h:111 | on a constructed swizzle, a lane below 4 exactly for the colour selectors R, G, B, A, and a lane from 4 to 7 for the others |
| YCbCrTypes.EqualityIgnoresChannel | lgc/builder/llpcSamplerYCbCrHandler.h:108-109 | two swizzles with one value compare alike against every selector, whatever their channels |
| YCbCrTypes.LegacyFromU32 | llpc/util/llpcSamplerYCbCrHelper.h:86-91 | the older constructor fails its assertion exactly above A and sets the channel to value − R, wrapping at 2^32 |
| YCbCrTypes.LegacyAssign | llpc/util/llpcSamplerYCbCrHelper.h:95-100 | the older assignment fails its assertion exactly above A and replaces the value only |
| YCbCrTypes.LegacyAgreesOnColourSelectors | llpc/util/llpcSamplerYCbCrHelper.h:86-91 | the older constructor agrees with the newer one on R, G, B and A and differs on Zero and One |
| YCbCrTypes.LegacyAssignKeepsStaleChannel | llpc/util/llpcSamplerYCbCrHelper.h:95-100 | a swizzle built from R and then assigned A still reports channel 0, where a swizzle built from A reports 3 |
| YCbCrMath.Mix | lgc/builder/llpcSamplerYCbCrHandler.cpp:1008-1011 | `fmix(x, y, a)` is the affine combination (1 − a)·x + a·y, which is x at 0 and y at 1 |
| YCbCrMath.MixBetween | lgc/builder/llpcSamplerYCbCrHandler.cpp:1008-1011 | a weight in [0, 1] keeps the mix between its two ends |
| YCbCrMath.MixV | lgc/builder/llpcSamplerYCbCrHandler.cpp:143 | the vector mix is the mix lane by lane |
| YCbCrMath.Shuffle | lgc/builder/llpcSamplerYCbCrHandler.cpp:145 | each result lane is the lane the mask selects from the two inputs placed end to end |
| YCbCrMath.Clamp | lgc/builder/llpcSamplerYCbCrHandler.cpp:830 | the clamp lies between its bounds and is the identity inside them |
| YCbCrMath.STtoUV | lgc/builder/llpcSamplerYCbCrHandler.cpp:950-955 | for a positive extent, the texel coordinate divided by the extent is the normalised coordinate |
| YCbCrMath.STtoUVInverse | lgc/builder/llpcSamplerYCbCrHandler.cpp:950-955 | the texel coordinate divided by the extent gives back the normalised coordinate |
| YCbCrMath.UVtoIJ | lgc/builder/llpcSamplerYCbCrHandler.cpp:974-986 | Nearest picks the texel whose span holds the coordinate; Linear picks the left texel of the pair whose centres enclose it |
| YCbCrMath.UVOffset | lgc/builder/llpcSamplerYCbCrHandler.cpp:990-996 | the offset lies in [0, 1) and is how far the coordinate lies past the centre of the texel Linear picks |
| YCbCrMath.ImplicitChromaUV | lgc/builder/llpcSamplerYCbCrHandler.cpp:960-970 | the chroma coordinate c maps back to the luma coordinate 2c − 1/2 when cosited and 2c at the midpoint |
| YCbCrMath.ImplicitChromaSites | lgc/builder/llpcSamplerYCbCrHandler.cpp:960-970 | the centre of chroma texel k falls on the centre of luma texel 2k when cosited, and between luma texels 2k and 2k + 1 at the midpoint |
| YCbCrMath.SRem | lgc/builder/llpcSamplerYCbCrHandler.cpp:104-106 | the signed remainder lies strictly between −b and b and takes the sign of the dividend |
| YCbCrMath.IsEven | lgc/builder/llpcSamplerYCbCrHandler.cpp:104-106 | `srem(I, 2) == 0` holds exactly for even I, negative I included |
| YCbCrMath.IsEvenIsParity | lgc/builder/llpcSamplerYCbCrHandler.cpp:104-106 | the signed-remainder evenness test is exact parity, for negative texels too |
| YCbCrMath.FloorHalf | lgc/builder/llpcSamplerYCbCrHandler.cpp:108-115 | the floor of i / 2.0 is the integer half of i |
| YCbCrMath.SubIndex | lgc/builder/llpcSamplerYCbCrHandler.cpp:108-115 | the left chroma tap s places luma texel i at 2s or 2s + 1 when cosited and at 2s + 1 or 2s + 2 at the midpoint |
| YCbCrMath.Weight | lgc/builder/llpcSamplerYCbCrHandler.cpp:117-127 | the weight lies in [0, 1): 0 or 1/2 when cosited, 1/4 or 3/4 at the midpoint, for even or odd texels |
| YCbCrMath.XTapBlend | lgc/builder/llpcSamplerYCbCrHandler.cpp:104-143 | the X path's blend lies between its taps subI and subI + 1 |
| YCbCrMath.XTapBlendMatchesVulkan | lgc/builder/llpcSamplerYCbCrHandler.cpp:104-143 | the X path's blend equals the explicit reconstruction formula at the midpoint, and for odd texels when cosited |
| YCbCrMath.XTapBlendCositedEven | lgc/builder/llpcSamplerYCbCrHandler.cpp:108-143 | for a cosited even texel the X path gives chroma tap i/2 + 1, where the formula gives tap i/2 |
| YCbCrMath.XYTapBlend | lgc/builder/llpcSamplerYCbCrHandler.cpp:158-247 | the XY path's horizontal blend lies between its taps subI and subI + 1 |
| YCbCrMath.XYTapBlendMatchesVulkan | lgc/builder/llpcSamplerYCbCrHandler.cpp:158-247 | the XY path's horizontal blend equals the explicit reconstruction formula for cosited chroma, even and odd texels |
| YCbCrMath.XYTapBlendMidpoint | lgc/builder/llpcSamplerYCbCrHandler.cpp:158-247 | at the midpoint the XY path gives each of its two taps the weight the formula gives the other |
| YCbCrMath.XAndXYPathsDisagree | lgc/builder/llpcSamplerYCbCrHandler.cpp:100-247 | on one input the X and XY paths give different chroma values |
| YCbCrMath.BilinearBlend | lgc/builder/llpcSamplerYCbCrHandler.cpp:1000-1012 | the blend is the bilinear interpolation of the four corners with horizontal weight α and vertical weight β |
| YCbCrMath.BilinearCorners | lgc/builder/llpcSamplerYCbCrHandler.cpp:1000-1012 | the four corner weight pairs select TL, TR, BL and BR |
| YCbCrMath.BilinearBetween | lgc/builder/llpcSamplerYCbCrHandler.cpp:1000-1012 | weights in [0, 1] keep the blend within any bounds of the corners |
| YCbCrMath.BilinearBlendV | lgc/builder/llpcSamplerYCbCrHandler.cpp:1000-1012 | the vector blend is the blend lane by lane |
| YCbCrMath.NarrowOffset | lgc/builder/llpcSamplerYCbCrHandler.cpp:560-562 | the narrow-range offset (o·2^(n−8)) / (q·2^(n−8)) is o / q for every width |
| YCbCrMath.NarrowLaneValue | lgc/builder/llpcSamplerYCbCrHandler.cpp:548-572 | one narrow-range lane is the sample times (2^n − 1) / (q·2^(n−8)), less o / q |
| YCbCrMath.RangeExpand | lgc/builder/llpcSamplerYCbCrHandler.cpp:518-579 | an unknown range is fatal and the known ones are not; the full range keeps Y; the narrow range gives each lane its scale and offset, 128/224 for Cr and Cb and 16/219 for Y |
| YCbCrMath.FullRangeMatchesVulkan | lgc/builder/llpcSamplerYCbCrHandler.cpp:525-542 | for the sample of an n-bit chroma code c the full range gives (c − 2^(n−1)) / (2^n − 1), the formula of the Vulkan specification |
| YCbCrMath.NarrowRangeMatchesVulkan | lgc/builder/llpcSamplerYCbCrHandler.cpp:543-573 | for the sample of an n-bit code c the narrow range gives (c − 16·2^(n−8)) / (219·2^(n−8)) for Y and (c − 128·2^(n−8)) / (224·2^(n−8)) for Cb and Cr |
| YCbCrMath.NarrowLaneOf | lgc/builder/llpcSamplerYCbCrHandler.cpp:548-572 | lane k of the narrow-range result uses lane k's offset and span |
| YCbCrMath.ConvRowsInvertEncoding | lgc/builder/llpcSamplerYCbCrHandler.cpp:853-923 | for BT.601, BT.709 and BT.2020 the matrix maps the Y′CbCr encoding of every colour, under that standard's luma weights, back to the colour |
| YCbCrMath.ClampExpanded | lgc/builder/llpcSamplerYCbCrHandler.cpp:804-812 | the clamped expansion lies in [−0.5, 0.5] × [0, 1] × [−0.5, 0.5] |
| YCbCrMath.Clamp01 | lgc/builder/llpcSamplerYCbCrHandler.cpp:938-943 | every lane of the final clamp lies in [0, 1] and lanes already there are unchanged |
| YCbCrMath.ConvertColor | lgc/builder/llpcSamplerYCbCrHandler.cpp:795-946 | an unknown model, or an unknown range where the range is expanded, is fatal and nothing else is; every model except YCbCrIdentity yields lanes in [0, 1]; YCbCrIdentity yields the clamped expansion with alpha passed through; RgbIdentity only clamps |
| YCbCrMath.GreyConvertsToGrey | lgc/builder/llpcSamplerYCbCrHandler.cpp:842-943 | a sample whose expanded chroma is zero converts to R = G = B = its expanded luma under every ITU-R model |
| YCbCrMath.LumaColumn | lgc/builder/llpcSamplerYCbCrHandler.cpp:853-915 | every matrix row weighs Y by 1 |
| YCbCrMath.ConvertRecoversColour | lgc/builder/llpcSamplerYCbCrHandler.cpp:842-945 | under every ITU-R model, a sample whose expansion is the exact encoding of a colour in the unit cube converts back to that colour |
| YCbCrReconstruct.Extent | lgc/builder/llpcSamplerYCbCrHandler.cpp:48-59 | the extent a wrapped fetch divides by stays positive when halved on a subsampled axis |
| YCbCrReconstruct.WrappedSample | lgc/builder/llpcSamplerYCbCrHandler.cpp:43-96 | a plane count outside 1 to 3 is fatal and fetches nothing; one plane reads the chroma descriptor when subsampled in X and the luma one otherwise, two planes read plane 2, both giving lanes (0, 2); three planes fetch planes 2 and 3 and take Cr from plane 3 and Cb from plane 2; every fetch is at (i, j) over the possibly halved extent |
| YCbCrReconstruct.ReconstructX | lgc/builder/llpcSamplerYCbCrHandler.cpp:100-146 | the X path fetches twice from the chroma plane, at chroma columns subI and subI + 1 of row J |
| YCbCrReconstruct.ReconstructXLanes | lgc/builder/llpcSamplerYCbCrHandler.cpp:117-145 | its Cr and Cb are the X-path blend of lanes 0 and 2 of the two taps |
| YCbCrReconstruct.ReconstructXMatchesVulkan | lgc/builder/llpcSamplerYCbCrHandler.cpp:100-146 | at the midpoint, and for odd I when cosited, the X path computes the explicit reconstruction formula of the Vulkan specification |
| YCbCrReconstruct.XYCorner | lgc/builder/llpcSamplerYCbCrHandler.cpp:216-247 | corner k is the fetch at chroma texel (subI + k mod 2, subJ + k div 2) |
| YCbCrReconstruct.CrCb | lgc/builder/llpcSamplerYCbCrHandler.cpp:248-294 | the {0, 6} shuffle takes Cr from lane 0 of one fetch and Cb from lane 2 of the other |
| YCbCrReconstruct.ReconstructXY | lgc/builder/llpcSamplerYCbCrHandler.cpp:150-297 | two planes fetch the four corners from plane 2; three planes fetch each corner from planes 2 and 3 in turn, eight fetches; any other plane count yields null and fetches nothing |
| YCbCrReconstruct.ReconstructXYTexels | lgc/builder/llpcSamplerYCbCrHandler.cpp:186-294 | each output lane is the bilinear blend, with the α and β weights, of that lane of the four texels around (subI, subJ) |
| YCbCrReconstruct.ReconstructXYCorners | lgc/builder/llpcSamplerYCbCrHandler.cpp:216-294 | each output lane is the bilinear blend of that lane at the four corner fetches |
| YCbCrReconstruct.BilinearIsSeparable | lgc/builder/llpcSamplerYCbCrHandler.cpp:1000-1012 | that bilinear blend is the XY-path blend along each row and then along the column |
| YCbCrReconstruct.XYCornerTexels | lgc/builder/llpcSamplerYCbCrHandler.cpp:216-247 | the four corner fetches read the texels (subI, subJ), (subI + 1, subJ), (subI, subJ + 1), (subI + 1, subJ + 1) |
| YCbCrReconstruct.Blend4 | lgc/builder/llpcSamplerYCbCrHandler.cpp:715-726 | the four results are fetched in the order TL, TR, BR, BL; the blend has a value exactly when all four have one, is fatal exactly when one is fatal or null (`CreateFMix` in `BilinearBlend`, lines 1008-1011, dereferences a null operand), and is never null; its lanes are the bilinear blends of the four |
| YCbCrReconstruct.ChooseStrategy | lgc/builder/llpcSamplerYCbCrHandler.cpp:641-779 | a condition on the filters, the forcing flag and the subsampling chooses each of the seven strategies, and each condition holds exactly when its strategy is chosen |
| YCbCrReconstruct.ChromaSample | lgc/builder/llpcSamplerYCbCrHandler.cpp:641-779 | the chroma value and fetches of the chosen strategy; every chroma fetch uses the chroma sampler; the chroma is null exactly for a single XY path (nearest luma) with a plane count other than 2 or 3, fatal exactly for a wrapped strategy outside 1 to 3 planes and for the four blended XY paths outside 2 or 3 planes (`ChromaFatal`), and never an assertion failure |
| YCbCrReconstruct.Wrapped4Sample | lgc/builder/llpcSamplerYCbCrHandler.cpp:697-726 | every fetch uses the chroma sampler; the blend of the four wrapped fetches is fatal exactly outside 1 to 3 planes and otherwise has a value |
| YCbCrReconstruct.ExplicitX4Sample | lgc/builder/llpcSamplerYCbCrHandler.cpp:747-762 | every fetch uses the chroma sampler; the blend of the four X paths always has a value |
| YCbCrReconstruct.ExplicitXY4Sample | lgc/builder/llpcSamplerYCbCrHandler.cpp:731-746 | every fetch uses the chroma sampler; the blend of the four XY paths is fatal exactly outside 2 or 3 planes, where each path is null and `BilinearBlend` dereferences it, and otherwise has a value |
| YCbCrReconstruct.LumaFetch | lgc/builder/llpcSamplerYCbCrHandler.cpp:586-592 | the luma fetch uses the sample info's image and sampler descriptors at (S, T) as given |
| YCbCrReconstruct.ChromaFetchCount | lgc/builder/llpcSamplerYCbCrHandler.cpp:641-779 | the number of chroma fetches of each strategy, from one to thirty-two |
| YCbCrReconstruct.FullResolutionChroma | lgc/builder/llpcSamplerYCbCrHandler.cpp:643-651 | without subsampling the chroma is one wrapped fetch at (U, V), whatever the filters and the forcing flag |
| YCbCrReconstruct.ImplicitFetchSite | lgc/builder/llpcSamplerYCbCrHandler.cpp:665-677 | for an implicit-reconstruction plan (not forced explicit) that is subsampled in X and has one or two planes, chroma is a single fetch at the implicit chroma coordinate of U over the halved width; three-plane images make two chroma fetches and are not covered by this lemma |
| YCbCrReconstruct.Assemble | lgc/builder/llpcSamplerYCbCrHandler.cpp:782 | the assembled sample is (Cr, Y, Cb, A), with Y and A from the luma fetch |
| YCbCrReconstruct.ApplySwizzle | lgc/builder/llpcSamplerYCbCrHandler.cpp:785-790 | output lane k is the sample lane that swizzle k's channel selects |
| YCbCrReconstruct.SwizzleSelects | lgc/builder/llpcSamplerYCbCrHandler.cpp:785-790 | R, G, B and A select their own lane; Zero and One select lanes 0 and 1 of the sample, not the constants 0 and 1 |
| YCbCrReconstruct.IdentitySwizzle | lgc/builder/llpcSamplerYCbCrHandler.cpp:785-790 | the identity mapping leaves the assembled sample unchanged |
| YCbCrReconstruct.YCbCrData | lgc/builder/llpcSamplerYCbCrHandler.cpp:581-791 | the data has a value exactly when the chroma reconstruction has one; lane k is then the lane of (Cr, Y, Cb, A) that swizzle k selects; a null chroma, which `CreateShuffleVector` at line 782 dereferences, is fatal, as a fatal one is; an assertion failure is passed on; the data is never null |
| YCbCrChromaDesc.Put | lgc/builder/llpcSamplerYCbCrHandler.cpp:408-437 | one `SetReg` on the luma descriptor's GFX9 view succeeds and keeps the descriptor's length |
| YCbCrChromaDesc.PutReads | lgc/builder/llpcSamplerYCbCrHandler.cpp:408-437 | after `SetReg(p, v)` parameter p reads back what its field stores of v, and every other parameter reads as before |
| YCbCrChromaDesc.PutAll | lgc/builder/llpcSamplerYCbCrHandler.cpp:408-437 | a run of `SetReg` calls keeps the descriptor's length |
| YCbCrChromaDesc.LastWrite | lgc/builder/llpcSamplerYCbCrHandler.cpp:408-437 | a parameter has a last written value exactly when some write names it |
| YCbCrChromaDesc.LastWriteAt | lgc/builder/llpcSamplerYCbCrHandler.cpp:408-437 | the last write to a parameter is the one no later write to it follows |
| YCbCrChromaDesc.PutAllReads | lgc/builder/llpcSamplerYCbCrHandler.cpp:408-437 | after a run of writes each parameter reads back its last write, and an unwritten one reads as before |
| YCbCrChromaDesc.ReadLast | lgc/builder/llpcSamplerYCbCrHandler.cpp:408-437 | a parameter whose last write was v reads back what its field stores of v |
| YCbCrChromaDesc.ReadUnwritten | lgc/builder/llpcSamplerYCbCrHandler.cpp:408-437 | a parameter no write names reads as in the luma descriptor |
| YCbCrChromaDesc.PutAllSnoc | lgc/builder/llpcSamplerYCbCrHandler.cpp:433-438 | appending a write is one more `SetReg` on the result |
| YCbCrChromaDesc.PutAllConcat | lgc/builder/llpcSamplerYCbCrHandler.cpp:433-438 | the Cr plane's writes continue from the Cb plane's descriptor: two write runs in a row are the second applied to the result of the first |
| YCbCrChromaDesc.SizeBounds | lgc/builder/llpcSamplerYCbCrHandler.cpp:398-406 | Width, Height and Pitch read as a value from 1 to 2^count |
| YCbCrChromaDesc.BiasedBound | lgc/builder/llpcSamplerYCbCrHandler.cpp:398-406 | a field below 2^n plus one stays in 1 to 2^n without wrapping |
| YCbCrChromaDesc.HalvedSize | lgc/builder/llpcSamplerYCbCrHandler.cpp:400-424 | a size of two or more halved by `>> 1` is stored exactly |
| YCbCrChromaDesc.HalvedSizeOneWraps | lgc/builder/llpcSamplerYCbCrHandler.cpp:400-408 | a size of one halves to zero, which the value − 1 encoding stores as the largest size |
| YCbCrChromaDesc.LumaReadsOf | lgc/builder/llpcSamplerYCbCrHandler.cpp:392-406 | the values read before the first write are the luma Width, Height and Pitch and one plane address per plane |
| YCbCrChromaDesc.Desc1Writes | lgc/builder/llpcSamplerYCbCrHandler.cpp:408-433 | the writes of the Cb plane's descriptor name only writable parameters |
| YCbCrChromaDesc.Desc2Writes | lgc/builder/llpcSamplerYCbCrHandler.cpp:435-438 | the writes of the Cr plane's descriptor name only writable parameters |
| YCbCrChromaDesc.ChromaPlaneDescs | lgc/builder/llpcSamplerYCbCrHandler.cpp:389-443 | the Cb plane's descriptor is built exactly for one to three planes and the Cr plane's exactly for three; both have the luma descriptor's length |
| YCbCrChromaDesc.ChromaDescsFrom | lgc/builder/llpcSamplerYCbCrHandler.cpp:408-443 | the same, given the values read before the first write |
| YCbCrChromaDesc.Desc1Last | lgc/builder/llpcSamplerYCbCrHandler.cpp:408-433 | the last value each parameter receives in each case of the plane-count switch; the parameters never written are named |
| YCbCrChromaDesc.Desc2Last | lgc/builder/llpcSamplerYCbCrHandler.cpp:435-437 | the Cr plane's writes set BaseAddress to plane 3, DstSelXYZW to 0x204 and BcSwizzle to 5, and nothing else |
| YCbCrChromaDesc.Desc1Fields | lgc/builder/llpcSamplerYCbCrHandler.cpp:408-433 | what each parameter of the Cb plane's descriptor reads, case by case, and that all others read as in the luma descriptor |
| YCbCrChromaDesc.FormatStored | lgc/builder/llpcSamplerYCbCrHandler.cpp:409 | Format stores the low nine bits of the metadata word |
| YCbCrChromaDesc.Desc1SmallCodes | lgc/builder/llpcSamplerYCbCrHandler.cpp:414-431 | the select 0x300 and the swizzles 4 and 6 are stored unchanged, and the metadata select keeps its low twelve bits |
| YCbCrChromaDesc.Desc2Fields | lgc/builder/llpcSamplerYCbCrHandler.cpp:435-438 | the Cr plane's descriptor differs from the Cb plane's only in BaseAddress (plane 3), DstSelXYZW (0x204) and BcSwizzle (5) |
| YCbCrChromaDesc.StoredSmall | lgc/builder/llpcSamplerYCbCrHandler.cpp:414-437 | a raw parameter keeps any value that fits its field |
| YCbCrChromaDesc.Desc1Halves | lgc/builder/llpcSamplerYCbCrHandler.cpp:419-433 | for two and three planes the chroma descriptor has half the luma height and pitch, for sizes of two or more |
| YCbCrChromaDesc.Desc1Width | lgc/builder/llpcSamplerYCbCrHandler.cpp:398-408 | every chroma descriptor has half the luma width, and 2^14 for a luma width of one |
| YCbCrChromaDesc.ChromaSamplerFields | lgc/builder/llpcSamplerYCbCrHandler.cpp:469-514 | the chroma sampler has FilterMode 0 (blend) and both xy filters point for Nearest or forced explicit reconstruction, linear otherwise |
| YCbCrChromaDesc.ChromaSamplerFrame | lgc/builder/llpcSamplerYCbCrHandler.cpp:469-514 | only dwords 0 and 2 of the sampler change |
| YCbCrChromaDesc.Splat | llpc/util/llpcSamplerYCbCrHelper.cpp:314-333 | a splatted scalar repeats the value in every lane, and a vector operand is kept |
| YCbCrChromaDesc.ReplaceBitsInWord | llpc/util/llpcSamplerYCbCrHelper.cpp:302-339 | the result is a scalar exactly when both operands are; a vector result has the vector operand's lane count |
| YCbCrChromaDesc.ReplaceBitsInWordBits | llpc/util/llpcSamplerYCbCrHelper.cpp:302-339 | each lane takes bits [beginBit, beginBit + adjustBits) from the shifted data and every other bit from the word |
| YCbCrChromaDesc.ScalarReplace | llpc/util/llpcSamplerYCbCrHelper.cpp:335-338 | on two scalars the replacement is the single-word bit replacement |
| YCbCrChromaDesc.RawSamplerDesc | llpc/util/llpcSamplerYCbCrHelper.cpp:343-388 | the older planner's chroma sampler has the four words of the luma one; its words are stated by `RawSamplerWord0`, `RawSamplerWord2` and `RawSamplerKept` |
| YCbCrChromaDesc.RawSamplerWord0 | llpc/util/llpcSamplerYCbCrHelper.cpp:362 | the older planner clears bits 30-31 of dword 0 |
| YCbCrChromaDesc.RawSamplerWord2 | llpc/util/llpcSamplerYCbCrHelper.cpp:373-380 | the older planner sets bits 20-23 of dword 2 to 0b0000 or 0b0101 |
| YCbCrChromaDesc.RawSamplerKept | llpc/util/llpcSamplerYCbCrHelper.cpp:382-385 | dwords 1 and 3 pass through the older planner |
| YCbCrChromaDesc.ChromaSamplerKept | lgc/builder/llpcSamplerYCbCrHandler.cpp:469-514 | dwords 1 and 3 pass through the lgc planner |
| YCbCrChromaDesc.ChromaSamplerDesc | lgc/builder/llpcSamplerYCbCrHandler.cpp:469-514 | the chroma sampler has the length of the luma sampler; its words are stated by `ChromaSamplerWord0`, `ChromaSamplerWord2` and `ChromaSamplerKept` |
| YCbCrChromaDesc.ChromaSamplerWord0 | lgc/builder/llpcSamplerYCbCrHandler.cpp:487 | the lgc planner's FilterMode write clears bits 30-31 of dword 0 |
| YCbCrChromaDesc.ChromaSamplerWord2 | lgc/builder/llpcSamplerYCbCrHandler.cpp:498-511 | its xy filter writes replace bits 20-21 and 22-23 of dword 2 |
| YCbCrChromaDesc.RawSamplerDescAgrees | llpc/util/llpcSamplerYCbCrHelper.cpp:343-388 | the older planner's raw bit edits give exactly the descriptor the lgc planner's field writes give |
| YCbCrSampler.BitsPerPixel | lgc/builder/llpcSamplerYCbCrHandler.cpp:347-348 | a single-plane format's bits per pixel is the sum of its four channel widths when that fits in 32 bits; any other plane count's is the first channel's width |
| YCbCrSampler.Resize | lgc/builder/llpcSamplerYCbCrHandler.cpp:365 | the resized list has n entries, keeps those it had up to n, and fills the rest with null descriptors |
| YCbCrSampler.YCbCrSampleInfo.constructor | lgc/builder/llpcSamplerYCbCrHandler.h:119-129 | the sample info holds the image and sampler descriptors it is given |
| YCbCrSampler.SettingsOf | lgc/builder/llpcSamplerYCbCrHandler.cpp:336-363 | the settings copy the metadata fields, with the swizzles as constructed swizzles, and pass the right inputs to the chroma descriptor writes |
| YCbCrSampler.SamplerYCbCrHelper.constructor | lgc/builder/llpcSamplerYCbCrHandler.h:178 | a default planner has no descriptors, no fetches and no sample data |
| YCbCrSampler.SamplerYCbCrHelper.Configure | lgc/builder/llpcSamplerYCbCrHandler.cpp:322-332 | the converting constructor's steps fail exactly when a swizzle exceeds A; otherwise the settings are the metadata's, the luma descriptors are the sample info's, the chroma sampler is derived from the luma one, and entry 0 of the chroma descriptors is the luma image |
| YCbCrSampler.SamplerYCbCrHelper.SetGfxIpVersion | lgc/builder/llpcSamplerYCbCrHandler.h:206 | only the generation changes |
| YCbCrSampler.SamplerYCbCrHelper.SetYCbCrConversionMetaData | lgc/builder/llpcSamplerYCbCrHandler.cpp:336-366 | the call fails exactly when a swizzle exceeds A, changing nothing; otherwise the settings are the metadata's and the chroma descriptor list has three entries |
| YCbCrSampler.SamplerYCbCrHelper.SetYCbCrSampleInfo | lgc/builder/llpcSamplerYCbCrHandler.cpp:368-380 | the luma descriptors and the initial chroma sampler are the sample info's; chroma entry 0 is the luma image |
| YCbCrSampler.SamplerYCbCrHelper.GenSamplerDescChroma | lgc/builder/llpcSamplerYCbCrHandler.cpp:382-387 | the chroma sampler is the luma sampler with FilterMode and xy filters set for the chroma filter |
| YCbCrSampler.SamplerYCbCrHelper.GenImgDescChroma | lgc/builder/llpcSamplerYCbCrHandler.cpp:389-443 | on GFX9 chroma entries 1 and 2 are the descriptors those writes produce and the extent is the luma Width and Height; any other generation is fatal and changes nothing, GFX10 either in the layout (below 8 bits per pixel) or at the Pitch read |
| YCbCrSampler.SamplerYCbCrHelper.SetCoord | lgc/builder/llpcSamplerYCbCrHandler.cpp:454-465 | the coordinates become (S, T), their texel coordinates over the luma extent, and the texels the luma filter picks from them |
| YCbCrSampler.SamplerYCbCrHelper.SampleYCbCrData | lgc/builder/llpcSamplerYCbCrHandler.cpp:581-791 | one luma fetch with the sample info's descriptors, then the chroma fetches of the chosen strategy; the data is the assembled, swizzled sample; the sample info is left with the chroma sampler and the image of the last fetch; the data is never null, a null chroma being fatal |
| YCbCrSampler.SamplerYCbCrHelper.ConvertColorSpace | lgc/builder/llpcSamplerYCbCrHandler.cpp:445-452 | the result is the colour conversion of the sample data under the metadata's model, range and channel depths, or the failure the sample data holds |
| YCbCrSampler.ChromaSlots | lgc/builder/llpcSamplerYCbCrHandler.cpp:417-438 | entries 1 and 2 take the descriptors that were produced; entry 0, and any entry left unproduced, keep their contents |
| YCbCrSampler.BuildChromaDescs | lgc/builder/llpcSamplerYCbCrHandler.cpp:391-443 | the register work is fatal exactly off GFX9, GFX10 below 8 bits per pixel included; otherwise it reads the luma Width and Height and yields the chroma descriptors the writes produce |
| YCbCrSampler.ReadLuma | lgc/builder/llpcSamplerYCbCrHandler.cpp:392-406 | the reads leave the descriptor unchanged and give the layout, plane addresses and sizes of the luma descriptor; off GFX9 the layout (GFX10 below 8 bits per pixel) or the Pitch read is fatal |
| YCbCrSampler.WriteChromaDescs | lgc/builder/llpcSamplerYCbCrHandler.cpp:408-443 | the write sequence on the handler gives the Cb plane's descriptor and, for three planes, the Cr plane's |
| YCbCrSampler.YCbCrGenerateSamplerDesc | lgc/builder/llpcSamplerYCbCrHandler.cpp:469-514 | the three field writes through the sampler register helper give the chroma sampler |
| YCbCrSampler.PutDesc1 | lgc/builder/llpcSamplerYCbCrHandler.cpp:408-433 | the `SetReg` calls for the Cb plane apply its write list in order |
| YCbCrSampler.PutDesc2 | lgc/builder/llpcSamplerYCbCrHandler.cpp:435-437 | the `SetReg` calls for the Cr plane apply its write list in order |
| SpirvInstruction.Resized | translator/lib/SPIRV/libSPIRV/SPIRVInstruction.h:276 | a resized operand vector has the new length, keeps its words up to it and is zero beyond |
| SpirvInstruction.WordCountFor | translator/lib/SPIRV/libSPIRV/SPIRVInstruction.h:252-257 | the word count for n operand words is n plus the opcode word, the id and the type, modulo 2^32 |
| SpirvInstruction.OperandWords | translator/lib/SPIRV/libSPIRV/SPIRVInstruction.h:269-275 | a word count covering the fixed words leaves that many operand words fewer; a smaller one wraps to a count near 2^32 |
| SpirvInstruction.ExpectedNumOperands | translator/lib/SPIRV/libSPIRV/SPIRVInstruction.h:239-247 | the assertion fails exactly for a word count of 0; otherwise the operand count plus the fixed words is the word count |
| SpirvInstruction.OperandsRoundTrip | translator/lib/SPIRV/libSPIRV/SPIRVInstruction.h:239-268 | the expected operand count of the word count computed for n operands is n, unless the count wraps |
| SpirvInstruction.WordCountRoundTrip | translator/lib/SPIRV/libSPIRV/SPIRVInstruction.h:239-275 | a word count covering the fixed words is the word count computed for the operands it leaves |
| SpirvInstruction.SetWordCountKeepsOps | translator/lib/SPIRV/libSPIRV/SPIRVInstruction.h:252-277 | setting the word count that setOpWords computed leaves the operand words unchanged |
| SpirvInstruction.LiteralsOf | translator/lib/SPIRV/libSPIRV/SPIRVInstruction.h:217-236 | the recorded literal indices are the three template arguments other than ~0U |
| SpirvInstruction.InstTemplate.constructor | translator/lib/SPIRV/libSPIRV/SPIRVInstruction.h:217-231 | an instruction without an id has no type; the word count is the template's; exactly the template's literal indices other than ~0U are literal |
| SpirvInstruction.InstTemplate.AddLit | translator/lib/SPIRV/libSPIRV/SPIRVInstruction.h:233-236 | an index becomes literal unless it is ~0U, and nothing else changes |
| SpirvInstruction.InstTemplate.SetOpWords | translator/lib/SPIRV/libSPIRV/SPIRVInstruction.h:252-268 | the assertion fails exactly when a set word count differs from the computed one and may not grow to it; otherwise the operands are stored with the computed word count, a fixed word count never changes, and the expected operand count is the number of operands |
| SpirvInstruction.InstTemplate.SetWordCount | translator/lib/SPIRV/libSPIRV/SPIRVInstruction.h:269-277 | the word count is stored and the operands are resized to the operand words it leaves, so the expected operand count is their number |
| SpirvInstruction.MemoryAccess.constructor | translator/lib/SPIRV/libSPIRV/SPIRVInstruction.h:387 | a default memory access has mask and alignment 0 |
| SpirvInstruction.MemoryAccess.Update | translator/lib/SPIRV/libSPIRV/SPIRVInstruction.h:389-399 | the assertion fails exactly for more than two words or an aligned mask without its second word; an empty list changes nothing; otherwise the mask is the first word and the alignment the second when the mask has the Aligned bit |
| SpirvInstruction.NewMemoryAccess | translator/lib/SPIRV/libSPIRV/SPIRVInstruction.h:382-385 | built from a word list, the memory access fails as the update does, and otherwise has that mask and alignment over zero defaults |
| SpirvInstruction.LiteralsCount | translator/lib/SPIRV/libSPIRV/SPIRVInstruction.h:1183-1187 | a case has at least one literal word; a selector of 32 bits or less has one, and a wider one as many as whole words fit, covering it exactly when its width is a multiple of 32 |
| SpirvInstruction.Flatten | translator/lib/SPIRV/libSPIRV/SPIRVInstruction.h:1165-1169 | the pair words hold at least one word per case |
| SpirvInstruction.FlattenLength | translator/lib/SPIRV/libSPIRV/SPIRVInstruction.h:1160-1169 | with k literals per case there are k + 1 pair words per case |
| SpirvInstruction.CaseAt | translator/lib/SPIRV/libSPIRV/SPIRVInstruction.h:1190-1204 | the case read back at a pair index has k literal words |
| SpirvInstruction.FlattenRoundTrip | translator/lib/SPIRV/libSPIRV/SPIRVInstruction.h:1165-1204 | reading the pair words back case by case gives the cases |
| SpirvInstruction.CaseAtPrefix | translator/lib/SPIRV/libSPIRV/SPIRVInstruction.h:1190-1204 | a case already in the pair words reads the same after more words are appended |
| SpirvInstruction.CaseAtEnd | translator/lib/SPIRV/libSPIRV/SPIRVInstruction.h:1165-1204 | a case appended after i whole cases reads back as case i |
| SpirvInstruction.Switch.PairSize | translator/lib/SPIRV/libSPIRV/SPIRVInstruction.h:1188 | the pair size is the literal count plus the label, at least two |
| SpirvInstruction.Switch.NumPairs | translator/lib/SPIRV/libSPIRV/SPIRVInstruction.h:1189 | the number of pairs is how many whole pairs the pair words hold |
| SpirvInstruction.Switch.SetWordCount | translator/lib/SPIRV/libSPIRV/SPIRVInstruction.h:1205-1208 | the word count is stored and the pair words are resized to the words after the fixed three, so a word count of three or more matches them |
| SpirvInstruction.NewSwitch | translator/lib/SPIRV/libSPIRV/SPIRVInstruction.h:1158-1172 | no cases is fatal; otherwise the assertion fails exactly when the 32-bit word count or the pair-size test disagrees with the pair words; a valid switch holds the pair words of its cases, and cases of the selector's literal count give as many pairs as cases |
| SpirvInstruction.SwitchOfUniformCases | translator/lib/SPIRV/libSPIRV/SPIRVInstruction.h:1158-1213 | cases of the selector's literal count make the word count match the pair words, a whole number of pairs, one per case |
| SpirvInstruction.Phi.NumPairs | translator/lib/SPIRV/libSPIRV/SPIRVInstruction.h:929-950 | a valid phi has half as many pairs as pair words |
| SpirvInstruction.Phi.AddPair | translator/lib/SPIRV/libSPIRV/SPIRVInstruction.h:918-923 | the pair is appended and the word count recomputed; validation fails exactly when the counts disagree, and on a valid phi without wrap-around it passes with one pair more |
| SpirvInstruction.Phi.SetPairs | translator/lib/SPIRV/libSPIRV/SPIRVInstruction.h:924-928 | the pairs are stored with their word count; validation fails exactly for an odd number of words or a word count that wraps |
| SpirvInstruction.Phi.SetWordCount | translator/lib/SPIRV/libSPIRV/SPIRVInstruction.h:951-954 | the word count is stored and the pair words are resized to the words after the fixed three |
| SpirvInstruction.NewPhi | translator/lib/SPIRV/libSPIRV/SPIRVInstruction.h:908-915 | the constructor fails its assertion exactly for an odd number of pair words or a wrapping word count, and otherwise gives a valid phi of those pairs |
| SpirvInstruction.BranchConditional.constructor | translator/lib/SPIRV/libSPIRV/SPIRVInstruction.h:851-857 | the unweighted branch has four words and no weights, and is valid |
| SpirvInstruction.BranchConditional.Weighted | translator/lib/SPIRV/libSPIRV/SPIRVInstruction.h:858-868 | the weighted branch has six words, the true weight first, and is valid |
| SpirvInstruction.BranchConditional.SetWordCount | translator/lib/SPIRV/libSPIRV/SPIRVInstruction.h:881-884 | the weights are resized to the words after the fixed four; the branch is then valid exactly for word counts 4 and 6 |

The older planner in llpc/util/llpcSamplerYCbCrHelper.cpp (wrapped sample at 44-99,
reconstruction at 101-277, range expansion at 392-455, model conversion at 457-610 and the
coordinate helpers at 612-673) performs the same builder calls, statement for statement, as
lgc/builder/llpcSamplerYCbCrHandler.cpp:43-297, 518-579 and 795-1012; only its assertion macro and
casts differ. Those functions are modelled once, by the `YCbCrMath` and `YCbCrReconstruct`
members above; its sampler-descriptor code, which does differ, has its own rows.

## Left out

- LLVM IR construction: `Builder`, `Value*`, casts, instruction names, intrinsic declarations, `Register`/`UnRegister` of the planner are not modelled; each call is modelled by the value it computes.
- The image sample primitive `YCbCrCreateImageSampleInternal` and hardware filtering: the fetch is a function parameter, and each call is recorded as a tap.
- IEEE-754 effects: `fadd`, `fmul` and `fdiv` are exact real operations, `floor` is the real `.Floor` and `fptosi` of a whole number is that integer; rounding and out-of-range conversions are not modelled.
- The floating `log2` of the GFX10 tile-optimal path is an integer `Log2`; `YCbCrLayout.TileBpp` requires the element size to be a power of two of at most 2^16 bytes.
- YCbCrAddress.LayoutInputs: for tile-optimal GFX10 descriptors with a non-zero element size, the layout operations require `TileBpp`, because the model computes `log2` exactly only for power-of-two sizes and does not model the truncation of the floating result for other sizes, nor the oversized shifts above 2^16 bytes. A zero element size is modelled as the `Fatal` path.
- The BT.601, BT.709 and BT.2020 coefficients are the decimal constants of the source read as reals; no claim about their numeric accuracy is made.
- `SamplerYCbCrConversionMetaData` bit-field parsing is not modelled (its header is not part of this model): the metadata is a record of already-decoded fields, and `GfxIpVersion` is its `major` number only.
- Of the sample info, only the descriptors, coordinates and the fetch matter here; the result type, dimension, flags, address and instruction name are left out.
- The lgc-side register handlers (`lgc::SqImgRsrcRegHandler`, `lgc::SqImgSampRegHandler`, `SqRsrcRegs`) are not part of this model; they are modelled by the llpc/util classes. With those, the GFX10 image descriptor has no Pitch field, so `YCbCrSampler.SamplerYCbCrHelper.GenImgDescChroma` is fatal for any generation but 9.
- The converting constructor (lgc/builder/llpcSamplerYCbCrHandler.cpp:322-333) is not one member: `YCbCrSampler.SamplerYCbCrHelper.Configure` models its first five steps and returns the new helper, and the caller then calls `GenImgDescChroma` on it; the Dafny `constructor` models the default constructor.
- `GfxRegHandler.GfxIpRegHandlerBase`: the register has 1 to 32 dwords, because the dirty mask is one 32-bit word and `1 << i` for i ≥ 32 is undefined in C++.
- SPIR-V stream encode and decode, `getEncoder`/`getDecoder`, capability reporting and the opcode typedef tables are not modelled.
- SPIR-V `validate()`: only the word-count and pair-count checks are modelled; the checks that query `SPIRVModule` or `SPIRVType` (forward references, operand types) are left out.
- SPIR-V `foreachPair` does not filter pairs through `Module->exist`; it yields every pair.
- `isVolatile`, `isNonTemporal`, `getOperands` and the instruction classes other than the template base, OpSwitch, OpPhi, OpBranchConditional and the memory-access mix-in are not modelled.
- SPIR-V `resize` to a wrapped, very large count is modelled as a sequence of that length; `std::length_error` and allocation failure are not modelled.
- The default SPIR-V constructors that leave an instruction incomplete (no module, no operands) are not modelled.
- `SpirvInstruction.OperandWords`: when the word count is below the fixed words, the result is only bounded below (it wraps to at least 2^32 − 3), not given exactly.
- `YCbCrSampler.BitsPerPixel`: when the four bit counts of a single-plane format sum to 2^32 or more, the wrapped sum is not stated.
- The `GfxRegHelper` destructor, `m_pRGBAData` and the unused `pPitchR1M1` (llpc/builder/llpcSamplerYCbCrHelper.h:226) are not modelled.
- `YCbCrMath.ExpandBits`: full range needs the Cr and Cb bit counts in 1..31 and narrow range needs all three in 8..31. Outside these limits the shifts `1u << (bits - 1)` and `1u << (bits - 8)` (lgc/builder/llpcSamplerYCbCrHandler.cpp:530-531, 548-550, 560-562) are undefined in C++, so those bit depths are left out. The YCbCr formats of Vulkan use 8 to 16 bits per component.
- There is no concurrency in these files.

## Findings

| source | as written | input that shows it | evidently intended | confidence | as-written member | corrected member |
|---|---|---|---|---|---|---|
| llpc/util/llpcGfxRegHandler.cpp:62-66 | the scalar branch of `SetRegister` appends one empty slot and keeps the slots cached for the previous register | a view bound to a one-dword register whose dword 0 was read (slot `Some(1)`), then re-bound to a scalar: two slots, slot 0 still `Some(1)`, so `GetDWord(0)` returns the old dword | like the vector branch, clear the slots and leave exactly one empty slot | medium, not executed | GfxRegHandler.ScalarRebindKeepsStaleSlot | GfxRegHandler.GfxIpRegHandlerBase.SetRegister |
| llpc/util/llpcSamplerYCbCrHelper.h:95-100 | the older `ComponentSwizzle::operator=` replaces the value but not the channel | construct from R (channel 0), assign A: `GetChannel()` returns 0, where a swizzle built from A returns 3 | set the channel with the value, as the newer copy and the constructor do | medium, not executed (the callers in that older copy are not part of this model) | YCbCrTypes.LegacyAssignKeepsStaleChannel | YCbCrTypes.Assign |
