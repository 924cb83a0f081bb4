// Shared result types for the model.
//
// The C++ code has three ways of not producing a value: it may return a null
// `Value*`, it may abort (through `llvm_unreachable` / `LLPC_NEVER_CALLED`, an
// uncaught exception or a fault), or a debug `assert` may fail. The model keeps
// the three apart so that each error path of the source is visible in the
// contracts.
module Outcomes {

  datatype Option<+T> = None | Some(value: T)

  datatype Outcome<+T> =
    | Value(value: T)
    /** the source returns `nullptr` */
    | NullValue
    /**
     * the source reaches `llvm_unreachable` or `LLPC_NEVER_CALLED`, throws
     * `std::out_of_range` from `at(0)` on an empty OpSwitch case list,
     * dereferences the missing GFX10 Pitch table entry or a null chroma
     * value, or divides by a zero element size in the GFX10 plane layout
     */
    | Fatal
    /** a debug `assert` of the source fails */
    | AssertFails
}
