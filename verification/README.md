# Binder type constraints (terrier `BinderSherpa`)

A Dafny model of the type-constraint logic the terrier SQL binder uses while
it walks a parsed expression tree: the per-pass constraint store, the pairwise
reconciler `SetDesiredTypePair`, the validator `CheckDesiredType`, and the
literal coercion `CheckAndTryPromoteType`, all from
`src/binder/binder_sherpa.cpp`.

Modelling choices:

- Expression nodes are named by their index in the pass's node arena
  (`NodeId = nat`) instead of by address; the resolved type of every node is
  the `Arena` (`seq<TypeId>`), and the constraint store is `map<NodeId, TypeId>`.
- Thrown binder exceptions become `Result`/`Outcome` values carrying a
  `Failure`: `ConstraintViolated`, `OutOfRange`, `Unparsable`,
  `UnsupportedCoercion`. A failed coercion returns `Err` and the caller keeps
  its node as it was; a successful one returns the new node.
- A constant is a `Constant(typ, val)` with a small `Value` datatype in place
  of the execution engine's payload classes.
- `Peek<intN_t>` is an explicit two's-complement truncation to the width of the
  node's type (`Types.PeekInt`); `IsRepresentable<intN_t>` is the range check
  [-2^(N-1), 2^(N-1)-1]; the casts of parsed dates and timestamps to
  `uint32_t`/`uint64_t` are explicit reductions modulo 2^32 and 2^64.
- `std::stol` is a strict base-10 parser (`IntText.StoL`): an optional sign and
  at least one digit, covering the whole text; a numeral outside the 64-bit
  `long` range is a range failure, as `std::out_of_range` is.
- Collaborators whose code is not part of this model are parameters
  (`Coercion.Collaborators`): the date and timestamp parsers, the
  floating-point parse behind `std::stod`, and the numeric cast
  `TryCastNumericAll`.
- `ReportFailure` is taken to end the binding pass like the thrown exceptions
  do, so the `SetValue` after it on lines 123 and 133 is reached only when the
  parse succeeded.

Working types are taken as a pair: once either side is constrained, an
unconstrained side keeps `INVALID` rather than its resolved type (lines 15-37);
only when neither side is constrained are both resolved types used.
`Reconciler.WorkingTypesVersusPerSide` states exactly when this differs from a
per-side fallback, in which each unconstrained side would use its own resolved
type.

## Model

| member | source | states |
|---|---|---|
| ConstraintStore.SetDesiredType | src/binder/binder_sherpa.cpp:53-63 | Recording a constraint sets that node's entry, adds only that key, and keeps every other entry (last write wins). |
| ConstraintStore.GetDesiredType | src/binder/binder_sherpa.cpp:20-31 | A lookup finds a requirement exactly when the node has an entry, and returns that entry. |
| ConstraintStore.GetAfterSet | src/binder/binder_sherpa.cpp:20-31 | After recording a type for a node, a lookup of that node finds the new type and a lookup of any other node finds what it found before. |
| Reconciler.WorkingTypes | src/binder/binder_sherpa.cpp:15-37 | A constrained side's working type is its constraint; if exactly one side is constrained the other side's working type is INVALID; only if neither is constrained are both the resolved types; one node paired with itself has equal working types. |
| Reconciler.WorkingTypesVersusPerSide | src/binder/binder_sherpa.cpp:15-37 | The pair reading of working types equals the per-side fallback reading iff both or neither side is constrained, or every unconstrained side resolves to INVALID. |
| Reconciler.SetDesiredTypePair | src/binder/binder_sherpa.cpp:13-65 | Equal working types (both INVALID included) leave the store unchanged; otherwise a side is constrained to the other side's original working type iff that type is not INVALID and the side's own is INVALID, VARCHAR or INTEGER; exactly those keys are added, unpromoted sides keep their entries and every other key is untouched. |
| Reconciler.SetDesiredTypePairSymmetric | src/binder/binder_sherpa.cpp:49-63 | Reconciling (right, left) yields the same store as (left, right): the writes are mirrored because both checks use the original working types. |
| Reconciler.VarcharIntegerExchange | src/binder/binder_sherpa.cpp:49-63 | When left is constrained to VARCHAR and right to INTEGER, both checks fire and the two constraints are exchanged. |
| Validator.CheckDesiredType | src/binder/binder_sherpa.cpp:67-75 | Fails, with a constraint violation, iff the node has an entry that differs from its resolved type; with no entry it always passes. |
| Types.Truncate | src/binder/binder_sherpa.cpp:91-109 | Truncation to an N-bit signed width lands in the width's range, is congruent to the input modulo 2^N, and is the identity on values already in range. |
| Types.PeekInt | src/binder/binder_sherpa.cpp:91-109 | Reading an integer node at its native width gives a value in that width's range, and the stored integer itself when it fits. |
| IntText.ParseInteger | src/binder/binder_sherpa.cpp:137-168 | The strict parse succeeds iff the text is an optional sign followed by one or more digits; an unsigned numeral parses to a non-negative value. |
| IntText.StoL | src/binder/binder_sherpa.cpp:137-168 | Succeeds iff the text is a numeral whose value fits a 64-bit long, returning the parsed value; non-numerals are unparsable and oversized numerals are out of range. |
| IntText.ParsePlusSign | src/binder/binder_sherpa.cpp:137-168 | A leading '+' on any digit run leaves the parsed value unchanged. |
| IntText.ParseMinusSign | src/binder/binder_sherpa.cpp:137-168 | A leading '-' on any digit run parses to the negation of the run's value. |
| IntText.ParseLeadingZero | src/binder/binder_sherpa.cpp:137-168 | A leading zero on any digit run leaves the parsed value unchanged. |
| IntText.ParseShow | src/binder/binder_sherpa.cpp:137-168 | Parsing the canonical decimal text of any integer gives that integer back. |
| IntText.StoLShow | src/binder/binder_sherpa.cpp:137-168 | The canonical text of an integer is accepted by the long parse exactly when the integer fits a long. |
| Coercion.PromoteText | src/binder/binder_sherpa.cpp:113-186 | Text to an integer type succeeds iff it parses as a long that fits the target, giving that value, and otherwise reports the parse or range failure; text to DATE, TIMESTAMP or DECIMAL succeeds iff the collaborator parses it, else is unparsable; any other target is unsupported; every success has the target type and a payload that fits it. |
| Coercion.CheckAndTryPromoteType | src/binder/binder_sherpa.cpp:77-193 | Equal types leave any node, a typed NULL included, as it is; an INVALID node always becomes a NULL of the desired type; integer nodes go to the numeric cast with their value read at native width; VARCHAR nodes take the text branch; DECIMAL, DATE and TIMESTAMP nodes fail as unsupported; outside the numeric cast every success has the desired type and a fitting payload. |
| Coercion.TextToIntegerRangeLaw | src/binder/binder_sherpa.cpp:137-168 | The text of any integer v coerces to an integer type iff v is in that type's signed range, and then to exactly v; otherwise it fails as out of range. |
| BindingPass.CoercionDischargesConstraint | src/binder/binder_sherpa.cpp:67-75 | After a successful coercion of a non-integer constant to its recorded constraint, validating that node passes. |
| BindingPass.ReconciledSideValidation | src/binder/binder_sherpa.cpp:53-55 | A side the reconciler promoted passes validation iff its final type is the other side's working type. |
| BindingPass.NullBesideInteger | src/binder/binder_sherpa.cpp:85-87 | A NULL beside an INTEGER literal is constrained to INTEGER, becomes a NULL INTEGER, and then passes validation; coercing that typed NULL to INTEGER again leaves it as it is. |
| BindingPass.TextLiterals | src/binder/binder_sherpa.cpp:137-160 | The text "300" fails to fit TINYINT as out of range; the text "123" becomes the INTEGER 123. |

## Left out

- `TryCastNumericAll` (integer-to-integer and integer-to-DECIMAL casts, lines 91-109) is defined in the binder header, which is not part of this model; it is a collaborator parameter, so no widening or narrowing law for integer sources is stated.
- `ParseDate`, `ParseTimestamp` and `std::stod` are collaborator parameters returning `Option`; their formats and floating-point behaviour are not modelled.
- `IntText.StoL`: stricter than `std::stol`, which also skips leading whitespace and accepts a trailing non-numeric suffix; the model accepts only a whole-text sign-and-digits numeral.
- `Coercion.CheckAndTryPromoteType`: when the current and desired types differ, requires the payload to be readable at the node's width (integer nodes hold an integer, VARCHAR nodes hold text); with equal types any payload, a typed NULL included, is left as it is. How a NULL payload of a typed node reads at its width is defined in the header, so coercing an already-typed NULL to a different type is not modelled.
- The distinction between the exception classes thrown (binder exceptions versus `std::invalid_argument`/`std::out_of_range` escaping from `std::stol`) is reduced to the `Failure` kind; all are fatal to the pass.
- Address-derived keys (`reinterpret_cast<uintptr_t>` of the node) and node lifetimes are replaced by arena indices; the store's per-pass lifetime is the caller's concern.
- The failure messages are not modelled.
