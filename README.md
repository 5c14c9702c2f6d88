# Constant promotion in MIR

A model of rustc's MIR pass that promotes borrows of constant rvalues
(`src/librustc_mir/transform/promote_consts.rs`), with proofs about it.

A promotable rvalue is a tree of temporaries. Each temporary in it has
exactly one initialization and at least one direct use. The pass moves such
a tree (or copies it, when a temporary in it is also used elsewhere) into a
new constant MIR body. It appends that body to the source's `promoted` list
and replaces the borrow by a `Literal::Promoted` that carries the body's
index. The pass has three parts:

- **Collection** (`Collect`, `TempStates`). The `TempCollector` walks the
  blocks in a given order. It drives a state machine per temporary:
  `Undefined`, `Defined{location, uses}`, `Unpromotable` and `PromotedOut`.
  A definition's location is its block and the number of statements before
  it, so a call terminator records the statement count.
- **Extraction** (`Promote`). The `Promoter` class holds the source body, the
  new body, the shared state table and the `keep_original` flag.
  - `PromoteTemp` takes a temporary's definition out of the source, or
    copies it while originals are kept. A definition is an assignment's
    right-hand side or a call.
  - It then promotes every temporary the definition reads, declares a fresh
    temporary with the same type, and emits the definition into the new body.
  - `PromoteCandidate` places the promoted constant at the root site and
    assigns the root value to the new body's return place.
- **Driver and cleanup** (`Driver`). `PromoteCandidates` handles the
  candidates last to first. It skips a borrow whose temporary was already
  moved out. It then deletes assignments to moved-out temporaries and turns
  their drops into jumps.

`Mir` holds the IR fragment. `Sites` holds the facts about definition sites
and the edits the promoter may make to the source. `Findings` holds one
defect of the code as written.

Design of the proofs:

- **Termination.** The source assumes that every use is dominated by the
  temporary's initialization, so definitions cannot reach themselves. The
  model states this assumption as a ghost acyclicity rank (`Sites.Ranked`).
  The rank is a precondition, and it is the termination measure of the
  recursion through `PromoteTemp`.
- **Definition sites are never bad.** The collector proves that every
  `Defined` entry points at a statement assigning the temporary, or at a
  call whose destination is that temporary (`Sites.DefSites`). The promoter
  keeps this invariant. So the internal-error branches for a malformed
  definition site (lines 244-246 and 278) cannot be reached.
- **Error branches become results.** The internal error for a temporary that
  is not promotable (line 204) depends on state, so the model returns
  `Err(NotPromotable(i))` there. The driver returns `Err` for a shuffle
  candidate that is not a call (line 358), and for one with fewer than three
  arguments (the `args[2]` index at line 355).

Two behaviours of the code that are easy to misread:

- When originals are kept, the copied call keeps its `cleanup` edge
  (lines 227-230), and only a moved call loses it.
- A promoted call ends the block that was last until then, and the fresh
  block it appends is the call's continuation (lines 270-283). The call is
  not placed inside the fresh block.

What the walk does is also written as ghost functions of the promoter's
state, one per method of the walk (`TempWalk`, `CopyWalk`,
`DefinitionWalk`, `RvalueWalk`, `OperandsWalk`, `OperandWalk`,
`LvalueWalk`, `CandidateWalk`). Each method ensures that its answer and the
state it leaves equal that function of the state it started in. The
function is its exact specification: every branch, every error and every
table update. The other clauses are proved facts about that outcome.

Lvalue contexts come from rustc's MIR visitor, which is not part of this
model. They are fixed here as follows:

- an assignment's destination is a store, visited before the right-hand
  side;
- a call visits its callee, then its arguments, then its destination as a
  call write;
- a borrow's place is a borrow, and an operand is a consume;
- `Len` and a switch's discriminant are inspections;
- a drop is a drop;
- a projection's base is a projection context, which is neither a read nor
  a write.

## Model

| member | source | states |
|---|---|---|
| TempStates.IsPromotableExactly | src/librustc_mir/transform/promote_consts.rs:54-62 | a state is promotable exactly when it is `Defined` with at least one use; `Undefined`, `Unpromotable` and `PromotedOut` never are |
| TempStates.Transition | src/librustc_mir/transform/promote_consts.rs:83-117 | one occurrence never moves a state back; `Unpromotable` is final; a new `Defined` arises only from `Undefined` by a store or call write, at the current location with no uses; a `Defined` entry keeps its location and never loses uses |
| TempStates.TransitionRules | src/librustc_mir/transform/promote_consts.rs:83-117 | drop occurrences change nothing; `Undefined` with a store or call write becomes `Defined(loc, 0)`; `Defined` with a borrow, consume or inspect gains one use; every other combination becomes `Unpromotable` |
| TempStates.LvalueStepFacts | src/librustc_mir/transform/promote_consts.rs:83-117 | visiting a place only progresses states, and can define only that place's temporary, at the current location |
| TempStates.StatementStepFacts | src/librustc_mir/transform/promote_consts.rs:120-125 | visiting a statement only progresses states, and can define only the temporary it assigns, at the statement's location |
| TempStates.TerminatorStepFacts | src/librustc_mir/transform/promote_consts.rs:127-130 | visiting a terminator only progresses states, and can define only a call's destination temporary, at the terminator's location |
| Collect.TempCollector.constructor | src/librustc_mir/transform/promote_consts.rs:139-147 | one `Undefined` entry per declared temporary, the walk at block 0, statement 0 |
| Collect.TempCollector.VisitLvalue | src/librustc_mir/transform/promote_consts.rs:83-117 | the table after the visit is the state machine applied to the place's temporaries; the location is unchanged |
| Collect.TempCollector.VisitStatement | src/librustc_mir/transform/promote_consts.rs:120-125 | the statement's occurrences are applied at the current location, then the statement index advances by one |
| Collect.TempCollector.VisitTerminator | src/librustc_mir/transform/promote_consts.rs:127-130 | the terminator's occurrences are applied at the location after the last statement |
| Collect.TempCollector.VisitBasicBlockData | src/librustc_mir/transform/promote_consts.rs:132-136 | the walk restarts at statement 0 of the block, applies every statement in order and then the terminator, and the table equals the block fold `ApplyBlock` |
| Collect.TempCollector.VisitOperand | src/librustc_mir/transform/promote_consts.rs:83-117 | a consumed place is visited as a consume, and a constant changes nothing; the table is `OperandStep` and the location is unchanged |
| Collect.TempCollector.VisitOperands | src/librustc_mir/transform/promote_consts.rs:83-117 | the operands are visited in order; the table is `OperandsStep` and the location is unchanged |
| Collect.TempCollector.VisitRvalue | src/librustc_mir/transform/promote_consts.rs:83-117 | a borrow's place is a borrow, `Len` is an inspection, and operands are consumes; the table is `RvalueStep` and the location is unchanged |
| Collect.TempCollector.VisitCall | src/librustc_mir/transform/promote_consts.rs:127-130 | the callee, then the arguments, then the destination as a call write; the table is `CallStep` and the location is unchanged |
| Collect.CollectTemps | src/librustc_mir/transform/promote_consts.rs:139-152 | the result has one entry per declared temporary, equals the fold over the block order, and every `Defined` entry points at a site that defines its temporary |
| Collect.OrderProgress | src/librustc_mir/transform/promote_consts.rs:148-150 | over the whole walk no entry moves back, an `Unpromotable` entry stays so, and a `Defined` entry keeps its location |
| Collect.OrderKeepsDefSites | src/librustc_mir/transform/promote_consts.rs:148-150 | after the walk each `Defined` entry's location is a statement assigning that temporary or a call terminator whose destination is that temporary |
| Sites.MoveAssign | src/librustc_mir/transform/promote_consts.rs:217-226 | moving an assignment out (right-hand side replaced by `()`, entry made `PromotedOut`) keeps the table valid and is a move in the sense of `Moved` |
| Sites.MoveCall | src/librustc_mir/transform/promote_consts.rs:231-251 | the definition site of a call-defined temporary is a call with that destination; replacing it by a jump to the destination's target keeps the table valid and is a move |
| Sites.MovedTrans | src/librustc_mir/transform/promote_consts.rs:208-252 | two rounds of moving definitions out are one round |
| Promote.Promoter.constructor | src/librustc_mir/transform/promote_consts.rs:366-384 | a promoter over the source and table, with an empty new body of the candidate's type and `keep_original` false |
| Promote.Promoter.NewBlock | src/librustc_mir/transform/promote_consts.rs:165-177 | answers the old block count and appends an empty block ending in `return`; nothing else changes |
| Promote.Promoter.Assign | src/librustc_mir/transform/promote_consts.rs:179-186 | appends `dest = rv` to the last block of the new body; nothing else changes |
| Promote.Promoter.SetTerminator | src/librustc_mir/transform/promote_consts.rs:280-282 | block `b` of the new body gets terminator `t`; nothing else changes |
| Promote.Promoter.PushTempDecl | src/librustc_mir/transform/promote_consts.rs:261-265 | the new temporary's index is the old declaration count, its type is the source temporary's, and its origin is recorded |
| Promote.Promoter.TakeDefinition | src/librustc_mir/transform/promote_consts.rs:208-252 | the definition taken is the statement's right-hand side, or the call's callee and arguments (with cleanup only when kept); when kept, source and table are unchanged; otherwise the site becomes `()` or a jump to the call's target and the entry becomes `PromotedOut`; every temporary it reads ranks below the promoted one |
| Promote.Promoter.Inject | src/librustc_mir/transform/promote_consts.rs:267-283 | an assignment definition is appended to the last block; a call definition becomes the terminator of the block that was last, with the new temporary as destination and a freshly appended empty block as continuation; the new body is `Injected` of the old one and now defines the new temporary, so every temporary it declares is defined in it; the source, table, flag and origins are unchanged |
| Promote.Promoter.PromoteTemp | src/librustc_mir/transform/promote_consts.rs:190-289 | answer and final state are `TempWalk` of the entry state; a temporary that is not `Defined` with a use yields `NotPromotable` for itself and changes nothing; otherwise the original is kept exactly when `keep_original` was set or the temporary has more than one use, and on success the new body ends with a renamed copy of the taken definition under a fresh temporary whose origin is `i`, a kept source is unchanged, a moved one shows the site emptied and `i` as `PromotedOut`, and `keep_original` is back to its entry value; a promotable temporary fails only with `NotPromotable` for a temporary of strictly lower rank that the final table holds as not promotable; every temporary of the new body stays defined in it |
| Promote.Promoter.CopyDefinition | src/librustc_mir/transform/promote_consts.rs:212-289 | answer and final state are `CopyWalk` of the entry state: with the flag already set, it takes the definition, renames it, declares the fresh temporary and emits the definition, so that the result is promoted as `CopiedOut` states; it fails only with `NotPromotable` for a temporary ranked below `i` and not promotable in the final table |
| Promote.Promoter.RenameDefinition | src/librustc_mir/transform/promote_consts.rs:254-259 | answer and final state are `DefinitionWalk` of the entry state; the renamed definition has the same shape, each temporary replaced by a promoted one copied from it; a call keeps its cleanup; every temporary it reads was promotable at its recorded site and, when used once with the flag clear, is now `PromotedOut` with that site emptied; it fails only with `NotPromotable` for a temporary ranked below the bound and not promotable in the final table |
| Promote.Promoter.RenameRvalue | src/librustc_mir/transform/promote_consts.rs:254-257 | answer and final state are `RvalueWalk` of the entry state; the renamed rvalue has the same shape with every temporary replaced by a promoted copy of it; every temporary it reads was promotable at its recorded site and, when used once with the flag clear, is now `PromotedOut` with that site emptied; the source changes only by moves; it fails only with `NotPromotable` for a temporary ranked below the bound and not promotable in the final table |
| Promote.Promoter.RenameOperands | src/librustc_mir/transform/promote_consts.rs:254-259 | answer and final state are `OperandsWalk` of the entry state: the operands are renamed one by one, in order, each as `RenamedOperand` states, and the first error stops the walk; every temporary read was promoted as for `RenameRvalue`; it fails only with `NotPromotable` for a temporary ranked below the bound and not promotable in the final table |
| Promote.Promoter.RenameOperand | src/librustc_mir/transform/promote_consts.rs:254-259 | answer and final state are `OperandWalk` of the entry state; a consumed place is renamed; a constant is left as it is; every temporary read was promoted as for `RenameRvalue`; it fails only with `NotPromotable` for a temporary ranked below the bound and not promotable in the final table |
| Promote.Promoter.RenameLvalue | src/librustc_mir/transform/promote_consts.rs:323-331 | answer and final state are `LvalueWalk` of the entry state; a temporary is replaced by its promoted copy, which `CopiedOut` describes (copied while originals are kept or the temporary has several uses, moved out otherwise); a projection renames its base; any other place is left as it is; it fails only with `NotPromotable` for a temporary ranked below the bound and not promotable in the final table |
| Promote.Promoter.PromoteCandidate | src/librustc_mir/transform/promote_consts.rs:291-320 | answer and final state are `CandidateWalk` of the entry state; the candidate's value is replaced by promoted constant number `old |promoted|`; the new body ends by assigning a renamed copy of that value to the return place; its type is unchanged; it is appended to the source's promoted bodies; every temporary of the value was promotable and a single-use one is moved out; the rest of the source changes only by moves; it fails only with `NotPromotable` for a temporary that the final table holds as not promotable |
| Promote.PlacedValid | src/librustc_mir/transform/promote_consts.rs:300-316 | placing the constant at the candidate keeps the table valid, and every temporary of the promoted value is ranked |
| Driver.RetainStatements | src/librustc_mir/transform/promote_consts.rs:392-399 | the statements kept are exactly `Retained`: those not assigning a moved-out temporary, in order |
| Driver.RetainedMembership | src/librustc_mir/transform/promote_consts.rs:392-399 | a statement survives cleanup if and only if it was present and does not assign a moved-out temporary |
| Driver.RetainedAllKept | src/librustc_mir/transform/promote_consts.rs:392-399 | cleanup leaves a block's statements unchanged if and only if none of them assigns a moved-out temporary |
| Driver.EliminatePromoted | src/librustc_mir/transform/promote_consts.rs:389-411 | the result is `Cleaned`: each block keeps its retained statements, and a drop of a moved-out temporary becomes a jump to its target; afterwards nothing assigns or drops a moved-out temporary |
| Driver.CleanedIsClean | src/librustc_mir/transform/promote_consts.rs:389-411 | after cleanup no statement assigns, and no terminator drops, a moved-out temporary |
| Driver.CleanedIdempotent | src/librustc_mir/transform/promote_consts.rs:389-411 | cleaning twice with the same table is cleaning once |
| Driver.PromoteOne | src/librustc_mir/transform/promote_consts.rs:339-386 | the outcome and the table after the turn are `OneStep`: a borrow into a moved-out temporary is skipped and changes nothing; a shuffle site that is not a call, or has fewer than three arguments, yields that error; otherwise the outcome is exactly `Outcome`, the candidate walk from an empty new body; an error is `NotPromotable` for a temporary that the returned table holds as not promotable; on success exactly one body is appended, with the candidate's type, temporaries typed as their source originals, each defined in it, and a renamed copy of the candidate's value returned at its end; the value's temporaries were promotable and single-use ones are moved out; the source is the placed constant plus moves only |
| Driver.PromoteAt | src/librustc_mir/transform/promote_consts.rs:366-386 | a promoter started on a valid candidate site answers what the walk answers (`Walked`), with the table it reached on either outcome |
| Driver.BorrowOfSumPromoted | src/librustc_mir/transform/promote_consts.rs:190-320 | in `t0 = 1 + 2; t1 = &t0; return` the borrow is promoted: constant 0 defines its temporary 0 as the sum and returns a borrow of it, the source keeps `t0 = ()` and `t1 = promoted[0]`, and `t0` becomes `PromotedOut` |
| Driver.PromoteCandidates | src/librustc_mir/transform/promote_consts.rs:333-412 | there is a trace of states starting at the input in which step `m + 1` is a `OneStep` outcome of candidate `|candidates| - 1 - m` (last to first); the result is `Cleaned` of the last state, the final table is the last table, and an error is the `OneStep` error outcome of the next candidate together with the table that turn reached; the result also keeps the blocks, declarations and return type, extends the promoted list by at most one body per candidate, and leaves no assignment or drop of a moved-out temporary |
| Findings.KeptCallVisits | src/librustc_mir/transform/promote_consts.rs:227-258 | as written, a copied call visits its callee, its arguments and its destination temporary |
| Findings.KeptCallRevisitsItself | src/librustc_mir/transform/promote_consts.rs:197-258 | for `_0 = f(); _1 = &_0; _2 = &_0`, the collected table has `_0` Defined at the call with two uses, and visiting its kept call reaches `_0` itself, so no rank orders the walk |

## Left out

- Spans, scopes, `is_cleanup`, and the variable, argument and upvar
  declarations of the new body: they carry no behaviour here.
- Type queries (`lvalue_ty`, `operand_ty`, `FnConverging`) are calls into
  the type checker. They are the parameters `lvalueTy` and `operandTy` of
  the driver; types are opaque tokens.
- The reverse-postorder traversal is an input: a sequence of valid block
  indices.
- Deciding which borrows are promotable happens upstream. Its output is the
  candidate list, which must lie within the body, and the acyclicity rank of
  the definitions, a ghost precondition.
- rustc's full MIR visitor is replaced by the explicit context mapping
  described above.
- The IR is a fragment:
  - places are temporaries, the return place, variables and projections;
  - a projection's element, such as an index operand, is not modelled;
  - rvalues are `Use`, `Ref`, `Len`, a binary operation and aggregates;
  - other rvalue kinds would be walked the same way;
  - terminators are `Goto`, `Return`, a switch on a place, `Drop`, `Call`
    and `OtherTerminator`. `OtherTerminator` stands for `If`, `SwitchInt`,
    `Resume` and `Unreachable` and mentions no place, so a temporary read by
    an `If` condition or a `SwitchInt` discriminant cannot be written.
- Internal-error aborts are `Err` results or are proved unreachable. On an
  `Err` the model's state is whatever it had reached, where the compiler
  would have stopped.
- The `assert_eq!` at line 121 is `VisitStatement`'s precondition, which the
  block walk establishes. The `assert_eq!` at line 385 is proved.
- Index panics are preconditions: a temporary outside the table, or a
  candidate site outside the body. The exception is cleanup's `temps[index]`
  at line 390: `Driver.IsPromotedOut` answers `false` for an index outside
  the table, where the source would panic. The driver's invariant
  `SourceValid` keeps every temporary of the body inside the table, so
  `Driver.PromoteCandidates` never reaches that case.
- The `u32` and `usize` widths are not modelled: temporary indices, use
  counts and statement indices are unbounded naturals. The use increment at
  line 110, the statement-index increment at line 124 and the `as u32` cast
  at line 261 could wrap only beyond 2^64 uses, 2^64 statements in one
  block, or 2^32 temporaries.
- Promote.Promoter.RenameDefinition: while originals are kept, it visits
  only the callee and the arguments of a copied call, not its destination
  (see Findings). The source code as written does not terminate on that
  path.
- Promote.Promoter.PromoteTemp: its separate error clause reads the final
  table, in which a temporary that the walk itself moved out also counts as
  not promotable. Only the walk function `TempWalk` pins down which
  temporary fails, and where. The same holds for every method of the walk
  below it, for `Promote.Promoter.PromoteCandidate`, `Driver.PromoteOne` and
  `Driver.PromoteCandidates`.
- Driver.PromoteCandidates: no lemma says in general which candidate lists
  are promoted without error. Success is stated exactly through the walk
  functions and proved for one concrete turn in `Driver.BorrowOfSumPromoted`.

## Findings

| source | as written | input that shows it | evidently intended | confidence | as-written member | corrected member |
|---|---|---|---|---|---|---|
| src/librustc_mir/transform/promote_consts.rs:227-258 | while originals are kept, a call definition is copied whole and the copy is walked with the MIR visitor, so its destination `Temp(i)` is visited and `promote_temp(i)` starts again in an unchanged state (still `Defined`, flag still set): unbounded recursion | `bb0: _0 = f() -> bb1; bb1: _1 = &_0; _2 = &_0; return`, promoting `_0` (two uses, so the original is kept) | walk only the callee and the arguments; the destination is overwritten with the new temporary right after | not executed; medium (the recursion follows from the visitor walking call destinations) | Findings.KeptCallRevisitsItself | Promote.Promoter.RenameDefinition |
