# A verified model of near-mock

near-mock runs NEAR smart contracts off chain. This project models its hand-written cores in Dafny and proves what they
are for: secp256k1 field and curve arithmetic with a streaming SHA-256, the gas and stack instrumentation pass, the
receipt engine with its storage partitions, the folding of a receipt subtree, and the wasm `name` section.

`dafny verify dfyconfig.toml` checks everything.

## Layout

| files | what they hold |
|---|---|
| `Modular`, `Words` | congruences, primes, Fermat's little theorem; machine words and little-endian limbs |
| `FieldElement`, `Curve`, `Secp256k1` | four-limb field arithmetic; the group law of SEC 1; point operations and the ladder |
| `Bits`, `Sha256`, `Sha256Values` | the 32-bit functions and what they do to bits; the block function, padding and the two-case tail; the roots behind the tables and a published digest |
| `Wasm`, `StraightLine` | a structured wasm-like language with an interpreter (section 4.4 of the WebAssembly Core Specification) |
| `Instrument`, `Emission`, `OperatorLoop`, `InstrumentContext` | the pass on structured code, on flat operators, and as the code runs it |
| `Metered`, `Simulation`, `Erasure`, `CostModel`, `Fees`, `InstrumentTheorem`, `Boundaries`, `InstrumentedModule`, `IndexSpaces` | a reference semantics with fees and frames; instrumented run = metered run; metered run follows the plain run; fees and frame sizes in numbers; the stack budget between any two operators; the finished sections denote the transformed module, and what their indices reach |
| `Decimal`, `Storage`, `DecimalText` | balances as decimal text; keys, partitions, registers; the exact texts |
| `Receipts`, `Engine` | the receipt engine as functions on its state, and the class that mutates thread-locals step by step |
| `OnceOnly`, `Delivery`, `FinishOrder`, `DeliveryOrder`, `Isolation`, `Transfers`, `Transaction`, `Retries`, `Calls`, `Outcomes` | theorems about the engine: what runs and in which order, what each call is given, what is reported |
| `FoldSubtree`, `NameMap`, `Drawn`, `FoldOrder`, `NameCases` | the receipt subtree; the name section; lists drawn in order from others, and what the two produce in those terms |

A contract call is a function of account, method, arguments, promise results, its own keys and the next free handle; its
result is a list of storage operations, appended batches, an optional returned handle, registers, data, and whether it
trapped. Two assumptions about calls are explicit in `Receipts.WellFormed`: a call names only handles it created, in
order, and gas bounds the number of nodes. Primality of P and associativity of the group law are hypotheses of the
lemmas that need them.

## Where the code and its comments differ

The model follows the code. Each difference is a lemma.

- The partition snapshot is taken after the deposit credit, so a failed call with a deposit leaves the callee's credit
  in place while the sender is refunded (`Isolation.FailedCallBalances`, `Isolation.FailedCallRestoresIff`).
- The undo log of transfers is replayed first to last, so only the last transfer is undone (`Transfers.TransferBatch`,
  `Transfers.FailedBatchAtomicIff`, `Transfers.FailedSelfBatchLoses`).
- Batches queued by a trapped call stay (`Isolation.FailedCallKeepsBatches`) and run (`OnceOnly.OnceAndInOrder`).
- Queued receipts settle in the order of their indices; that is the eager order exactly under post-order numbering
  (`FinishOrder.EagerIsDeferredIff`, `DeliveryOrder.OutOfOrderDiffers`).
- The reload of a queue with two deferrals misdirects the deps of the second (`Delivery.SecondDeferralRebuilt`).
- Partitions are not disjoint for every two ids: an id read from guest memory may hold the separator byte
  (`Storage.PartitionsOverlapIff`, `Storage.InnerBalanceOverlaps`, `Isolation.OverlapReached`).
- A snapshot skips the key equal to the bare prefix (`Storage.OpsOutside`, `Isolation.FailedCallRestoresIff`).
- The no-register id is not counted by the register limit, and at 100 registers a replacement is accepted
  (`Storage.NoRegisterIdEscapesTheCount`, `Storage.MockState.WriteRegChecked`).
- `fe_add` is short by 2^256 - P when the sum reaches 2^256 + P, and `fe_sub` is unreduced when the difference reaches P
  (`FieldElement.FeAdd`, `FieldElement.FeSub`).
- A stack charge of zero, which the checked sum yields on overflow, would emit a malformed function
  (`Emission.ZeroChargeMalformed`); with the frame sizes of the cost configuration it takes an operand stack within
  2^37 bytes of 2^64 (`CostModel.ChargeIsZero`), so the theorems about the pass ask for positive charges.
- An infrastructure error in the returned chain rolls the store back to where the entry started, the attached deposit
  included, and the drain goes on from there (`Transaction.ChainErrorKeepsCredit`).
- A node that ends in an infrastructure error has no recorded result, so a second parent runs its actions again
  (`Retries.RunsAgain`, `Retries.TransactionAccounted`).
- A refused call keeps the attached deposit whenever the callee is deployed (`Transaction.RefusedKeepsCredit`).
- Balance additions are unchecked: a sum past 2^128 wraps, as in a release build (`Transfers.TransfersConserve`,
  `Isolation.FailedCallBalances`, `Transaction.EntryTrapAtomic`).

## Model

| member | source | states |
|---|---|---|
| Modular.Fermat | src/near_mock/schnorr.rs:242-260 | Fermat's little theorem for every prime and every base, the reason the inversion exponent works |
| Modular.PowerInverse | src/near_mock/schnorr.rs:242-260 | a times a^(p-2) is 1 modulo a prime p exactly when p does not divide a |
| Modular.SquareRootPower | src/near_mock/schnorr.rs:263-282 | for a prime p with p % 4 = 3, a^((p+1)/4) squares to a exactly when a is a square |
| FieldElement.CurveConstants | src/near_mock/schnorr.rs:111-123 | the modulus is 2^256 - 2^32 - 977 and the group order that of section 2.4.1 of SEC 2, within Hasse's bound of it |
| FieldElement.Add256 | src/near_mock/schnorr.rs:141-151 | limbs and carry out give the exact 256-bit sum |
| FieldElement.Sub256 | src/near_mock/schnorr.rs:153-169 | limbs give the exact difference, the borrow is set exactly when a < b |
| FieldElement.CondSubP | src/near_mock/schnorr.rs:171-178 | reduces every value below 2P |
| FieldElement.FeAdd | src/near_mock/schnorr.rs:180-188 | the reduced sum exactly when the sum is below 2^256 + P; beyond, short by DELTA |
| FieldElement.FeSub | src/near_mock/schnorr.rs:190-199 | congruent to a - b for all inputs, reduced exactly when a - b < P |
| FieldElement.MulWide | src/near_mock/schnorr.rs:201-222 | the schoolbook loop yields the exact 512-bit product, no u128 step losing a carry |
| FieldElement.FeMul | src/near_mock/schnorr.rs:201-236 | the fully reduced product modulo P for all 256-bit inputs |
| FieldElement.FePow | src/near_mock/schnorr.rs:250-259 | the square-and-multiply loop over any four-limb exponent computes the power modulo P |
| FieldElement.FeInv | src/near_mock/schnorr.rs:242-261 | a^(P-2) modulo P; with P prime, the inverse exactly when a is not a multiple of P |
| FieldElement.FeSqrt | src/near_mock/schnorr.rs:263-282 | a^((P+1)/4) modulo P; with P prime, a root exactly when a is a reduced square |
| FieldElement.FeModN | src/near_mock/schnorr.rs:284-291 | one conditional subtraction reduces every 256-bit value modulo the group order |
| FieldElement.FeToBeBytes | src/near_mock/schnorr.rs:293-308 | 32 bytes whose big-endian value is the element |
| FieldElement.BeBytesToFe | src/near_mock/schnorr.rs:310-325 | the element whose value is that of the 32 bytes |
| FieldElement.CodecRoundTrip | src/near_mock/schnorr.rs:293-325 | each codec undoes the other |
| Curve.SumOnCurve | src/near_mock/schnorr.rs:333-396 | the sum of two points on y^2 = x^3 + 7 by the rules of section 2.2.1 of SEC 1 is a point of the curve or infinity |
| Curve.SumUnique | src/near_mock/schnorr.rs:333-396 | those rules determine the sum, so they are a specification of the point functions |
| Curve.SumCommutes | src/near_mock/schnorr.rs:362-396 | the order of the summands does not matter |
| Curve.OppositeIsNegative | src/near_mock/schnorr.rs:362-396 | for curve points and an odd prime, the test the code makes on equal abscissas is the rule b = -a |
| Curve.SumWithNegative | src/near_mock/schnorr.rs:362-396 | a point and its negative sum to infinity |
| Curve.AddIsSum | src/near_mock/schnorr.rs:333-396 | the slope formula with Fermat inversion meets the rules in every case |
| Curve.MultipleAdd | src/near_mock/schnorr.rs:398-420 | with associativity, multiples add up, the step of the ladder |
| Secp256k1.PointDouble | src/near_mock/schnorr.rs:333-360 | for canonical input the sum of the point with itself, on the curve or infinity, infinity and y = 0 included |
| Secp256k1.PointAdd | src/near_mock/schnorr.rs:362-396 | the sum for canonical inputs in all cases, infinity operands, equal and distinct points; infinity exactly when one operand is the negative of the other |
| Secp256k1.LadderWord | src/near_mock/schnorr.rs:398-420 | one limb keeps r = (k mod 2^i) base and p = 2^i base across the limb boundary |
| Secp256k1.ScalarMul | src/near_mock/schnorr.rs:398-420 | the k-fold sum of the base for every 256-bit k, given primality and associativity |
| Sha256.ZeroCountIsLeast | src/near_mock/schnorr.rs:82-91 | the padding uses the least number of zero bytes, as section 5.1.1 of FIPS 180-4 asks |
| Sha256.BuildSchedule | src/near_mock/schnorr.rs:16-32 | the in-place schedule is the recurrence of section 6.2.2 of FIPS 180-4 |
| Sha256.Mix | src/near_mock/schnorr.rs:33-53 | sixty-four rounds give the working variables of section 6.2.2 |
| Sha256.Sha256Block | src/near_mock/schnorr.rs:15-62 | updates the digest in place to the compression of the block |
| Sha256.FinishTail | src/near_mock/schnorr.rs:82-91 | in both cases, rem < 56 and rem >= 56, the tail blocks fold to the padded remainder |
| Sha256.Sha256 | src/near_mock/schnorr.rs:64-97 | the FIPS digest, block function folded over the padded message, for every input under 2^61 bytes; its word functions, constants and rotations are those of `Bits` and `Sha256Values` |
| Bits.ChChooses | src/near_mock/schnorr.rs:36-36 | `ch` takes the bits of f where e has ones and those of g elsewhere |
| Bits.MajIsMajority | src/near_mock/schnorr.rs:43-43 | `maj` has ones exactly where two of the three words have |
| Bits.RotrRotates | src/near_mock/schnorr.rs:26-42 | a rotation moves all but the low n bits down and the low n bits to the top |
| Sha256Values.FirstPrimes | src/near_mock/schnorr.rs:4-13 | the list behind the tables: exactly the primes below 312, sixty-four of them, ascending |
| Sha256Values.Tables | src/near_mock/schnorr.rs:4-68 | the round constants are the first 32 fractional bits of the cube roots of the first 64 primes, the initial digest those of the square roots of the first eight (sections 4.2.2 and 5.3.3 of FIPS 180-4) |
| Sha256Values.DigestOfAbc | src/near_mock/schnorr.rs:15-97 | the digest of `abc` is the published one, which fixes padding, schedule, rounds and rotations |
| Instrument.ShiftedIndex | src/near_mock/instrument.rs:94-97 | every original function is reached through the index moved by three, and the hooks sit at their own indices |
| Wasm.ExecAppend | src/near_mock/instrument.rs:405-575 | running inserted code before a piece of code is running one after the other |
| StraightLine.RunLinear | src/near_mock/instrument.rs:692-731 | the emitted linear charge keeps the length operand on the stack and compares, then subtracts, length times unit plus constant |
| Simulation.SimReserve | src/near_mock/instrument.rs:485-497 | entry is refused exactly when the budget left is below the charge, else the frame's charge is taken |
| Simulation.SimUnstack | src/near_mock/instrument.rs:658-665 | the release gives back exactly the charge of the innermost frame |
| Simulation.SimLinear | src/near_mock/instrument.rs:692-731 | the emitted linear charge is the metered one |
| Simulation.SimCall | src/near_mock/instrument.rs:405-575 | for every program and call, the instrumented run is the metered run, with frames released once on fallthrough, branch, return and tail call |
| CostModel.CostModelNoWrap | src/near_mock/instrument.rs:102-132 | with the configured operator fees, a point charging fewer than 2^40 operators, at most one of them bulk, cannot wrap 64 bits for any length |
| CostModel.SumsFit | src/near_mock/instrument.rs:102-132 | the same sums fit the 64-bit fields of a fee |
| CostModel.FrameBounds | src/near_mock/instrument.rs:153-169 | a frame has 64 bytes and at most sixteen per local |
| CostModel.SizeOfFunctionActivation | src/near_mock/instrument.rs:153-169 | the loop over the runs of locals computes the frame size, and neither saturating operation saturates |
| CostModel.ChargeIsZero | src/near_mock/instrument.rs:474-474 | a charge is zero exactly when the operand stack alone is within a frame's size of 2^64, never below 2^64 - 2^36 - 64 |
| CostModel.SumsExact | src/near_mock/instrument.rs:102-132 | the fees of any stretch of operators: 26328192 and 822756 by length for each bulk operator, nothing for `block`, `end` and `else`, 822756 for every other one |
| CostModel.FrameExact | src/near_mock/instrument.rs:142-169 | a frame is 64 bytes and 4, 8 or 16 for every single local, by the type of the run it lies in |
| Fees.EntryFeeExact | src/near_mock/instrument.rs:477-482 | the entry fee is 822756 times the least number of eight-byte words that hold the frame, or 2^64 - 1 exactly when that does not fit |
| Fees.FrameFee | src/near_mock/instrument.rs:477-482 | for every frame the size configuration can give, the fee is that product and never zero |
| Fees.ChargeExact | src/near_mock/instrument.rs:474-474 | the stack charge is operand stack plus frame, or zero when the sum does not fit 64 bits |
| Fees.PointPrice | src/near_mock/instrument.rs:667-731 | a point takes constant + length * linear modulo 2^64 from the gas and records it unreduced, exactly when the gas covers it; unreachable points and zero fees take nothing |
| Fees.HostPrice | src/near_mock/hosts.rs:36-81 | a host call takes 264768111 and its own cost, or is refused with nothing taken; gas of 2^63 or more reads as none |
| Fees.AtSelects | src/near_mock/instrument.rs:447-533 | the points charged at a position are all the points that sit there, each once, in order |
| Fees.CallPrice | src/near_mock/instrument.rs:474-515 | every call of a module function, at any depth: refused unpaid exactly when operand stack and frame exceed what the live frames leave of 262144; else out of gas, or the entry fee is the first fee it pays |
| Erasure.EraseCall | src/near_mock/instrument.rs:405-575 | the metered run follows the plain run, or stops in a hook at a point the plain run passes |
| InstrumentTheorem.PreservesMeaning | src/near_mock/instrument.rs:405-575 | for every program with positive charges, input, gas and fuel: same result, memory, globals and their history, with gas lowered by the fees passed; or stopped in a hook after a prefix of that history, with the memory of its last event |
| InstrumentTheorem.BudgetInvariant | src/near_mock/instrument.rs:474-572 | at every logged event and at the end the budget global plus the charges of the live frames is 262144, and a completed call restores it all |
| Boundaries.BudgetEverywhere | src/near_mock/instrument.rs:474-572 | before every operator of an instrumented run, injected ones and all callees included, the budget global and the charges of all callers are 262144, the running function's own charge included from its reservation to its release |
| Boundaries.QuietTrace | src/near_mock/instrument.rs:485-497 | injected code changes the budget with its last operator only |
| Emission.EmitIsTransform | src/near_mock/instrument.rs:517-572 | the operator-by-operator emission is the structured transformation written out flat |
| Emission.EmittedIsFunctionBody | src/near_mock/instrument.rs:474-572 | prologue, body and epilogue together are the structured function body, correctly nested |
| Emission.FlattenNested | src/near_mock/instrument.rs:517-572 | flattened code closes every block it opens |
| Emission.ZeroChargeMalformed | src/near_mock/instrument.rs:509-515 | with a zero charge the emitted stream is the stream of no structured body |
| InstrumentContext.HooksInFront | src/near_mock/instrument.rs:577-600 | putting the hook imports first moves every imported and defined function up by exactly three |
| OperatorLoop.EmitCharges | src/near_mock/instrument.rs:522-533 | the charges of one position, exactly once; an error only for a fee that cannot be emitted |
| OperatorLoop.EmitOperators | src/near_mock/instrument.rs:517-572 | the loop emits the specified stream, and succeeds exactly when every linear fee is on an aggregate with room for the second scratch local and every shifted index fits 32 bits |
| InstrumentContext.Context.TransformCodeSection | src/near_mock/instrument.rs:405-575 | appends one instrumented body exactly when type and analysis exist, the locals fit 32 bits and the operators can be emitted; else the section is unchanged and an error is reported; the fee it charges on entry is that of `Fees.EntryFeeExact` |
| InstrumentContext.Context.MaybeAddImports | src/near_mock/instrument.rs:577-599 | the hooks are put in front once |
| InstrumentContext.Context.AddGlobals | src/near_mock/instrument.rs:601-623 | gas and stack globals behind the original ones, the gas global exported |
| InstrumentContext.Context.ReadImports | src/near_mock/instrument.rs:244-257 | imports behind the hooks, global imports counted on 32 bits, an error exactly when the count overflows |
| InstrumentContext.Context.ReadCode | src/near_mock/instrument.rs:294-304 | one instrumented body per function, succeeding exactly when every body fits |
| InstrumentContext.Context.Run | src/near_mock/instrument.rs:227-403 | the whole context after all sections, and success exactly when counters and indices fit 32 bits, every body has a type and an analysis, and every body can be emitted; what its indices reach is in `IndexSpaces` |
| InstrumentedModule.BodyUnique | src/near_mock/instrument.rs:517-572 | no two structured bodies have the same flat stream |
| InstrumentedModule.FinishedIsTransformed | src/near_mock/instrument.rs:227-403 | the finished sections, hooks in front, bodies flat, gas global exported, denote the transformed module and no other |
| IndexSpaces.SpacesAre | src/near_mock/instrument.rs:227-264 | before the pass every function index is the number of its function; after it the three hooks come first and the rest follow in the same order |
| IndexSpaces.ExportsReach | src/near_mock/instrument.rs:258-322 | in whatever module the finished sections denote, each function export and the start export reach the function they named before, names and other kinds unchanged, and nothing but the gas global is added |
| IndexSpaces.ElementsReach | src/near_mock/instrument.rs:268-271 | every table entry reaches the function it reached before |
| IndexSpaces.GlobalsBehind | src/near_mock/instrument.rs:323-339 | original globals keep their indices; behind them a global of 0, whose index is exported, and one of 262144 |
| IndexSpaces.LocalsExpand | src/near_mock/instrument.rs:417-432 | declared local by local, each run counts as many locals as it says, of its own type |
| IndexSpaces.IndicesFit | src/near_mock/instrument.rs:90-100 | an index is refused exactly when the one written for it would not fit 32 bits |
| IndexSpaces.ChargesFit | src/near_mock/instrument.rs:667-731 | a point is refused exactly when it would emit a linear fee off an aggregate, or a scratch local beyond 32 bits |
| IndexSpaces.SucceedsIff | src/near_mock/instrument.rs:227-403 | the condition under which the whole pass succeeds, in numbers |
| InstrumentedModule.OutputPreservesMeaning | src/near_mock/instrument.rs:227-403 | what the pass writes out preserves the meaning of what it read, in the sense of the theorem above |
| Decimal.ParsePrint | src/near_mock/mod.rs:1788-1795 | parsing undoes printing on every u128 |
| Decimal.TrimDigits | src/near_mock/mod.rs:638-638 | printed balances have nothing to trim |
| DecimalText.DecDigits | src/near_mock/mod.rs:1795-1795 | printed digit by digit in base ten, without a leading zero |
| DecimalText.ParseExact | src/near_mock/mod.rs:1789-1794 | a text parses as v exactly when it is an optional plus, any zeros, and the digits of v < 2^128 |
| DecimalText.TrimExact | src/near_mock/mod.rs:638-638 | trimming takes the white space off both ends and nothing else |
| DecimalText.BalanceReads | src/near_mock/mod.rs:1788-1794 | a balance reads as the number under its key; no key or no number is zero |
| DecimalText.BalanceKey | src/near_mock/mod.rs:1788-1788 | a balance stands under the account, a one byte, a zero byte and `near-bal` |
| Storage.InPartitionIff | src/near_mock/state.rs:22-29 | a written key is in the partition exactly when its raw key is not empty |
| Storage.PartitionsDisjoint | src/near_mock/state.rs:14-29 | accounts without the separator byte share no partition key |
| Storage.PartitionsOverlapIff | src/near_mock/state.rs:14-29 | for any two ids, partitions share a key exactly when one bare prefix is a prefix of the other |
| Storage.InnerBalanceOverlaps | src/near_mock/mod.rs:1139-1151 | the balance of an id that continues another with the separator lies in the other's partition |
| Storage.RestoreUndoes | src/near_mock/state.rs:31-51 | restoring a snapshot gives the old store back exactly when nothing outside the partition moved |
| Storage.OpsConfined | src/near_mock/hosts.rs:299-315 | writes and removals leave every key without the contract's prefix alone |
| Storage.OpsLastWins | src/near_mock/hosts.rs:279-315 | under the prefix a key reads as the last operation left it |
| Storage.OpsOutside | src/near_mock/hosts.rs:470-494 | outside the partition only the bare prefix key can move, stated both ways |
| Storage.SetThenRead | src/near_mock/mod.rs:1788-1795 | a written balance reads back, every other key and balance is unchanged |
| Storage.MockState.SnapshotPartition | src/near_mock/state.rs:22-29 | exactly the entries of the partition, in any hash-map order |
| Storage.MockState.RestorePartition | src/near_mock/state.rs:31-51 | in place: the partition is the snapshot again, the rest is untouched |
| Storage.MockState.WriteRegChecked | src/near_mock/state.rs:62-103 | refused exactly when a limit would be passed, then nothing changes; the limits are invariants |
| DecimalText.RegisterLimits | src/near_mock/state.rs:69-100 | the limits in numbers: 100 registers but for the id 2^64 - 1, 100 MiB each, 1 GiB together |
| Storage.NoRegisterIdEscapesTheCount | src/near_mock/state.rs:80-85 | an accepted write passes the register limit exactly when it is the no-register id, new, at 100 registers; beyond the limit only replacements are accepted |
| Receipts.Execute | src/near_mock/promises.rs:466-487 | from any state and memo table: nodes only appended, marks only added, and the node is marked |
| Receipts.Drain | src/near_mock/mod.rs:716-729 | the orphan drain ends from any memo table, stale ones included, with every node executed and no more failures than unmarked indices |
| OnceOnly.ExecuteOnce | src/near_mock/promises.rs:466-515 | execution keeps the event-order invariant, re-enters no caller in progress, and runs only nodes not yet marked |
| OnceOnly.DepsOnce | src/near_mock/promises.rs:508-515 | the results published to a batch are those recorded for its deps, flattened in order |
| Calls.CallGiven | src/near_mock/promises.rs:218-340 | a call is given its own method, arguments, deposit and sender, the published results, the next free handle, and of the store with the deposit paid exactly the keys with its prefix |
| Calls.CallAnswers | src/near_mock/promises.rs:218-456 | what a call queues follows the graph with the callee as creator; it fails exactly by a trap, a missing method or an unknown account, else its result is its data |
| Calls.TransactionCalls | src/near_mock/promises.rs:508-583 | over a whole transaction, errors included: every call was an action of its batch, made for the creator, given the results recorded for the deps, flattened in order; and recorded results are made of the calls in order, each followed by those of the promise it returned |
| Calls.FlatSlots | src/near_mock/promises.rs:508-513 | flattened results hold, for each dep in order, all its slots in its own order, and nothing else |
| Calls.SettleCalls | src/near_mock/mod.rs:2391-2419 | the same for every settled queue |
| OnceOnly.ClearFresh | src/near_mock/promises.rs:564-583 | nodes a call created cannot reach a caller in progress |
| OnceOnly.OnceAndInOrder | src/near_mock/mod.rs:667-729 | without infrastructure error every node, appended ones included, ran exactly once (never if forced to fail), after all its deps completed; a combinator's results are its deps' flattened in order |
| Delivery.DeliverIsDrain | src/near_mock/mod.rs:2391-2419 | settling never sticks: it executes everything and reaches the drain's state |
| Delivery.SecondDeferralRebuilt | src/near_mock/mod.rs:2378-2389 | two deferrals are rebuilt as intended exactly when the first is empty or the second has no deps |
| Delivery.ExecuteIgnoresMarks | src/near_mock/promises.rs:466-515 | execution never depends on which nodes are already marked |
| Delivery.ExecuteMarks | src/near_mock/promises.rs:466-515 | executing a node marks nothing but nodes below it and nodes created meanwhile |
| Delivery.EagerIsDeferred | src/near_mock/mod.rs:667-729 | with post-order numbering, executing the returned root and draining reaches the state of delivering the queue: storage, results, appended nodes, event order |
| FinishOrder.EagerIsDeferredIff | src/near_mock/mod.rs:667-729 | without infrastructure error the two deliveries reach the same state if and only if the graph is numbered in the order a depth-first visit finishes |
| DeliveryOrder.OutOfOrderDiffers | src/near_mock/mod.rs:667-729 | out of post-order the two deliveries can end with different balances |
| Isolation.PaidBalances | src/near_mock/promises.rs:289-317 | the deposit reaches the callee, wrapping at 2^128, and leaves the sender, saturating; no other key moves |
| Isolation.ReturnedCallWrites | src/near_mock/promises.rs:284-456 | a call that returns leaves each own key as its last operation did, and void methods succeed with empty data |
| Isolation.FailedCallBalances | src/near_mock/promises.rs:284-436 | exact balances after a failed call: the callee keeps the credit, a distinct sender ends with the larger of balance and deposit, wrap-around included |
| Isolation.FailedCallRestoresIff | src/near_mock/promises.rs:284-436 | a failed call restores the entire store exactly when it kept the value under the empty raw key and carried no deposit, or one to oneself that the wrapped refund rewrites unchanged |
| Isolation.FailedCallRestores | src/near_mock/promises.rs:399-445 | with no deposit and non-empty raw keys a failed call changes nothing at all |
| Isolation.FailedCallKeepsBatches | src/near_mock/promises.rs:157-170 | after a failed call the graph is the old one exactly when nothing was queued; what was queued stays, created by the callee |
| Isolation.CallConfined | src/near_mock/promises.rs:218-445 | however a call ends, every partition not overlapping the callee's is untouched but for the sender's balance |
| Isolation.OverlapReached | src/near_mock/hosts.rs:299-315 | into an overlapping partition some write of the callee always lands |
| Transfers.TransferBatch | src/near_mock/promises.rs:585-642 | the exact store and results of any batch of transfers, completed or stopped |
| Transfers.AffordablePrefix | src/near_mock/promises.rs:585-617 | between different accounts the first n transfers go through exactly when their sum is within the balance |
| Transfers.AffordableToSelf | src/near_mock/promises.rs:585-617 | to oneself, exactly when each amount is |
| Transfers.ReplayUndoesLast | src/near_mock/promises.rs:606-615 | replaying the log forwards undoes the last transfer only |
| Transfers.TransfersConserve | src/near_mock/promises.rs:585-642 | between different accounts no balance underflows and no other key changes, for any amounts, and the sum of all balances is conserved exactly when the receiver has room below 2^128 |
| Transfers.FailedBatchAtomicIff | src/near_mock/promises.rs:600-617 | a batch above the balance returns to the initial balances exactly when, of the longest affordable prefix, all but the last amount are zero |
| Transfers.FailedSelfBatchLoses | src/near_mock/promises.rs:606-642 | a stopped batch to oneself loses exactly the last amount that went through |
| Transaction.RefusedKeepsCredit | src/near_mock/mod.rs:560-604 | a refused call leaves the store exactly credited: unchanged if and only if the callee is not deployed or nothing was attached; nothing runs or is queued |
| Transaction.ChainErrorKeepsCredit | src/near_mock/mod.rs:667-729 | after an error in the returned chain the state is the drain from the credited store; when the chain had marked every node, the store is the old one exactly when nothing was attached |
| Transaction.EntryTrapAtomic | src/near_mock/mod.rs:606-646 | after a trapped entry all keys but the callee's balance are byte-identical, no batch ran, and all balances read the same exactly when the credit did not wrap |
| Transaction.EntryTrapIdentityIff | src/near_mock/mod.rs:633-646 | the store is byte-identical exactly when nothing was attached, or the credit did not wrap and the balance was absent at zero, or positive and canonical |
| Transaction.TransactionRunsOnce | src/near_mock/mod.rs:652-729 | the once-and-in-order theorem for a whole transaction |
| Retries.TransactionAccounted | src/near_mock/mod.rs:652-729 | for every transaction whose entry returns, errors and rollback included: each node has ended, completes at most once with its recorded result and after its deps, nothing follows a completion, it runs again only after an error ended the run before, and without an error of its own it ran exactly once |
| Retries.SettleAccounted | src/near_mock/mod.rs:2391-2419 | the same for every settled queue |
| Retries.ExecuteKeeps | src/near_mock/promises.rs:466-515 | with or without an error, an execution keeps the log regular and adds no event about a caller in progress |
| Retries.RunsAgain | src/near_mock/promises.rs:466-487 | a payment before a call that cannot start is made twice when a second node depends on it |
| Transaction.FireIsDeferThenSettle | src/near_mock/mod.rs:667-677 | firing equals firing deferred then settling, with nothing in between |
| Engine.Engine.DagPush | src/near_mock/promises.rs:157-170 | appends one batch whose creator is the running contract |
| Engine.Engine.RunGuest | src/near_mock/mod.rs:1642-1652 | the hosts' loops apply the call's operations, appended batches and returned handle |
| Engine.Engine.SubExecute | src/near_mock/promises.rs:218-456 | the specified call, given what `Calls.CallGiven` says, with registers, return data, context and deposit restored whether or not it traps |
| Engine.Engine.ExecutePromise | src/near_mock/promises.rs:466-487 | refines the recursive executor and gives back the whole borrowed context |
| Engine.Engine.ExecutePromiseUncached | src/near_mock/promises.rs:489-855 | refines the uncached step, dep results published and withdrawn |
| Engine.Engine.RunActions | src/near_mock/promises.rs:539-642 | the action loop refines the recursion over actions, accumulators included |
| Engine.Engine.Revert | src/near_mock/promises.rs:606-615 | the undo log is put back first entry first |
| Engine.Engine.FreshTxState | src/near_mock/mod.rs:468-489 | graph, marks, memo, results and registers are empty, storage is kept |
| Engine.Engine.DrainOrphans | src/near_mock/mod.rs:716-729 | the loop refines the drain |
| Engine.Engine.ExecuteTx | src/near_mock/mod.rs:532-761 | refines the whole transaction, whose status, data and results are those of `Outcomes`; the deferral flag is consumed exactly by a committed entry |
| Outcomes.EntryGiven | src/near_mock/mod.rs:545-580 | the entry call is given its arguments and deposit, no promise results, and of the credited store exactly the keys with its prefix |
| Outcomes.EntryStateLeaves | src/near_mock/mod.rs:560-652 | each own key as the last operation left it, the batches created by the callee |
| Outcomes.OutcomeKinds | src/near_mock/mod.rs:560-646 | refused exactly for an unknown callee, a contract that cannot start or a missing method; trapped exactly when the entry traps, and then nothing else is reported |
| Outcomes.DeferredOutcome | src/near_mock/mod.rs:664-677 | a deferred entry commits its effects, queues its batches behind the others, runs nothing, and reports no data if it returned a promise |
| Outcomes.PlainOutcome | src/near_mock/mod.rs:652-663 | without a promise the transaction succeeds with the entry's data, empty data being none |
| Outcomes.ChainOutcome | src/near_mock/mod.rs:679-713 | the results are those recorded for the returned node; it succeeds exactly when there are none or the last one succeeded, and returns the data of the last success unless that is empty |
| Outcomes.SingleCallOutcome | src/near_mock/mod.rs:688-713 | for a returned node of one call: a failing call without a promise fails the transaction with no data, non-empty data is returned |
| Outcomes.DrainReport | src/near_mock/mod.rs:716-729 | the drain takes the unmarked nodes one after the other and counts exactly those that failed |
| Engine.Engine.SettleReceipts | src/near_mock/mod.rs:2363-2424 | reload and delivery refine settling, the queue ends empty |
| Outcomes.SettleReport | src/near_mock/mod.rs:2391-2419 | the queued batches are delivered in order, then what their calls queued; one receipt is counted for each, with its recorded results or one failure |
| FoldSubtree.SortSortsStably | examples/stream_replay.rs:419-419 | the sort orders by height and index and keeps equal keys in their order |
| FoldSubtree.SearchDone | examples/stream_replay.rs:391-418 | when the queue is empty exactly the reachable receipts were visited |
| FoldSubtree.OrderUnique | examples/stream_replay.rs:419-419 | with distinct keys the order, hence the result, does not depend on the walk |
| FoldSubtree.VisitUnique | examples/stream_replay.rs:391-418 | at most one sequence visits the reachable receipts breadth-first, each once |
| FoldSubtree.Fold | examples/stream_replay.rs:390-437 | on any graph, cycles and repeated edges included: each reachable receipt once, logs and failures concatenated in block order, ties in breadth-first order |
| FoldOrder.LogsInOrder | examples/stream_replay.rs:422-429 | the logs are all string log lines of the receipts, receipt by receipt and in each receipt's own order |
| FoldOrder.FailuresInOrder | examples/stream_replay.rs:430-435 | the failures are those of the receipts in order, all of them |
| FoldOrder.SortOrders | examples/stream_replay.rs:419-419 | sorted receipts ascend by block height, within a block by index |
| FoldOrder.VisitOrder | examples/stream_replay.rs:391-418 | the visit starts at the entry and goes by the first reference to each receipt, parent by parent, reference by reference |
| NameMap.LebRoundTrip | src/near_mock/name_map.rs:64-79 | decoding an encoded 32-bit number gives it back and stops right behind it |
| NameMap.OrGroup | src/near_mock/name_map.rs:64-79 | the bits or-ed in lie above those already read, so or-ing adds |
| NameMap.ReadLebU32 | src/near_mock/name_map.rs:64-79 | in range on any bytes, at most six groups, truncated to 32 bits, no bit lost in 64 |
| NameCases.ReadLebExact | src/near_mock/name_map.rs:64-79 | the value of any number of up to six groups, modulo 2^32; longer or unended ones are refused |
| NameMap.Sections | src/near_mock/name_map.rs:46-61 | the cursor walk ends in range on any bytes and equals the section split |
| NameMap.DecodeFunctionNames | src/near_mock/name_map.rs:84-117 | the decoder loops end in range on any bytes and compute the specified result |
| NameMap.EncodeFunctionNames | src/near_mock/name_map.rs:26-43 | the appending loop yields the framed name section |
| NameMap.RoundTrip | src/near_mock/name_map.rs:26-117 | any other sections and subsections before, arbitrary bytes behind: decoding gives exactly the encoded names |
| NameMap.EncodeDecode | src/near_mock/name_map.rs:39-117 | the encoder's own output decodes to the names it was given |
| NameCases.LebShortest | src/near_mock/name_map.rs:26-43 | encoded numbers are as short as they can be |
| NameCases.NoNames | src/near_mock/name_map.rs:84-117 | a module of other sections only has no names |
| NameCases.UnreadableStops | src/near_mock/name_map.rs:90-92 | a custom section with an unreadable name ends the search, whatever follows |
| NameCases.CutSection | src/near_mock/name_map.rs:46-61 | a last section that promises more bytes than there are is read as far as they go |
| NameCases.CutNames | src/near_mock/name_map.rs:46-117 | names in a name section cut off behind them are still found |
| NameCases.TooFewNames | src/near_mock/name_map.rs:101-109 | a count above the names there are decodes to nothing |
| NameCases.WireFormat | src/near_mock/name_map.rs:26-43 | the bytes of the encoding: the name `name`, then subsection 1 |
| NameMap.RemapTwice | src/near_mock/name_map.rs:122-130 | remapping twice is remapping once through both tables |
| NameCases.RemapKeeps | src/near_mock/name_map.rs:122-130 | exactly the names with a new index are kept, under it, in their order |

## Left out

- Secp256k1.ScalarMul: associativity of the group law and primality of P are hypotheses, not proved here.
- Full BIP-340 verification: the code omits the standard's range checks; the arithmetic beneath it is what is proved.
- InstrumentTheorem.PreservesMeaning: a host's result cannot depend on the gas left, so programs that call `used_gas` (src/near_mock/hosts.rs:787-803) are outside it; the analysis (fees, stack sizes) is an input, tables and element segments are an oracle, 64-bit memories are not modelled; fuel bounds the interpreter and every statement holds for all fuel.
- InstrumentTheorem.BudgetInvariant: names the live frames at logged events and at the end only; between any two operators it is `Boundaries.BudgetEverywhere`.
- The interpreter of `Wasm` is the definition of the language: its control rules follow section 4.4.8 of the WebAssembly Core Specification and are not compared with a second definition.
- Host functions in the interpreter charge once, before their effect; the gas of individual hosts is not modelled.
- The name-section rewrite of the pass, raw custom sections, and the type added for a body with parameters and several results: a block type is its numbers of parameters and results.
- Engine.Engine.RunGuest: a contract's behaviour is an oracle for its operations and batches; guest code, start functions and the process-wide set of touched trie keys (which only affects gas) are not modelled.
- Engine.Engine.ExecutePromise: yield batches and the Stake, AddKey, DeleteKey, DeleteAccount and global-contract actions are left out; TransferToGasKey runs the code of Transfer.
- The two copies of the promise results are one field.
- Promise hosts that add actions to an existing batch: a batch is appended with its final actions.
- Storage-staking balance updates: part of the oracle's operations on the contract's own keys.
- Receipts.Execute: error texts, traces and the list of trap reasons are left out.
- Transaction.TransactionRunsOnce: stated for runs without infrastructure error; what holds of every run is `Retries.TransactionAccounted`.
- FinishOrder.EagerIsDeferredIff: stated for runs without infrastructure error; `Delivery.EagerIsDeferred` asks that of the root's run alone.
- Queues built from several deferrals beyond `Delivery.SecondDeferralRebuilt`.
- Fork paging, tombstones, JSON, state files, the CLI and wasmtime itself.
- FoldSubtree.Fold: records are modelled after JSON defaulting, and the index is assumed to file each receipt under its own, unique id.
- NameMap.RoundTrip: names are byte strings; the lossy UTF-8 conversion, the identity on valid text, is not modelled.
- NameMap.DecodeFunctionNames: the decoder reserves room for the claimed number of names before it reads any (src/near_mock/name_map.rs:103), so a few bytes can ask for more memory than there is; memory is not modelled.
- NameMap.EncodeFunctionNames: the encoder library is not part of this model; its output format is that of section 7.4.1 of the WebAssembly Core Specification.
- Cryptographic host wrappers over libraries (BLS, BN254, k256, p256, ed25519).
