# dex1 validator, modelled in Dafny

This project models the on-chain validator of the `dex1` order-matching protocol
(`program_entry` and `struct Context` in `dex-contracts/contracts/dex1/src/main.rs`). The
validator decides whether one transaction is acceptable. It runs in one of two roles:

- **Continuation lock** (96 argument bytes). A continuation ("freestanding") cell unlocks
  when some input carries the entity type of its instance (the settlement path), or when
  some input is locked by the recipient named in the arguments (the owner-cancel path).
- **Entity type** (32 argument bytes, the instance id). There is exactly one entity output
  with empty data and at most one entity input.
  - Creation mode has no entity input. There must be no OTX, and the id is the hash of the
    first input followed by the output index as a little-endian u64.
  - Update mode has an entity input. The entity lock is kept. Orders are then processed
    from the aggregated sub-transactions (OTXs, from open transaction) and from the
    transaction's own message, in that order.
  - Every order moves a cursor over the outputs (`output_entity_end`). A limit order is
    fully filled, partially filled (continuation cell plus payment cell), or carried over
    unchanged. A market order is always filled by one cell.
  - At the end, the entity input and the outputs the orders used must lie outside the
    ranges the OTXs span.

Modules, one file each:

- `wrappers.dfy`: `Option`.
- `bytes.dfy`: bytes, the u32/u64/u128 ranges, and little-endian encoding with its
  round-trip lemmas.
- `ledger.dfy`: scripts, cells, the transaction, entity indices and the token-balance
  accessor.
- `orders.dfy`: the four order kinds and `carve_limit_order`.
- `engine.dfy`: `Context::process` and the functions it calls, as pure step functions
  over the cursor, with their lemmas.
- `batches.dfy`: OTXs, actions, range widening, and the freestanding collector, as pure
  functions, with their lemmas.
- `context.dfy`: `class Context`. It holds the cursor field and the four range fields,
  which its methods update in place. Each method is tied to the pure definitions through
  `old(..)`.
- `entry.dfy`: `Accepts`, the whole decision as a predicate, and the method
  `ProgramEntry`, which computes it with the source's loops. Also the lemmas about whole
  transactions.

How the source's operations are represented:

- **Syscalls.** Every `load_*` syscall reads a field of the `Tx` and `Invocation`
  records. A loop that ends on `IndexOutOfBound` becomes a loop bounded by the length of
  the sequence.
- **Aborts.** Every `assert!`, `expect`, `unwrap` or slice that would panic is a
  rejection. The step functions return `None` and `Accepts` is false.
- **Hashing.** It is the `Hasher` value in the input: three total functions returning
  32 bytes, with no property assumed.
- **Integer widths.** `u64` and `u128` values are the subset types `U64` and `U128`. The
  U256 price products are exact integer products. `usize` is `nat`.

The strict rule `input_block < deadline` (line 314) and the exact cross-multiplied price
rule (lines 379-382) are stated as written.

Some behaviour depends on choices the source leaves open, or is easy to misread:

- The owner-cancel path compares each input's lock hash with argument bytes 32..64
  (line 64). That is where `freestanding_script_args` puts the recipient (line 486);
  bytes 64..96 hold the order hash.
- `Context::output_cell_ckbytes` (lines 462-470) has no member of its own. It is the read
  `env.tx.outputs[c].capacity` inside `Engine.SettlePartialFill`, `Engine.CarryOver`,
  `Engine.FullFill` and `Engine.MarketStep`, and inside the `Context` methods that match
  them. Its `unwrap` (line 467) cannot fail there. The lock or type-hash load just before
  it has already checked `c`, and `c + 1` in the partial fill, against the outputs.
- `ask_amount - actual_paid_amount` (line 396) has no guard. The model takes the build's
  `overflow-checks` setting as the flag `overflowChecks`. When it is set, a payment above
  the ask rejects. Otherwise the remaining ask wraps modulo 2^128. `Engine.RemainingAsk`
  states both cases.
- A cursor that runs past the outputs (lines 349 and 365) rejects.
- Cell data shorter than 16 bytes (line 475) rejects, and so does a missing
  `outputs_data` entry.

## Model

All source paths are in `dex-contracts/contracts/dex1/src/main.rs`.

| member | source | states |
|---|---|---|
| Bytes.ToLEFromLE | dex-contracts/contracts/dex1/src/main.rs:472-477 | reading bytes as a little-endian number and writing it back at the same width gives the same bytes |
| Bytes.FromLEToLE | dex-contracts/contracts/dex1/src/main.rs:163 | a number below 256^width written as `width` little-endian bytes reads back as itself |
| Bytes.ToLEInjective | dex-contracts/contracts/dex1/src/main.rs:163 | distinct in-range numbers have distinct little-endian encodings, so distinct entity output indices give distinct creation preimages |
| Ledger.EntityIndices | dex-contracts/contracts/dex1/src/main.rs:96-147 | the result lists exactly the cells whose type script equals the entity script, in strictly increasing order |
| Ledger.AtMostOneEntity | dex-contracts/contracts/dex1/src/main.rs:101-108 | when at most one index is listed, any two entity cells are the same cell |
| Ledger.UdtAmount | dex-contracts/contracts/dex1/src/main.rs:472-477 | a balance exists exactly when the data has at least 16 bytes, and its 16-byte little-endian encoding is the data's first 16 bytes |
| Ledger.UdtAmountAt | dex-contracts/contracts/dex1/src/main.rs:472-477 | output i has a balance exactly when its data entry exists and holds at least 16 bytes, and that balance encodes to those bytes |
| Orders.Carve | dex-contracts/contracts/dex1/src/main.rs:505-541 | a carved limit order has the same kind, the three new amounts, and the original tokens, recipient and deadline |
| Orders.CarveFixedPoint | dex-contracts/contracts/dex1/src/main.rs:537-541 | carving an order with its own three amounts returns the order unchanged |
| Orders.CarveTwice | dex-contracts/contracts/dex1/src/main.rs:537-541 | carving a carved order is the same as carving the original once with the later amounts |
| Orders.CarveInjective | dex-contracts/contracts/dex1/src/main.rs:537-541 | two carvings of one order are equal exactly when their three new amounts are equal |
| Engine.LockHashAt | dex-contracts/contracts/dex1/src/main.rs:365-366 | the lock hash exists exactly when the output index is in range |
| Engine.TypeHashAt | dex-contracts/contracts/dex1/src/main.rs:355-357 | the type hash exists exactly when the output is in range and has a type script, since otherwise `expect` or `unwrap` aborts |
| Engine.FreestandingArgs | dex-contracts/contracts/dex1/src/main.rs:479-489 | the arguments are 96 bytes: the instance id in bytes 0..32, the recipient in 32..64 and the order hash in 64..96 |
| Engine.FreestandingArgsInjective | dex-contracts/contracts/dex1/src/main.rs:479-489 | equal argument triples have equal instance id, recipient and order hash, so changing any segment changes the arguments |
| Engine.PriceOkIsCeiling | dex-contracts/contracts/dex1/src/main.rs:376-382 | the cross-multiplied price rule holds exactly when the payment is at least the ask owed for the sold part, rounded up |
| Engine.PriceExample | dex-contracts/contracts/dex1/src/main.rs:376-382 | with bid 100, ask 50 and 60 returned, a payment of 19 fails the rule and 20 passes |
| Engine.RemainingAsk | dex-contracts/contracts/dex1/src/main.rs:396 | the subtraction aborts exactly when overflow checks are on and the payment exceeds the ask; otherwise remainder plus payment equals the ask modulo 2^128, and exactly when nothing wraps |
| Engine.StepAdvance | dex-contracts/contracts/dex1/src/main.rs:328-460 | an accepted order advances the cursor by 2 in the partial-fill branch and by 1 in every other branch |
| Engine.PartialFillAccepted | dex-contracts/contracts/dex1/src/main.rs:362-402 | an accepted partial fill has all of these: the deadline met; a payment cell at cursor+1 for the recipient in the ask token; the exact price rule; a non-overflowing capacity sum of at least the claimed CKBytes; a defined remaining ask; continuation arguments linked to the hash of the carved order |
| Engine.PartialFillComplete | dex-contracts/contracts/dex1/src/main.rs:362-402 | conversely, a partial fill that meets all those conditions is accepted and advances the cursor by 2 |
| Engine.CarryOverAccepted | dex-contracts/contracts/dex1/src/main.rs:403-415 | an accepted no-fill keeps at least the whole bid in the bid token, has at least the claimed CKBytes, and is linked to the hash of the unmodified order |
| Engine.FullFillAccepted | dex-contracts/contracts/dex1/src/main.rs:416-436 | an accepted full fill pays at least the ask, in the ask token, to the recipient's lock, with at least the claimed CKBytes |
| Engine.MarketAccepted | dex-contracts/contracts/dex1/src/main.rs:439-460 | an accepted market order uses one cell, in the ask token, for the recipient, with at least the claimed CKBytes, and realises exactly that cell's balance |
| Engine.MinimumAskGate | dex-contracts/contracts/dex1/src/main.rs:320-324 | a minimum-ask order is accepted exactly when its market step is accepted and the realised amount reaches the minimum |
| Engine.DeadlineGate | dex-contracts/contracts/dex1/src/main.rs:308-316 | a deadline order is accepted exactly when the input block is strictly below the deadline and the limit validation accepts |
| Engine.ProcessAllCursor | dex-contracts/contracts/dex1/src/main.rs:222-224 | processing n orders moves the cursor forward by at least n and at most 2n outputs |
| Engine.ProcessAllAppend | dex-contracts/contracts/dex1/src/main.rs:222-224 | processing a concatenation of order lists is processing the first list and continuing from its final cursor |
| Batches.FindAction | dex-contracts/contracts/dex1/src/main.rs:210-216 | the result is the first action addressed to the script hash, and None means no action is |
| Batches.Widen | dex-contracts/contracts/dex1/src/main.rs:197-207 | the new starts are the minimum and the new ends the maximum of the old range and the OTX's own range |
| Batches.AggregateWidens | dex-contracts/contracts/dex1/src/main.rs:190-226 | after the OTX loop, the ranges enclose the initial ranges and every OTX's own ranges, and the cursor has not moved back |
| Batches.QualifyingFrom | dex-contracts/contracts/dex1/src/main.rs:238-269 | lists, in increasing order, inputs from i on that are outside the OTX input range, not the entity input, and locked by this script family |
| Batches.QualifyingFromComplete | dex-contracts/contracts/dex1/src/main.rs:238-269 | every such qualifying input from i on is listed |
| Batches.CollectLeftover | dex-contracts/contracts/dex1/src/main.rs:238-269 | an accepted collector run consumes one order per qualifying input, from the front of the list, and leaves the rest |
| Batches.CollectAuthenticates | dex-contracts/contracts/dex1/src/main.rs:254-265 | in an accepted run, the j-th qualifying input has 96 argument bytes, the instance id first, and the hash of the j-th order last |
| Batches.CollectProcesses | dex-contracts/contracts/dex1/src/main.rs:263-266 | in an accepted run, the consumed orders are processed in list order: the final cursor is the one their sequential processing reaches |
| Batches.CollectTooManyCells | dex-contracts/contracts/dex1/src/main.rs:263 | more qualifying inputs than orders always rejects |
| Batches.FreestandingConsumesAll | dex-contracts/contracts/dex1/src/main.rs:237-271 | an accepted freestanding pass has exactly as many qualifying inputs as orders and processes all of them in order |
| Batches.RangesExcludedMeaning | dex-contracts/contracts/dex1/src/main.rs:276-287 | the two final checks hold exactly when the entity input is outside the OTX input range and no output from the entity to the final cursor is inside the OTX output range |
| Validation.Context.constructor | dex-contracts/contracts/dex1/src/main.rs:179-188 | the context starts with the cursor one past the entity output and both ranges empty (start usize::MAX, end 0) |
| Validation.Context.Process | dex-contracts/contracts/dex1/src/main.rs:305-326 | accepts exactly when the order step accepts, moves the cursor to that step's result, and leaves the ranges alone |
| Validation.Context.ValidateLimitOrder | dex-contracts/contracts/dex1/src/main.rs:328-437 | accepts exactly when the limit step accepts, with the new cursor it defines; ranges unchanged |
| Validation.Context.ValidatePartialFill | dex-contracts/contracts/dex1/src/main.rs:362-382 | the payment-cell and price checks of the partial fill, then the rest; agrees with the partial-fill definition |
| Validation.Context.SettlePartial | dex-contracts/contracts/dex1/src/main.rs:383-402 | the capacity, remaining-ask and continuation-link checks, advancing the cursor by 2; agrees with their definition |
| Validation.Context.ValidateCarryOver | dex-contracts/contracts/dex1/src/main.rs:403-415 | the no-fill checks, advancing the cursor by 1; agrees with the carry-over definition |
| Validation.Context.ValidateFullFill | dex-contracts/contracts/dex1/src/main.rs:416-436 | the full-fill checks, advancing the cursor by 1; agrees with the full-fill definition |
| Validation.Context.ValidateMarketOrder | dex-contracts/contracts/dex1/src/main.rs:439-460 | accepts exactly when the market step does, returning its new cursor and realised amount |
| Validation.Context.ProcessOrders | dex-contracts/contracts/dex1/src/main.rs:222-224 | the loop over an action's orders accepts exactly when sequential processing does, ending at its cursor |
| Validation.Context.AggregateOtxs | dex-contracts/contracts/dex1/src/main.rs:190-226 | the OTX loop updates the cursor and the four range fields to exactly the state the aggregate definition yields, or rejects exactly when it does |
| Validation.Context.CollectFreestanding | dex-contracts/contracts/dex1/src/main.rs:237-271 | the collector loop accepts exactly when the freestanding outcome is defined (no order left over), ending at its cursor; ranges unchanged |
| Entry.ScanSettlementPath | dex-contracts/contracts/dex1/src/main.rs:37-57 | true exactly when some input's type script has the same code hash and hash type and has arguments equal to bytes 0..32 |
| Entry.ScanOwnerCancel | dex-contracts/contracts/dex1/src/main.rs:59-75 | true exactly when some input's lock hash equals argument bytes 32..64 |
| Entry.LocateInputEntity | dex-contracts/contracts/dex1/src/main.rs:96-117 | reports a second entity input exactly when there is one, and otherwise returns the unique entity input, if any |
| Entry.ProgramEntry | dex-contracts/contracts/dex1/src/main.rs:25-290 | returns true exactly when the transaction is accepted |
| Entry.RunUpdate | dex-contracts/contracts/dex1/src/main.rs:170-289 | update mode, from the lock comparison to the final range checks, returns true exactly when update mode accepts |
| Entry.RoleDispatch | dex-contracts/contracts/dex1/src/main.rs:27-81 | with 96 argument bytes the call is accepted exactly when neither group-type guard fires and the settlement or owner-cancel path holds; other lengths than 32 and 96 always reject |
| Entry.EntityLocation | dex-contracts/contracts/dex1/src/main.rs:96-154 | an accepted entity validation has at most one entity input, no two entity inputs, and exactly one entity output, and that output's data exists and is empty |
| Entry.CreationMode | dex-contracts/contracts/dex1/src/main.rs:155-169 | with no entity input, acceptance is exactly: no OTX, a first input exists, and the id is the hash of that input followed by the little-endian u64 output index |
| Entry.SettleOrdersCursor | dex-contracts/contracts/dex1/src/main.rs:183-273 | after all orders, the cursor is past the entity output and the ranges cover every OTX |
| Entry.UpdateMode | dex-contracts/contracts/dex1/src/main.rs:170-287 | an accepted update keeps the entity lock and has the entity input's header. Its orders settle. The entity input is outside the OTX input range, and no output from the entity to the final cursor is inside the OTX output range |
| Entry.EntityOutsideEveryOtx | dex-contracts/contracts/dex1/src/main.rs:276-287 | in an accepted update, no single OTX holds the entity input or any output from the entity to the final cursor |

## Left out

- BLAKE2b (personalisation `ckb-default-hash`), in `hash_order` (lines 492-500) and in the creation hash (lines 159-165), is not modelled. The hashes are uninterpreted functions in the input.
- The `ckb_std` syscalls are not modelled; their results are fields of the transaction record. The loading errors other than `IndexOutOfBound` cannot arise in the model, with one exception. A missing entity-input header (`expect` at lines 176-177) is `inputHeaders[i] == None`, and it rejects.
- `parse_otx_structure`, `fetch_message` and the molecule `schema` module are not part of this model. They are given already decoded. The model has one `MalformedOtx` outcome for any `parse_otx_structure` error other than `WrongOtxStart`. It has one `MalformedMessage` outcome for a `fetch_message` error, and an action payload that does not decode as `orders == None`. Each of these rejects.
- The pointer-offset arithmetic of `carve_limit_order` (lines 511-536) is not modelled. Carving is a record update of the three fields, which is what the byte overwrite achieves. The `from_slice` re-parse of line 541 is assumed to succeed.
- Orders carry only the fields the validator reads.
- The hash of an order is taken over the order value, not over its molecule encoding.
- The entry point, allocator and `no_std` setup (lines 1-12) are not modelled.
- The script-group notion behind the `assert_ne!` checks (lines 28-33) is not modelled. The group's first input and output type scripts are given as inputs.
- `usize` is unbounded. The sums `input_cell_start + input_cells` and `output_cell_start + output_cells` (lines 200 and 206) never overflow in the model.
- `Tx` does not tie the lengths of `inputs`, `inputCells` and `inputHeaders` together, nor those of `outputs` and `outputsData`. `Otx.inputCellStart` and `Otx.outputCellStart` are not bounded by `usize::MAX`. The ledger guarantees both for every real transaction. Dropping them only admits transactions no ledger produces and changes no verdict on a real one.
- The header is reduced to its block number (line 313), the only field read.
