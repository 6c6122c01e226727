/** The order engine (`Context::process` and the functions it calls), as pure functions of
    the validation environment and the output cursor `output_entity_end`. Each step yields
    the new cursor, or None when an assertion, `expect` or `unwrap` would abort. */
module Engine {

  import opened Wrappers
  import opened Bytes
  import opened Ledger
  import opened Orders

  /** The hash functions, as uninterpreted total functions returning 32 bytes.
      `bytes` is BLAKE2b (personalisation `ckb-default-hash`) over raw bytes,
      `script` is the hash of an encoded script (`load_*_hash`), `order` is `hash_order`. */
  datatype Hasher = Hasher(
    bytes: seq<byte> -> Hash32,
    script: Script -> Hash32,
    order: Order -> Hash32)

  /** What stays fixed while orders are processed: the transaction, the entity (type)
      script, its 32 argument bytes (the instance id), the block number of the entity
      input's header, the hashes, and whether the build traps on integer overflow. */
  datatype Env = Env(
    tx: Tx,
    script: Script,
    instanceId: Hash32,
    inputBlock: U64,
    hasher: Hasher,
    overflowChecks: bool)

  /** `load_cell_lock_hash(i, Source::Output)`; None when `i` is past the outputs. */
  function LockHashAt(env: Env, i: nat): (r: Option<Hash32>)
    ensures r.Some? <==> i < |env.tx.outputs|
  {
    if i < |env.tx.outputs| then Some(env.hasher.script(env.tx.outputs[i].lock)) else None
  }

  /** `load_cell_type_hash(i, Source::Output).expect(..).unwrap()`; None when `i` is past
      the outputs or the cell has no type script. */
  function TypeHashAt(env: Env, i: nat): (r: Option<Hash32>)
    ensures r.Some? <==> i < |env.tx.outputs| && env.tx.outputs[i].typ.Some?
  {
    if i < |env.tx.outputs| && env.tx.outputs[i].typ.Some? then
      Some(env.hasher.script(env.tx.outputs[i].typ.value))
    else None
  }

  /** `freestanding_script_args`: the 96 lock-argument bytes of a continuation cell. */
  function FreestandingArgs(instanceId: Hash32, recipient: Hash32, orderHash: Hash32): (r: seq<byte>)
    ensures |r| == 96
    ensures r[..32] == instanceId && r[32..64] == recipient && r[64..] == orderHash
  {
    instanceId + recipient + orderHash
  }

  /** The triple is authenticated field by field: args built from different parts differ. */
  lemma FreestandingArgsInjective(i1: Hash32, r1: Hash32, h1: Hash32, i2: Hash32, r2: Hash32, h2: Hash32)
    requires FreestandingArgs(i1, r1, h1) == FreestandingArgs(i2, r2, h2)
    ensures i1 == i2 && r1 == r2 && h1 == h2
  {
    var a := FreestandingArgs(i1, r1, h1);
    assert i1 == a[..32] && r1 == a[32..64] && h1 == a[64..];
  }

  /** The partial-fill price rule, exactly as the U256 cross-multiplication states it:
      the ask paid, scaled by the whole bid, covers the whole ask, scaled by the bid sold. */
  predicate PriceOk(bidAmount: U128, askAmount: U128, actualBid: nat, paid: U128)
  {
    paid * bidAmount >= askAmount * actualBid
  }

  /** The least payment the price rule accepts: the ask owed for `actualBid`, rounded up. */
  function MinimumPayment(bidAmount: nat, askAmount: nat, actualBid: nat): nat
    requires bidAmount > 0
  {
    (askAmount * actualBid + bidAmount - 1) / bidAmount
  }

  /** The price rule holds exactly when the payment reaches the rounded-up share of the ask,
      so rounding is always in the order owner's favour. */
  lemma PriceOkIsCeiling(bidAmount: U128, askAmount: U128, actualBid: nat, paid: U128)
    requires bidAmount > 0
    ensures PriceOk(bidAmount, askAmount, actualBid, paid) <==> paid >= MinimumPayment(bidAmount, askAmount, actualBid)
  {
    var owed := askAmount * actualBid;
    var q := MinimumPayment(bidAmount, askAmount, actualBid);
    var rem := (owed + bidAmount - 1) % bidAmount;
    assert owed + bidAmount - 1 == q * bidAmount + rem;
    if paid >= q {
      MultiplyMonotone(q, paid, bidAmount);
    } else {
      MultiplyMonotone(paid, q - 1, bidAmount);
      assert (q - 1) * bidAmount == q * bidAmount - bidAmount;
    }
  }

  lemma MultiplyMonotone(a: nat, b: nat, c: nat)
    requires a <= b
    ensures a * c <= b * c
  {
  }

  /** With bid 100, ask 50 and 60 returned (40 sold), a payment of 19 is refused and 20 passes. */
  lemma PriceExample()
    ensures !PriceOk(100, 50, 100 - 60, 19)
    ensures PriceOk(100, 50, 100 - 60, 20)
    ensures MinimumPayment(100, 50, 40) == 20
  {
  }

  /** The ask still pending after `paid` was received (`ask_amount - actual_paid_amount`, a
      u128 subtraction). When `paid` exceeds the ask, a build with overflow checks aborts and
      a build without them wraps modulo 2^128. */
  function RemainingAsk(overflowChecks: bool, askAmount: U128, paid: U128): (r: Option<U128>)
    ensures r.None? <==> overflowChecks && paid > askAmount
    ensures r.Some? ==> (r.value + paid) % U128_LIMIT == askAmount
    ensures r.Some? && paid <= askAmount ==> r.value + paid == askAmount
  {
    if paid <= askAmount then Some(askAmount - paid)
    else if overflowChecks then None
    else Some(askAmount - paid + U128_LIMIT)
  }

  /** The output at the cursor is locked by a script of this validator's family: a
      continuation (freestanding) cell. */
  predicate ContinuationAt(env: Env, c: nat)
  {
    c < |env.tx.outputs| && SameFamily(env.tx.outputs[c].lock, env.script)
  }

  /** The partial-fill branch is taken for `order` at cursor `c`. */
  predicate PartialFillAt(env: Env, c: nat, order: Order)
  {
    && order.IsLimit()
    && ContinuationAt(env, c)
    && UdtAmountAt(env.tx, c).Some?
    && UdtAmountAt(env.tx, c).value < order.limit.bidAmount
  }

  /** Partial fill: a continuation cell at `c` keeping `free` of the bid token and a payment
      cell at `c + 1` for the recipient; consumes two outputs. */
  function PartialFill(env: Env, c: nat, full: Order, free: U128): Option<nat>
    requires full.IsLimit() && c < |env.tx.outputs| && free < full.limit.bidAmount
  {
    var order := full.limit;
    var pay := c + 1;
    if LockHashAt(env, pay) != Some(order.recipient) || TypeHashAt(env, pay) != Some(order.askToken) then None
    else match UdtAmountAt(env.tx, pay)
      case None => None
      case Some(paid) =>
        if !PriceOk(order.bidAmount, order.askAmount, order.bidAmount - free, paid) then None
        else SettlePartialFill(env, c, full, free, paid)
  }

  /** The second half of a partial fill, once the payment at `c + 1` is known to meet the
      price: the two cells fund the claimed CKBytes and the continuation at `c` is linked
      to the hash of the carved order. */
  function SettlePartialFill(env: Env, c: nat, full: Order, free: U128, paid: U128): Option<nat>
    requires full.IsLimit() && c + 1 < |env.tx.outputs|
  {
    var order := full.limit;
    var freestandingCkbytes := env.tx.outputs[c].capacity;
    var paybackCkbytes := env.tx.outputs[c + 1].capacity;
    if freestandingCkbytes + paybackCkbytes >= U64_LIMIT then None
    else if freestandingCkbytes + paybackCkbytes < order.claimedCkbytes then None
    else match RemainingAsk(env.overflowChecks, order.askAmount, paid)
      case None => None
      case Some(newAsk) =>
        var pending := Carve(full, free, newAsk, freestandingCkbytes);
        var expected := FreestandingArgs(env.instanceId, order.recipient, env.hasher.order(pending));
        if env.tx.outputs[c].lock.args == expected then Some(c + 2) else None
  }

  /** No fill: the continuation cell at `c` carries the whole, unmodified order on. */
  function CarryOver(env: Env, c: nat, full: Order): Option<nat>
    requires full.IsLimit() && c < |env.tx.outputs|
  {
    var order := full.limit;
    var expected := FreestandingArgs(env.instanceId, order.recipient, env.hasher.order(full));
    if env.tx.outputs[c].capacity < order.claimedCkbytes then None
    else if env.tx.outputs[c].lock.args != expected then None
    else Some(c + 1)
  }

  /** Full fill: the output at `c` pays the whole ask to the recipient. */
  function FullFill(env: Env, c: nat, order: LimitOrder): Option<nat>
    requires c < |env.tx.outputs|
  {
    if TypeHashAt(env, c) != Some(order.askToken) || LockHashAt(env, c) != Some(order.recipient) then None
    else match UdtAmountAt(env.tx, c)
      case None => None
      case Some(amount) =>
        if amount < order.askAmount || env.tx.outputs[c].capacity < order.claimedCkbytes then None
        else Some(c + 1)
  }

  /** `validate_limit_order`: dispatch on the lock of the output at the cursor. */
  function LimitStep(env: Env, c: nat, full: Order): Option<nat>
    requires full.IsLimit()
  {
    if c >= |env.tx.outputs| then None
    else if ContinuationAt(env, c) then
      if TypeHashAt(env, c) != Some(full.limit.bidToken) then None
      else match UdtAmountAt(env.tx, c)
        case None => None
        case Some(free) =>
          if free < full.limit.bidAmount then PartialFill(env, c, full, free)
          else CarryOver(env, c, full)
    else FullFill(env, c, full.limit)
  }

  /** `validate_market_order`: the new cursor and the realised ask amount. */
  function MarketStep(env: Env, c: nat, order: MarketOrder): Option<(nat, U128)>
  {
    if TypeHashAt(env, c) != Some(order.askToken) || LockHashAt(env, c) != Some(order.recipient) then None
    else if env.tx.outputs[c].capacity < order.claimedCkbytes then None
    else match UdtAmountAt(env.tx, c)
      case None => None
      case Some(amount) => Some((c + 1, amount))
  }

  /** `Context::process`: one order, with the deadline and minimum-ask gates. */
  function OrderStep(env: Env, c: nat, order: Order): Option<nat>
  {
    match order
    case Limit(_) => LimitStep(env, c, order)
    case LimitWithDeadline(_, deadline) =>
      if env.inputBlock < deadline then LimitStep(env, c, order) else None
    case Market(m) =>
      (match MarketStep(env, c, m)
       case None => None
       case Some(step) => Some(step.0))
    case MarketWithMinimumAsk(m, minimumAsk) =>
      (match MarketStep(env, c, m)
       case None => None
       case Some(step) => if step.1 >= minimumAsk then Some(step.0) else None)
  }

  /** Orders processed one after another, in list order, threading the cursor. */
  function ProcessAll(env: Env, c: nat, orders: seq<Order>): Option<nat>
    decreases |orders|
  {
    if orders == [] then Some(c)
    else match OrderStep(env, c, orders[0])
      case None => None
      case Some(next) => ProcessAll(env, next, orders[1..])
  }

  // ---------------------------------------------------------------------------------------
  // Properties of one step

  /** An accepted order advances the cursor by exactly 2 in the partial-fill branch and by
      exactly 1 in every other branch. */
  lemma StepAdvance(env: Env, c: nat, order: Order)
    requires OrderStep(env, c, order).Some?
    ensures OrderStep(env, c, order).value == c + (if PartialFillAt(env, c, order) then 2 else 1)
  {
  }

  /** What an accepted partial fill guarantees: the payment cell, the exact price rule,
      the non-overflowing capacity sum, and the continuation cell's link to the carved order. */
  lemma PartialFillAccepted(env: Env, c: nat, order: Order)
    requires PartialFillAt(env, c, order)
    requires OrderStep(env, c, order).Some?
    ensures order.LimitWithDeadline? ==> env.inputBlock < order.deadline
    ensures c + 1 < |env.tx.outputs|
    ensures TypeHashAt(env, c) == Some(order.limit.bidToken)
    ensures LockHashAt(env, c + 1) == Some(order.limit.recipient)
    ensures TypeHashAt(env, c + 1) == Some(order.limit.askToken)
    ensures UdtAmountAt(env.tx, c + 1).Some?
    ensures
      var lo := order.limit;
      var free := UdtAmountAt(env.tx, c).value;
      var paid := UdtAmountAt(env.tx, c + 1).value;
      var ckbytes := env.tx.outputs[c].capacity;
      && paid * lo.bidAmount >= lo.askAmount * (lo.bidAmount - free)
      && ckbytes + env.tx.outputs[c + 1].capacity < U64_LIMIT
      && ckbytes + env.tx.outputs[c + 1].capacity >= lo.claimedCkbytes
      && RemainingAsk(env.overflowChecks, lo.askAmount, paid).Some?
      && env.tx.outputs[c].lock.args == FreestandingArgs(env.instanceId, lo.recipient,
           env.hasher.order(Carve(order, free, RemainingAsk(env.overflowChecks, lo.askAmount, paid).value, ckbytes)))
  {
  }

  /** The converse: every partial fill meeting those conditions is accepted. */
  lemma PartialFillComplete(env: Env, c: nat, order: Order)
    requires PartialFillAt(env, c, order)
    requires order.LimitWithDeadline? ==> env.inputBlock < order.deadline
    requires TypeHashAt(env, c) == Some(order.limit.bidToken)
    requires LockHashAt(env, c + 1) == Some(order.limit.recipient)
    requires TypeHashAt(env, c + 1) == Some(order.limit.askToken)
    requires UdtAmountAt(env.tx, c + 1).Some?
    requires
      var lo := order.limit;
      var free := UdtAmountAt(env.tx, c).value;
      var paid := UdtAmountAt(env.tx, c + 1).value;
      var ckbytes := env.tx.outputs[c].capacity;
      && paid * lo.bidAmount >= lo.askAmount * (lo.bidAmount - free)
      && ckbytes + env.tx.outputs[c + 1].capacity < U64_LIMIT
      && ckbytes + env.tx.outputs[c + 1].capacity >= lo.claimedCkbytes
      && RemainingAsk(env.overflowChecks, lo.askAmount, paid).Some?
      && env.tx.outputs[c].lock.args == FreestandingArgs(env.instanceId, lo.recipient,
           env.hasher.order(Carve(order, free, RemainingAsk(env.overflowChecks, lo.askAmount, paid).value, ckbytes)))
    ensures OrderStep(env, c, order) == Some(c + 2)
  {
    var free := UdtAmountAt(env.tx, c).value;
    var paid := UdtAmountAt(env.tx, c + 1).value;
    assert SettlePartialFill(env, c, order, free, paid) == Some(c + 2);
    assert PartialFill(env, c, order, free) == Some(c + 2);
    assert LimitStep(env, c, order) == Some(c + 2);
  }

  /** An accepted no-fill carries the unmodified order: the continuation cell holds at least
      the whole bid, at least the claimed CKBytes, and is linked to the hash of the order itself. */
  lemma CarryOverAccepted(env: Env, c: nat, order: Order)
    requires order.IsLimit() && ContinuationAt(env, c) && !PartialFillAt(env, c, order)
    requires OrderStep(env, c, order).Some?
    ensures TypeHashAt(env, c) == Some(order.limit.bidToken)
    ensures UdtAmountAt(env.tx, c).Some? && UdtAmountAt(env.tx, c).value >= order.limit.bidAmount
    ensures env.tx.outputs[c].capacity >= order.limit.claimedCkbytes
    ensures env.tx.outputs[c].lock.args == FreestandingArgs(env.instanceId, order.limit.recipient, env.hasher.order(order))
  {
  }

  /** An accepted full fill pays at least the whole ask and the claimed CKBytes to the
      recipient, in the ask token. */
  lemma FullFillAccepted(env: Env, c: nat, order: Order)
    requires order.IsLimit() && !ContinuationAt(env, c)
    requires OrderStep(env, c, order).Some?
    ensures c < |env.tx.outputs|
    ensures TypeHashAt(env, c) == Some(order.limit.askToken)
    ensures LockHashAt(env, c) == Some(order.limit.recipient)
    ensures UdtAmountAt(env.tx, c).Some? && UdtAmountAt(env.tx, c).value >= order.limit.askAmount
    ensures env.tx.outputs[c].capacity >= order.limit.claimedCkbytes
  {
  }

  /** A market order is always filled by one cell; the realised amount is exactly that
      cell's token balance. */
  lemma MarketAccepted(env: Env, c: nat, order: MarketOrder)
    requires MarketStep(env, c, order).Some?
    ensures MarketStep(env, c, order).value.0 == c + 1
    ensures TypeHashAt(env, c) == Some(order.askToken) && LockHashAt(env, c) == Some(order.recipient)
    ensures env.tx.outputs[c].capacity >= order.claimedCkbytes
    ensures UdtAmountAt(env.tx, c) == Some(MarketStep(env, c, order).value.1)
  {
  }

  /** The minimum-ask gate: accepted exactly when the market step is and the realised amount
      reaches the minimum. */
  lemma MinimumAskGate(env: Env, c: nat, order: MarketOrder, minimumAsk: U128)
    ensures OrderStep(env, c, MarketWithMinimumAsk(order, minimumAsk)).Some? <==>
      MarketStep(env, c, order).Some? && MarketStep(env, c, order).value.1 >= minimumAsk
  {
  }

  /** The deadline gate: a deadline order is accepted exactly when the input block is
      strictly before the deadline and the plain limit order is accepted. */
  lemma DeadlineGate(env: Env, c: nat, order: LimitOrder, deadline: U64)
    ensures OrderStep(env, c, LimitWithDeadline(order, deadline)).Some? <==>
      env.inputBlock < deadline && LimitStep(env, c, LimitWithDeadline(order, deadline)).Some?
  {
  }

  // ---------------------------------------------------------------------------------------
  // Properties of a list of orders

  /** Each accepted order consumes one or two outputs, so the cursor never decreases. */
  lemma {:induction false} ProcessAllCursor(env: Env, c: nat, orders: seq<Order>)
    requires ProcessAll(env, c, orders).Some?
    ensures c + |orders| <= ProcessAll(env, c, orders).value <= c + 2 * |orders|
    decreases |orders|
  {
    if orders != [] {
      StepAdvance(env, c, orders[0]);
      ProcessAllCursor(env, OrderStep(env, c, orders[0]).value, orders[1..]);
    }
  }

  /** Processing a concatenation is processing the first part and continuing from where its
      cursor ended. */
  lemma {:induction false} ProcessAllAppend(env: Env, c: nat, xs: seq<Order>, ys: seq<Order>)
    ensures ProcessAll(env, c, xs + ys) ==
      match ProcessAll(env, c, xs)
      case None => None
      case Some(mid) => ProcessAll(env, mid, ys)
    decreases |xs|
  {
    if xs == [] {
      assert xs + ys == ys;
    } else {
      assert (xs + ys)[0] == xs[0];
      assert (xs + ys)[1..] == xs[1..] + ys;
      match OrderStep(env, c, xs[0])
      case None =>
      case Some(next) => ProcessAllAppend(env, next, xs[1..], ys);
    }
  }
}
