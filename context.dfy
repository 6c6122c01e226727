/** `struct Context` of the validator: the output cursor `output_entity_end` and the four
    OTX range fields, updated in place by the order engine and the OTX pass. Every method
    is tied to the pure definitions of the Engine and Batches modules. */
module Validation {

  import opened Wrappers
  import opened Bytes
  import opened Ledger
  import opened Orders
  import opened Engine
  import opened Batches

  class Context {
    const env: Env
    var outputEntityEnd: nat
    var otxInputStart: nat
    var otxInputEnd: nat
    var otxOutputStart: nat
    var otxOutputEnd: nat

    /** The four range fields as one value. */
    function OtxRanges(): Ranges
      reads this
    {
      Ranges(otxInputStart, otxInputEnd, otxOutputStart, otxOutputEnd)
    }

    /** The whole mutable state. */
    function Snapshot(): State
      reads this
    {
      State(outputEntityEnd, OtxRanges())
    }

    /** The context built once the entity is located: cursor one past the output entity,
        OTX ranges empty. */
    constructor (env: Env, outputEntityIndex: nat)
      ensures this.env == env
      ensures Snapshot() == State(outputEntityIndex + 1, Unset)
    {
      this.env := env;
      outputEntityEnd := outputEntityIndex + 1;
      otxInputStart := USIZE_MAX;
      otxInputEnd := 0;
      otxOutputStart := USIZE_MAX;
      otxOutputEnd := 0;
    }

    /** `Context::process`. */
    method Process(order: Order) returns (ok: bool)
      modifies this
      ensures ok == OrderStep(env, old(outputEntityEnd), order).Some?
      ensures ok ==> outputEntityEnd == OrderStep(env, old(outputEntityEnd), order).value
      ensures OtxRanges() == old(OtxRanges())
    {
      match order {
        case Limit(_) =>
          ok := ValidateLimitOrder(order);
        case LimitWithDeadline(_, deadline) =>
          if env.inputBlock >= deadline {
            return false;
          }
          ok := ValidateLimitOrder(order);
        case Market(m) =>
          var askAmount;
          ok, askAmount := ValidateMarketOrder(m);
        case MarketWithMinimumAsk(m, minimumAsk) =>
          var askAmount;
          ok, askAmount := ValidateMarketOrder(m);
          if ok && askAmount < minimumAsk {
            return false;
          }
      }
    }

    /** `Context::validate_limit_order`: consumes one output (full fill, no fill) or two
        (partial fill) at the cursor. */
    method ValidateLimitOrder(full: Order) returns (ok: bool)
      requires full.IsLimit()
      modifies this
      ensures ok == LimitStep(env, old(outputEntityEnd), full).Some?
      ensures ok ==> outputEntityEnd == LimitStep(env, old(outputEntityEnd), full).value
      ensures OtxRanges() == old(OtxRanges())
    {
      var order := full.limit;
      if outputEntityEnd >= |env.tx.outputs| {
        return false;
      }
      var nextLock := env.tx.outputs[outputEntityEnd].lock;
      if SameFamily(nextLock, env.script) {
        if TypeHashAt(env, outputEntityEnd) != Some(order.bidToken) {
          return false;
        }
        var freestanding := UdtAmountAt(env.tx, outputEntityEnd);
        if freestanding.None? {
          return false;
        }
        if freestanding.value < order.bidAmount {
          ok := ValidatePartialFill(full, freestanding.value);
        } else {
          ok := ValidateCarryOver(full);
        }
      } else {
        ok := ValidateFullFill(order);
      }
    }

    /** The partial-fill branch of `validate_limit_order` (lines 362-402). */
    method ValidatePartialFill(full: Order, freestandingAmount: U128) returns (ok: bool)
      requires full.IsLimit() && outputEntityEnd < |env.tx.outputs| && freestandingAmount < full.limit.bidAmount
      modifies this
      ensures ok == PartialFill(env, old(outputEntityEnd), full, freestandingAmount).Some?
      ensures ok ==> outputEntityEnd == PartialFill(env, old(outputEntityEnd), full, freestandingAmount).value
      ensures OtxRanges() == old(OtxRanges())
    {
      var order := full.limit;
      var pay := outputEntityEnd + 1;
      if LockHashAt(env, pay) != Some(order.recipient) || TypeHashAt(env, pay) != Some(order.askToken) {
        return false;
      }
      var paid := UdtAmountAt(env.tx, pay);
      if paid.None? {
        return false;
      }
      var actualBidAmount := order.bidAmount - freestandingAmount;
      if !PriceOk(order.bidAmount, order.askAmount, actualBidAmount, paid.value) {
        return false;
      }
      ok := SettlePartial(full, freestandingAmount, paid.value);
    }

    /** The rest of the partial-fill branch, after the price check (lines 384-402). */
    method SettlePartial(full: Order, freestandingAmount: U128, paid: U128) returns (ok: bool)
      requires full.IsLimit() && outputEntityEnd + 1 < |env.tx.outputs|
      modifies this
      ensures ok == SettlePartialFill(env, old(outputEntityEnd), full, freestandingAmount, paid).Some?
      ensures ok ==> outputEntityEnd == SettlePartialFill(env, old(outputEntityEnd), full, freestandingAmount, paid).value
      ensures OtxRanges() == old(OtxRanges())
    {
      var order := full.limit;
      var freestandingCkbytes := env.tx.outputs[outputEntityEnd].capacity;
      var paybackCkbytes := env.tx.outputs[outputEntityEnd + 1].capacity;
      if freestandingCkbytes + paybackCkbytes >= U64_LIMIT || freestandingCkbytes + paybackCkbytes < order.claimedCkbytes {
        return false;
      }
      var newAsk := RemainingAsk(env.overflowChecks, order.askAmount, paid);
      if newAsk.None? {
        return false;
      }
      var newOrder := Carve(full, freestandingAmount, newAsk.value, freestandingCkbytes);
      var freestandingArgs := FreestandingArgs(env.instanceId, order.recipient, env.hasher.order(newOrder));
      if env.tx.outputs[outputEntityEnd].lock.args != freestandingArgs {
        return false;
      }
      outputEntityEnd := outputEntityEnd + 2;
      return true;
    }

    /** The no-fill branch of `validate_limit_order` (lines 403-415). */
    method ValidateCarryOver(full: Order) returns (ok: bool)
      requires full.IsLimit() && outputEntityEnd < |env.tx.outputs|
      modifies this
      ensures ok == CarryOver(env, old(outputEntityEnd), full).Some?
      ensures ok ==> outputEntityEnd == CarryOver(env, old(outputEntityEnd), full).value
      ensures OtxRanges() == old(OtxRanges())
    {
      var order := full.limit;
      var cell := env.tx.outputs[outputEntityEnd];
      if cell.capacity < order.claimedCkbytes {
        return false;
      }
      var freestandingArgs := FreestandingArgs(env.instanceId, order.recipient, env.hasher.order(full));
      if cell.lock.args != freestandingArgs {
        return false;
      }
      outputEntityEnd := outputEntityEnd + 1;
      return true;
    }

    /** The full-fill branch of `validate_limit_order` (lines 416-436). */
    method ValidateFullFill(order: LimitOrder) returns (ok: bool)
      requires outputEntityEnd < |env.tx.outputs|
      modifies this
      ensures ok == FullFill(env, old(outputEntityEnd), order).Some?
      ensures ok ==> outputEntityEnd == FullFill(env, old(outputEntityEnd), order).value
      ensures OtxRanges() == old(OtxRanges())
    {
      if TypeHashAt(env, outputEntityEnd) != Some(order.askToken) || LockHashAt(env, outputEntityEnd) != Some(order.recipient) {
        return false;
      }
      var actual := UdtAmountAt(env.tx, outputEntityEnd);
      if actual.None? || actual.value < order.askAmount {
        return false;
      }
      if env.tx.outputs[outputEntityEnd].capacity < order.claimedCkbytes {
        return false;
      }
      outputEntityEnd := outputEntityEnd + 1;
      return true;
    }

    /** `Context::validate_market_order`: one output at the cursor; returns its balance. */
    method ValidateMarketOrder(order: MarketOrder) returns (ok: bool, askAmount: U128)
      modifies this
      ensures ok == MarketStep(env, old(outputEntityEnd), order).Some?
      ensures ok ==> (outputEntityEnd, askAmount) == MarketStep(env, old(outputEntityEnd), order).value
      ensures OtxRanges() == old(OtxRanges())
    {
      askAmount := 0;
      if TypeHashAt(env, outputEntityEnd) != Some(order.askToken) || LockHashAt(env, outputEntityEnd) != Some(order.recipient) {
        return false, 0;
      }
      if env.tx.outputs[outputEntityEnd].capacity < order.claimedCkbytes {
        return false, 0;
      }
      var actual := UdtAmountAt(env.tx, outputEntityEnd);
      if actual.None? {
        return false, 0;
      }
      outputEntityEnd := outputEntityEnd + 1;
      return true, actual.value;
    }

    /** `for order in action.orders() { context.process(order); }` */
    method ProcessOrders(orders: seq<Order>) returns (ok: bool)
      modifies this
      ensures ok == ProcessAll(env, old(outputEntityEnd), orders).Some?
      ensures ok ==> outputEntityEnd == ProcessAll(env, old(outputEntityEnd), orders).value
      ensures OtxRanges() == old(OtxRanges())
    {
      var i := 0;
      while i < |orders|
        invariant 0 <= i <= |orders|
        invariant ProcessAll(env, old(outputEntityEnd), orders) == ProcessAll(env, outputEntityEnd, orders[i..])
        invariant OtxRanges() == old(OtxRanges())
      {
        assert orders[i..][0] == orders[i] && orders[i..][1..] == orders[i + 1..];
        ok := Process(orders[i]);
        if !ok {
          return false;
        }
        i := i + 1;
      }
      assert orders[i..] == [];
      return true;
    }

    /** The OTX loop of `program_entry` (lines 190-226): widen the ranges by each OTX and
        process the orders of its first action addressed to this instance. */
    method AggregateOtxs(otxs: seq<Otx>, scriptHash: Hash32) returns (ok: bool)
      modifies this
      ensures ok == Aggregate(env, old(Snapshot()), otxs, scriptHash).Some?
      ensures ok ==> Snapshot() == Aggregate(env, old(Snapshot()), otxs, scriptHash).value
    {
      var i := 0;
      while i < |otxs|
        invariant 0 <= i <= |otxs|
        invariant Aggregate(env, old(Snapshot()), otxs, scriptHash) == Aggregate(env, Snapshot(), otxs[i..], scriptHash)
      {
        var otx := otxs[i];
        assert otxs[i..][0] == otx && otxs[i..][1..] == otxs[i + 1..];
        ghost var before := Snapshot();
        otxInputStart := Min(otxInputStart, otx.inputCellStart);
        otxInputEnd := Max(otxInputEnd, otx.inputCellStart + otx.inputCells);
        otxOutputStart := Min(otxOutputStart, otx.outputCellStart);
        otxOutputEnd := Max(otxOutputEnd, otx.outputCellStart + otx.outputCells);
        assert OtxRanges() == Widen(before.ranges, otx);
        var found := FindAction(otx.actions, scriptHash);
        if found.Some? {
          var action := otx.actions[found.value];
          if action.orders.None? {
            return false;
          }
          ok := ProcessOrders(action.orders.value);
          if !ok {
            return false;
          }
        }
        assert Snapshot() == AbsorbOtx(env, before, otx, scriptHash).value;
        i := i + 1;
      }
      assert otxs[i..] == [];
      return true;
    }

    /** The freestanding collector of `program_entry` (lines 237-271): pair every visited
        input locked by this validator's family with the next order, authenticate it, and
        process it; no order may be left over. */
    method CollectFreestanding(orders: seq<Order>, inputEntityIndex: nat) returns (ok: bool)
      modifies this
      ensures ok == FreestandingOutcome(env, old(OtxRanges()), inputEntityIndex, old(outputEntityEnd), orders).Some?
      ensures ok ==> outputEntityEnd == FreestandingOutcome(env, old(OtxRanges()), inputEntityIndex, old(outputEntityEnd), orders).value
      ensures OtxRanges() == old(OtxRanges())
    {
      var ranges := OtxRanges();
      var inputs := env.tx.inputCells;
      var remaining := orders;
      var i := 0;
      while i < |inputs|
        invariant 0 <= i <= |inputs|
        invariant OtxRanges() == ranges
        invariant Collect(env, ranges, inputEntityIndex, 0, old(outputEntityEnd), orders) ==
          Collect(env, ranges, inputEntityIndex, i, outputEntityEnd, remaining)
      {
        if i >= otxInputStart && i < otxInputEnd {
          i := i + 1;
          continue;
        }
        if i == inputEntityIndex {
          i := i + 1;
          continue;
        }
        var lock := inputs[i].lock;
        if SameFamily(lock, env.script) {
          if |lock.args| != 96 || lock.args[..32] != env.instanceId {
            return false;
          }
          if remaining == [] {
            return false;
          }
          var order := remaining[0];
          remaining := remaining[1..];
          var orderHash := env.hasher.order(order);
          if orderHash != lock.args[64..96] {
            return false;
          }
          ok := Process(order);
          if !ok {
            return false;
          }
        }
        i := i + 1;
      }
      return remaining == [];
    }
  }
}
