/** Aggregated sub-transactions (OTXs), the transaction-level message, and the two passes
    of `program_entry` that feed orders to the engine: the OTX pass with its running range
    bookkeeping, and the freestanding-cell collector. */
module Batches {

  import opened Wrappers
  import opened Bytes
  import opened Ledger
  import opened Orders
  import opened Engine

  /** A cobuild action: the script hash it targets and its payload decoded as a
      `Dex1Action` order list, or None when the payload does not decode. */
  datatype Action = Action(scriptHash: Hash32, orders: Option<seq<Order>>)

  /** One OTX as `parse_otx_structure` yields it. */
  datatype Otx = Otx(
    inputCellStart: nat,
    inputCells: U32,
    outputCellStart: nat,
    outputCells: U32,
    actions: seq<Action>)

  /** The result of `parse_otx_structure`: no OTX start (`WrongOtxStart`), a list of OTXs,
      or any other parse error. */
  datatype OtxStructure = NoOtx | OtxList(otxs: seq<Otx>) | MalformedOtx

  /** The result of `fetch_message`: no message, a message's action list, or an error. */
  datatype Message = NoMessage | MessageActions(actions: seq<Action>) | MalformedMessage

  /** The position of the first action targeting `scriptHash` (`Iterator::find`). */
  function FindAction(actions: seq<Action>, scriptHash: Hash32): (r: Option<nat>)
    ensures r.Some? ==> r.value < |actions| && actions[r.value].scriptHash == scriptHash
    ensures r.Some? ==> forall k :: 0 <= k < r.value ==> actions[k].scriptHash != scriptHash
    ensures r.None? ==> forall k :: 0 <= k < |actions| ==> actions[k].scriptHash != scriptHash
    decreases |actions|
  {
    if actions == [] then None
    else if actions[0].scriptHash == scriptHash then Some(0)
    else match FindAction(actions[1..], scriptHash)
      case None => None
      case Some(k) => Some(k + 1)
  }

  /** The enclosing OTX input and output ranges `[inputStart, inputEnd)` and
      `[outputStart, outputEnd)`: the `otx_*` fields of `Context`. */
  datatype Ranges = Ranges(inputStart: nat, inputEnd: nat, outputStart: nat, outputEnd: nat)

  /** The ranges before any OTX was seen: start at `usize::MAX`, end at 0, both empty. */
  const Unset: Ranges := Ranges(USIZE_MAX, 0, USIZE_MAX, 0)

  function Min(a: nat, b: nat): nat { if a <= b then a else b }
  function Max(a: nat, b: nat): nat { if a >= b then a else b }

  /** Widening by one OTX: starts are running minima and ends running maxima. */
  function Widen(r: Ranges, otx: Otx): (w: Ranges)
    ensures w.inputStart <= r.inputStart && w.inputStart <= otx.inputCellStart
    ensures w.inputStart == r.inputStart || w.inputStart == otx.inputCellStart
    ensures w.inputEnd >= r.inputEnd && w.inputEnd >= otx.inputCellStart + otx.inputCells
    ensures w.inputEnd == r.inputEnd || w.inputEnd == otx.inputCellStart + otx.inputCells
    ensures w.outputStart <= r.outputStart && w.outputStart <= otx.outputCellStart
    ensures w.outputStart == r.outputStart || w.outputStart == otx.outputCellStart
    ensures w.outputEnd >= r.outputEnd && w.outputEnd >= otx.outputCellStart + otx.outputCells
    ensures w.outputEnd == r.outputEnd || w.outputEnd == otx.outputCellStart + otx.outputCells
  {
    Ranges(
      Min(r.inputStart, otx.inputCellStart),
      Max(r.inputEnd, otx.inputCellStart + otx.inputCells),
      Min(r.outputStart, otx.outputCellStart),
      Max(r.outputEnd, otx.outputCellStart + otx.outputCells))
  }

  /** `a` lies inside `b`: every index of `a`'s ranges is in `b`'s (as bounds). */
  predicate Encloses(b: Ranges, a: Ranges)
  {
    b.inputStart <= a.inputStart && a.inputEnd <= b.inputEnd &&
    b.outputStart <= a.outputStart && a.outputEnd <= b.outputEnd
  }

  /** OTX `otx`'s own ranges lie inside `r`. */
  predicate Covers(r: Ranges, otx: Otx)
  {
    r.inputStart <= otx.inputCellStart && otx.inputCellStart + otx.inputCells <= r.inputEnd &&
    r.outputStart <= otx.outputCellStart && otx.outputCellStart + otx.outputCells <= r.outputEnd
  }

  /** Input `k` lies in OTX `otx`'s own input range. */
  predicate OtxHoldsInput(otx: Otx, k: nat)
  {
    otx.inputCellStart <= k < otx.inputCellStart + otx.inputCells
  }

  /** Output `k` lies in OTX `otx`'s own output range. */
  predicate OtxHoldsOutput(otx: Otx, k: nat)
  {
    otx.outputCellStart <= k < otx.outputCellStart + otx.outputCells
  }

  /** The cursor and the ranges: the mutable part of `Context`. */
  datatype State = State(cursor: nat, ranges: Ranges)

  /** One iteration of the OTX loop: widen the ranges, then process the orders of the first
      action addressed to this instance, if any. */
  function AbsorbOtx(env: Env, st: State, otx: Otx, scriptHash: Hash32): Option<State>
  {
    var widened := Widen(st.ranges, otx);
    match FindAction(otx.actions, scriptHash)
    case None => Some(State(st.cursor, widened))
    case Some(k) =>
      match otx.actions[k].orders
      case None => None
      case Some(orders) =>
        match ProcessAll(env, st.cursor, orders)
        case None => None
        case Some(c) => Some(State(c, widened))
  }

  /** The whole OTX loop, in the order the OTXs are supplied. */
  function Aggregate(env: Env, st: State, otxs: seq<Otx>, scriptHash: Hash32): Option<State>
    decreases |otxs|
  {
    if otxs == [] then Some(st)
    else match AbsorbOtx(env, st, otxs[0], scriptHash)
      case None => None
      case Some(next) => Aggregate(env, next, otxs[1..], scriptHash)
  }

  /** After the OTX loop the ranges only grew, enclose every OTX's own ranges, and the
      cursor did not move back. */
  lemma {:induction false} AggregateWidens(env: Env, st: State, otxs: seq<Otx>, scriptHash: Hash32)
    requires Aggregate(env, st, otxs, scriptHash).Some?
    ensures Encloses(Aggregate(env, st, otxs, scriptHash).value.ranges, st.ranges)
    ensures forall k :: 0 <= k < |otxs| ==> Covers(Aggregate(env, st, otxs, scriptHash).value.ranges, otxs[k])
    ensures Aggregate(env, st, otxs, scriptHash).value.cursor >= st.cursor
    decreases |otxs|
  {
    if otxs != [] {
      var next := AbsorbOtx(env, st, otxs[0], scriptHash).value;
      var k := FindAction(otxs[0].actions, scriptHash);
      if k.Some? {
        ProcessAllCursor(env, st.cursor, otxs[0].actions[k.value].orders.value);
      }
      AggregateWidens(env, next, otxs[1..], scriptHash);
      var fin := Aggregate(env, st, otxs, scriptHash).value;
      forall j | 0 <= j < |otxs| ensures Covers(fin.ranges, otxs[j]) {
        if j > 0 {
          assert otxs[j] == otxs[1..][j - 1];
        }
      }
    }
  }

  // ---------------------------------------------------------------------------------------
  // Freestanding collector

  /** Input `i` is visited by the collector: outside the OTX input range, not the entity's. */
  predicate Visited(ranges: Ranges, entity: nat, i: nat)
  {
    !(ranges.inputStart <= i < ranges.inputEnd) && i != entity
  }

  /** Input `i` is a freestanding cell to pair with an order: visited and locked by a
      script of this validator's family. */
  predicate Qualifies(env: Env, ranges: Ranges, entity: nat, i: nat)
  {
    i < |env.tx.inputCells| && Visited(ranges, entity, i) && SameFamily(env.tx.inputCells[i].lock, env.script)
  }

  /** The lock arguments of a freestanding cell authenticate `order`: 96 bytes, this
      instance's id first, the order's hash last. */
  predicate Authenticates(env: Env, lock: Script, order: Order)
  {
    |lock.args| == 96 && lock.args[..32] == env.instanceId && lock.args[64..96] == env.hasher.order(order)
  }

  /** The collector loop from input `i` on, with cursor `c` and the orders not yet paired;
      ends with the cursor and the orders left over. */
  function Collect(env: Env, ranges: Ranges, entity: nat, i: nat, c: nat, orders: seq<Order>): Option<(nat, seq<Order>)>
    decreases |env.tx.inputCells| - i
  {
    if i >= |env.tx.inputCells| then Some((c, orders))
    else if !Qualifies(env, ranges, entity, i) then Collect(env, ranges, entity, i + 1, c, orders)
    else if orders == [] || !Authenticates(env, env.tx.inputCells[i].lock, orders[0]) then None
    else match OrderStep(env, c, orders[0])
      case None => None
      case Some(next) => Collect(env, ranges, entity, i + 1, next, orders[1..])
  }

  /** The freestanding pass: the collector loop, then no order may be left over. */
  function FreestandingOutcome(env: Env, ranges: Ranges, entity: nat, c: nat, orders: seq<Order>): Option<nat>
  {
    match Collect(env, ranges, entity, 0, c, orders)
    case None => None
    case Some(result) => if result.1 == [] then Some(result.0) else None
  }

  /** The indices from `i` on, in increasing order, of the inputs that qualify. */
  function QualifyingFrom(env: Env, ranges: Ranges, entity: nat, i: nat): (r: seq<nat>)
    ensures forall j :: 0 <= j < |r| ==> i <= r[j] && Qualifies(env, ranges, entity, r[j])
    ensures forall a, b :: 0 <= a < b < |r| ==> r[a] < r[b]
    decreases |env.tx.inputCells| - i
  {
    if i >= |env.tx.inputCells| then []
    else (if Qualifies(env, ranges, entity, i) then [i] else []) + QualifyingFrom(env, ranges, entity, i + 1)
  }

  /** Every qualifying input from `i` on is listed. */
  lemma {:induction false} QualifyingFromComplete(env: Env, ranges: Ranges, entity: nat, i: nat, k: nat)
    requires i <= k && Qualifies(env, ranges, entity, k)
    ensures k in QualifyingFrom(env, ranges, entity, i)
    decreases k - i
  {
    if i < k {
      QualifyingFromComplete(env, ranges, entity, i + 1, k);
    }
  }

  /** An accepted collector run consumes one order per qualifying input, the first ones of
      the list, and leaves the rest over. */
  lemma {:induction false} CollectLeftover(env: Env, ranges: Ranges, entity: nat, i: nat, c: nat, orders: seq<Order>)
    requires Collect(env, ranges, entity, i, c, orders).Some?
    ensures |QualifyingFrom(env, ranges, entity, i)| <= |orders|
    ensures Collect(env, ranges, entity, i, c, orders).value.1 == orders[|QualifyingFrom(env, ranges, entity, i)|..]
    decreases |env.tx.inputCells| - i
  {
    if i < |env.tx.inputCells| {
      if !Qualifies(env, ranges, entity, i) {
        CollectLeftover(env, ranges, entity, i + 1, c, orders);
      } else {
        var next := OrderStep(env, c, orders[0]).value;
        CollectLeftover(env, ranges, entity, i + 1, next, orders[1..]);
        var rest := QualifyingFrom(env, ranges, entity, i + 1);
        assert |QualifyingFrom(env, ranges, entity, i)| == |rest| + 1;
        assert orders[1..][|rest|..] == orders[|rest| + 1..];
      }
    }
  }

  /** In an accepted collector run the j-th qualifying input, in index order, authenticates
      the j-th order. */
  lemma {:induction false} CollectAuthenticates(env: Env, ranges: Ranges, entity: nat, i: nat, c: nat, orders: seq<Order>, j: nat)
    requires Collect(env, ranges, entity, i, c, orders).Some?
    requires j < |QualifyingFrom(env, ranges, entity, i)|
    ensures j < |orders|
    ensures Authenticates(env, env.tx.inputCells[QualifyingFrom(env, ranges, entity, i)[j]].lock, orders[j])
    decreases |env.tx.inputCells| - i
  {
    CollectLeftover(env, ranges, entity, i, c, orders);
    var q := QualifyingFrom(env, ranges, entity, i);
    var rest := QualifyingFrom(env, ranges, entity, i + 1);
    assert i < |env.tx.inputCells|;
    if !Qualifies(env, ranges, entity, i) {
      assert q == rest;
      CollectAuthenticates(env, ranges, entity, i + 1, c, orders, j);
    } else {
      assert q == [i] + rest;
      if j == 0 {
        assert q[0] == i;
        assert orders != [] && Authenticates(env, env.tx.inputCells[i].lock, orders[0]);
      } else {
        var next := OrderStep(env, c, orders[0]).value;
        CollectAuthenticates(env, ranges, entity, i + 1, next, orders[1..], j - 1);
        assert q[j] == rest[j - 1] && orders[j] == orders[1..][j - 1];
      }
    }
  }

  /** An accepted collector run processes the orders it consumes in list order: its cursor
      is the one `ProcessAll` reaches on them. */
  lemma {:induction false} CollectProcesses(env: Env, ranges: Ranges, entity: nat, i: nat, c: nat, orders: seq<Order>)
    requires Collect(env, ranges, entity, i, c, orders).Some?
    ensures |QualifyingFrom(env, ranges, entity, i)| <= |orders|
    ensures ProcessAll(env, c, orders[..|QualifyingFrom(env, ranges, entity, i)|]) ==
      Some(Collect(env, ranges, entity, i, c, orders).value.0)
    decreases |env.tx.inputCells| - i
  {
    CollectLeftover(env, ranges, entity, i, c, orders);
    var n := |QualifyingFrom(env, ranges, entity, i)|;
    if i >= |env.tx.inputCells| {
      assert orders[..n] == [];
    } else if !Qualifies(env, ranges, entity, i) {
      CollectProcesses(env, ranges, entity, i + 1, c, orders);
    } else {
      var next := OrderStep(env, c, orders[0]).value;
      CollectProcesses(env, ranges, entity, i + 1, next, orders[1..]);
      var m := |QualifyingFrom(env, ranges, entity, i + 1)|;
      assert n == m + 1;
      assert orders[..n][0] == orders[0];
      assert orders[..n][1..] == orders[1..][..m];
    }
  }

  /** More qualifying inputs than orders always rejects. */
  lemma {:induction false} CollectTooManyCells(env: Env, ranges: Ranges, entity: nat, i: nat, c: nat, orders: seq<Order>)
    requires |QualifyingFrom(env, ranges, entity, i)| > |orders|
    ensures Collect(env, ranges, entity, i, c, orders).None?
  {
    if Collect(env, ranges, entity, i, c, orders).Some? {
      CollectLeftover(env, ranges, entity, i, c, orders);
    }
  }

  /** The freestanding pass accepts only when the qualifying inputs and the orders are
      exactly as many. */
  lemma FreestandingConsumesAll(env: Env, ranges: Ranges, entity: nat, c: nat, orders: seq<Order>)
    requires FreestandingOutcome(env, ranges, entity, c, orders).Some?
    ensures |QualifyingFrom(env, ranges, entity, 0)| == |orders|
    ensures ProcessAll(env, c, orders) == FreestandingOutcome(env, ranges, entity, c, orders)
  {
    CollectLeftover(env, ranges, entity, 0, c, orders);
    CollectProcesses(env, ranges, entity, 0, c, orders);
    var q := QualifyingFrom(env, ranges, entity, 0);
    assert orders[|q|..] == [];
    assert orders[..|q|] == orders;
  }

  // ---------------------------------------------------------------------------------------
  // Final range exclusion

  /** Input `k` lies in the enclosing OTX input range. */
  predicate InOtxInputs(r: Ranges, k: nat)
  {
    r.inputStart <= k < r.inputEnd
  }

  /** Output `k` lies in the enclosing OTX output range. */
  predicate InOtxOutputs(r: Ranges, k: nat)
  {
    r.outputStart <= k < r.outputEnd
  }

  /** The two assertions after all orders are processed (lines 276-287). */
  predicate RangesExcluded(r: Ranges, inputEntity: nat, outputEntity: nat, outputEnd: nat)
  {
    && (r.inputStart < r.inputEnd ==> inputEntity >= r.inputEnd || inputEntity < r.inputStart)
    && (r.outputStart < r.outputEnd ==> outputEntity >= r.outputEnd || outputEnd <= r.outputStart)
  }

  /** The exclusion checks hold exactly when the entity input is outside the OTX input range
      and no output from the entity to the final cursor is inside the OTX output range. */
  lemma RangesExcludedMeaning(r: Ranges, inputEntity: nat, outputEntity: nat, outputEnd: nat)
    requires outputEntity < outputEnd
    ensures RangesExcluded(r, inputEntity, outputEntity, outputEnd) <==>
      && !InOtxInputs(r, inputEntity)
      && forall k :: outputEntity <= k < outputEnd ==> !InOtxOutputs(r, k)
  {
    if r.outputStart < r.outputEnd && !(outputEntity >= r.outputEnd || outputEnd <= r.outputStart) {
      var k := Max(outputEntity, r.outputStart);
      assert outputEntity <= k < outputEnd && InOtxOutputs(r, k);
    }
  }
}
