/** `program_entry`: role dispatch, entity location, creation and update modes, and the
    final range exclusion, as the accept/reject predicate `Accepts` and the method
    `ProgramEntry` that computes it step by step. */
module Entry {

  import opened Wrappers
  import opened Bytes
  import opened Ledger
  import opened Orders
  import opened Engine
  import opened Batches
  import opened Validation

  /** Types of the first cell of the current script group (`Source::GroupInput` and
      `Source::GroupOutput`, index 0); None when there is no such cell or it has no type. */
  datatype ScriptGroup = ScriptGroup(firstInputType: Option<Script>, firstOutputType: Option<Script>)

  /** Everything one invocation can observe. */
  datatype Invocation = Invocation(
    script: Script,
    group: ScriptGroup,
    tx: Tx,
    otx: OtxStructure,
    message: Message,
    hasher: Hasher,
    overflowChecks: bool)

  // ---------------------------------------------------------------------------------------
  // Role dispatch (lines 27-81)

  /** The `assert_ne!` guards: the script is the type of the first cell of its own group. */
  predicate GroupSelfTyped(group: ScriptGroup, s: Script)
  {
    group.firstInputType == Some(s) || group.firstOutputType == Some(s)
  }

  /** Input cell `cell` is a dex1 entity of the instance named by the first 32 argument
      bytes of the continuation lock `s`. */
  predicate SettlesViaType(cell: CellOutput, s: Script)
    requires |s.args| == 96
  {
    cell.typ.Some? && SameFamily(cell.typ.value, s) && cell.typ.value.args == s.args[..32]
  }

  /** Input cell `cell` is locked by the recipient named in argument bytes 32..64 of `s`. */
  predicate CancelledByOwner(cell: CellOutput, s: Script, hasher: Hasher)
    requires |s.args| == 96
  {
    hasher.script(cell.lock) == s.args[32..64]
  }

  /** Settlement path: some input carries the entity type of this order's instance. */
  predicate SettlementPath(cells: seq<CellOutput>, s: Script)
    requires |s.args| == 96
  {
    exists i :: 0 <= i < |cells| && SettlesViaType(cells[i], s)
  }

  /** Owner-cancel path: some input's lock hash is the recipient's. */
  predicate OwnerCancelPath(cells: seq<CellOutput>, s: Script, hasher: Hasher)
    requires |s.args| == 96
  {
    exists i :: 0 <= i < |cells| && CancelledByOwner(cells[i], s, hasher)
  }

  /** The input-type scan of the settlement path (lines 37-57). */
  method ScanSettlementPath(cells: seq<CellOutput>, s: Script) returns (found: bool)
    requires |s.args| == 96
    ensures found == SettlementPath(cells, s)
  {
    var i := 0;
    while i < |cells|
      invariant 0 <= i <= |cells|
      invariant forall k :: 0 <= k < i ==> !SettlesViaType(cells[k], s)
    {
      var t := cells[i].typ;
      if t.Some? && t.value.codeHash == s.codeHash && t.value.hashType == s.hashType && t.value.args == s.args[..32] {
        return true;
      }
      i := i + 1;
    }
    return false;
  }

  /** The input-lock-hash scan of the owner-cancel path (lines 59-75). */
  method ScanOwnerCancel(cells: seq<CellOutput>, s: Script, hasher: Hasher) returns (found: bool)
    requires |s.args| == 96
    ensures found == OwnerCancelPath(cells, s, hasher)
  {
    var i := 0;
    while i < |cells|
      invariant 0 <= i <= |cells|
      invariant forall k :: 0 <= k < i ==> !CancelledByOwner(cells[k], s, hasher)
    {
      var lockHash := hasher.script(cells[i].lock);
      if lockHash == s.args[32..64] {
        return true;
      }
      i := i + 1;
    }
    return false;
  }

  // ---------------------------------------------------------------------------------------
  // Entity location (lines 96-175)

  /** The input scan for the entity type (lines 96-117): `unique` is false when a second
      entity input turns up; otherwise `found` is the entity input, if any. */
  method LocateInputEntity(cells: seq<CellOutput>, s: Script) returns (found: Option<nat>, unique: bool)
    ensures unique == (|EntityIndices(cells, s)| <= 1)
    ensures unique ==> found == (if EntityIndices(cells, s) == [] then None else Some(EntityIndices(cells, s)[0]))
  {
    found := None;
    var i := 0;
    while i < |cells|
      invariant 0 <= i <= |cells|
      invariant found.None? ==> EntityIndices(cells[..i], s) == []
      invariant found.Some? ==> EntityIndices(cells[..i], s) == [found.value]
    {
      EntityIndicesSnoc(cells, s, i);
      if cells[i].typ == Some(s) {
        if found.Some? {
          EntityIndicesGrow(cells, s, i + 1);
          return None, false;
        }
        found := Some(i);
      }
      i := i + 1;
    }
    assert cells[..i] == cells;
    return found, true;
  }

  /** Extending a prefix by one cell appends its index when it is an entity cell. */
  lemma EntityIndicesSnoc(cells: seq<CellOutput>, s: Script, i: nat)
    requires i < |cells|
    ensures EntityIndices(cells[..i + 1], s) ==
      EntityIndices(cells[..i], s) + (if cells[i].typ == Some(s) then [i] else [])
  {
    assert cells[..i + 1][..i] == cells[..i];
  }

  /** Once the indices of a prefix number two or more, so do those of the whole sequence. */
  lemma {:induction false} EntityIndicesGrow(cells: seq<CellOutput>, s: Script, n: nat)
    requires n <= |cells|
    ensures |EntityIndices(cells, s)| >= |EntityIndices(cells[..n], s)|
    decreases |cells| - n
  {
    if n < |cells| {
      EntityIndicesGrow(cells, s, n + 1);
      assert cells[..n + 1][..n] == cells[..n];
    } else {
      assert cells[..n] == cells;
    }
  }

  /** Creation mode (lines 155-169): no OTX, and the instance id is the hash of the first
      encoded input followed by the little-endian u64 index of the entity output. */
  predicate CreationOk(inv: Invocation, outputEntity: nat)
  {
    && inv.otx.NoOtx?
    && |inv.tx.inputs| > 0
    && inv.hasher.bytes(inv.tx.inputs[0] + ToLE(outputEntity, 8)) == inv.script.args
  }

  /** The environment of update mode. */
  function UpdateEnv(inv: Invocation, inputBlock: U64): Env
    requires |inv.script.args| == 32
  {
    Env(inv.tx, inv.script, inv.script.args, inputBlock, inv.hasher, inv.overflowChecks)
  }

  /** The freestanding pass as entered from `program_entry` (lines 229-273). */
  function FreestandingPhase(env: Env, message: Message, scriptHash: Hash32, st: State, inputEntity: nat): Option<nat>
  {
    match message
    case MalformedMessage => None
    case NoMessage => Some(st.cursor)
    case MessageActions(actions) =>
      match FindAction(actions, scriptHash)
      case None => Some(st.cursor)
      case Some(k) =>
        match actions[k].orders
        case None => None
        case Some(orders) => FreestandingOutcome(env, st.ranges, inputEntity, st.cursor, orders)
  }

  /** Update mode from the context's creation to the end of the freestanding pass: the final
      cursor and ranges, or None when some order or decoding aborts. */
  function SettleOrders(inv: Invocation, env: Env, inputEntity: nat, outputEntity: nat): Option<State>
  {
    var start := State(outputEntity + 1, Unset);
    var scriptHash := inv.hasher.script(inv.script);
    var afterOtxs := if inv.otx.OtxList? then Aggregate(env, start, inv.otx.otxs, scriptHash) else Some(start);
    match afterOtxs
    case None => None
    case Some(st) =>
      match FreestandingPhase(env, inv.message, scriptHash, st, inputEntity)
      case None => None
      case Some(c) => Some(State(c, st.ranges))
  }

  /** Update mode (lines 170-289). */
  predicate UpdateOk(inv: Invocation, inputEntity: nat, outputEntity: nat)
    requires |inv.script.args| == 32
    requires inputEntity < |inv.tx.inputCells| && outputEntity < |inv.tx.outputs|
  {
    && inv.tx.inputCells[inputEntity].lock == inv.tx.outputs[outputEntity].lock
    && HeaderBlock(inv.tx, inputEntity).Some?
    && var env := UpdateEnv(inv, HeaderBlock(inv.tx, inputEntity).value);
       match SettleOrders(inv, env, inputEntity, outputEntity)
       case None => false
       case Some(st) => RangesExcluded(st.ranges, inputEntity, outputEntity, st.cursor)
  }

  /** The whole validator: true when `program_entry` returns 0, false when it aborts. */
  predicate Accepts(inv: Invocation)
  {
    var s := inv.script;
    var tx := inv.tx;
    if |s.args| == 96 && GroupSelfTyped(inv.group, s) then false
    else if |s.args| == 96 && (SettlementPath(tx.inputCells, s) || OwnerCancelPath(tx.inputCells, s, inv.hasher)) then true
    else if |s.args| != 32 then false
    else if inv.otx.MalformedOtx? then false
    else
      var ins := EntityIndices(tx.inputCells, s);
      var outs := EntityIndices(tx.outputs, s);
      if |ins| > 1 || |outs| != 1 then false
      else if outs[0] >= |tx.outputsData| || tx.outputsData[outs[0]] != [] then false
      else if ins == [] then CreationOk(inv, outs[0])
      else
        assert ins[0] in ins && outs[0] in outs;
        UpdateOk(inv, ins[0], outs[0])
  }

  /** `program_entry`, step by step; returns true where the source returns 0. */
  method ProgramEntry(inv: Invocation) returns (accepted: bool)
    ensures accepted == Accepts(inv)
  {
    var script := inv.script;
    var tx := inv.tx;
    if |script.args| == 96 {
      if GroupSelfTyped(inv.group, script) {
        return false;
      }
      var settled := ScanSettlementPath(tx.inputCells, script);
      if settled {
        return true;
      }
      var cancelled := ScanOwnerCancel(tx.inputCells, script, inv.hasher);
      if cancelled {
        return true;
      }
    }
    if |script.args| != 32 {
      return false;
    }
    if inv.otx.MalformedOtx? {
      return false;
    }
    var inputEntity, unique := LocateInputEntity(tx.inputCells, script);
    if !unique {
      return false;
    }
    var outs := EntityIndices(tx.outputs, script);
    if |outs| != 1 {
      return false;
    }
    var outputEntityIndex := outs[0];
    if outputEntityIndex >= |tx.outputsData| || tx.outputsData[outputEntityIndex] != [] {
      return false;
    }
    if inputEntity.None? {
      if !inv.otx.NoOtx? || |tx.inputs| == 0 {
        return false;
      }
      var ret := inv.hasher.bytes(tx.inputs[0] + ToLE(outputEntityIndex, 8));
      return ret == script.args;
    }
    var inputEntityIndex := inputEntity.value;
    assert inputEntityIndex in EntityIndices(tx.inputCells, script) && outputEntityIndex in outs;
    accepted := RunUpdate(inv, inputEntityIndex, outputEntityIndex);
  }

  /** Update mode of `program_entry` (lines 170-289), once both entity cells are located. */
  method RunUpdate(inv: Invocation, inputEntityIndex: nat, outputEntityIndex: nat) returns (accepted: bool)
    requires |inv.script.args| == 32
    requires inputEntityIndex < |inv.tx.inputCells| && outputEntityIndex < |inv.tx.outputs|
    ensures accepted == UpdateOk(inv, inputEntityIndex, outputEntityIndex)
  {
    var tx := inv.tx;
    if tx.inputCells[inputEntityIndex].lock != tx.outputs[outputEntityIndex].lock {
      return false;
    }
    var header := HeaderBlock(tx, inputEntityIndex);
    if header.None? {
      return false;
    }
    var env := UpdateEnv(inv, header.value);
    var context := new Context(env, outputEntityIndex);
    var scriptHash := inv.hasher.script(inv.script);
    if inv.otx.OtxList? {
      var ok := context.AggregateOtxs(inv.otx.otxs, scriptHash);
      if !ok {
        return false;
      }
    }
    ghost var afterOtxs := context.Snapshot();
    assert SettleOrders(inv, env, inputEntityIndex, outputEntityIndex).Some? ==>
      SettleOrders(inv, env, inputEntityIndex, outputEntityIndex).value.ranges == afterOtxs.ranges;
    match inv.message {
      case MalformedMessage =>
        return false;
      case NoMessage =>
      case MessageActions(actions) =>
        var k := FindAction(actions, scriptHash);
        if k.Some? {
          var action := actions[k.value];
          if action.orders.None? {
            return false;
          }
          var ok := context.CollectFreestanding(action.orders.value, inputEntityIndex);
          if !ok {
            return false;
          }
        }
    }
    assert SettleOrders(inv, env, inputEntityIndex, outputEntityIndex) == Some(context.Snapshot());
    accepted := RangesExcluded(context.OtxRanges(), inputEntityIndex, outputEntityIndex, context.outputEntityEnd);
  }

  // ---------------------------------------------------------------------------------------
  // Properties of the whole validator

  /** With 96 argument bytes the script is a continuation lock: accepted exactly when the
      group guards pass and one of the two unlock paths holds. Any length other than 32 and
      96 always rejects. */
  lemma RoleDispatch(inv: Invocation)
    ensures |inv.script.args| == 96 ==>
      (Accepts(inv) <==>
        !GroupSelfTyped(inv.group, inv.script) &&
        (SettlementPath(inv.tx.inputCells, inv.script) || OwnerCancelPath(inv.tx.inputCells, inv.script, inv.hasher)))
    ensures |inv.script.args| != 96 && |inv.script.args| != 32 ==> !Accepts(inv)
  {
  }

  /** An accepted entity validation saw at most one entity input, exactly one entity output,
      and that output carries no data. */
  lemma EntityLocation(inv: Invocation)
    requires Accepts(inv) && |inv.script.args| == 32
    ensures |EntityIndices(inv.tx.inputCells, inv.script)| <= 1
    ensures |EntityIndices(inv.tx.outputs, inv.script)| == 1
    ensures forall i, j :: 0 <= i < j < |inv.tx.inputCells| ==>
      !(inv.tx.inputCells[i].typ == Some(inv.script) && inv.tx.inputCells[j].typ == Some(inv.script))
    ensures var o := EntityIndices(inv.tx.outputs, inv.script)[0];
      o < |inv.tx.outputs| && inv.tx.outputs[o].typ == Some(inv.script) &&
      o < |inv.tx.outputsData| && inv.tx.outputsData[o] == []
  {
    var o := EntityIndices(inv.tx.outputs, inv.script)[0];
    assert o in EntityIndices(inv.tx.outputs, inv.script);
    forall i, j | 0 <= i < j < |inv.tx.inputCells|
      ensures !(inv.tx.inputCells[i].typ == Some(inv.script) && inv.tx.inputCells[j].typ == Some(inv.script))
    {
      if inv.tx.inputCells[i].typ == Some(inv.script) && inv.tx.inputCells[j].typ == Some(inv.script) {
        AtMostOneEntity(inv.tx.inputCells, inv.script, i, j);
      }
    }
  }

  /** Creation mode: with a well-formed single entity output and no entity input, the
      transaction is accepted exactly when there is no OTX and the instance id is the hash
      of the first input and the little-endian index of the entity output. */
  lemma CreationMode(inv: Invocation)
    requires |inv.script.args| == 32 && !inv.otx.MalformedOtx?
    requires EntityIndices(inv.tx.inputCells, inv.script) == []
    requires |EntityIndices(inv.tx.outputs, inv.script)| == 1
    requires var o := EntityIndices(inv.tx.outputs, inv.script)[0]; o < |inv.tx.outputsData| && inv.tx.outputsData[o] == []
    ensures Accepts(inv) <==>
      && inv.otx.NoOtx?
      && |inv.tx.inputs| > 0
      && inv.hasher.bytes(inv.tx.inputs[0] + ToLE(EntityIndices(inv.tx.outputs, inv.script)[0], 8)) == inv.script.args
  {
  }

  /** The cursor at the end of update mode is past the entity output. */
  lemma SettleOrdersCursor(inv: Invocation, env: Env, inputEntity: nat, outputEntity: nat)
    requires SettleOrders(inv, env, inputEntity, outputEntity).Some?
    ensures SettleOrders(inv, env, inputEntity, outputEntity).value.cursor > outputEntity
    ensures inv.otx.OtxList? ==> forall k :: 0 <= k < |inv.otx.otxs| ==>
      Covers(SettleOrders(inv, env, inputEntity, outputEntity).value.ranges, inv.otx.otxs[k])
  {
    var start := State(outputEntity + 1, Unset);
    var scriptHash := inv.hasher.script(inv.script);
    var st := if inv.otx.OtxList? then Aggregate(env, start, inv.otx.otxs, scriptHash).value else start;
    if inv.otx.OtxList? {
      AggregateWidens(env, start, inv.otx.otxs, scriptHash);
    }
    if inv.message.MessageActions? {
      var k := FindAction(inv.message.actions, scriptHash);
      if k.Some? {
        var orders := inv.message.actions[k.value].orders.value;
        FreestandingConsumesAll(env, st.ranges, inputEntity, st.cursor, orders);
        ProcessAllCursor(env, st.cursor, orders);
      }
    }
  }

  /** Update mode keeps the entity's lock, needs the entity input's header, and keeps the
      entity input and every output from the entity to the final cursor out of the OTX
      ranges; in particular out of every single OTX's own ranges. */
  lemma UpdateMode(inv: Invocation, inputEntity: nat)
    requires Accepts(inv) && |inv.script.args| == 32
    requires EntityIndices(inv.tx.inputCells, inv.script) == [inputEntity]
    ensures var o := EntityIndices(inv.tx.outputs, inv.script)[0];
      && inputEntity < |inv.tx.inputCells| && o < |inv.tx.outputs|
      && inv.tx.inputCells[inputEntity].lock == inv.tx.outputs[o].lock
      && HeaderBlock(inv.tx, inputEntity).Some?
    ensures var o := EntityIndices(inv.tx.outputs, inv.script)[0];
      var env := UpdateEnv(inv, HeaderBlock(inv.tx, inputEntity).value);
      && SettleOrders(inv, env, inputEntity, o).Some?
      && var st := SettleOrders(inv, env, inputEntity, o).value;
         && st.cursor > o
         && !InOtxInputs(st.ranges, inputEntity)
         && (forall k :: o <= k < st.cursor ==> !InOtxOutputs(st.ranges, k))
         && (inv.otx.OtxList? ==> forall j :: 0 <= j < |inv.otx.otxs| ==> Covers(st.ranges, inv.otx.otxs[j]))
  {
    var o := EntityIndices(inv.tx.outputs, inv.script)[0];
    assert inputEntity in EntityIndices(inv.tx.inputCells, inv.script);
    assert o in EntityIndices(inv.tx.outputs, inv.script);
    var env := UpdateEnv(inv, HeaderBlock(inv.tx, inputEntity).value);
    SettleOrdersCursor(inv, env, inputEntity, o);
    var st := SettleOrders(inv, env, inputEntity, o).value;
    RangesExcludedMeaning(st.ranges, inputEntity, o, st.cursor);
  }

  /** No OTX can hold the entity input, and none can hold an output from the entity to the
      final cursor: the enclosing range is checked, so each single OTX range is excluded. */
  lemma EntityOutsideEveryOtx(inv: Invocation, inputEntity: nat, j: nat)
    requires Accepts(inv) && |inv.script.args| == 32
    requires EntityIndices(inv.tx.inputCells, inv.script) == [inputEntity]
    requires inv.otx.OtxList? && j < |inv.otx.otxs|
    ensures !OtxHoldsInput(inv.otx.otxs[j], inputEntity)
    ensures var o := EntityIndices(inv.tx.outputs, inv.script)[0];
      var env := UpdateEnv(inv, HeaderBlock(inv.tx, inputEntity).value);
      var otx := inv.otx.otxs[j];
      forall k :: o <= k < SettleOrders(inv, env, inputEntity, o).value.cursor ==> !OtxHoldsOutput(otx, k)
  {
    UpdateMode(inv, inputEntity);
    var o := EntityIndices(inv.tx.outputs, inv.script)[0];
    var env := UpdateEnv(inv, HeaderBlock(inv.tx, inputEntity).value);
    var st := SettleOrders(inv, env, inputEntity, o).value;
    var otx := inv.otx.otxs[j];
    assert Covers(st.ranges, otx);
    forall k | o <= k < st.cursor
      ensures !OtxHoldsOutput(otx, k)
    {
      assert !InOtxOutputs(st.ranges, k);
    }
  }
}
