/** The ledger view the validator reads: scripts, cells and the transaction, as the
    `ckb_std` syscalls present them, replaced here by plain sequences of records. */
module Ledger {

  import opened Wrappers
  import opened Bytes

  /** A lock or type script: code identity, hash type and argument bytes. */
  datatype Script = Script(codeHash: Hash32, hashType: byte, args: seq<byte>)

  /** A cell's header fields: capacity in CKBytes, lock script, optional type script. */
  datatype CellOutput = CellOutput(capacity: U64, lock: Script, typ: Option<Script>)

  /** The transaction under validation.
      `inputs` are the encoded `CellInput`s of `tx.raw().inputs()`;
      `inputCells` are the cells they consume, as `load_cell_*(i, Source::Input)` sees them;
      `inputHeaders[i]` is the block number of the header `load_header(i, Source::Input)`
      finds, or None when that header is not loadable;
      `outputs` and `outputsData` are `tx.raw().outputs()` and `tx.raw().outputs_data()`. */
  datatype Tx = Tx(
    inputs: seq<seq<byte>>,
    inputCells: seq<CellOutput>,
    inputHeaders: seq<Option<U64>>,
    outputs: seq<CellOutput>,
    outputsData: seq<seq<byte>>)

  /** Two scripts of one family: same code hash and hash type, arguments free. */
  predicate SameFamily(a: Script, b: Script)
  {
    a.codeHash == b.codeHash && a.hashType == b.hashType
  }

  /** The block number of the header attached to input `i`; None makes `expect` abort. */
  function HeaderBlock(tx: Tx, i: nat): Option<U64>
  {
    if i < |tx.inputHeaders| then tx.inputHeaders[i] else None
  }

  /** The indices, in increasing order, of the cells whose type script is exactly `s`. */
  function EntityIndices(cells: seq<CellOutput>, s: Script): (r: seq<nat>)
    ensures forall k: int :: k in r <==> 0 <= k < |cells| && cells[k].typ == Some(s)
    ensures forall a, b :: 0 <= a < b < |r| ==> r[a] < r[b]
  {
    if cells == [] then []
    else
      var last := |cells| - 1;
      var earlier := EntityIndices(cells[..last], s);
      assert forall a :: 0 <= a < |earlier| ==> earlier[a] < last by {
        forall a | 0 <= a < |earlier| ensures earlier[a] < last {
          assert earlier[a] in earlier;
        }
      }
      earlier + (if cells[last].typ == Some(s) then [last] else [])
  }

  /** With at most one index listed, two entity cells are the same cell. */
  lemma AtMostOneEntity(cells: seq<CellOutput>, s: Script, i: nat, j: nat)
    requires |EntityIndices(cells, s)| <= 1
    requires i < |cells| && cells[i].typ == Some(s)
    requires j < |cells| && cells[j].typ == Some(s)
    ensures i == j
  {
    var r := EntityIndices(cells, s);
    assert i in r && j in r;
    assert r == [r[0]];
    assert i == r[0] && j == r[0];
  }

  /** The token balance of a cell whose data is `data`: its first 16 bytes read as a
      little-endian u128. None when the data is shorter (the slice would panic). */
  function UdtAmount(data: seq<byte>): (r: Option<U128>)
    ensures r.Some? <==> |data| >= 16
    ensures r.Some? ==> ToLE(r.value, 16) == data[..16]
  {
    if |data| < 16 then None
    else
      Pow256Widths();
      ToLEFromLE(data[..16]);
      Some(FromLE(data[..16]))
  }

  /** The token balance of output `i` (`Context::output_cell_udt_amount`). */
  function UdtAmountAt(tx: Tx, i: nat): (r: Option<U128>)
    ensures r.Some? <==> i < |tx.outputsData| && |tx.outputsData[i]| >= 16
    ensures r.Some? ==> ToLE(r.value, 16) == tx.outputsData[i][..16]
  {
    if i < |tx.outputsData| then UdtAmount(tx.outputsData[i]) else None
  }
}
