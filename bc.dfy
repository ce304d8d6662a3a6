/**
 * The transaction data model of package bc: outpoints, asset amounts,
 * output commitments, inputs, outputs and the transaction itself, with the
 * wire-protocol constants and the small operations that need no codec.
 */
module Bc {
  import opened Wire
  import opened Digits

  const CurrentTransactionVersion: uint32 := 1
  /** The previous-output index that marks an issuance input. */
  const InvalidOutputIndex: uint32 := 0xffff_ffff
  const VMVersion: uint32 := 1

  const AssetDefinitionMaxByteLength: nat := 5000000
  const MetadataMaxByteLength: nat := 500000
  /** The two caps below are declared outside transaction.go; their values
      are this model's choice and no property depends on them. */
  const ScriptMaxByteLength: nat := 10000
  const CommitmentMaxByteLength: nat := 1000000

  /** Serialization flags: which conditional fields are rendered in full. */
  const SerWitness: byte := 1
  const SerPrevout: byte := 2
  const SerMetadata: byte := 4
  const SerValid: byte := 7
  /** The only combination accepted on the wire. */
  const SerRequired: byte := 7

  predicate HasFlag(flags: byte, bit: byte)
  {
    (flags as bv8) & (bit as bv8) != 0
  }

  type AssetID = Hash

  datatype Outpoint = Outpoint(hash: Hash, index: uint32)

  datatype AssetAmount = AssetAmount(assetID: AssetID, amount: uint64)

  /** Meaningful only for asset version 1. */
  datatype OutputCommitment = OutputCommitment(
    assetAmount: AssetAmount,
    vmVersion: uint32,
    controlProgram: seq<byte>)

  datatype TxInput = TxInput(
    previous: Outpoint,
    assetAmount: AssetAmount,
    prevScript: seq<byte>,
    signatureScript: seq<byte>,
    metadata: seq<byte>,
    assetDefinition: seq<byte>)

  datatype TxOutput = TxOutput(
    assetVersion: uint32,
    commitment: OutputCommitment,
    referenceData: seq<byte>)

  datatype TxData = TxData(
    serFlags: byte,
    version: uint32,
    inputs: seq<TxInput>,
    outputs: seq<TxOutput>,
    minTime: uint64,
    maxTime: uint64,
    metadata: seq<byte>)

  /** The zero value of an output commitment: what a freshly allocated
      output holds when its envelope is not decoded. */
  const ZeroCommitment: OutputCommitment := OutputCommitment(AssetAmount(ZeroHash, 0), 0, [])

  predicate IsIssuance(ti: TxInput)
  {
    ti.previous.index == InvalidOutputIndex
  }

  /** Whether some input of the transaction is an issuance input. */
  method HasIssuance(tx: TxData) returns (r: bool)
    ensures r <==> exists i :: 0 <= i < |tx.inputs| && IsIssuance(tx.inputs[i])
  {
    for i := 0 to |tx.inputs|
      invariant forall j :: 0 <= j < i ==> !IsIssuance(tx.inputs[j])
    {
      if IsIssuance(tx.inputs[i]) {
        return true;
      }
    }
    return false;
  }

  /** A version-1 output of the current VM version. */
  function NewTxOutput(assetID: AssetID, amount: uint64, controlProgram: seq<byte>, referenceData: seq<byte>): TxOutput
  {
    TxOutput(1, OutputCommitment(AssetAmount(assetID, amount), 1, controlProgram), referenceData)
  }

  /** An outpoint whose hash takes the first 32 bytes of `b`, zero-filled
      when `b` is shorter (Go's copy into a fixed array). */
  function NewOutpoint(b: seq<byte>, index: uint32): (p: Outpoint)
    ensures p.index == index
    ensures forall i :: 0 <= i < 32 ==> p.hash[i] == if i < |b| then b[i] else 0
  {
    var k := if |b| < 32 then |b| else 32;
    Outpoint(b[..k] + Zeros(32 - k), index)
  }

  /** "hash:index": the hash in lowercase hexadecimal, a colon, the index in
      decimal. */
  function OutpointString(p: Outpoint): (s: string)
    ensures |s| >= 66 && s[64] == ':'
    ensures HexDecode(s[..64]) == Ok(p.hash)
    ensures forall i :: 0 <= i < 64 ==> IsLowerHex(s[i])
    ensures forall i :: 65 <= i < |s| ==> IsDigit(s[i])
    ensures DecimalValue(s[65..]) == p.index
    ensures s[65] == '0' ==> |s| == 66
  {
    var h, d := HexEncode(p.hash), DecimalString(p.index);
    var s := h + ":" + d;
    assert s[..64] == h;
    assert s[65..] == d;
    HexRoundTrip(p.hash);
    HexEncodeIsLowercase(p.hash);
    DecimalRoundTrip(p.index);
    s
  }
}
