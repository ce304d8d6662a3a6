/**
 * The writeTo family: the binary rendering of a transaction under a
 * serflags byte. SerPrevout adds each input's spent asset amount and
 * previous script, SerWitness its signature script (otherwise an empty
 * field is written), SerMetadata the metadata, asset definitions and
 * reference data in full (otherwise their fast digests). Writes go to an
 * in-memory buffer or a hash and cannot fail, so each writer is a function
 * returning the bytes it writes.
 */
module Encoding {
  import opened Wire
  import opened Bc

  /** Outpoint.WriteTo: the 32-byte hash, then the index as a varint. */
  function EncodeOutpoint(p: Outpoint): (r: seq<byte>)
    ensures 33 <= |r| <= 37 && r[..32] == p.hash
  {
    UvarintFitsFiveBytes(p.index);
    p.hash + PutUvarint(p.index)
  }

  /** AssetAmount.writeTo: the 32-byte asset id, then the amount. */
  function EncodeAssetAmount(a: AssetAmount): (r: seq<byte>)
    ensures 33 <= |r| <= 42 && r[..32] == a.assetID
  {
    UvarintFitsTenBytes(a.amount);
    a.assetID + PutUvarint(a.amount)
  }

  /** writeMetadata: a prunable field in full, or its fast digest. */
  function EncodeMetadata(fast: seq<byte> -> Hash, data: seq<byte>, flags: byte): (r: seq<byte>)
    ensures HasFlag(flags, SerMetadata) ==> |r| > |data| && r[|r| - |data|..] == data
    ensures !HasFlag(flags, SerMetadata) ==> |r| == 33 && r[0] == 32 && r[1..] == fast(data)
  {
    if HasFlag(flags, SerMetadata) then WriteBytes(data) else WriteBytes(fast(data))
  }

  /** TxInput.writeTo. Under serflags 0 (the hash rendering) an input
      takes at most 104 bytes, whatever the size of its scripts and
      prunable fields. */
  function EncodeInput(fast: seq<byte> -> Hash, ti: TxInput, flags: byte): (r: seq<byte>)
    ensures |r| > 32 && r[..32] == ti.previous.hash
    ensures flags == 0 ==> 100 <= |r| <= 104
  {
    EncodeOutpoint(ti.previous)
    + ((if HasFlag(flags, SerPrevout) then EncodeAssetAmount(ti.assetAmount) + WriteBytes(ti.prevScript) else [])
    + ((if HasFlag(flags, SerWitness) then WriteBytes(ti.signatureScript) else WriteBytes([]))
    + (EncodeMetadata(fast, ti.metadata, flags)
    + EncodeMetadata(fast, ti.assetDefinition, flags))))
  }

  /** The content of the commitment envelope: defined for asset version 1
      only, empty for every other version. */
  function CommitmentBody(oc: OutputCommitment, assetVersion: uint32): seq<byte>
  {
    if assetVersion == 1 then
      EncodeAssetAmount(oc.assetAmount) + (PutUvarint(oc.vmVersion) + WriteBytes(oc.controlProgram))
    else []
  }

  /** OutputCommitment.writeTo: the content inside a length-prefixed
      envelope, so that a reader may skip a version it does not know. */
  function EncodeCommitment(oc: OutputCommitment, assetVersion: uint32): (r: seq<byte>)
    ensures assetVersion != 1 ==> r == [0]
    ensures assetVersion == 1 ==> |r| >= 36
  {
    WriteBytes(CommitmentBody(oc, assetVersion))
  }

  /** Asset version, commitment envelope, reference data, and the empty
      output witness. */
  function EncodeOutput(fast: seq<byte> -> Hash, to: TxOutput, flags: byte): (r: seq<byte>)
    ensures |r| >= 4 && r[|r| - 1] == 0
    ensures !HasFlag(flags, SerMetadata) && to.assetVersion != 1 ==> 36 <= |r| <= 40
  {
    UvarintFitsFiveBytes(to.assetVersion);
    PutUvarint(to.assetVersion)
    + (EncodeCommitment(to.commitment, to.assetVersion)
    + (EncodeMetadata(fast, to.referenceData, flags)
    + WriteBytes([])))
  }

  /** The renderings of the elements of a list, one after the other. */
  function ConcatMap<T>(f: T -> seq<byte>, xs: seq<T>): seq<byte>
  {
    if xs == [] then [] else f(xs[0]) + ConcatMap(f, xs[1..])
  }

  function InputWriter(fast: seq<byte> -> Hash, flags: byte): TxInput -> seq<byte>
  {
    ti => EncodeInput(fast, ti, flags)
  }

  function OutputWriter(fast: seq<byte> -> Hash, flags: byte): TxOutput -> seq<byte>
  {
    to => EncodeOutput(fast, to, flags)
  }

  /** The inputs, each written in turn (without their count). */
  function EncodeInputs(fast: seq<byte> -> Hash, ins: seq<TxInput>, flags: byte): seq<byte>
  {
    ConcatMap(InputWriter(fast, flags), ins)
  }

  function EncodeOutputs(fast: seq<byte> -> Hash, outs: seq<TxOutput>, flags: byte): seq<byte>
  {
    ConcatMap(OutputWriter(fast, flags), outs)
  }

  /** TxData.writeTo. */
  function EncodeTxData(fast: seq<byte> -> Hash, tx: TxData, flags: byte): (r: seq<byte>)
    ensures |r| >= 7 && r[0] == flags
  {
    [flags]
    + (PutUvarint(tx.version)
    + (PutUvarint(|tx.inputs|) + (EncodeInputs(fast, tx.inputs, flags)
    + (PutUvarint(|tx.outputs|) + (EncodeOutputs(fast, tx.outputs, flags)
    + (PutUvarint(tx.minTime)
    + (PutUvarint(tx.maxTime)
    + EncodeMetadata(fast, tx.metadata, flags))))))))
  }

  /** TxData.WriteTo: the wire form, with every conditional field in full. */
  function WriteTo(fast: seq<byte> -> Hash, tx: TxData): (r: seq<byte>)
    ensures |r| >= 7 && r[0] == SerRequired
  {
    EncodeTxData(fast, tx, SerRequired)
  }

  // ---------------------------------------------------------------------
  // What each rendering depends on

  /** Two inputs render alike under `flags` when they agree on the outpoint
      and on every field the flags render: the spent amount and previous
      script only under SerPrevout, the signature script only under
      SerWitness, metadata and asset definition in full under SerMetadata
      and otherwise only through their fast digests. */
  predicate InputsAgreeUnder(fast: seq<byte> -> Hash, a: TxInput, b: TxInput, flags: byte)
  {
    && a.previous == b.previous
    && (HasFlag(flags, SerPrevout) ==> a.assetAmount == b.assetAmount && a.prevScript == b.prevScript)
    && (HasFlag(flags, SerWitness) ==> a.signatureScript == b.signatureScript)
    && (if HasFlag(flags, SerMetadata)
        then a.metadata == b.metadata && a.assetDefinition == b.assetDefinition
        else fast(a.metadata) == fast(b.metadata) && fast(a.assetDefinition) == fast(b.assetDefinition))
  }

  /** Two outputs render alike when they agree on the asset version, on the
      commitment only if that version is 1, and on the reference data (or
      its digest without SerMetadata). */
  predicate OutputsAgreeUnder(fast: seq<byte> -> Hash, a: TxOutput, b: TxOutput, flags: byte)
  {
    && a.assetVersion == b.assetVersion
    && (a.assetVersion == 1 ==> a.commitment == b.commitment)
    && (if HasFlag(flags, SerMetadata) then a.referenceData == b.referenceData
        else fast(a.referenceData) == fast(b.referenceData))
  }

  lemma InputRenderingDependsOnlyOnFlaggedFields(fast: seq<byte> -> Hash, a: TxInput, b: TxInput, flags: byte)
    requires InputsAgreeUnder(fast, a, b, flags)
    ensures EncodeInput(fast, a, flags) == EncodeInput(fast, b, flags)
  {
  }

  lemma OutputRenderingDependsOnlyOnFlaggedFields(fast: seq<byte> -> Hash, a: TxOutput, b: TxOutput, flags: byte)
    requires OutputsAgreeUnder(fast, a, b, flags)
    ensures EncodeOutput(fast, a, flags) == EncodeOutput(fast, b, flags)
  {
  }

  /** Lists whose elements render alike pairwise render alike. */
  lemma {:induction false} ConcatMapPointwise<T>(f: T -> seq<byte>, a: seq<T>, b: seq<T>)
    requires |a| == |b|
    requires forall i :: 0 <= i < |a| ==> f(a[i]) == f(b[i])
    ensures ConcatMap(f, a) == ConcatMap(f, b)
  {
    if a != [] {
      ConcatMapPointwise(f, a[1..], b[1..]);
    }
  }

  lemma EncodeInputsPointwise(fast: seq<byte> -> Hash, a: seq<TxInput>, b: seq<TxInput>, flags: byte)
    requires |a| == |b|
    requires forall i :: 0 <= i < |a| ==> InputsAgreeUnder(fast, a[i], b[i], flags)
    ensures EncodeInputs(fast, a, flags) == EncodeInputs(fast, b, flags)
  {
    forall i | 0 <= i < |a|
      ensures InputWriter(fast, flags)(a[i]) == InputWriter(fast, flags)(b[i])
    {
      InputRenderingDependsOnlyOnFlaggedFields(fast, a[i], b[i], flags);
    }
    ConcatMapPointwise(InputWriter(fast, flags), a, b);
  }

  lemma EncodeOutputsPointwise(fast: seq<byte> -> Hash, a: seq<TxOutput>, b: seq<TxOutput>, flags: byte)
    requires |a| == |b|
    requires forall i :: 0 <= i < |a| ==> OutputsAgreeUnder(fast, a[i], b[i], flags)
    ensures EncodeOutputs(fast, a, flags) == EncodeOutputs(fast, b, flags)
  {
    forall i | 0 <= i < |a|
      ensures OutputWriter(fast, flags)(a[i]) == OutputWriter(fast, flags)(b[i])
    {
      OutputRenderingDependsOnlyOnFlaggedFields(fast, a[i], b[i], flags);
    }
    ConcatMapPointwise(OutputWriter(fast, flags), a, b);
  }

  /** Rendering a list one element further appends that element's
      rendering: the loops in writeTo and in the signature hasher. */
  lemma {:induction false} ConcatMapSnoc<T>(f: T -> seq<byte>, xs: seq<T>, i: nat)
    requires i < |xs|
    ensures ConcatMap(f, xs[..i + 1]) == ConcatMap(f, xs[..i]) + f(xs[i])
  {
    if i > 0 {
      assert xs[..i + 1][1..] == xs[1..][..i];
      assert xs[..i][1..] == xs[1..][..i - 1];
      ConcatMapSnoc(f, xs[1..], i - 1);
    } else {
      assert xs[..1] == [xs[0]];
    }
  }

  /** The list head first: what the decoder's loop meets first. */
  lemma ConcatMapCons<T>(f: T -> seq<byte>, xs: seq<T>, rest: seq<byte>)
    ensures xs == [] ==> ConcatMap(f, xs) + rest == rest
    ensures xs != [] ==> ConcatMap(f, xs) + rest == f(xs[0]) + (ConcatMap(f, xs[1..]) + rest)
  {
  }

  lemma EncodeInputsCons(fast: seq<byte> -> Hash, ins: seq<TxInput>, flags: byte, rest: seq<byte>)
    ensures ins == [] ==> EncodeInputs(fast, ins, flags) + rest == rest
    ensures ins != [] ==>
      EncodeInputs(fast, ins, flags) + rest
      == EncodeInput(fast, ins[0], flags) + (EncodeInputs(fast, ins[1..], flags) + rest)
  {
    ConcatMapCons(InputWriter(fast, flags), ins, rest);
  }

  lemma EncodeOutputsCons(fast: seq<byte> -> Hash, outs: seq<TxOutput>, flags: byte, rest: seq<byte>)
    ensures outs == [] ==> EncodeOutputs(fast, outs, flags) + rest == rest
    ensures outs != [] ==>
      EncodeOutputs(fast, outs, flags) + rest
      == EncodeOutput(fast, outs[0], flags) + (EncodeOutputs(fast, outs[1..], flags) + rest)
  {
    ConcatMapCons(OutputWriter(fast, flags), outs, rest);
  }
}
