/**
 * Signature hashes. For one input and one hash type, the SHA3-256 digest
 * of a preimage that commits to the transaction version, to all inputs
 * (or to none of them under ANYONECANPAY), to the signed input and the
 * output it spends, to the outputs the hash type selects, to the time
 * bounds, to the metadata and to the hash type itself. A SigHasher keeps
 * the digest of all inputs and the digest of all outputs once computed,
 * so that signing every input of a transaction hashes each list once.
 */
module SigHash {
  import opened Wire
  import opened Bc
  import opened Encoding
  import opened Decoding
  import opened RoundTrip
  import opened Hashing

  /** The hash type byte: a base type in the low five bits, and the
      ANYONECANPAY bit. */
  type SigHashType = byte

  const SigHashAll: SigHashType := 1
  const SigHashNone: SigHashType := 2
  const SigHashSingle: SigHashType := 3
  const SigHashAnyOneCanPay: SigHashType := 0x80

  /** hashType & 0x1f: the low five bits of the byte. */
  function BaseType(t: SigHashType): (b: byte)
    ensures b < 0x20
  {
    t % 0x20
  }

  /** hashType & 0x80 != 0: for a byte, its top bit is set. */
  predicate AnyOneCanPay(t: SigHashType)
  {
    t >= SigHashAnyOneCanPay
  }

  /** The hash types whose base type selects outputs; for any other one
      SigHasher.Hash has no outputs digest and fails. */
  predicate ValidHashType(t: SigHashType)
  {
    BaseType(t) == SigHashAll || BaseType(t) == SigHashNone || BaseType(t) == SigHashSingle
  }

  datatype Option<T> = None | Some(value: T)

  // ---------------------------------------------------------------------
  // The preimage

  /** The digest of the input count and every input as serflags 0 render
      it. */
  function InputsHash(h: Hashers, tx: TxData): Hash
  {
    h.sha3(PutUvarint(|tx.inputs|) + EncodeInputs(h.fast, tx.inputs, 0))
  }

  /** The digest of the output count and every output as serflags 0 render
      it. */
  function AllOutputsHash(h: Hashers, tx: TxData): Hash
  {
    h.sha3(PutUvarint(|tx.outputs|) + EncodeOutputs(h.fast, tx.outputs, 0))
  }

  /** The output an input spends, as its signature commits to it: the spent
      asset amount, the VM version and the previous script; nothing for an
      issuance input. */
  function SpentOutputCommitment(ti: TxInput): (r: seq<byte>)
    ensures r == [] <==> IsIssuance(ti)
  {
    if IsIssuance(ti) then []
    else EncodeAssetAmount(ti.assetAmount) + (PutUvarint(VMVersion) + WriteBytes(ti.prevScript))
  }

  function InputsHashFor(h: Hashers, tx: TxData, t: SigHashType): Hash
  {
    if AnyOneCanPay(t) then ZeroHash else InputsHash(h, tx)
  }

  /** ALL: every output; NONE: no output; SINGLE: the output at the signed
      input's index, or none when there is no such output. */
  function OutputsHashFor(h: Hashers, tx: TxData, idx: nat, t: SigHashType): Hash
    requires ValidHashType(t)
  {
    if BaseType(t) == SigHashAll then AllOutputsHash(h, tx)
    else if BaseType(t) == SigHashNone then ZeroHash
    else if idx >= |tx.outputs| then ZeroHash
    else h.sha3(PutUvarint(1) + EncodeOutput(h.fast, tx.outputs[idx], 0))
  }

  /** Everything the signature hash commits to before the hash type byte. */
  function SignedFields(h: Hashers, tx: TxData, idx: nat, t: SigHashType): seq<byte>
    requires idx < |tx.inputs| && ValidHashType(t)
  {
    PutUvarint(tx.version)
    + (InputsHashFor(h, tx, t)
    + (EncodeInput(h.fast, tx.inputs[idx], 0)
    + (WriteBytes(SpentOutputCommitment(tx.inputs[idx]))
    + (OutputsHashFor(h, tx, idx, t)
    + (PutUvarint(tx.minTime)
    + (PutUvarint(tx.maxTime)
    + EncodeMetadata(h.fast, tx.metadata, 0)))))))
  }

  function Preimage(h: Hashers, tx: TxData, idx: nat, t: SigHashType): seq<byte>
    requires idx < |tx.inputs| && ValidHashType(t)
  {
    SignedFields(h, tx, idx, t) + [t]
  }

  function SigHashOf(h: Hashers, tx: TxData, idx: nat, t: SigHashType): Hash
    requires idx < |tx.inputs| && ValidHashType(t)
  {
    h.sha3(Preimage(h, tx, idx, t))
  }

  lemma EncodeInputsSnoc(fast: seq<byte> -> Hash, ins: seq<TxInput>, i: nat)
    requires i < |ins|
    ensures EncodeInputs(fast, ins[..i + 1], 0) == EncodeInputs(fast, ins[..i], 0) + EncodeInput(fast, ins[i], 0)
  {
    ConcatMapSnoc(InputWriter(fast, 0), ins, i);
  }

  lemma EncodeOutputsSnoc(fast: seq<byte> -> Hash, outs: seq<TxOutput>, i: nat)
    requires i < |outs|
    ensures EncodeOutputs(fast, outs[..i + 1], 0) == EncodeOutputs(fast, outs[..i], 0) + EncodeOutput(fast, outs[i], 0)
  {
    ConcatMapSnoc(OutputWriter(fast, 0), outs, i);
  }

  // ---------------------------------------------------------------------
  // The hasher

  /** SigHasher, with the transaction it hashes for held as a value: the
      memoized digests always belong to that transaction. */
  class SigHasher {
    const h: Hashers
    const tx: TxData
    var inputsHash: Option<Hash>
    var allOutputsHash: Option<Hash>

    /** A memoized digest, once present, is the digest it stands for. */
    ghost predicate Valid()
      reads this
    {
      && (inputsHash.Some? ==> inputsHash.value == InputsHash(h, tx))
      && (allOutputsHash.Some? ==> allOutputsHash.value == AllOutputsHash(h, tx))
    }

    /** NewSigHasher: nothing is computed yet. */
    constructor (h: Hashers, tx: TxData)
      ensures this.h == h && this.tx == tx
      ensures inputsHash == None && allOutputsHash == None
      ensures Valid()
    {
      this.h := h;
      this.tx := tx;
      inputsHash := None;
      allOutputsHash := None;
    }

    /** getInputsHash: computed on first use, the memoized value after. */
    method GetInputsHash() returns (r: Hash)
      requires Valid()
      modifies this
      ensures Valid()
      ensures r == InputsHash(h, tx) && inputsHash == Some(r)
      ensures old(inputsHash).Some? ==> inputsHash == old(inputsHash)
      ensures allOutputsHash == old(allOutputsHash)
    {
      if inputsHash.Some? {
        return inputsHash.value;
      }
      var ins := tx.inputs;
      // The count is written first, then each element in turn.
      var written: seq<byte> := [];
      for i := 0 to |ins|
        invariant written == EncodeInputs(h.fast, ins[..i], 0)
        modifies {}
      {
        EncodeInputsSnoc(h.fast, ins, i);
        written := written + EncodeInput(h.fast, ins[i], 0);
      }
      assert ins[..|ins|] == ins;
      r := h.sha3(PutUvarint(|ins|) + written);
      inputsHash := Some(r);
    }

    /** getAllOutputsHash: computed on first use, the memoized value after. */
    method GetAllOutputsHash() returns (r: Hash)
      requires Valid()
      modifies this
      ensures Valid()
      ensures r == AllOutputsHash(h, tx) && allOutputsHash == Some(r)
      ensures old(allOutputsHash).Some? ==> allOutputsHash == old(allOutputsHash)
      ensures inputsHash == old(inputsHash)
    {
      if allOutputsHash.Some? {
        return allOutputsHash.value;
      }
      var outs := tx.outputs;
      // The count is written first, then each element in turn.
      var written: seq<byte> := [];
      for i := 0 to |outs|
        invariant written == EncodeOutputs(h.fast, outs[..i], 0)
        modifies {}
      {
        EncodeOutputsSnoc(h.fast, outs, i);
        written := written + EncodeOutput(h.fast, outs[i], 0);
      }
      assert outs[..|outs|] == outs;
      r := h.sha3(PutUvarint(|outs|) + written);
      allOutputsHash := Some(r);
    }

    /** SigHasher.Hash: the signature hash of input idx under hash type t,
        whatever the hasher has memoized before. The inputs digest is
        memoized unless t has ANYONECANPAY, the outputs digest when the
        base type is ALL. */
    method Hash(idx: nat, t: SigHashType) returns (r: Hash)
      requires Valid()
      requires idx < |tx.inputs| && ValidHashType(t)
      modifies this
      ensures Valid()
      ensures r == SigHashOf(h, tx, idx, t)
      ensures inputsHash == if AnyOneCanPay(t) then old(inputsHash) else Some(InputsHash(h, tx))
      ensures allOutputsHash == if BaseType(t) == SigHashAll then Some(AllOutputsHash(h, tx)) else old(allOutputsHash)
    {
      var inputsDigest: Hash;
      if !AnyOneCanPay(t) {
        inputsDigest := GetInputsHash();
      } else {
        inputsDigest := ZeroHash;
      }

      var ti := tx.inputs[idx];
      var outputCommitment: seq<byte> := [];
      if !IsIssuance(ti) {
        outputCommitment := EncodeAssetAmount(ti.assetAmount) + (PutUvarint(VMVersion) + WriteBytes(ti.prevScript));
      }

      var outputsDigest: Hash;
      var base := BaseType(t);
      if base == SigHashAll {
        outputsDigest := GetAllOutputsHash();
      } else if base == SigHashNone {
        outputsDigest := ZeroHash;
      } else if idx >= |tx.outputs| {
        outputsDigest := ZeroHash;
      } else {
        outputsDigest := h.sha3(PutUvarint(1) + EncodeOutput(h.fast, tx.outputs[idx], 0));
      }

      var fields := PutUvarint(tx.version)
        + (inputsDigest
        + (EncodeInput(h.fast, ti, 0)
        + (WriteBytes(outputCommitment)
        + (outputsDigest
        + (PutUvarint(tx.minTime)
        + (PutUvarint(tx.maxTime)
        + EncodeMetadata(h.fast, tx.metadata, 0)))))));
      var preimage := fields + [t];
      r := h.sha3(preimage);
    }
  }

  /** TxData.HashForSig: a fresh hasher, used once. */
  method HashForSig(h: Hashers, tx: TxData, idx: nat, t: SigHashType) returns (r: Hash)
    requires idx < |tx.inputs| && ValidHashType(t)
    ensures r == SigHashOf(h, tx, idx, t)
  {
    var s := new SigHasher(h, tx);
    r := s.Hash(idx, t);
  }

  // ---------------------------------------------------------------------
  // What a signature hash commits to

  /** The preimage is the signed fields followed by the hash type byte. */
  lemma PreimageEndsWithHashType(h: Hashers, tx: TxData, idx: nat, t: SigHashType)
    requires idx < |tx.inputs| && ValidHashType(t)
    ensures var p := Preimage(h, tx, idx, t);
            |p| >= 1 && p[|p| - 1] == t && p[..|p| - 1] == SignedFields(h, tx, idx, t)
  {
    var f := SignedFields(h, tx, idx, t);
    assert (f + [t])[..|f|] == f;
  }

  /** A non-issuance input commits to the output it spends exactly as that
      output writes its version-1 commitment, and the commitment reads back
      from those bytes. */
  lemma SpentOutputIsItsCommitment(ti: TxInput)
    requires !IsIssuance(ti) && |ti.prevScript| <= ScriptMaxByteLength
    ensures SpentOutputCommitment(ti) == CommitmentBody(OutputCommitment(ti.assetAmount, VMVersion, ti.prevScript), 1)
    ensures DecodeCommitmentBody(SpentOutputCommitment(ti)) == Ok(OutputCommitment(ti.assetAmount, VMVersion, ti.prevScript))
  {
    var oc := OutputCommitment(ti.assetAmount, VMVersion, ti.prevScript);
    CommitmentBodyRoundTrip(oc, []);
    assert CommitmentBody(oc, 1) + [] == CommitmentBody(oc, 1);
  }

  /** Under ANYONECANPAY the other inputs are not committed to: they may be
      changed, added or removed, and the signed input may move, except
      under SINGLE, where its index selects the output. */
  lemma AnyOneCanPayIgnoresOtherInputs(h: Hashers, a: TxData, b: TxData, i: nat, j: nat, t: SigHashType)
    requires AnyOneCanPay(t) && ValidHashType(t)
    requires i < |a.inputs| && j < |b.inputs| && a.inputs[i] == b.inputs[j]
    requires BaseType(t) == SigHashSingle ==> i == j
    requires b == a.(inputs := b.inputs)
    ensures SigHashOf(h, a, i, t) == SigHashOf(h, b, j, t)
  {
  }

  /** Under NONE the outputs are not committed to. */
  lemma NoneIgnoresOutputs(h: Hashers, a: TxData, b: TxData, idx: nat, t: SigHashType)
    requires BaseType(t) == SigHashNone && idx < |a.inputs|
    requires b == a.(outputs := b.outputs)
    ensures SigHashOf(h, a, idx, t) == SigHashOf(h, b, idx, t)
  {
  }

  /** Under SINGLE only the output at the signed input's index, if there
      is one, is committed to. */
  lemma SingleCommitsToOneOutput(h: Hashers, a: TxData, b: TxData, idx: nat, t: SigHashType)
    requires BaseType(t) == SigHashSingle && idx < |a.inputs|
    requires b == a.(outputs := b.outputs)
    requires idx < |a.outputs| <==> idx < |b.outputs|
    requires idx < |a.outputs| ==> a.outputs[idx] == b.outputs[idx]
    ensures SigHashOf(h, a, idx, t) == SigHashOf(h, b, idx, t)
  {
  }

  /** SINGLE with no output at the signed input's index commits to no
      output, as NONE does: the two preimages differ in their last byte
      only. */
  lemma SingleWithoutOutputIsNone(h: Hashers, tx: TxData, idx: nat, t: SigHashType)
    requires BaseType(t) == SigHashSingle
    requires idx < |tx.inputs| && idx >= |tx.outputs|
    ensures ValidHashType(t - 1) && BaseType(t - 1) == SigHashNone
    ensures SignedFields(h, tx, idx, t) == SignedFields(h, tx, idx, t - 1)
    ensures Preimage(h, tx, idx, t) == SignedFields(h, tx, idx, t) + [t]
    ensures Preimage(h, tx, idx, t - 1) == SignedFields(h, tx, idx, t) + [t - 1]
  {
    assert AnyOneCanPay(t - 1) == AnyOneCanPay(t);
  }

  /** Under ALL the outputs are committed to as serflags 0 render them:
      their reference data only through its fast digest. */
  lemma AllCommitsToRenderedOutputs(h: Hashers, a: TxData, b: TxData, idx: nat, t: SigHashType)
    requires BaseType(t) == SigHashAll && idx < |a.inputs|
    requires b == a.(outputs := b.outputs) && |a.outputs| == |b.outputs|
    requires forall i :: 0 <= i < |a.outputs| ==> OutputsAgreeUnder(h.fast, a.outputs[i], b.outputs[i], 0)
    ensures SigHashOf(h, a, idx, t) == SigHashOf(h, b, idx, t)
  {
    EncodeOutputsPointwise(h.fast, a.outputs, b.outputs, 0);
  }

  /** No signature hash depends on any signature script: signing one input
      leaves unchanged what every input signs. */
  lemma SigningKeepsSigHash(h: Hashers, tx: TxData, sigs: seq<seq<byte>>, idx: nat, t: SigHashType)
    requires |sigs| == |tx.inputs| && idx < |tx.inputs| && ValidHashType(t)
    ensures SigHashOf(h, WithSignatureScripts(tx, sigs), idx, t) == SigHashOf(h, tx, idx, t)
  {
    var s := WithSignatureScripts(tx, sigs);
    forall i | 0 <= i < |s.inputs|
      ensures InputsAgreeUnder(h.fast, s.inputs[i], tx.inputs[i], 0)
    {
    }
    EncodeInputsPointwise(h.fast, s.inputs, tx.inputs, 0);
    InputRenderingDependsOnlyOnFlaggedFields(h.fast, s.inputs[idx], tx.inputs[idx], 0);
  }
}
