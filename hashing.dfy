/**
 * The transaction hash and the witness hash. The transaction hash is the
 * SHA3-256 digest of the rendering under serflags 0: no spent amounts or
 * previous scripts, an empty signature script for every input, and every
 * prunable field by its fast digest. The witness hash joins it with a
 * digest of all signature scripts.
 */
module Hashing {
  import opened Wire
  import opened Bc
  import opened Encoding
  import opened Decoding
  import opened RoundTrip

  /** TxData.Hash. */
  function TxHash(h: Hashers, tx: TxData): Hash
  {
    h.sha3(EncodeTxData(h.fast, tx, 0))
  }

  // ---------------------------------------------------------------------
  // What the transaction hash commits to

  /** Two transactions share their hash rendering when they agree on the
      version, the time bounds, the outpoint of every input and every
      output as serflags 0 render them, and on the fast digests of the
      prunable fields. */
  predicate SameHashRendering(fast: seq<byte> -> Hash, a: TxData, b: TxData)
  {
    && a.version == b.version
    && |a.inputs| == |b.inputs|
    && (forall i :: 0 <= i < |a.inputs| ==> InputsAgreeUnder(fast, a.inputs[i], b.inputs[i], 0))
    && |a.outputs| == |b.outputs|
    && (forall i :: 0 <= i < |a.outputs| ==> OutputsAgreeUnder(fast, a.outputs[i], b.outputs[i], 0))
    && a.minTime == b.minTime
    && a.maxTime == b.maxTime
    && fast(a.metadata) == fast(b.metadata)
  }

  /** The hash depends on nothing else: not on the serflags byte, the
      signature scripts, the spent amounts or the previous scripts, nor on
      prunable fields beyond their fast digests. */
  lemma HashDependsOnlyOnHashRendering(h: Hashers, a: TxData, b: TxData)
    requires SameHashRendering(h.fast, a, b)
    ensures TxHash(h, a) == TxHash(h, b)
  {
    EncodeInputsPointwise(h.fast, a.inputs, b.inputs, 0);
    EncodeOutputsPointwise(h.fast, a.outputs, b.outputs, 0);
  }

  /** The transaction with the i-th input's signature script replaced by
      sigs[i]: what signing the inputs does. */
  function WithSignatureScripts(tx: TxData, sigs: seq<seq<byte>>): (r: TxData)
    requires |sigs| == |tx.inputs|
    ensures |r.inputs| == |tx.inputs|
    ensures forall i :: 0 <= i < |tx.inputs| ==>
              r.inputs[i].signatureScript == sigs[i]
              && r.inputs[i] == tx.inputs[i].(signatureScript := sigs[i])
  {
    var ins := tx.inputs;
    tx.(inputs := seq(|ins|, i requires 0 <= i < |ins| => ins[i].(signatureScript := sigs[i])))
  }

  /** Signing a transaction does not change its hash. */
  lemma SigningKeepsHash(h: Hashers, tx: TxData, sigs: seq<seq<byte>>)
    requires |sigs| == |tx.inputs|
    ensures TxHash(h, WithSignatureScripts(tx, sigs)) == TxHash(h, tx)
  {
    var s := WithSignatureScripts(tx, sigs);
    forall i | 0 <= i < |s.inputs|
      ensures InputsAgreeUnder(h.fast, s.inputs[i], tx.inputs[i], 0)
    {
    }
    forall i | 0 <= i < |s.outputs|
      ensures OutputsAgreeUnder(h.fast, s.outputs[i], tx.outputs[i], 0)
    {
    }
    HashDependsOnlyOnHashRendering(h, s, tx);
  }

  /** A transaction read back from its wire form has the hash it had when
      it was written. */
  lemma HashSurvivesRoundTrip(h: Hashers, tx: TxData, rest: seq<byte>)
    requires WithinCaps(tx)
    ensures Decode(WriteTo(h.fast, tx) + rest).Ok?
    ensures TxHash(h, Decode(WriteTo(h.fast, tx) + rest).value) == TxHash(h, tx)
  {
    TxDataRoundTrip(h.fast, tx, rest);
    NormalizeIsInvisible(h.fast, tx, 0);
  }

  // ---------------------------------------------------------------------
  // The witness hash

  function SigScriptDigest(sha3: seq<byte> -> Hash): TxInput -> seq<byte>
  {
    (ti: TxInput) => sha3(ti.signatureScript)
  }

  /** The SHA3-256 digests of the signature scripts, in input order. */
  function SigScriptDigests(sha3: seq<byte> -> Hash, ins: seq<TxInput>): seq<byte>
  {
    ConcatMap(SigScriptDigest(sha3), ins)
  }

  /** The bytes whose digest is the signature data hash: the input count,
      then one digest per input. */
  function WitnessData(h: Hashers, tx: TxData): seq<byte>
  {
    PutUvarint(|tx.inputs|) + SigScriptDigests(h.sha3, tx.inputs)
  }

  function WitnessHashOf(h: Hashers, tx: TxData): Hash
  {
    h.sha3(TxHash(h, tx) + h.sha3(WitnessData(h, tx)))
  }

  /** Digesting one more signature script appends its digest. */
  lemma SigScriptDigestsSnoc(sha3: seq<byte> -> Hash, ins: seq<TxInput>, i: nat)
    requires i < |ins|
    ensures SigScriptDigests(sha3, ins[..i + 1]) == SigScriptDigests(sha3, ins[..i]) + sha3(ins[i].signatureScript)
  {
    ConcatMapSnoc(SigScriptDigest(sha3), ins, i);
  }

  /** TxData.WitnessHash: the signature data is gathered input by input. */
  method WitnessHash(h: Hashers, tx: TxData) returns (r: Hash)
    ensures r == WitnessHashOf(h, tx)
  {
    var ins := tx.inputs;
    var lenBytes := PutUvarint(|ins|);
    var digests: seq<byte> := [];
    for i := 0 to |ins|
      invariant digests == SigScriptDigests(h.sha3, ins[..i])
    {
      SigScriptDigestsSnoc(h.sha3, ins, i);
      var sigHash := h.sha3(ins[i].signatureScript);
      digests := digests + sigHash;
    }
    assert ins[..|ins|] == ins;
    var txHash: seq<byte> := TxHash(h, tx);
    var dataHash: seq<byte> := h.sha3(lenBytes + digests);
    r := h.sha3(txHash + dataHash);
  }

  lemma {:induction false} SigScriptDigestsLength(sha3: seq<byte> -> Hash, ins: seq<TxInput>)
    ensures |SigScriptDigests(sha3, ins)| == 32 * |ins|
  {
    if ins != [] {
      assert SigScriptDigests(sha3, ins) == sha3(ins[0].signatureScript) + SigScriptDigests(sha3, ins[1..]);
      SigScriptDigestsLength(sha3, ins[1..]);
    }
  }

  /** The i-th 32-byte block of the digests is the digest of the i-th
      signature script. */
  lemma {:induction false} SigScriptDigestAt(sha3: seq<byte> -> Hash, ins: seq<TxInput>, i: nat)
    requires i < |ins|
    ensures |SigScriptDigests(sha3, ins)| == 32 * |ins|
    ensures SigScriptDigests(sha3, ins)[32 * i .. 32 * i + 32] == sha3(ins[i].signatureScript)
  {
    SigScriptDigestsLength(sha3, ins);
    var head: seq<byte> := sha3(ins[0].signatureScript);
    var tail := SigScriptDigests(sha3, ins[1..]);
    assert SigScriptDigests(sha3, ins) == head + tail;
    if i > 0 {
      SigScriptDigestAt(sha3, ins[1..], i - 1);
      assert (head + tail)[32 * i .. 32 * i + 32] == tail[32 * (i - 1) .. 32 * (i - 1) + 32];
    }
  }

  /** The signature data is the input count followed by one 32-byte digest
      per input, in input order. */
  lemma WitnessDataLayout(h: Hashers, tx: TxData, i: nat)
    requires i < |tx.inputs|
    ensures var k := |PutUvarint(|tx.inputs|)|;
            && |WitnessData(h, tx)| == k + 32 * |tx.inputs|
            && WitnessData(h, tx)[..k] == PutUvarint(|tx.inputs|)
            && WitnessData(h, tx)[k + 32 * i .. k + 32 * i + 32] == h.sha3(tx.inputs[i].signatureScript)
  {
    var p, d := PutUvarint(|tx.inputs|), SigScriptDigests(h.sha3, tx.inputs);
    SigScriptDigestAt(h.sha3, tx.inputs, i);
    assert (p + d)[..|p|] == p;
    assert (p + d)[|p| + 32 * i .. |p| + 32 * i + 32] == d[32 * i .. 32 * i + 32];
  }

  /** The witness hash depends on the transaction only through its hash,
      its input count and the digests of its signature scripts. */
  lemma WitnessHashDependsOnlyOn(h: Hashers, a: TxData, b: TxData)
    requires TxHash(h, a) == TxHash(h, b)
    requires |a.inputs| == |b.inputs|
    requires forall i :: 0 <= i < |a.inputs| ==>
               h.sha3(a.inputs[i].signatureScript) == h.sha3(b.inputs[i].signatureScript)
    ensures WitnessHashOf(h, a) == WitnessHashOf(h, b)
  {
    forall i | 0 <= i < |a.inputs|
      ensures SigScriptDigest(h.sha3)(a.inputs[i]) == SigScriptDigest(h.sha3)(b.inputs[i])
    {
    }
    ConcatMapPointwise(SigScriptDigest(h.sha3), a.inputs, b.inputs);
  }

  /** The nine-byte buffer for the input count is large enough for any
      slice length (a Go int is below 2^63). */
  lemma InputCountFitsNineBytes(n: nat)
    requires n < 0x8000_0000_0000_0000
    ensures |PutUvarint(n)| <= 9
  {
    assert Pow128(9) == 0x8000_0000_0000_0000 by {
      assert Pow128(1) == 0x80;
      assert Pow128(2) == 0x4000;
      assert Pow128(3) == 0x20_0000;
      assert Pow128(4) == 0x1000_0000;
      assert Pow128(5) == 0x8_0000_0000;
      assert Pow128(6) == 0x400_0000_0000;
      assert Pow128(7) == 0x2_0000_0000_0000;
      assert Pow128(8) == 0x100_0000_0000_0000;
    }
    UvarintLengthBound(n, 9);
  }
}
