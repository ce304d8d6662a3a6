/**
 * What decoding does with what the encoder wrote. A transaction written
 * with every flag set and read back by a fresh decoder comes back with its
 * serflags byte set to 0x07 and, for every output whose asset version is
 * not 1, the commitment left at its zero value: the encoder writes an
 * empty envelope for such outputs and the decoder skips it. Fields must be
 * within the decoder's caps; whatever follows the transaction is ignored.
 */
module RoundTrip {
  import opened Wire
  import opened Bc
  import opened Encoding
  import opened Decoding

  // ---------------------------------------------------------------------
  // Caps

  predicate InputWithinCaps(ti: TxInput)
  {
    && |ti.prevScript| <= ScriptMaxByteLength
    && |ti.signatureScript| <= ScriptMaxByteLength
    && |ti.metadata| <= MetadataMaxByteLength
    && |ti.assetDefinition| <= AssetDefinitionMaxByteLength
  }

  /** The envelope must fit the commitment cap and, for asset version 1,
      the control program inside it the script cap. */
  predicate OutputWithinCaps(to: TxOutput)
  {
    && |CommitmentBody(to.commitment, to.assetVersion)| <= CommitmentMaxByteLength
    && (to.assetVersion == 1 ==> |to.commitment.controlProgram| <= ScriptMaxByteLength)
    && |to.referenceData| <= MetadataMaxByteLength
  }

  predicate WithinCaps(tx: TxData)
  {
    && |tx.inputs| < TwoTo64
    && |tx.outputs| < TwoTo64
    && (forall i :: 0 <= i < |tx.inputs| ==> InputWithinCaps(tx.inputs[i]))
    && (forall i :: 0 <= i < |tx.outputs| ==> OutputWithinCaps(tx.outputs[i]))
    && |tx.metadata| <= MetadataMaxByteLength
  }

  // ---------------------------------------------------------------------
  // What survives the wire

  /** An output as the decoder rebuilds it: a commitment of an asset
      version other than 1 is not on the wire and comes back zero. */
  function NormalizeOutput(to: TxOutput): TxOutput
  {
    if to.assetVersion == 1 then to else to.(commitment := ZeroCommitment)
  }

  function NormalizeOutputs(outs: seq<TxOutput>): (r: seq<TxOutput>)
  {
    seq(|outs|, i requires 0 <= i < |outs| => NormalizeOutput(outs[i]))
  }

  function Normalize(tx: TxData): TxData
  {
    tx.(serFlags := SerRequired, outputs := NormalizeOutputs(tx.outputs))
  }

  /** Normalizing changes nothing the encoder writes, under any flags. */
  lemma NormalizeIsInvisible(fast: seq<byte> -> Hash, tx: TxData, flags: byte)
    ensures EncodeTxData(fast, Normalize(tx), flags) == EncodeTxData(fast, tx, flags)
  {
    var outs := tx.outputs;
    forall i | 0 <= i < |outs|
      ensures OutputsAgreeUnder(fast, NormalizeOutputs(outs)[i], outs[i], flags)
    {
    }
    EncodeOutputsPointwise(fast, NormalizeOutputs(outs), outs, flags);
  }

  /** A transaction whose serflags byte is 0x07 and whose outputs all have
      asset version 1 is its own normal form. */
  lemma NormalizeFixesVersionOne(tx: TxData)
    requires tx.serFlags == SerRequired
    requires forall i :: 0 <= i < |tx.outputs| ==> tx.outputs[i].assetVersion == 1
    ensures Normalize(tx) == tx
  {
    assert NormalizeOutputs(tx.outputs) == tx.outputs;
  }

  /** An output built by NewTxOutput is of asset version 1 and reads back
      as itself. */
  lemma NewTxOutputRoundTrip(fast: seq<byte> -> Hash, assetID: AssetID, amount: uint64,
                             controlProgram: seq<byte>, referenceData: seq<byte>, rest: seq<byte>)
    requires OutputWithinCaps(NewTxOutput(assetID, amount, controlProgram, referenceData))
    ensures var o := NewTxOutput(assetID, amount, controlProgram, referenceData);
            DecodeOutput(Reading(EncodeOutput(fast, o, SerRequired) + rest)) == (Ok(o), Reading(rest))
  {
    var o := NewTxOutput(assetID, amount, controlProgram, referenceData);
    OutputRoundTrip(fast, o, rest);
  }

  /** The wire form of the empty version-1 transaction. */
  lemma EmptyTxWireForm(fast: seq<byte> -> Hash)
    ensures WriteTo(fast, TxData(SerRequired, 1, [], [], 0, 0, [])) == [7, 1, 0, 0, 0, 0, 0]
    ensures Decode([7, 1, 0, 0, 0, 0, 0]) == Ok(TxData(SerRequired, 1, [], [], 0, 0, []))
  {
    var tx := TxData(SerRequired, 1, [], [], 0, 0, []);
    MetadataInFull(fast, []);
    assert EncodeInputs(fast, [], SerRequired) == [];
    assert EncodeOutputs(fast, [], SerRequired) == [];
    TxDataRoundTripExact(fast, tx, []);
    assert WriteTo(fast, tx) + [] == WriteTo(fast, tx);
  }

  // ---------------------------------------------------------------------
  // Round trips, record by record: reading what was written, followed by
  // anything at all, yields the record and leaves exactly what followed.

  lemma OutpointRoundTrip(o: Outpoint, rest: seq<byte>)
    ensures DecodeOutpoint(Reading(EncodeOutpoint(o) + rest)) == (o, Reading(rest))
  {
    var s := EncodeOutpoint(o) + rest;
    assert s == o.hash + (PutUvarint(o.index) + rest);
    assert s[..32] == o.hash;
    assert s[32..] == PutUvarint(o.index) + rest;
    UvarintRoundTrip(o.index, rest);
  }

  lemma AssetAmountRoundTrip(a: AssetAmount, rest: seq<byte>)
    ensures DecodeAssetAmount(Reading(EncodeAssetAmount(a) + rest)) == (a, Reading(rest))
  {
    var s := EncodeAssetAmount(a) + rest;
    assert s == a.assetID + (PutUvarint(a.amount) + rest);
    assert s[..32] == a.assetID;
    assert s[32..] == PutUvarint(a.amount) + rest;
    UvarintRoundTrip(a.amount, rest);
  }

  /** With every flag set, an input is written field by field in the order
      the decoder reads it. */
  lemma InputLayout(fast: seq<byte> -> Hash, ti: TxInput, rest: seq<byte>)
    ensures EncodeInput(fast, ti, SerRequired) + rest
         == EncodeOutpoint(ti.previous) + (EncodeAssetAmount(ti.assetAmount) + (WriteBytes(ti.prevScript)
            + (WriteBytes(ti.signatureScript) + (WriteBytes(ti.metadata) + (WriteBytes(ti.assetDefinition) + rest)))))
  {
    assert HasFlag(SerRequired, SerPrevout) && HasFlag(SerRequired, SerWitness) && HasFlag(SerRequired, SerMetadata);
  }

  lemma InputRoundTrip(fast: seq<byte> -> Hash, ti: TxInput, rest: seq<byte>)
    requires InputWithinCaps(ti)
    ensures DecodeInput(Reading(EncodeInput(fast, ti, SerRequired) + rest)) == (Ok(ti), Reading(rest))
  {
    InputLayout(fast, ti, rest);
    var r5 := WriteBytes(ti.assetDefinition) + rest;
    var r4 := WriteBytes(ti.metadata) + r5;
    var r3 := WriteBytes(ti.signatureScript) + r4;
    var r2 := WriteBytes(ti.prevScript) + r3;
    var r1 := EncodeAssetAmount(ti.assetAmount) + r2;
    OutpointRoundTrip(ti.previous, r1);
    AssetAmountRoundTrip(ti.assetAmount, r2);
    BytesRoundTrip(ti.prevScript, ScriptMaxByteLength, r3);
    BytesRoundTrip(ti.signatureScript, ScriptMaxByteLength, r4);
    BytesRoundTrip(ti.metadata, MetadataMaxByteLength, r5);
    BytesRoundTrip(ti.assetDefinition, AssetDefinitionMaxByteLength, rest);
  }

  /** The content of a version-1 envelope reads back as the commitment;
      bytes after it inside the envelope are never examined. */
  lemma CommitmentBodyRoundTrip(oc: OutputCommitment, rest: seq<byte>)
    requires |oc.controlProgram| <= ScriptMaxByteLength
    ensures DecodeCommitmentBody(CommitmentBody(oc, 1) + rest) == Ok(oc)
  {
    var a, v, cp := EncodeAssetAmount(oc.assetAmount), PutUvarint(oc.vmVersion), WriteBytes(oc.controlProgram);
    assert CommitmentBody(oc, 1) + rest == a + (v + (cp + rest));
    AssetAmountRoundTrip(oc.assetAmount, v + (cp + rest));
    UvarintRoundTrip(oc.vmVersion, cp + rest);
    BytesRoundTrip(oc.controlProgram, ScriptMaxByteLength, rest);
  }

  /** For an asset version other than 1 the decoder consumes the envelope,
      whatever it holds, and leaves the commitment as it was. */
  lemma OtherVersionEnvelopeSkipped(envelope: seq<byte>, assetVersion: uint32, current: OutputCommitment, rest: seq<byte>)
    requires assetVersion != 1 && |envelope| <= CommitmentMaxByteLength
    ensures DecodeCommitment(Reading(WriteBytes(envelope) + rest), assetVersion, current) == (Ok(current), Reading(rest))
  {
    BytesRoundTrip(envelope, CommitmentMaxByteLength, rest);
  }

  /** ... and the encoder writes that envelope empty. */
  lemma OtherVersionEnvelopeEmpty(oc: OutputCommitment, assetVersion: uint32)
    requires assetVersion != 1
    ensures EncodeCommitment(oc, assetVersion) == [0]
  {
  }

  /** A written commitment reads back into a fresh output as itself for
      asset version 1 and as the zero commitment otherwise. */
  lemma CommitmentRoundTrip(to: TxOutput, rest: seq<byte>)
    requires OutputWithinCaps(to)
    ensures DecodeCommitment(Reading(EncodeCommitment(to.commitment, to.assetVersion) + rest), to.assetVersion, ZeroCommitment)
         == (Ok(NormalizeOutput(to).commitment), Reading(rest))
  {
    BytesRoundTrip(CommitmentBody(to.commitment, to.assetVersion), CommitmentMaxByteLength, rest);
    if to.assetVersion == 1 {
      CommitmentBodyRoundTrip(to.commitment, []);
      assert CommitmentBody(to.commitment, 1) + [] == CommitmentBody(to.commitment, 1);
    }
  }

  /** With every flag set, an output is its asset version, the envelope,
      the reference data in full and the empty witness. */
  lemma OutputLayout(fast: seq<byte> -> Hash, to: TxOutput, rest: seq<byte>)
    ensures EncodeOutput(fast, to, SerRequired) + rest
         == PutUvarint(to.assetVersion) + (EncodeCommitment(to.commitment, to.assetVersion)
            + (WriteBytes(to.referenceData) + (WriteBytes([]) + rest)))
  {
    assert HasFlag(SerRequired, SerMetadata);
  }

  /** An output decodes from its fields' successful reads, whatever the
      cursor. */
  lemma OutputFromFields(c: Cursor, av: uint32, c1: Cursor, oc: OutputCommitment, c2: Cursor,
                         rd: seq<byte>, c3: Cursor, w: seq<byte>, c4: Cursor)
    requires TakeUvarint(c) == (av, c1)
    requires DecodeCommitment(c1, av, ZeroCommitment) == (Ok(oc), c2)
    requires TakeBytes(c2, MetadataMaxByteLength) == (Ok(rd), c3)
    requires TakeBytes(c3, CommitmentMaxByteLength) == (Ok(w), c4)
    ensures DecodeOutput(c) == (Ok(TxOutput(av, oc, rd)), c4)
  {
  }

  lemma OutputRoundTrip(fast: seq<byte> -> Hash, to: TxOutput, rest: seq<byte>)
    requires OutputWithinCaps(to)
    ensures DecodeOutput(Reading(EncodeOutput(fast, to, SerRequired) + rest)) == (Ok(NormalizeOutput(to)), Reading(rest))
  {
    var r3 := WriteBytes([]) + rest;
    var r2 := WriteBytes(to.referenceData) + r3;
    var r1 := EncodeCommitment(to.commitment, to.assetVersion) + r2;
    OutputLayout(fast, to, rest);
    UvarintRoundTrip(to.assetVersion, r1);
    CommitmentRoundTrip(to, r2);
    BytesRoundTrip(to.referenceData, MetadataMaxByteLength, r3);
    BytesRoundTrip([], CommitmentMaxByteLength, rest);
    OutputFromFields(Reading(PutUvarint(to.assetVersion) + r1), to.assetVersion, Reading(r1),
                     NormalizeOutput(to).commitment, Reading(r2), to.referenceData, Reading(r3), [], Reading(rest));
  }

  // ---------------------------------------------------------------------
  // Round trips of the counted loops

  /** One turn of the input loop, for any cursor. */
  lemma InputsStep(c: Cursor, n: nat, acc: seq<TxInput>, ti: TxInput, c1: Cursor)
    requires n > 0 && DecodeInput(c) == (Ok(ti), c1)
    ensures DecodeInputs(c, n, acc) == DecodeInputs(c1, n - 1, acc + [ti])
  {
  }

  /** One turn of the output loop, for any cursor. */
  lemma OutputsStep(c: Cursor, n: nat, acc: seq<TxOutput>, to: TxOutput, c1: Cursor)
    requires n > 0 && DecodeOutput(c) == (Ok(to), c1)
    ensures DecodeOutputs(c, n, acc) == DecodeOutputs(c1, n - 1, acc + [to])
  {
  }

  /** A written input at the head of the remaining list is one turn of
      the loop. */
  lemma InputThenRest(fast: seq<byte> -> Hash, ti: TxInput, n: nat, acc: seq<TxInput>, tail: seq<byte>)
    requires InputWithinCaps(ti)
    ensures DecodeInputs(Reading(EncodeInput(fast, ti, SerRequired) + tail), n + 1, acc)
         == DecodeInputs(Reading(tail), n, acc + [ti])
  {
    InputRoundTrip(fast, ti, tail);
    InputsStep(Reading(EncodeInput(fast, ti, SerRequired) + tail), n + 1, acc, ti, Reading(tail));
  }

  lemma OutputThenRest(fast: seq<byte> -> Hash, to: TxOutput, n: nat, acc: seq<TxOutput>, tail: seq<byte>)
    requires OutputWithinCaps(to)
    ensures DecodeOutputs(Reading(EncodeOutput(fast, to, SerRequired) + tail), n + 1, acc)
         == DecodeOutputs(Reading(tail), n, acc + [NormalizeOutput(to)])
  {
    OutputRoundTrip(fast, to, tail);
    OutputsStep(Reading(EncodeOutput(fast, to, SerRequired) + tail), n + 1, acc, NormalizeOutput(to), Reading(tail));
  }

  lemma AppendNothing<T>(acc: seq<T>, xs: seq<T>)
    requires xs == []
    ensures acc + xs == acc
  {
  }

  lemma AppendHead<T>(acc: seq<T>, xs: seq<T>)
    requires xs != []
    ensures acc + [xs[0]] + xs[1..] == acc + xs
  {
    assert [xs[0]] + xs[1..] == xs;
  }

  lemma AppendNormalizedHead(acc: seq<TxOutput>, outs: seq<TxOutput>)
    requires outs != []
    ensures acc + [NormalizeOutput(outs[0])] + NormalizeOutputs(outs[1..]) == acc + NormalizeOutputs(outs)
  {
    assert [NormalizeOutput(outs[0])] + NormalizeOutputs(outs[1..]) == NormalizeOutputs(outs);
  }

  lemma {:induction false} InputsRoundTrip(fast: seq<byte> -> Hash, ins: seq<TxInput>, acc: seq<TxInput>, rest: seq<byte>)
    requires forall i :: 0 <= i < |ins| ==> InputWithinCaps(ins[i])
    ensures DecodeInputs(Reading(EncodeInputs(fast, ins, SerRequired) + rest), |ins|, acc) == (Ok(acc + ins), Reading(rest))
  {
    EncodeInputsCons(fast, ins, SerRequired, rest);
    if ins == [] {
      AppendNothing(acc, ins);
    } else {
      assert |ins| == |ins[1..]| + 1;
      var tail := EncodeInputs(fast, ins[1..], SerRequired) + rest;
      InputThenRest(fast, ins[0], |ins[1..]|, acc, tail);
      InputsRoundTrip(fast, ins[1..], acc + [ins[0]], rest);
      AppendHead(acc, ins);
    }
  }

  lemma {:induction false} OutputsRoundTrip(fast: seq<byte> -> Hash, outs: seq<TxOutput>, acc: seq<TxOutput>, rest: seq<byte>)
    requires forall i :: 0 <= i < |outs| ==> OutputWithinCaps(outs[i])
    ensures DecodeOutputs(Reading(EncodeOutputs(fast, outs, SerRequired) + rest), |outs|, acc)
         == (Ok(acc + NormalizeOutputs(outs)), Reading(rest))
  {
    EncodeOutputsCons(fast, outs, SerRequired, rest);
    if outs == [] {
      AppendNothing(acc, NormalizeOutputs(outs));
    } else {
      assert |outs| == |outs[1..]| + 1;
      var tail := EncodeOutputs(fast, outs[1..], SerRequired) + rest;
      OutputThenRest(fast, outs[0], |outs[1..]|, acc, tail);
      OutputsRoundTrip(fast, outs[1..], acc + [NormalizeOutput(outs[0])], rest);
      AppendNormalizedHead(acc, outs);
    }
  }

  lemma InputListRoundTrip(fast: seq<byte> -> Hash, ins: seq<TxInput>, rest: seq<byte>)
    requires |ins| < TwoTo64
    requires forall i :: 0 <= i < |ins| ==> InputWithinCaps(ins[i])
    ensures DecodeInputList(Reading(PutUvarint(|ins|) + (EncodeInputs(fast, ins, SerRequired) + rest))) == (Ok(ins), Reading(rest))
  {
    UvarintRoundTrip(|ins|, EncodeInputs(fast, ins, SerRequired) + rest);
    InputsRoundTrip(fast, ins, [], rest);
    assert [] + ins == ins;
  }

  lemma OutputListRoundTrip(fast: seq<byte> -> Hash, outs: seq<TxOutput>, rest: seq<byte>)
    requires |outs| < TwoTo64
    requires forall i :: 0 <= i < |outs| ==> OutputWithinCaps(outs[i])
    ensures DecodeOutputList(Reading(PutUvarint(|outs|) + (EncodeOutputs(fast, outs, SerRequired) + rest)))
         == (Ok(NormalizeOutputs(outs)), Reading(rest))
  {
    UvarintRoundTrip(|outs|, EncodeOutputs(fast, outs, SerRequired) + rest);
    OutputsRoundTrip(fast, outs, [], rest);
    assert [] + NormalizeOutputs(outs) == NormalizeOutputs(outs);
  }

  // ---------------------------------------------------------------------
  // The whole transaction

  lemma MetadataInFull(fast: seq<byte> -> Hash, data: seq<byte>)
    ensures EncodeMetadata(fast, data, SerRequired) == WriteBytes(data)
  {
    assert HasFlag(SerRequired, SerMetadata);
  }

  /** The wire form, field by field in the order the decoder reads it. */
  lemma TxDataLayout(fast: seq<byte> -> Hash, tx: TxData, rest: seq<byte>)
    ensures WriteTo(fast, tx) + rest
         == [SerRequired] + (PutUvarint(tx.version)
            + (PutUvarint(|tx.inputs|) + (EncodeInputs(fast, tx.inputs, SerRequired)
            + (PutUvarint(|tx.outputs|) + (EncodeOutputs(fast, tx.outputs, SerRequired)
            + (PutUvarint(tx.minTime) + (PutUvarint(tx.maxTime) + (WriteBytes(tx.metadata) + rest))))))))
  {
    MetadataInFull(fast, tx.metadata);
    var t7 := WriteBytes(tx.metadata);
    var t6 := PutUvarint(tx.maxTime) + t7;
    var t5 := PutUvarint(tx.minTime) + t6;
    var t4 := EncodeOutputs(fast, tx.outputs, SerRequired) + t5;
    var t3 := PutUvarint(|tx.outputs|) + t4;
    var t2 := EncodeInputs(fast, tx.inputs, SerRequired) + t3;
    var t1 := PutUvarint(|tx.inputs|) + t2;
    var t0 := PutUvarint(tx.version) + t1;
    assert WriteTo(fast, tx) == [SerRequired] + t0;
    AppendAssoc([SerRequired], t0, rest);
    AppendAssoc(PutUvarint(tx.version), t1, rest);
    AppendAssoc(PutUvarint(|tx.inputs|), t2, rest);
    AppendAssoc(EncodeInputs(fast, tx.inputs, SerRequired), t3, rest);
    AppendAssoc(PutUvarint(|tx.outputs|), t4, rest);
    AppendAssoc(EncodeOutputs(fast, tx.outputs, SerRequired), t5, rest);
    AppendAssoc(PutUvarint(tx.minTime), t6, rest);
    AppendAssoc(PutUvarint(tx.maxTime), t7, rest);
  }

  lemma AppendAssoc<T>(a: seq<T>, b: seq<T>, c: seq<T>)
    ensures (a + b) + c == a + (b + c)
  {
  }

  /** A transaction decodes from its fields' successful reads, whatever the
      cursor. */
  lemma TxDataFromFields(c: Cursor, c1: Cursor, v: uint64, c2: Cursor, ins: seq<TxInput>, c3: Cursor,
                         outs: seq<TxOutput>, c4: Cursor, minTime: uint64, c5: Cursor,
                         maxTime: uint64, c6: Cursor, md: seq<byte>, c7: Cursor)
    requires TakeFull(c, 1) == ([SerRequired], c1) && c1.Reading?
    requires TakeUvarint(c1) == (v, c2)
    requires DecodeInputList(c2) == (Ok(ins), c3)
    requires DecodeOutputList(c3) == (Ok(outs), c4)
    requires TakeUvarint(c4) == (minTime, c5)
    requires TakeUvarint(c5) == (maxTime, c6)
    requires TakeBytes(c6, MetadataMaxByteLength) == (Ok(md), c7)
    ensures DecodeTxData(c) == Ok(TxData(SerRequired, Low32(v), ins, outs, minTime, maxTime, md))
  {
  }

  lemma FlagByte(rest: seq<byte>)
    ensures TakeFull(Reading([SerRequired] + rest), 1) == ([SerRequired], Reading(rest))
  {
    assert ([SerRequired] + rest)[..1] == [SerRequired];
    assert ([SerRequired] + rest)[1..] == rest;
  }

  /** Decoding what WriteTo wrote yields the transaction in normal form:
      serflags 0x07, and the zero commitment on every output whose asset
      version is not 1. Whatever follows is left unread. */
  lemma TxDataRoundTrip(fast: seq<byte> -> Hash, tx: TxData, rest: seq<byte>)
    requires WithinCaps(tx)
    ensures Decode(WriteTo(fast, tx) + rest) == Ok(Normalize(tx))
  {
    var r7 := WriteBytes(tx.metadata) + rest;
    var r6 := PutUvarint(tx.maxTime) + r7;
    var r5 := PutUvarint(tx.minTime) + r6;
    var r4 := EncodeOutputs(fast, tx.outputs, SerRequired) + r5;
    var r3 := PutUvarint(|tx.outputs|) + r4;
    var r2 := EncodeInputs(fast, tx.inputs, SerRequired) + r3;
    var r1 := PutUvarint(|tx.inputs|) + r2;
    var r0 := PutUvarint(tx.version) + r1;
    TxDataLayout(fast, tx, rest);
    FlagByte(r0);
    UvarintRoundTrip(tx.version, r1);
    InputListRoundTrip(fast, tx.inputs, r3);
    OutputListRoundTrip(fast, tx.outputs, r5);
    UvarintRoundTrip(tx.minTime, r6);
    UvarintRoundTrip(tx.maxTime, r7);
    BytesRoundTrip(tx.metadata, MetadataMaxByteLength, rest);
    TxDataFromFields(Reading([SerRequired] + r0), Reading(r0), tx.version, Reading(r1), tx.inputs, Reading(r3),
                     NormalizeOutputs(tx.outputs), Reading(r5), tx.minTime, Reading(r6), tx.maxTime, Reading(r7),
                     tx.metadata, Reading(rest));
  }

  /** A transaction with serflags 0x07 whose outputs all have asset
      version 1 survives the wire unchanged. */
  lemma TxDataRoundTripExact(fast: seq<byte> -> Hash, tx: TxData, rest: seq<byte>)
    requires WithinCaps(tx) && tx.serFlags == SerRequired
    requires forall i :: 0 <= i < |tx.outputs| ==> tx.outputs[i].assetVersion == 1
    ensures Decode(WriteTo(fast, tx) + rest) == Ok(tx)
  {
    TxDataRoundTrip(fast, tx, rest);
    NormalizeFixesVersionOne(tx);
  }

  // ---------------------------------------------------------------------
  // What the decoder returns

  /** The content of a version-1 envelope, written again, takes no more
      bytes than the envelope held. */
  lemma DecodedBodyFits(b: seq<byte>)
    requires DecodeCommitmentBody(b).Ok?
    ensures |CommitmentBody(DecodeCommitmentBody(b).value, 1)| <= |b|
  {
    var (id, c1) := TakeFull(Reading(b), 32);
    var (amount, c2) := TakeUvarint(c1);
    var (vm, c3) := TakeUvarint(c2);
    var (cp, c4) := TakeBytes(c3, ScriptMaxByteLength);
    assert c3.Reading?;
    TakeUvarintLength(c1.rest);
    TakeUvarintLength(c2.rest);
    UvarintLengthMonotone(Low32(vm), vm);
    TakeBytesLength(c3.rest, ScriptMaxByteLength);
  }

  /** Every output the decoder yields is within the caps and in normal
      form: a commitment of an asset version other than 1 is never read. */
  lemma DecodedOutputFits(c: Cursor)
    requires DecodeOutput(c).0.Ok?
    ensures OutputWithinCaps(DecodeOutput(c).0.value)
    ensures NormalizeOutput(DecodeOutput(c).0.value) == DecodeOutput(c).0.value
  {
    var (av, c1) := TakeUvarint(c);
    var to := DecodeOutput(c).0.value;
    if to.assetVersion == 1 {
      var (envelope, c2) := TakeBytes(c1, CommitmentMaxByteLength);
      assert c1.Reading? && envelope.Ok?;
      TakeBytesLength(c1.rest, CommitmentMaxByteLength);
      DecodedBodyFits(envelope.value);
    }
  }

  /** The input loop yields only inputs within the caps. */
  lemma {:induction false} DecodedInputsFit(c: Cursor, n: nat, acc: seq<TxInput>)
    requires forall i :: 0 <= i < |acc| ==> InputWithinCaps(acc[i])
    requires DecodeInputs(c, n, acc).0.Ok?
    ensures forall i :: 0 <= i < |DecodeInputs(c, n, acc).0.value| ==> InputWithinCaps(DecodeInputs(c, n, acc).0.value[i])
    decreases n, 1
  {
    if n > 0 {
      InputsFromFit(DecodeInput(c), n, acc);
    }
  }

  /** One turn of the input loop keeps every input within the caps, given
      that the input it read is. */
  lemma {:induction false} InputsFromFit(read: (Result<TxInput>, Cursor), n: nat, acc: seq<TxInput>)
    requires n > 0
    requires forall i :: 0 <= i < |acc| ==> InputWithinCaps(acc[i])
    requires read.0.Ok? ==> InputWithinCaps(read.0.value)
    requires DecodeInputsFrom(read, n, acc).0.Ok?
    ensures forall i :: 0 <= i < |DecodeInputsFrom(read, n, acc).0.value| ==> InputWithinCaps(DecodeInputsFrom(read, n, acc).0.value[i])
    decreases n, 0
  {
    DecodedInputsFit(read.1, n - 1, acc + [read.0.value]);
  }

  /** What the decoder yields for an output: within the caps and in
      normal form. */
  predicate OutputFits(to: TxOutput)
  {
    OutputWithinCaps(to) && NormalizeOutput(to) == to
  }

  /** The output loop yields only outputs that fit. */
  lemma {:induction false} DecodedOutputsFit(c: Cursor, n: nat, acc: seq<TxOutput>)
    requires forall i :: 0 <= i < |acc| ==> OutputFits(acc[i])
    requires DecodeOutputs(c, n, acc).0.Ok?
    ensures forall i :: 0 <= i < |DecodeOutputs(c, n, acc).0.value| ==> OutputFits(DecodeOutputs(c, n, acc).0.value[i])
    decreases n, 1
  {
    if n > 0 {
      if DecodeOutput(c).0.Ok? {
        DecodedOutputFits(c);
      }
      OutputsFromFit(DecodeOutput(c), n, acc);
    }
  }

  /** One turn of the output loop keeps every output fitting, given that
      the output it read fits. */
  lemma {:induction false} OutputsFromFit(read: (Result<TxOutput>, Cursor), n: nat, acc: seq<TxOutput>)
    requires n > 0
    requires forall i :: 0 <= i < |acc| ==> OutputFits(acc[i])
    requires read.0.Ok? ==> OutputFits(read.0.value)
    requires DecodeOutputsFrom(read, n, acc).0.Ok?
    ensures forall i :: 0 <= i < |DecodeOutputsFrom(read, n, acc).0.value| ==> OutputFits(DecodeOutputsFrom(read, n, acc).0.value[i])
    decreases n, 0
  {
    DecodedOutputsFit(read.1, n - 1, acc + [read.0.value]);
  }

  /** Whatever bytes it comes from, a decoded transaction is within the
      caps and is its own normal form: every cap the encoder relies on is
      one the decoder enforces. */
  lemma DecodedFits(data: seq<byte>)
    requires Decode(data).Ok?
    ensures WithinCaps(Decode(data).value)
    ensures Normalize(Decode(data).value) == Decode(data).value
  {
    var t := Decode(data).value;
    var (f, c1) := TakeFull(Reading(data), 1);
    var (v, c2) := TakeUvarint(c1);
    var (ni, d2) := TakeUvarint(c2);
    var (ins, c3) := DecodeInputList(c2);
    var (no, d3) := TakeUvarint(c3);
    var (outs, c4) := DecodeOutputList(c3);
    var (minTime, c5) := TakeUvarint(c4);
    var (maxTime, c6) := TakeUvarint(c5);
    var (md, c7) := TakeBytes(c6, MetadataMaxByteLength);
    assert ins.Ok? && outs.Ok? && md.Ok?;
    assert t.inputs == ins.value && t.outputs == outs.value && t.metadata == md.value;
    DecodedInputsFit(d2, ni, []);
    DecodedOutputsFit(d3, no, []);
    assert forall i :: 0 <= i < |t.outputs| ==> OutputFits(t.outputs[i]);
    assert c6.Reading?;
    TakeBytesLength(c6.rest, MetadataMaxByteLength);
    assert NormalizeOutputs(t.outputs) == t.outputs;
  }

  /** A decoded transaction, written again, reads back as itself. */
  lemma DecodedIsStable(fast: seq<byte> -> Hash, data: seq<byte>, rest: seq<byte>)
    requires Decode(data).Ok?
    ensures Decode(WriteTo(fast, Decode(data).value) + rest) == Decode(data)
  {
    DecodedFits(data);
    TxDataRoundTrip(fast, Decode(data).value, rest);
  }

  // ---------------------------------------------------------------------
  // What the decoder refuses

  /** n copies of the byte x. */
  function Repeat(x: byte, n: nat): seq<byte>
  {
    seq(n, _ => x)
  }

  /** Nine continuation bytes and then a byte above 1 overflow 64 bits,
      wherever the varint starts (k of those bytes already read). */
  lemma {:induction false} TenthByteOverflows(k: nat, b: byte, rest: seq<byte>)
    requires k <= 9 && b > 1
    ensures UvarintAt(Repeat(0x80, 9 - k) + [b] + rest, k) == Failed(VarintOverflow)
    decreases 9 - k
  {
    var s := Repeat(0x80, 9 - k) + [b] + rest;
    if k < 9 {
      assert s[0] == 0x80;
      assert s[1..] == Repeat(0x80, 9 - (k + 1)) + [b] + rest;
      TenthByteOverflows(k + 1, b, rest);
    } else {
      assert s[0] == b;
    }
  }

  /** A stuck reader after the serflags byte fails the whole decode with
      its first error. */
  lemma StuckAfterFlags(data: seq<byte>, e: DecodeError)
    requires |data| >= 1 && data[0] == SerRequired
    requires TakeUvarint(Reading(data[1..])).1 == Stuck(e)
    ensures Decode(data) == Err(e)
  {
    assert TakeFull(Reading(data), 1) == (data[..1], Reading(data[1..]));
    StuckStaysStuck(e, 0, MetadataMaxByteLength);
    assert DecodeInputList(Stuck(e)) == (Ok([]), Stuck(e));
    assert DecodeOutputList(Stuck(e)) == (Ok([]), Stuck(e));
  }

  /** A version varint that overflows 64 bits stops the whole decode: the
      error stays in the reader and is reported by the final metadata
      read, whatever follows it (five zero bytes after it would otherwise
      read as an empty transaction). */
  lemma VersionOverflowRefused(b: byte, rest: seq<byte>)
    requires b > 1
    ensures Decode([SerRequired] + Repeat(0x80, 9) + [b] + rest) == Err(VarintOverflow)
  {
    var data := [SerRequired] + Repeat(0x80, 9) + [b] + rest;
    assert data[1..] == Repeat(0x80, 9) + [b] + rest;
    TenthByteOverflows(0, b, rest);
    StuckAfterFlags(data, VarintOverflow);
  }

  /** A first byte other than 0x07 is refused before anything else is
      read. */
  lemma UnsupportedFlagsRefused(data: seq<byte>)
    requires |data| >= 1 && data[0] != SerRequired
    ensures Decode(data) == Err(UnsupportedFlags(data[0]))
  {
    assert data[..1] == [data[0]];
  }

  /** A decoded transaction always had 0x07 as its first byte. */
  lemma DecodedStartsWithRequiredFlags(data: seq<byte>)
    requires Decode(data).Ok?
    ensures |data| >= 1 && data[0] == SerRequired
  {
    if data == [] {
      EmptyIsTruncated();
    } else if data[0] != SerRequired {
      UnsupportedFlagsRefused(data);
    }
  }

  /** The rendering hashed for the transaction id (serflags 0) is never
      accepted as a wire transaction. */
  lemma HashRenderingRefused(fast: seq<byte> -> Hash, tx: TxData, rest: seq<byte>)
    ensures Decode(EncodeTxData(fast, tx, 0) + rest) == Err(UnsupportedFlags(0))
  {
    var s := EncodeTxData(fast, tx, 0) + rest;
    assert s[0] == 0;
    UnsupportedFlagsRefused(s);
  }

  /** An empty slice is a truncated transaction: the missing flags byte
      sticks in the reader and the final metadata read reports it. */
  lemma EmptyIsTruncated()
    ensures Decode([]) == Err(Truncated)
  {
    StuckStaysStuck(Truncated, 0, MetadataMaxByteLength);
    assert DecodeInputList(Stuck(Truncated)) == (Ok([]), Stuck(Truncated));
    assert DecodeOutputList(Stuck(Truncated)) == (Ok([]), Stuck(Truncated));
  }
}
