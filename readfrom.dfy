/**
 * The readFrom methods as the decoder runs them: each consumes a sticky
 * reader step by step and builds its record, returning at the first
 * reported error; the counted loops append one input or output at a time.
 * Each method is proved to do exactly what the matching Decode function
 * specifies.
 */
module ReadFrom {
  import opened Wire
  import opened Bc
  import opened Decoding

  method ReadOutpoint(r: Reader) returns (p: Outpoint)
    modifies r
    ensures (p, r.cursor) == DecodeOutpoint(old(r.cursor))
  {
    var h := r.ReadFull(32);
    var index := r.ReadUvarint();
    p := Outpoint(h, Low32(index));
  }

  method ReadAssetAmount(r: Reader) returns (a: AssetAmount)
    modifies r
    ensures (a, r.cursor) == DecodeAssetAmount(old(r.cursor))
  {
    var id := r.ReadFull(32);
    var amount := r.ReadUvarint();
    a := AssetAmount(id, amount);
  }

  method ReadInput(r: Reader) returns (res: Result<TxInput>)
    modifies r
    ensures (res, r.cursor) == DecodeInput(old(r.cursor))
  {
    var previous := ReadOutpoint(r);
    var assetAmount := ReadAssetAmount(r);
    var prevScript := r.ReadBytes(ScriptMaxByteLength);
    if prevScript.Err? {
      return Err(prevScript.error);
    }
    var signatureScript := r.ReadBytes(ScriptMaxByteLength);
    if signatureScript.Err? {
      return Err(signatureScript.error);
    }
    var metadata := r.ReadBytes(MetadataMaxByteLength);
    if metadata.Err? {
      return Err(metadata.error);
    }
    var assetDefinition := r.ReadBytes(AssetDefinitionMaxByteLength);
    if assetDefinition.Err? {
      return Err(assetDefinition.error);
    }
    return Ok(TxInput(previous, assetAmount, prevScript.value, signatureScript.value,
                      metadata.value, assetDefinition.value));
  }

  /** Reads the envelope; only for asset version 1 is its content parsed,
      from a reader of its own. */
  method ReadCommitment(r: Reader, assetVersion: uint32, current: OutputCommitment) returns (res: Result<OutputCommitment>)
    modifies r
    ensures (res, r.cursor) == DecodeCommitment(old(r.cursor), assetVersion, current)
  {
    var envelope := r.ReadBytes(CommitmentMaxByteLength);
    if envelope.Err? {
      return Err(envelope.error);
    }
    if assetVersion != 1 {
      return Ok(current);
    }
    var rb := new Reader(envelope.value);
    var assetAmount := ReadAssetAmount(rb);
    var vmVersion := rb.ReadUvarint();
    var controlProgram := rb.ReadBytes(ScriptMaxByteLength);
    if controlProgram.Err? {
      return Err(controlProgram.error);
    }
    return Ok(OutputCommitment(assetAmount, Low32(vmVersion), controlProgram.value));
  }

  method ReadOutput(r: Reader) returns (res: Result<TxOutput>)
    modifies r
    ensures (res, r.cursor) == DecodeOutput(old(r.cursor))
  {
    var av := r.ReadUvarint();
    var assetVersion := Low32(av);
    var commitment := ReadCommitment(r, assetVersion, ZeroCommitment);
    if commitment.Err? {
      return Err(commitment.error);
    }
    var referenceData := r.ReadBytes(MetadataMaxByteLength);
    if referenceData.Err? {
      return Err(referenceData.error);
    }
    var outputWitness := r.ReadBytes(CommitmentMaxByteLength);
    if outputWitness.Err? {
      return Err(outputWitness.error);
    }
    return Ok(TxOutput(assetVersion, commitment.value, referenceData.value));
  }

  /** One turn of the input loop's body, as the loop sees it: what is left
      of the list is decoded from the new position. */
  method ReadNextInput(r: Reader, n: nat, inputs: seq<TxInput>) returns (ti: Result<TxInput>)
    requires n > 0
    modifies r
    ensures ti.Err? ==> DecodeInputs(old(r.cursor), n, inputs) == (Err(ti.error), r.cursor)
    ensures ti.Ok? ==> DecodeInputs(old(r.cursor), n, inputs) == DecodeInputs(r.cursor, n - 1, inputs + [ti.value])
  {
    ti := ReadInput(r);
  }

  /** The counted input loop of TxData.readFrom. */
  method ReadInputList(r: Reader) returns (res: Result<seq<TxInput>>)
    modifies r
    ensures (res, r.cursor) == DecodeInputList(old(r.cursor))
  {
    ghost var goal := DecodeInputList(r.cursor);
    var n := r.ReadUvarint();
    var inputs: seq<TxInput> := [];
    while n > 0
      invariant goal == DecodeInputs(r.cursor, n, inputs)
      decreases n
    {
      var ti := ReadNextInput(r, n, inputs);
      if ti.Err? {
        return Err(ti.error);
      }
      inputs := inputs + [ti.value];
      n := n - 1;
    }
    return Ok(inputs);
  }

  /** One turn of the output loop's body, as the loop sees it. */
  method ReadNextOutput(r: Reader, n: nat, outputs: seq<TxOutput>) returns (to: Result<TxOutput>)
    requires n > 0
    modifies r
    ensures to.Err? ==> DecodeOutputs(old(r.cursor), n, outputs) == (Err(to.error), r.cursor)
    ensures to.Ok? ==> DecodeOutputs(old(r.cursor), n, outputs) == DecodeOutputs(r.cursor, n - 1, outputs + [to.value])
  {
    to := ReadOutput(r);
  }

  /** The counted output loop of TxData.readFrom. */
  method ReadOutputList(r: Reader) returns (res: Result<seq<TxOutput>>)
    modifies r
    ensures (res, r.cursor) == DecodeOutputList(old(r.cursor))
  {
    ghost var goal := DecodeOutputList(r.cursor);
    var n := r.ReadUvarint();
    var outputs: seq<TxOutput> := [];
    while n > 0
      invariant goal == DecodeOutputs(r.cursor, n, outputs)
      decreases n
    {
      var to := ReadNextOutput(r, n, outputs);
      if to.Err? {
        return Err(to.error);
      }
      outputs := outputs + [to.value];
      n := n - 1;
    }
    return Ok(outputs);
  }

  /** TxData.readFrom into a freshly allocated transaction. */
  method ReadTxData(r: Reader) returns (res: Result<TxData>)
    modifies r
    ensures res == DecodeTxData(old(r.cursor))
  {
    var flags := r.ReadFull(1);
    var serFlags := flags[0];
    if r.cursor.Reading? && serFlags != SerRequired {
      return Err(UnsupportedFlags(serFlags));
    }
    var v := r.ReadUvarint();
    var version := Low32(v);
    var inputs := ReadInputList(r);
    if inputs.Err? {
      return Err(inputs.error);
    }
    var outputs := ReadOutputList(r);
    if outputs.Err? {
      return Err(outputs.error);
    }
    var minTime := r.ReadUvarint();
    var maxTime := r.ReadUvarint();
    var metadata := r.ReadBytes(MetadataMaxByteLength);
    if metadata.Err? {
      return Err(metadata.error);
    }
    return Ok(TxData(serFlags, version, inputs.value, outputs.value, minTime, maxTime, metadata.value));
  }

  /** Decoding a byte slice with a fresh reader. */
  method Unmarshal(data: seq<byte>) returns (res: Result<TxData>)
    ensures res == Decode(data)
  {
    var r := new Reader(data);
    res := ReadTxData(r);
  }
}


