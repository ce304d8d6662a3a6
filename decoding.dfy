/**
 * The readFrom family as functions over a sticky-error cursor: what each
 * reader produces and where it leaves the stream. Varint errors are
 * ignored where the decoder ignores them; they stay in the cursor and the
 * next length-prefixed read reports them. A successful decode always
 * describes a freshly allocated transaction.
 */
module Decoding {
  import opened Wire
  import opened Bc

  /** Outpoint.readFrom: the index is truncated to 32 bits. */
  function DecodeOutpoint(c: Cursor): (r: (Outpoint, Cursor))
    ensures Advanced(c, r.1, 33)
  {
    var (h, c1) := TakeFull(c, 32);
    var (index, c2) := TakeUvarint(c1);
    (Outpoint(h, Low32(index)), c2)
  }

  function DecodeAssetAmount(c: Cursor): (r: (AssetAmount, Cursor))
    ensures Advanced(c, r.1, 33)
  {
    var (id, c1) := TakeFull(c, 32);
    var (amount, c2) := TakeUvarint(c1);
    (AssetAmount(id, amount), c2)
  }

  /** TxInput.readFrom: every field is present on the wire. */
  function DecodeInput(c: Cursor): (r: (Result<TxInput>, Cursor))
    ensures r.0.Ok? ==> r.1.Reading?
    ensures r.0.Ok? ==> && |r.0.value.prevScript| <= ScriptMaxByteLength
                        && |r.0.value.signatureScript| <= ScriptMaxByteLength
                        && |r.0.value.metadata| <= MetadataMaxByteLength
                        && |r.0.value.assetDefinition| <= AssetDefinitionMaxByteLength
  {
    var (prev, c1) := DecodeOutpoint(c);
    var (aa, c2) := DecodeAssetAmount(c1);
    var (ps, c3) := TakeBytes(c2, ScriptMaxByteLength);
    if ps.Err? then (Err(ps.error), c3) else
    var (ss, c4) := TakeBytes(c3, ScriptMaxByteLength);
    if ss.Err? then (Err(ss.error), c4) else
    var (md, c5) := TakeBytes(c4, MetadataMaxByteLength);
    if md.Err? then (Err(md.error), c5) else
    var (ad, c6) := TakeBytes(c5, AssetDefinitionMaxByteLength);
    if ad.Err? then (Err(ad.error), c6) else
    (Ok(TxInput(prev, aa, ps.value, ss.value, md.value, ad.value)), c6)
  }

  /** The content of a version-1 envelope, read from its own buffer; bytes
      after the control program are never looked at. */
  function DecodeCommitmentBody(b: seq<byte>): (r: Result<OutputCommitment>)
    ensures r.Ok? ==> |r.value.controlProgram| <= ScriptMaxByteLength
  {
    var (aa, d1) := DecodeAssetAmount(Reading(b));
    var (vm, d2) := TakeUvarint(d1);
    var (cp, d3) := TakeBytes(d2, ScriptMaxByteLength);
    if cp.Err? then Err(cp.error) else Ok(OutputCommitment(aa, Low32(vm), cp.value))
  }

  /** OutputCommitment.readFrom into a commitment that holds `current`: the
      envelope is always consumed; for an asset version other than 1 its
      content is discarded and the commitment is left as it was. */
  function DecodeCommitment(c: Cursor, assetVersion: uint32, current: OutputCommitment): (r: (Result<OutputCommitment>, Cursor))
    ensures r.0.Ok? ==> r.1.Reading?
    ensures r.0.Ok? && assetVersion != 1 ==> r.0.value == current
    ensures r.0.Ok? && assetVersion == 1 ==> |r.0.value.controlProgram| <= ScriptMaxByteLength
  {
    var (envelope, c1) := TakeBytes(c, CommitmentMaxByteLength);
    if envelope.Err? then (Err(envelope.error), c1)
    else if assetVersion != 1 then (Ok(current), c1)
    else (DecodeCommitmentBody(envelope.value), c1)
  }

  /** TxOutput.readFrom into a freshly allocated output: the asset version
      is truncated to 32 bits; the output witness is read and dropped. */
  function DecodeOutput(c: Cursor): (r: (Result<TxOutput>, Cursor))
    ensures r.0.Ok? ==> r.1.Reading?
    ensures r.0.Ok? ==> |r.0.value.referenceData| <= MetadataMaxByteLength
    ensures r.0.Ok? && r.0.value.assetVersion != 1 ==> r.0.value.commitment == ZeroCommitment
    ensures r.0.Ok? && r.0.value.assetVersion == 1 ==> |r.0.value.commitment.controlProgram| <= ScriptMaxByteLength
  {
    var (av, c1) := TakeUvarint(c);
    var assetVersion := Low32(av);
    var (oc, c2) := DecodeCommitment(c1, assetVersion, ZeroCommitment);
    if oc.Err? then (Err(oc.error), c2) else
    var (rd, c3) := TakeBytes(c2, MetadataMaxByteLength);
    if rd.Err? then (Err(rd.error), c3) else
    var (w, c4) := TakeBytes(c3, CommitmentMaxByteLength);
    if w.Err? then (Err(w.error), c4) else
    (Ok(TxOutput(assetVersion, oc.value, rd.value)), c4)
  }

  /** The counted input loop: n more inputs, appended to `acc`; this is
      the loop's test. */
  function DecodeInputs(c: Cursor, n: nat, acc: seq<TxInput>): (r: (Result<seq<TxInput>>, Cursor))
    ensures r.0.Ok? ==> |r.0.value| == |acc| + n && r.0.value[..|acc|] == acc
    decreases n, 1
  {
    if n == 0 then (Ok(acc), c) else DecodeInputsFrom(DecodeInput(c), n, acc)
  }

  /** One turn of the input loop's body, given what reading one input
      gave: stop on its error, otherwise append it and go on with the
      rest. */
  function DecodeInputsFrom(read: (Result<TxInput>, Cursor), n: nat, acc: seq<TxInput>): (r: (Result<seq<TxInput>>, Cursor))
    requires n > 0
    ensures r.0.Ok? ==> |r.0.value| == |acc| + n && r.0.value[..|acc|] == acc
    decreases n, 0
  {
    var (ti, c1) := read;
    if ti.Err? then (Err(ti.error), c1)
    else DecodeInputs(c1, n - 1, acc + [ti.value])
  }

  function DecodeOutputs(c: Cursor, n: nat, acc: seq<TxOutput>): (r: (Result<seq<TxOutput>>, Cursor))
    ensures r.0.Ok? ==> |r.0.value| == |acc| + n && r.0.value[..|acc|] == acc
    decreases n, 1
  {
    if n == 0 then (Ok(acc), c) else DecodeOutputsFrom(DecodeOutput(c), n, acc)
  }

  /** One turn of the output loop's body, given what reading one output
      gave: stop on its error, otherwise append it and go on with the
      rest. */
  function DecodeOutputsFrom(read: (Result<TxOutput>, Cursor), n: nat, acc: seq<TxOutput>): (r: (Result<seq<TxOutput>>, Cursor))
    requires n > 0
    ensures r.0.Ok? ==> |r.0.value| == |acc| + n && r.0.value[..|acc|] == acc
    decreases n, 0
  {
    var (to, c1) := read;
    if to.Err? then (Err(to.error), c1)
    else DecodeOutputs(c1, n - 1, acc + [to.value])
  }

  /** A varint count, then that many inputs. */
  function DecodeInputList(c: Cursor): (r: (Result<seq<TxInput>>, Cursor))
    ensures r.0.Ok? ==> |r.0.value| == TakeUvarint(c).0
  {
    var (n, c1) := TakeUvarint(c);
    DecodeInputs(c1, n, [])
  }

  function DecodeOutputList(c: Cursor): (r: (Result<seq<TxOutput>>, Cursor))
    ensures r.0.Ok? ==> |r.0.value| == TakeUvarint(c).0
  {
    var (n, c1) := TakeUvarint(c);
    DecodeOutputs(c1, n, [])
  }

  /** TxData.readFrom. A present first byte other than 0x07 is refused at
      once; a missing one leaves the reader failed, and the final metadata
      read reports it. */
  function DecodeTxData(c: Cursor): (r: Result<TxData>)
    ensures r.Ok? ==> r.value.serFlags == SerRequired
  {
    var (f, c1) := TakeFull(c, 1);
    if c1.Reading? && f[0] != SerRequired then Err(UnsupportedFlags(f[0]))
    else
      var (v, c2) := TakeUvarint(c1);
      var (ins, c3) := DecodeInputList(c2);
      if ins.Err? then Err(ins.error) else
      var (outs, c4) := DecodeOutputList(c3);
      if outs.Err? then Err(outs.error) else
      var (minTime, c5) := TakeUvarint(c4);
      var (maxTime, c6) := TakeUvarint(c5);
      var (md, c7) := TakeBytes(c6, MetadataMaxByteLength);
      if md.Err? then Err(md.error) else
      Ok(TxData(f[0], Low32(v), ins.value, outs.value, minTime, maxTime, md.value))
  }

  /** Decoding a byte slice from its start. */
  function Decode(data: seq<byte>): (r: Result<TxData>)
    ensures r.Ok? ==> r.value.serFlags == SerRequired
  {
    DecodeTxData(Reading(data))
  }
}
