/**
 * The hexadecimal text form of a transaction, and the Tx record that
 * carries a transaction together with its hash.
 */
module Text {
  import opened Wire
  import opened Bc
  import opened Digits
  import opened Encoding
  import opened Decoding
  import opened RoundTrip
  import opened Hashing

  /** TxData.MarshalText: the wire form in lowercase hexadecimal, two
      characters per byte. */
  function MarshalText(fast: seq<byte> -> Hash, tx: TxData): (s: string)
    ensures |s| == 2 * |WriteTo(fast, tx)|
    ensures forall i :: 0 <= i < |s| ==> IsLowerHex(s[i])
  {
    HexEncodeIsLowercase(WriteTo(fast, tx));
    HexEncode(WriteTo(fast, tx))
  }

  /** TxData.UnmarshalText into a freshly allocated transaction: text that
      is not hexadecimal is refused before anything is decoded. */
  function UnmarshalTxData(text: string): (r: Result<TxData>)
    ensures r.Ok? ==> |text| % 2 == 0 && r.value.serFlags == SerRequired
  {
    match HexDecode(text)
    case Err(e) => Err(e)
    case Ok(b) => Decode(b)
  }

  /** The text form reads back as the transaction that was written. */
  lemma TextRoundTrip(fast: seq<byte> -> Hash, tx: TxData)
    requires WithinCaps(tx)
    ensures UnmarshalTxData(MarshalText(fast, tx)) == Ok(Normalize(tx))
  {
    HexRoundTrip(WriteTo(fast, tx));
    TxDataRoundTrip(fast, tx, []);
    assert WriteTo(fast, tx) + [] == WriteTo(fast, tx);
  }

  /** Text with a character that is no hexadecimal digit, or of odd length,
      is refused as such, whatever else it holds. */
  lemma MalformedTextRefused(text: string, i: nat)
    requires |text| % 2 == 1 || (i < |text| && HexValue(text[i]) < 0)
    ensures UnmarshalTxData(text) == Err(InvalidHexText)
  {
    if |text| % 2 == 1 {
      OddLengthRefused(text);
    } else {
      NonHexRefused(text, i);
    }
  }

  /** What TxData.readFrom leaves in a receiver that already holds `recv`
      when it decodes `d`: inputs and outputs are appended to the ones
      already there, every other field is overwritten. */
  function ReadInto(recv: TxData, d: TxData): (r: TxData)
    ensures |r.inputs| == |recv.inputs| + |d.inputs|
    ensures r.inputs[..|recv.inputs|] == recv.inputs && r.inputs[|recv.inputs|..] == d.inputs
    ensures |r.outputs| == |recv.outputs| + |d.outputs|
    ensures r.outputs[..|recv.outputs|] == recv.outputs && r.outputs[|recv.outputs|..] == d.outputs
    ensures r.(inputs := d.inputs, outputs := d.outputs) == d
  {
    d.(inputs := recv.inputs + d.inputs, outputs := recv.outputs + d.outputs)
  }

  /** A transaction with its hash and whether it is on durable storage. */
  class Tx {
    const h: Hashers
    var data: TxData
    var hash: Hash
    var stored: bool

    /** The hash field holds the hash of the data. */
    ghost predicate HashIsCurrent()
      reads this
    {
      hash == TxHash(h, data)
    }

    /** NewTx: the data with its freshly computed hash. */
    constructor NewTx(h: Hashers, data: TxData)
      ensures this.h == h && this.data == data && !stored
      ensures HashIsCurrent()
    {
      this.h := h;
      this.data := data;
      hash := TxHash(h, data);
      stored := false;
    }

    /** Tx.UnmarshalText: decode into the embedded data, then rehash. On
        failure the hash is not recomputed; text that is not hexadecimal
        is refused before the data is touched. */
    method UnmarshalText(text: string) returns (res: Result<()>)
      modifies this
      ensures stored == old(stored)
      ensures match UnmarshalTxData(text)
              case Ok(d) => res == Ok(()) && data == ReadInto(old(data), d) && HashIsCurrent()
              case Err(e) => res == Err(e) && hash == old(hash)
      ensures HexDecode(text).Err? ==> data == old(data) && hash == old(hash)
    {
      match UnmarshalTxData(text)
      case Err(e) =>
        res := Err(e);
      case Ok(d) =>
        data := ReadInto(data, d);
        hash := TxHash(h, data);
        res := Ok(());
    }
  }
}
