# Transaction codec and hashes of package `bc`, in Dafny

This project models the transaction layer of the `cos/bc` package: the
data model (transaction, input, output, output commitment, outpoint, asset
amount), the binary codec, the hexadecimal text form, the transaction hash,
the witness hash and the per-input signature hasher.

- `wire.dfy`, module `Wire`. These are the byte-stream primitives the codec relies on:
  - the unsigned varint of Go's `encoding/binary`;
  - capped, length-prefixed byte fields;
  - a reader whose first error is sticky.

  The reader is a pure cursor (`TakeFull`, `TakeUvarint`, `TakeBytes`) plus a `Reader` class whose methods do exactly what the cursor functions describe.
- `digits.dfy`, module `Digits`: hexadecimal text as written by `encoding/hex`, and decimal text as written by `strconv`.
- `bc.dfy`, module `Bc`:
  - the data model and the serflags constants;
  - `IsIssuance`, with `HasIssuance` as a loop;
  - `NewTxOutput`, `NewOutpoint` and `Outpoint.String`.
- `encoding.dfy`, module `Encoding`: the `writeTo` family as pure functions of the serflags byte. The module also proves which fields each rendering depends on.
- `decoding.dfy`, module `Decoding`: the `readFrom` family as functions over the sticky cursor, including the counted input and output loops.
- `readfrom.dfy`, module `ReadFrom`: the `readFrom` methods as the decoder runs them, over a `Reader` object. Each method is proved equal to its decoding function.
- `roundtrip.dfy`, module `RoundTrip`: what decoding does with what the encoder wrote, and what the decoder refuses.
- `hashing.dfy`, module `Hashing`: `TxData.Hash` and `WitnessHash`, and what each one commits to.
- `text.dfy`, module `Text`: `MarshalText`/`UnmarshalText`, and the `Tx` object with its cached hash.
- `sighash.dfy`, module `SigHash`:
  - the `SigHasher` object, whose inputs digest and outputs digest are each computed at most once;
  - `HashForSig`;
  - the properties of each hash type.

SHA3-256 and the fast digest are parameters (`Hashers`): total functions returning 32 bytes. Every property holds whatever they compute, and none relies on collision resistance.

A decoded transaction is compared with `Normalize(tx)`. This is `tx` with:
- its serflags byte set to 0x07;
- the commitment of every output whose asset version is not 1 reset to its zero value.

The encoder writes no commitment content for such outputs, and the decoder leaves a fresh output's commitment as allocated.

## Model

| member | source | states |
|---|---|---|
| Bc.HasIssuance | cos/bc/transaction.go:143-155 | true exactly when some input's previous-output index is 0xffffffff (the issuance marker of `IsIssuance`, 153-155) |
| Bc.NewOutpoint | cos/bc/transaction.go:136-140 | the index is kept; byte i of the hash is byte i of `b` when `b` has one, else zero (Go's `copy` into a fixed array) |
| Bc.IsIssuance | cos/bc/transaction.go:152-155 | an input is an issuance input when its previous-output index is 0xffffffff; a definition, whose consequences `Bc.HasIssuance` and `SigHash.SpentOutputCommitment` state |
| Bc.NewTxOutput | cos/bc/transaction.go:114-127 | a version-1 output whose commitment holds the asset amount, VM version 1 and the control program; a definition, whose round trip `RoundTrip.NewTxOutputRoundTrip` states |
| Bc.OutpointString | cos/bc/transaction.go:509-511 | the text is 64 lowercase hexadecimal characters that decode back to the hash, a colon, then decimal digits whose value is the index, with no leading zero |
| Digits.DecimalString | cos/bc/transaction.go:509-511 | decimal text as `strconv.FormatUint` writes it in base 10: at least one digit, every character a digit, and a leading 0 only for the value 0 itself |
| Digits.HexRoundTrip | cos/bc/transaction.go:432-438 | hex-decoding the text that hex-encoding wrote yields the original bytes |
| Digits.HexEncodeIsLowercase | cos/bc/transaction.go:432-438 | every character written is a lowercase hexadecimal digit |
| Digits.NonHexRefused | cos/bc/transaction.go:157-163 | a single non-hexadecimal character anywhere makes hex decoding fail |
| Digits.DecimalRoundTrip | cos/bc/transaction.go:509-512 | the decimal text of an index denotes that index |
| Wire.UvarintRoundTrip | cos/bc/transaction.go:192-193 | reading a written varint yields the value and leaves exactly the bytes that followed |
| Wire.BytesRoundTrip | cos/bc/transaction.go:220-240 | reading a written length-prefixed field within its cap yields the bytes and leaves what followed |
| Wire.BytesOverCap | cos/bc/transaction.go:232-236 | a written field longer than the cap is refused as too large |
| Wire.StuckStaysStuck | cos/bc/transaction.go:183-217 | once the reader has failed, every later read reports that first error and consumes nothing |
| Wire.UvarintFitsTenBytes | cos/bc/transaction.go:536-539 | a 64-bit value takes at most ten varint bytes |
| Wire.UvarintLengthMonotone | cos/bc/transaction.go:271-279 | a smaller value never takes more varint bytes |
| Wire.UvarintAtLength | cos/bc/transaction.go:192-193 | writing a value read as a varint takes no more bytes than the read consumed |
| Wire.TakeBytesLength | cos/bc/transaction.go:232-236 | a byte field that was read is within its cap, and writing it again takes no more bytes than the read consumed |
| Wire.UvarintFitsFiveBytes | cos/bc/transaction.go:515-522 | a 32-bit value (an outpoint index, an asset version) takes at most five varint bytes |
| Wire.Reader.ReadFull | cos/bc/transaction.go:283-285 | the method's result and new reader state are those of the cursor function `TakeFull` |
| Wire.Reader.ReadUvarint | cos/bc/transaction.go:192-193 | the method's result and new reader state are those of the cursor function `TakeUvarint` |
| Wire.Reader.ReadBytes | cos/bc/transaction.go:215 | the method's result and new reader state are those of the cursor function `TakeBytes` |
| Encoding.EncodeOutpoint | cos/bc/transaction.go:515-522 | the hash's 32 bytes come first, then the index's varint: 33 to 37 bytes in all |
| Encoding.EncodeAssetAmount | cos/bc/transaction.go:536-539 | the asset id's 32 bytes come first, then the amount's varint: 33 to 42 bytes in all |
| Encoding.EncodeMetadata | cos/bc/transaction.go:542-549 | with SerMetadata the field ends with the data itself, after its length prefix; without it, exactly 33 bytes: the length 32 followed by the fast digest of the data |
| Encoding.EncodeInput | cos/bc/transaction.go:468-488 | the rendering starts with the previous outpoint's hash; under serflags 0 (the hash rendering) it takes 100 to 104 bytes whatever the scripts and metadata hold |
| Encoding.EncodeCommitment | cos/bc/transaction.go:498-506 | for an asset version other than 1 the envelope is the single byte 0 (empty); for version 1 it is at least 36 bytes |
| Encoding.EncodeOutput | cos/bc/transaction.go:491-496 | the rendering ends with the empty output witness (a 0 byte); without SerMetadata and outside asset version 1 it takes 36 to 40 bytes |
| Encoding.EncodeTxData | cos/bc/transaction.go:448-465 | the rendering starts with the serflags byte it was asked for and is at least 7 bytes long |
| Encoding.WriteTo | cos/bc/transaction.go:441-445 | the wire form starts with serflags 0x07 and is at least 7 bytes long |
| Encoding.InputRenderingDependsOnlyOnFlaggedFields | cos/bc/transaction.go:468-488 | an input's rendering depends only on its outpoint and on the fields the flags select: spent amount and previous script only with SerPrevout; signature script only with SerWitness; metadata and asset definition in full only with SerMetadata, otherwise through their fast digests |
| Encoding.OutputRenderingDependsOnlyOnFlaggedFields | cos/bc/transaction.go:491-506 | an output's rendering depends only on its asset version, on its commitment only when that version is 1, and on its reference data (or its fast digest without SerMetadata) |
| Encoding.EncodeInputsPointwise | cos/bc/transaction.go:451-454 | input lists that render alike element by element render alike as a whole |
| Encoding.EncodeOutputsPointwise | cos/bc/transaction.go:456-459 | output lists that render alike element by element render alike as a whole |
| Decoding.DecodeOutpoint | cos/bc/transaction.go:283-287 | a failed reader stays failed; otherwise at least 33 bytes are consumed, or the reader fails |
| Decoding.DecodeAssetAmount | cos/bc/transaction.go:530-533 | a failed reader stays failed; otherwise at least 33 bytes are consumed, or the reader fails |
| Decoding.DecodeInput | cos/bc/transaction.go:220-241 | a decoded input leaves the reader healthy, and its previous script, signature script, metadata and asset definition are each within their cap |
| Decoding.DecodeCommitmentBody | cos/bc/transaction.go:271-279 | a parsed commitment's control program is within the script cap |
| Decoding.DecodeCommitment | cos/bc/transaction.go:263-280 | on success the reader is healthy; for an asset version other than 1 the commitment is left exactly as it was, for version 1 its control program is within the script cap |
| Decoding.DecodeOutput | cos/bc/transaction.go:244-261 | a decoded output leaves the reader healthy, its reference data is within the metadata cap, and its commitment is the zero value unless its asset version is 1 |
| Decoding.DecodeInputs | cos/bc/transaction.go:196-201 | the loop run n times returns what it held followed by exactly n more inputs |
| Decoding.DecodeOutputs | cos/bc/transaction.go:205-210 | the loop run n times returns what it held followed by exactly n more outputs |
| Decoding.DecodeInputList | cos/bc/transaction.go:195-202 | a decoded input list has exactly as many inputs as the count read before it |
| Decoding.DecodeOutputList | cos/bc/transaction.go:204-211 | a decoded output list has exactly as many outputs as the count read before it |
| Decoding.DecodeTxData | cos/bc/transaction.go:184-217 | a successful decode always carries serflags 0x07 |
| Decoding.Decode | cos/bc/transaction.go:157-164 | decoding a byte slice from its start; a success carries serflags 0x07 (its round trips and refusals are the `RoundTrip` lemmas) |
| ReadFrom.ReadOutpoint | cos/bc/transaction.go:283-287 | reads exactly what `DecodeOutpoint` describes: the hash, then the index truncated to 32 bits |
| ReadFrom.ReadAssetAmount | cos/bc/transaction.go:530-533 | reads exactly what `DecodeAssetAmount` describes |
| ReadFrom.ReadInput | cos/bc/transaction.go:220-241 | reads exactly what `DecodeInput` describes: each field in turn, stopping at the first failed byte field |
| ReadFrom.ReadCommitment | cos/bc/transaction.go:263-280 | reads exactly what `DecodeCommitment` describes: the envelope is always consumed, and its content is parsed only for asset version 1 |
| ReadFrom.ReadOutput | cos/bc/transaction.go:244-261 | reads exactly what `DecodeOutput` describes, including the dropped output witness |
| ReadFrom.ReadInputList | cos/bc/transaction.go:195-202 | the counted input loop yields what `DecodeInputList` describes |
| ReadFrom.ReadOutputList | cos/bc/transaction.go:204-211 | the counted output loop yields what `DecodeOutputList` describes |
| ReadFrom.ReadTxData | cos/bc/transaction.go:184-217 | `TxData.readFrom` into a fresh transaction yields what `DecodeTxData` describes |
| ReadFrom.Unmarshal | cos/bc/transaction.go:163 | decoding a byte slice with a fresh reader yields `Decode` of the slice |
| RoundTrip.NormalizeIsInvisible | cos/bc/transaction.go:448-506 | normalizing a transaction changes nothing the encoder writes, under any flags |
| RoundTrip.NormalizeFixesVersionOne | cos/bc/transaction.go:498-506 | a transaction with serflags 0x07 whose outputs all have asset version 1 is its own normal form |
| RoundTrip.NewTxOutputRoundTrip | cos/bc/transaction.go:114-127 | an output built by `NewTxOutput` whose fields and envelope are within the caps (`OutputWithinCaps`) reads back as itself, followed by anything |
| RoundTrip.EmptyTxWireForm | cos/bc/transaction.go:441-465 | the empty version-1 transaction is written as 07 01 00 00 00 00 00, and those bytes decode back to it |
| RoundTrip.OutpointRoundTrip | cos/bc/transaction.go:283-287 | reading a written outpoint yields it and leaves what followed |
| RoundTrip.AssetAmountRoundTrip | cos/bc/transaction.go:530-539 | reading a written asset amount yields it and leaves what followed |
| RoundTrip.InputRoundTrip | cos/bc/transaction.go:220-241 | reading an input written with every flag yields the input, when it is within the caps |
| RoundTrip.CommitmentBodyRoundTrip | cos/bc/transaction.go:271-279 | parsing the content of a version-1 envelope yields the commitment that was written, whatever bytes follow it inside the envelope |
| RoundTrip.OtherVersionEnvelopeSkipped | cos/bc/transaction.go:263-270 | for an asset version other than 1, any envelope within its cap is consumed without error, and the commitment is left as it was |
| RoundTrip.OtherVersionEnvelopeEmpty | cos/bc/transaction.go:498-506 | for an asset version other than 1 the encoder writes an empty envelope |
| RoundTrip.CommitmentRoundTrip | cos/bc/transaction.go:263-280 | reading a written commitment envelope into a fresh output yields the normalized commitment |
| RoundTrip.OutputRoundTrip | cos/bc/transaction.go:244-261 | reading a written output yields the normalized output and leaves what followed |
| RoundTrip.InputsRoundTrip | cos/bc/transaction.go:195-202 | the input loop run over n written inputs returns exactly those inputs, appended to what it already held |
| RoundTrip.OutputsRoundTrip | cos/bc/transaction.go:204-211 | the output loop run over n written outputs returns them normalized, appended to what it already held |
| RoundTrip.InputListRoundTrip | cos/bc/transaction.go:195-202 | a written count followed by the written inputs reads back as the input list |
| RoundTrip.OutputListRoundTrip | cos/bc/transaction.go:204-211 | a written count followed by the written outputs reads back as the normalized output list |
| RoundTrip.TxDataRoundTrip | cos/bc/transaction.go:441-465 | decoding the `WriteTo` bytes of a transaction within the caps, followed by anything, yields the normalized transaction |
| RoundTrip.TxDataRoundTripExact | cos/bc/transaction.go:184-217 | when serflags is 0x07 and every output has asset version 1, the decode yields the transaction itself |
| RoundTrip.DecodedBodyFits | cos/bc/transaction.go:271-279 | a commitment parsed from an envelope, written again, takes no more bytes than the envelope held (the reader also accepts longer, non-minimal varints) |
| RoundTrip.DecodedOutputFits | cos/bc/transaction.go:244-280 | every output the decoder yields is within the caps, its version-1 commitment body included, and is its own normal form |
| RoundTrip.DecodedInputsFit | cos/bc/transaction.go:195-202 | the input loop yields only inputs within the caps |
| RoundTrip.DecodedOutputsFit | cos/bc/transaction.go:204-211 | the output loop yields only outputs within the caps and in normal form |
| RoundTrip.DecodedFits | cos/bc/transaction.go:184-217 | whatever bytes it comes from, a decoded transaction is within every cap the round trip needs and is its own normal form |
| RoundTrip.DecodedIsStable | cos/bc/transaction.go:184-217 | the transaction decoded from any bytes, written again and followed by anything, reads back as itself |
| RoundTrip.TenthByteOverflows | cos/bc/transaction.go:192-193 | a varint whose first nine bytes all carry the continuation bit and whose tenth byte is above 1 is refused as an overflow, whatever follows |
| RoundTrip.StuckAfterFlags | cos/bc/transaction.go:184-217 | once the version varint after a 0x07 flags byte fails, the whole decode fails with that error |
| RoundTrip.VersionOverflowRefused | cos/bc/transaction.go:184-193 | 07, nine 0x80 bytes and a byte above 1, followed by anything, is refused as a varint overflow |
| RoundTrip.UnsupportedFlagsRefused | cos/bc/transaction.go:185-190 | a present first byte other than 0x07 is refused as unsupported serflags, whatever follows |
| RoundTrip.DecodedStartsWithRequiredFlags | cos/bc/transaction.go:185-190 | every byte string that decodes starts with 0x07 |
| RoundTrip.HashRenderingRefused | cos/bc/transaction.go:292-294 | the serflags-0 rendering hashed for the transaction id never decodes |
| RoundTrip.EmptyIsTruncated | cos/bc/transaction.go:185-216 | an empty byte string is refused as truncated: the missing flags byte sticks, and the final metadata read reports it |
| Hashing.TxHash | cos/bc/transaction.go:292-298 | the SHA3 digest of the serflags-0 rendering; a definition, whose properties the next three lemmas state |
| Hashing.HashDependsOnlyOnHashRendering | cos/bc/transaction.go:292-298 | transactions that agree on version, time bounds, the serflags-0 rendering of every input and output, and the fast digest of their metadata have the same hash; serflags, signature scripts, spent amounts and previous scripts play no part |
| Hashing.SigningKeepsHash | cos/bc/transaction.go:478-484 | replacing every input's signature script leaves the transaction hash unchanged |
| Hashing.HashSurvivesRoundTrip | cos/bc/transaction.go:292-298 | a transaction read back from its wire form has the hash it had when it was written |
| Hashing.WitnessHashOf | cos/bc/transaction.go:303-319 | SHA3 of the transaction hash followed by SHA3 of the signature data; a definition, which the method `Hashing.WitnessHash` computes and `Hashing.WitnessHashDependsOnlyOn` characterises |
| Hashing.WitnessHash | cos/bc/transaction.go:303-319 | the loop computes SHA3(hash ++ SHA3(uvarint(input count) ++ the SHA3 digest of each signature script in order)) |
| Hashing.SigScriptDigestAt | cos/bc/transaction.go:310-313 | the i-th 32-byte block of the signature data is the digest of the i-th signature script |
| Hashing.WitnessDataLayout | cos/bc/transaction.go:305-313 | the signature data is the varint input count followed by exactly 32 bytes per input, the digest of that input's signature script |
| Hashing.WitnessHashDependsOnlyOn | cos/bc/transaction.go:303-319 | the witness hash depends only on the transaction hash, the input count and the digests of the signature scripts |
| Hashing.InputCountFitsNineBytes | cos/bc/transaction.go:306-308 | the nine-byte buffer holds the varint of any slice length below 2^63 |
| Text.MarshalText | cos/bc/transaction.go:432-438 | the text has two characters per wire byte, all lowercase hexadecimal digits |
| Text.UnmarshalTxData | cos/bc/transaction.go:157-164 | text is accepted only when it has even length, and what it yields carries serflags 0x07 |
| Text.TextRoundTrip | cos/bc/transaction.go:157-164 | unmarshalling the marshalled text of a transaction within the caps yields the normalized transaction |
| Text.MalformedTextRefused | cos/bc/transaction.go:157-162 | text of odd length, or text with a non-hexadecimal character, is refused before anything is decoded |
| Text.ReadInto | cos/bc/transaction.go:195-216 | decoding into a receiver appends the decoded inputs and outputs to the ones it holds, and overwrites every other field |
| Text.Tx.NewTx | cos/bc/transaction.go:53-58 | the new record holds the data and its hash, and is not marked stored |
| Text.Tx.UnmarshalText | cos/bc/transaction.go:41-50 | on success the data is the decoded text (read into the receiver) and the hash is the hash of that data; on failure the error is the decoder's and the hash is untouched; text that is not hexadecimal leaves the data untouched too, so a hash that was current stays current |
| SigHash.BaseType | cos/bc/transaction.go:396 | the base hash type is below 0x20 (the low five bits) |
| SigHash.InputsHash | cos/bc/transaction.go:346-360 | SHA3 of the varint input count and each input's serflags-0 rendering; a definition, which `SigHash.SigHasher.GetInputsHash` computes and memoizes |
| SigHash.AllOutputsHash | cos/bc/transaction.go:362-375 | SHA3 of the varint output count and each output's serflags-0 rendering; a definition, which `SigHash.SigHasher.GetAllOutputsHash` computes and memoizes |
| SigHash.OutputsHashFor | cos/bc/transaction.go:394-412 | the outputs digest a hash type signs: all outputs for ALL, zero for NONE, the output at the input's index (or zero) for SINGLE; a definition, characterised by `SigHash.NoneIgnoresOutputs`, `SigHash.SingleCommitsToOneOutput` and `SigHash.AllCommitsToRenderedOutputs` |
| SigHash.SigHashOf | cos/bc/transaction.go:377-429 | SHA3 of the signed fields followed by the hash type byte; a definition, which `SigHash.SigHasher.Hash` computes and the `SigHash` lemmas characterise |
| SigHash.SpentOutputCommitment | cos/bc/transaction.go:385-393 | the commitment to the spent output is empty exactly for an issuance input |
| SigHash.SigHasher.constructor | cos/bc/transaction.go:333-335 | a new hasher has nothing memoized |
| SigHash.SigHasher.GetInputsHash | cos/bc/transaction.go:346-360 | returns SHA3 of the varint input count and each input's serflags-0 rendering; the first call fills the memo, later calls leave it unchanged, and the outputs memo is never touched |
| SigHash.SigHasher.GetAllOutputsHash | cos/bc/transaction.go:362-375 | returns SHA3 of the varint output count and each output's serflags-0 rendering; the first call fills the memo, later calls leave it unchanged, and the inputs memo is never touched |
| SigHash.SigHasher.Hash | cos/bc/transaction.go:377-429 | returns the signature hash of the input under the hash type for the transaction the hasher was made with, whatever was memoized before; the inputs memo is filled unless ANYONECANPAY is set, and the outputs memo only for ALL |
| SigHash.HashForSig | cos/bc/transaction.go:323-325 | a fresh hasher used once yields the signature hash |
| SigHash.PreimageEndsWithHashType | cos/bc/transaction.go:415-425 | the preimage is the signed fields followed by the hash type byte |
| SigHash.SpentOutputIsItsCommitment | cos/bc/transaction.go:385-393 | a non-issuance input commits to the output it spends exactly as that output writes its version-1 commitment, and the commitment parses back from those bytes |
| SigHash.AnyOneCanPayIgnoresOtherInputs | cos/bc/transaction.go:378-383 | under ANYONECANPAY the other inputs may change, appear or disappear, and the signed input may move (except under SINGLE), without changing the hash |
| SigHash.NoneIgnoresOutputs | cos/bc/transaction.go:399-400 | under NONE the outputs may change without changing the hash |
| SigHash.SingleCommitsToOneOutput | cos/bc/transaction.go:401-412 | under SINGLE only the output at the signed input's index, if present, affects the hash |
| SigHash.SingleWithoutOutputIsNone | cos/bc/transaction.go:399-404 | SINGLE with no output at the index signs the same fields as NONE with the same ANYONECANPAY bit; only the final hash type byte differs |
| SigHash.AllCommitsToRenderedOutputs | cos/bc/transaction.go:397-398 | under ALL the outputs count only as serflags 0 renders them, reference data through its fast digest |
| SigHash.SigningKeepsSigHash | cos/bc/transaction.go:337-339 | no signature hash depends on any signature script, so signing one input does not change what any input signs |

## Left out

- SHA3-256 and the fast digest are opaque parameters. Their internals, and the `blockchain` varint and byte primitives' own code, are not part of this model: the primitives are specified by their behaviour.
- `TxData.Scan` and `TxData.Value`: database driver glue that only forwards to the decoder and the encoder.
- `core/explorer/explorer.go` is not part of this model. It is query and presentation code over a database and script tooling.
- Writer errors and byte counts (`errors.NewWriter`, `Written`, `Err`) are not modelled. Writes go to buffers and hashes that cannot fail.
- SigHash.SigHasher: the transaction is captured by value. Go holds a `*TxData`, so a caller that changes the transaction between two calls gets digests memoized from the old one; the model cannot express that staleness. Signing inputs between calls is harmless, as `SigHash.SigningKeepsSigHash` shows: no signature hash depends on any signature script.
- Concurrent use of a `SigHasher` is not modelled. The memo check is a bare nil test, and the model is single-threaded.
- Text.Tx.UnmarshalText: when the text is hexadecimal but does not decode, the receiver's data is left unspecified. Go leaves it partly overwritten by the fields read before the error. Text that is not hexadecimal leaves the data and the hash untouched, and the contract says so.
- `TxData.UnmarshalText` reads through a plain `bytes.Reader`, and the commitment envelope through a `bytes.Buffer`; neither is sticky. The model uses the sticky reader everywhere. This differs after a varint error: Go ignores the error the varint read returns and goes on from the next byte with the partial value. The input 07, nine 0x80 bytes, 02, then five 00 bytes shows it: the model refuses it as a varint overflow (`RoundTrip.VersionOverflowRefused`), while Go, by its text, would go on reading the five zero bytes as the remaining fields and decode a transaction.
- Wire.TakeUvarint: on a varint error the model yields 0 where Go yields the bits read so far. Behind a sticky reader the value is never used, because the next length-prefixed read reports the error; it matters only behind the plain readers of the previous line, and only for a varint overflow. A truncated varint leaves nothing to read, so every later read fails there as well.
- Wire.TakeFull: on a short read the model yields zero bytes where Go keeps the bytes it managed to read. No caller looks at them.
- `scriptMaxByteLength` and `commitmentMaxByteLength` are declared outside `transaction.go`. Their values here (10000 and 1000000) are placeholders. Every round-trip lemma states its own requirement against the caps (`InputWithinCaps`, `OutputWithinCaps`, `WithinCaps`: each field and each commitment envelope within its cap) rather than relying on the particular values.
- `io.EOF` and `io.ErrUnexpectedEOF` are both reported as `Truncated`. The text of the unsupported-serflags error is reduced to the flags byte.
- Hex decoding refuses odd-length text and non-hexadecimal characters as one `InvalidHexText` error. Go distinguishes `ErrLength` from `InvalidByteError`.
- `SigHashType` is taken to be a byte with ALL = 1, NONE = 2, SINGLE = 3, ANYONECANPAY = 0x80 and base-type mask 0x1f; these constants are declared outside `transaction.go`. `SigHasher.Hash` requires an index within the inputs and a base type in {ALL, NONE, SINGLE}, because Go panics otherwise.
- Hashing.WitnessHash: requires nothing of the input count. The nine-byte buffer bound is proved separately (InputCountFitsNineBytes) for the slice lengths Go allows.
