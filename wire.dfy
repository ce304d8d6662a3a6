/**
 * The byte-stream primitives the transaction codec is built on: fixed-width
 * integers, 32-byte hashes, the unsigned LEB128 varint of Go's
 * encoding/binary, length-prefixed byte fields with a length cap, and a
 * reader whose first error is sticky. These primitives live outside the
 * transaction code; they are specified here only as far as the codec
 * relies on them.
 */
module Wire {

  type byte = x: int | 0 <= x < 0x100
  type uint32 = x: int | 0 <= x < 0x1_0000_0000
  type uint64 = x: int | 0 <= x < 0x1_0000_0000_0000_0000

  const TwoTo32: nat := 0x1_0000_0000
  const TwoTo64: nat := 0x1_0000_0000_0000_0000

  /** A 32-byte digest or identifier. */
  type Hash = s: seq<byte> | |s| == 32
    witness [0, 0, 0, 0, 0, 0, 0, 0, 0, 0, 0, 0, 0, 0, 0, 0,
             0, 0, 0, 0, 0, 0, 0, 0, 0, 0, 0, 0, 0, 0, 0, 0]

  /** The all-zero hash, the sentinel for "no commitment". */
  const ZeroHash: Hash :=
    [0, 0, 0, 0, 0, 0, 0, 0, 0, 0, 0, 0, 0, 0, 0, 0,
     0, 0, 0, 0, 0, 0, 0, 0, 0, 0, 0, 0, 0, 0, 0, 0]

  /** The two digest functions the codec uses, taken as parameters so that
      every property below holds whatever they compute: SHA3-256 and the
      fast digest that stands in for pruned fields. */
  datatype Hashers = Hashers(sha3: seq<byte> -> Hash, fast: seq<byte> -> Hash)

  datatype DecodeError =
    | Truncated                          // io.EOF or io.ErrUnexpectedEOF
    | VarintOverflow                     // a uvarint longer than 64 bits
    | UnsupportedFlags(flags: byte)      // serflags other than 0x07
    | FieldTooLarge(length: nat, max: nat)
    | InvalidHexText

  datatype Result<+T> = Ok(value: T) | Err(error: DecodeError)

  /** Go's conversion uint32(x): the low 32 bits. A value that fits is
      kept, which the first branch states without modular arithmetic. */
  function Low32(x: uint64): (r: uint32)
    ensures x < TwoTo32 ==> r == x
  {
    if x < TwoTo32 then x else x % TwoTo32
  }

  // ---------------------------------------------------------------------
  // Writing

  /** The unsigned varint that Go's binary.PutUvarint writes: seven bits per
      byte, least significant group first, the high bit set on every byte
      except the last. */
  function PutUvarint(x: nat): (r: seq<byte>)
    ensures 1 <= |r|
    decreases x
  {
    if x < 0x80 then [x] else [x % 0x80 + 0x80] + PutUvarint(x / 0x80)
  }

  /** 128^k. */
  function Pow128(k: nat): (r: nat)
    ensures r >= 1
  {
    if k == 0 then 1 else 0x80 * Pow128(k - 1)
  }

  lemma {:induction false} UvarintLengthBound(x: nat, k: nat)
    requires 1 <= k && x < Pow128(k)
    ensures |PutUvarint(x)| <= k
    decreases k
  {
    if x >= 0x80 {
      UvarintLengthBound(x / 0x80, k - 1);
    }
  }

  /** A 64-bit value takes at most ten bytes. */
  lemma UvarintFitsTenBytes(x: uint64)
    ensures |PutUvarint(x)| <= 10
  {
    assert Pow128(10) >= TwoTo64 by {
      assert Pow128(2) == 0x4000;
      assert Pow128(4) == 0x1000_0000;
      assert Pow128(6) == 0x400_0000_0000;
      assert Pow128(8) == 0x100_0000_0000_0000;
    }
    UvarintLengthBound(x, 10);
  }

  /** A 32-bit value takes at most five bytes. */
  lemma UvarintFitsFiveBytes(x: uint32)
    ensures |PutUvarint(x)| <= 5
  {
    assert Pow128(5) == 0x8_0000_0000 by {
      assert Pow128(2) == 0x4000;
      assert Pow128(4) == 0x1000_0000;
    }
    UvarintLengthBound(x, 5);
  }

  /** A length-prefixed byte field. */
  function WriteBytes(b: seq<byte>): seq<byte>
  {
    PutUvarint(|b|) + b
  }

  // ---------------------------------------------------------------------
  // Reading

  /** 2^(64 - 7i): the bound on what the bytes of a varint from the i-th one
      on may still contribute; the tenth byte may only be 0 or 1. */
  function Room(i: nat): (r: nat)
    requires i <= 9
    ensures r >= 2
    decreases 9 - i
  {
    if i == 9 then 2 else 0x80 * Room(i + 1)
  }

  lemma RoomAtZero()
    ensures Room(0) == TwoTo64
  {
    assert Room(9) == 2;
    assert Room(8) == 0x100;
    assert Room(7) == 0x8000;
    assert Room(6) == 0x40_0000;
    assert Room(5) == 0x2000_0000;
    assert Room(4) == 0x10_0000_0000;
    assert Room(3) == 0x800_0000_0000;
    assert Room(2) == 0x4_0000_0000_0000;
    assert Room(1) == 0x200_0000_0000_0000;
  }

  datatype Varint = Parsed(value: nat, rest: seq<byte>) | Failed(error: DecodeError)

  /** Go's binary.ReadUvarint on the unread bytes `s`, whose first byte is
      the i-th byte of the varint: a missing byte is a truncation, a tenth
      byte above 1 or an eleventh byte is an overflow. Non-minimal encodings
      (a trailing 0x80 0x00, say) are accepted, as in Go. */
  function UvarintAt(s: seq<byte>, i: nat): (r: Varint)
    requires i <= 9
    ensures r.Parsed? ==> r.value < Room(i) && |r.rest| < |s|
    decreases 9 - i
  {
    if s == [] then Failed(Truncated)
    else if s[0] < 0x80 then
      if i == 9 && s[0] > 1 then Failed(VarintOverflow) else Parsed(s[0], s[1..])
    else if i == 9 then Failed(VarintOverflow)
    else
      match UvarintAt(s[1..], i + 1)
      case Parsed(v, rest) => Parsed(s[0] - 0x80 + 0x80 * v, rest)
      case Failed(e) => Failed(e)
  }

  /** The state of a reader whose errors are sticky: the bytes not yet
      read, or the first error, which every later read reports again. */
  datatype Cursor = Reading(rest: seq<byte>) | Stuck(error: DecodeError)

  function Zeros(n: nat): (r: seq<byte>)
    ensures |r| == n
  {
    seq(n, i => 0)
  }

  /** From cursor c to cursor d at least k bytes were consumed, or d holds
      an error; a failed cursor stays as it is. */
  predicate Advanced(c: Cursor, d: Cursor, k: nat)
  {
    && (c.Stuck? ==> d == c)
    && (d.Reading? ==> c.Reading? && |d.rest| + k <= |c.rest|)
  }

  /** io.ReadFull of n bytes. On failure the bytes are zero here; Go leaves
      whatever it managed to read, which no caller looks at. */
  function TakeFull(c: Cursor, n: nat): (r: (seq<byte>, Cursor))
    ensures |r.0| == n
  {
    match c
    case Stuck(_) => (Zeros(n), c)
    case Reading(s) =>
      if n <= |s| then (s[..n], Reading(s[n..]))
      else (Zeros(n), Stuck(Truncated))
  }

  /** blockchain.ReadUvarint. The caller usually ignores the error; the
      value is then 0 and the error stays in the reader. */
  function TakeUvarint(c: Cursor): (r: (uint64, Cursor))
  {
    match c
    case Stuck(_) => (0, c)
    case Reading(s) =>
      match UvarintAt(s, 0)
      case Parsed(v, rest) => RoomAtZero(); (v, Reading(rest))
      case Failed(e) => (0, Stuck(e))
  }

  /** blockchain.ReadBytes: a varint length, refused above `max`, then that
      many bytes. */
  function TakeBytes(c: Cursor, max: nat): (r: (Result<seq<byte>>, Cursor))
  {
    var (n, c1) := TakeUvarint(c);
    match c1
    case Stuck(e) => (Err(e), c1)
    case Reading(s) =>
      if n > max then (Err(FieldTooLarge(n, max)), c1)
      else if n <= |s| then (Ok(s[..n]), Reading(s[n..]))
      else (Err(Truncated), Stuck(Truncated))
  }

  // ---------------------------------------------------------------------
  // Round trips of the primitives

  lemma {:induction false} UvarintAtRoundTrip(i: nat, x: nat, rest: seq<byte>)
    requires i <= 9 && x < Room(i)
    ensures UvarintAt(PutUvarint(x) + rest, i) == Parsed(x, rest)
    decreases x
  {
    var s := PutUvarint(x) + rest;
    if x >= 0x80 {
      assert s[1..] == PutUvarint(x / 0x80) + rest;
      UvarintAtRoundTrip(i + 1, x / 0x80, rest);
    } else {
      assert s[1..] == rest;
    }
  }

  /** Reading back a written varint yields the value and nothing more. */
  lemma UvarintRoundTrip(x: uint64, rest: seq<byte>)
    ensures TakeUvarint(Reading(PutUvarint(x) + rest)) == (x, Reading(rest))
  {
    RoomAtZero();
    UvarintAtRoundTrip(0, x, rest);
  }

  /** Reading back a written byte field within its cap yields the bytes. */
  lemma BytesRoundTrip(b: seq<byte>, max: nat, rest: seq<byte>)
    requires |b| <= max < TwoTo64
    ensures TakeBytes(Reading(WriteBytes(b) + rest), max) == (Ok(b), Reading(rest))
  {
    assert WriteBytes(b) + rest == PutUvarint(|b|) + (b + rest);
    UvarintRoundTrip(|b|, b + rest);
    assert (b + rest)[..|b|] == b;
    assert (b + rest)[|b|..] == rest;
  }

  /** A written byte field longer than the cap is refused as too large. */
  lemma BytesOverCap(b: seq<byte>, max: nat, rest: seq<byte>)
    requires max < |b| < TwoTo64
    ensures TakeBytes(Reading(WriteBytes(b) + rest), max).0 == Err(FieldTooLarge(|b|, max))
  {
    assert WriteBytes(b) + rest == PutUvarint(|b|) + (b + rest);
    UvarintRoundTrip(|b|, b + rest);
  }

  /** A varint never takes more bytes to write than its value no smaller. */
  lemma {:induction false} UvarintLengthMonotone(x: nat, y: nat)
    requires x <= y
    ensures |PutUvarint(x)| <= |PutUvarint(y)|
    decreases y
  {
    if x >= 0x80 {
      UvarintLengthMonotone(x / 0x80, y / 0x80);
    }
  }

  /** Writing a value read as a varint takes no more bytes than the read
      consumed: the reader also accepts non-minimal encodings, which the
      writer never produces. */
  lemma {:induction false} UvarintAtLength(s: seq<byte>, i: nat)
    requires i <= 9 && UvarintAt(s, i).Parsed?
    ensures |PutUvarint(UvarintAt(s, i).value)| + |UvarintAt(s, i).rest| <= |s|
    decreases 9 - i
  {
    if s[0] >= 0x80 {
      UvarintAtLength(s[1..], i + 1);
      var w := UvarintAt(s[1..], i + 1).value;
      var v := s[0] - 0x80 + 0x80 * w;
      if v >= 0x80 {
        assert v / 0x80 == w;
      }
    }
  }

  lemma TakeUvarintLength(s: seq<byte>)
    requires TakeUvarint(Reading(s)).1.Reading?
    ensures |PutUvarint(TakeUvarint(Reading(s)).0)| + |TakeUvarint(Reading(s)).1.rest| <= |s|
  {
    UvarintAtLength(s, 0);
  }

  /** A byte field that was read is within its cap, and writing it again
      takes no more bytes than the read consumed. */
  lemma TakeBytesLength(s: seq<byte>, max: nat)
    requires TakeBytes(Reading(s), max).0.Ok?
    ensures |TakeBytes(Reading(s), max).0.value| <= max
    ensures |WriteBytes(TakeBytes(Reading(s), max).0.value)| + |TakeBytes(Reading(s), max).1.rest| <= |s|
  {
    TakeUvarintLength(s);
  }

  /** A reader that has failed stays failed with its first error. */
  lemma StuckStaysStuck(e: DecodeError, n: nat, max: nat)
    ensures TakeFull(Stuck(e), n).1 == Stuck(e)
    ensures TakeUvarint(Stuck(e)) == (0, Stuck(e))
    ensures TakeBytes(Stuck(e), max) == (Err(e), Stuck(e))
  {
  }

  // ---------------------------------------------------------------------
  // The sticky reader as an object

  /** A reader over an in-memory byte slice that remembers its first error
      (errors.Reader over bytes.Reader). */
  class Reader {
    var cursor: Cursor

    constructor (data: seq<byte>)
      ensures cursor == Reading(data)
    {
      cursor := Reading(data);
    }

    method ReadFull(n: nat) returns (b: seq<byte>)
      modifies this
      ensures (b, cursor) == TakeFull(old(cursor), n)
    {
      var r := TakeFull(cursor, n);
      b, cursor := r.0, r.1;
    }

    method ReadUvarint() returns (x: uint64)
      modifies this
      ensures (x, cursor) == TakeUvarint(old(cursor))
    {
      var r := TakeUvarint(cursor);
      x, cursor := r.0, r.1;
    }

    method ReadBytes(max: nat) returns (b: Result<seq<byte>>)
      modifies this
      ensures (b, cursor) == TakeBytes(old(cursor), max)
    {
      var r := TakeBytes(cursor, max);
      b, cursor := r.0, r.1;
    }
  }
}
