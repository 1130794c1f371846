/** Serialized form of an upload chunk and of the envelope around it (proto3 encoding), for the
    bound that keeps every chunk under the frame limit. */
module ProtoWire {
  import opened Prelude
  import opened Framing

  const TWO64 := 0x1_0000_0000_0000_0000

  /** Base-128 encoding, low group first. */
  function Varint(n: nat): seq<byte> {
    if n < 128 then [n] else [128 + n % 128] + Varint(n / 128)
  }

  function Tag(field: nat, wireType: nat): seq<byte> { Varint(field * 8 + wireType) }

  /** Default values are not serialized. */
  function UintField(field: nat, value: nat): seq<byte> {
    if value == 0 then [] else Tag(field, 0) + Varint(value)
  }

  function BytesField(field: nat, value: seq<byte>): seq<byte> {
    if value == [] then [] else Tag(field, 2) + Varint(|value|) + value
  }

  datatype UploadChunk = UploadChunk(fileId: seq<byte>, index: nat, data: seq<byte>, isLast: bool, checksum: seq<byte>)

  /** Field numbers of FileUploadChunk and Envelope. */
  datatype Numbering = Numbering(
    fileId: nat, index: nat, data: nat, isLast: nat, checksum: nat,
    seqNo: nat, timestamp: nat, kind: nat, payload: nat)

  const GROTTO := Numbering(1, 2, 3, 4, 5, 1, 2, 3, 4)

  /** Protobuf allows field numbers up to 2^29 - 1. */
  ghost predicate Legal(n: Numbering) {
    var max := 0x2000_0000;
    && n.fileId < max && n.index < max && n.data < max && n.isLast < max && n.checksum < max
    && n.seqNo < max && n.timestamp < max && n.kind < max && n.payload < max
  }

  function ChunkBytes(n: Numbering, c: UploadChunk): seq<byte> {
    BytesField(n.fileId, c.fileId) + UintField(n.index, c.index) + BytesField(n.data, c.data)
    + UintField(n.isLast, if c.isLast then 1 else 0) + BytesField(n.checksum, c.checksum)
  }

  function EnvelopeBytes(n: Numbering, seqNo: nat, timestamp: nat, kind: nat, payload: seq<byte>): seq<byte> {
    UintField(n.seqNo, seqNo) + UintField(n.timestamp, timestamp) + UintField(n.kind, kind)
    + BytesField(n.payload, payload)
  }

  const MT_FILE_UPLOAD := 80

  function Power128(k: nat): nat { if k == 0 then 1 else 128 * Power128(k - 1) }

  lemma {:induction false} VarintSize(n: nat, k: nat)
    requires 0 < k && n < Power128(k)
    ensures 1 <= |Varint(n)| <= k
    decreases k
  {
    if n >= 128 {
      assert n < 128 * Power128(k - 1);
      assert k > 1;
      VarintSize(n / 128, k - 1);
    }
  }

  lemma TagSize(field: nat, wireType: nat)
    requires field < 0x2000_0000 && wireType < 8
    ensures |Tag(field, wireType)| <= 5
  {
    Powers();
    VarintSize(field * 8 + wireType, 5);
  }

  lemma Powers()
    ensures Power128(1) == 0x80 && Power128(3) == 0x20_0000 && Power128(5) == 0x8_0000_0000
    ensures Power128(10) > TWO64
  {
    assert Power128(0) == 1 && Power128(1) == 128 && Power128(2) == 0x4000 && Power128(3) == 0x20_0000;
    assert Power128(4) == 0x1000_0000 && Power128(5) == 0x8_0000_0000 && Power128(6) == 0x400_0000_0000;
    assert Power128(7) == 0x2_0000_0000_0000 && Power128(8) == 0x100_0000_0000_0000;
    assert Power128(9) == 0x8000_0000_0000_0000 && Power128(10) == 0x40_0000_0000_0000_0000;
  }

  lemma UintFieldSize(field: nat, value: nat, k: nat)
    requires field < 0x2000_0000 && 0 < k && value < Power128(k)
    ensures |UintField(field, value)| <= 5 + k
  {
    TagSize(field, 0);
    VarintSize(value, k);
  }

  lemma BytesFieldSize(field: nat, value: seq<byte>)
    requires field < 0x2000_0000 && |value| < Power128(3)
    ensures |BytesField(field, value)| <= 8 + |value|
    ensures |value| < 128 ==> |BytesField(field, value)| <= 6 + |value|
  {
    Powers();
    TagSize(field, 2);
    VarintSize(|value|, 3);
    if |value| < 128 {
      VarintSize(|value|, 1);
    }
  }

  const MAX_DATA := 60 * 1024

  /** Whatever the field numbers, index, flags, sequence number and time: the envelope around a
      chunk of at most 60 KiB with a 32-character id and a 32-byte checksum fits in a frame. */
  lemma EnvelopeFits(n: Numbering, c: UploadChunk, seqNo: nat, timestamp: nat)
    requires Legal(n) && c.index < TWO32 && seqNo < TWO64 && timestamp < TWO64
    requires |c.fileId| == 32 && |c.checksum| == 32 && |c.data| <= MAX_DATA
    ensures |EnvelopeBytes(n, seqNo, timestamp, MT_FILE_UPLOAD, ChunkBytes(n, c))| <= 65_536
  {
    Powers();
    BytesFieldSize(n.fileId, c.fileId);
    UintFieldSize(n.index, c.index, 5);
    BytesFieldSize(n.data, c.data);
    UintFieldSize(n.isLast, if c.isLast then 1 else 0, 1);
    BytesFieldSize(n.checksum, c.checksum);
    var payload := ChunkBytes(n, c);
    assert |payload| <= 38 + 10 + 8 + MAX_DATA + 6 + 38;
    UintFieldSize(n.seqNo, seqNo, 10);
    UintFieldSize(n.timestamp, timestamp, 10);
    UintFieldSize(n.kind, MT_FILE_UPLOAD, 1);
    BytesFieldSize(n.payload, payload);
  }

  // ----- file ids -----

  function HexDigit(d: nat): char
    requires d < 16
  {
    "0123456789abcdef"[d]
  }

  /** Hexadecimal, zero-filled to a width. */
  function Hex(n: nat, width: nat): string {
    if width == 0 then "" else Hex(n / 16, width - 1) + [HexDigit(n % 16)]
  }

  function Power16(w: nat): nat { if w == 0 then 1 else 16 * Power16(w - 1) }

  lemma {:induction false} HexLength(n: nat, width: nat)
    ensures |Hex(n, width)| == width
    decreases width
  {
    if width > 0 {
      HexLength(n / 16, width - 1);
    }
  }

  lemma {:induction false} HexFaithful(n: nat, m: nat, width: nat)
    requires n < Power16(width) && m < Power16(width)
    ensures Hex(n, width) == Hex(m, width) <==> n == m
    decreases width
  {
    if width > 0 {
      HexFaithful(n / 16, m / 16, width - 1);
      HexLength(n / 16, width - 1);
      HexLength(m / 16, width - 1);
      var (a, b) := (Hex(n, width), Hex(m, width));
      assert a[..width - 1] == Hex(n / 16, width - 1) && b[..width - 1] == Hex(m / 16, width - 1);
      assert a[width - 1] == HexDigit(n % 16) && b[width - 1] == HexDigit(m % 16);
    }
  }

  /** `generate_random_id`: two 64-bit draws, 16 hexadecimal digits each. */
  function RandomId(a: nat, b: nat): string { Hex(a, 16) + Hex(b, 16) }

  /** Ids are always 32 characters and tell different draws apart. */
  lemma RandomIdFaithful(a: nat, b: nat, c: nat, d: nat)
    requires a < TWO64 && b < TWO64 && c < TWO64 && d < TWO64
    ensures |RandomId(a, b)| == 32
    ensures RandomId(a, b) == RandomId(c, d) <==> a == c && b == d
  {
    Power16Is64();
    HexFaithful(a, c, 16);
    HexFaithful(b, d, 16);
    HexLength(a, 16);
    HexLength(b, 16);
    HexLength(c, 16);
    HexLength(d, 16);
    assert RandomId(a, b)[..16] == Hex(a, 16) && RandomId(a, b)[16..] == Hex(b, 16);
    assert RandomId(c, d)[..16] == Hex(c, 16) && RandomId(c, d)[16..] == Hex(d, 16);
  }

  lemma Power16Is64()
    ensures Power16(16) == TWO64
  {
    assert Power16(0) == 1 && Power16(1) == 0x10 && Power16(2) == 0x100 && Power16(3) == 0x1000;
    assert Power16(4) == 0x1_0000 && Power16(5) == 0x10_0000 && Power16(6) == 0x100_0000 && Power16(7) == 0x1000_0000;
    assert Power16(8) == TWO32 && Power16(9) == 0x10 * TWO32 && Power16(10) == 0x100 * TWO32;
    assert Power16(11) == 0x1000 * TWO32 && Power16(12) == 0x1_0000 * TWO32 && Power16(13) == 0x10_0000 * TWO32;
    assert Power16(14) == 0x100_0000 * TWO32 && Power16(15) == 0x1000_0000 * TWO32;
  }
}
