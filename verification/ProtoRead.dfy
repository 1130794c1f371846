/** Reading proto3 messages, as far as upload chunks and envelopes need it: numbers and byte strings, in
    any order, the last of a field counting, an absent field at its default. */
module ProtoRead {
  import opened Prelude
  import opened Framing
  import opened ProtoWire

  /** A base-128 number off the front, and what is behind it. */
  function ReadVarint(s: seq<byte>): (r: Option<(nat, seq<byte>)>)
    ensures r.Some? ==> |r.value.1| < |s|
  {
    if s == [] then None
    else if s[0] < 128 then Some((s[0], s[1..]))
    else
      match ReadVarint(s[1..])
      case None => None
      case Some((n, rest)) => var low: int := s[0]; Some((low - 128 + 128 * n, rest))
  }

  lemma {:induction false} VarintReads(n: nat, rest: seq<byte>)
    ensures ReadVarint(Varint(n) + rest) == Some((n, rest))
  {
    var s := Varint(n) + rest;
    if n < 128 {
      assert s[1..] == rest;
    } else {
      VarintReads(n / 128, rest);
      assert s == [128 + n % 128] + (Varint(n / 128) + rest);
      assert s[1..] == Varint(n / 128) + rest;
    }
  }

  datatype Field = Num(no: nat, value: nat) | Bytes(no: nat, data: seq<byte>)

  /** The fields of a message, in the order they come. */
  function Fields(s: seq<byte>): Option<seq<Field>>
    decreases |s|
  {
    if s == [] then Some([])
    else
      match ReadVarint(s)
      case None => None
      case Some((tag, rest)) =>
        if tag % 8 == 0 then NumBehind(tag / 8, rest)
        else if tag % 8 == 2 then BytesBehind(tag / 8, rest)
        else None
  }

  function NumBehind(no: nat, s: seq<byte>): Option<seq<Field>>
    decreases |s|
  {
    match ReadVarint(s)
    case None => None
    case Some((value, rest)) => Prepended([Num(no, value)], Fields(rest))
  }

  function BytesBehind(no: nat, s: seq<byte>): Option<seq<Field>>
    decreases |s|
  {
    match ReadVarint(s)
    case None => None
    case Some((n, rest)) =>
      if n > |rest| then None else Prepended([Bytes(no, rest[..n])], Fields(rest[n..]))
  }

  function Prepended(fields: seq<Field>, rest: Option<seq<Field>>): Option<seq<Field>> {
    if rest.Some? then Some(fields + rest.value) else None
  }

  lemma TagReads(no: nat, wireType: nat, rest: seq<byte>)
    requires wireType < 8
    ensures Tag(no, wireType) != []
    ensures ReadVarint(Tag(no, wireType) + rest) == Some((no * 8 + wireType, rest))
    ensures (no * 8 + wireType) % 8 == wireType && (no * 8 + wireType) / 8 == no
  {
    VarintReads(no * 8 + wireType, rest);
  }

  /** A field as it is written: nothing at its default value. */
  function Write(f: Field): seq<byte> {
    match f
    case Num(no, value) => UintField(no, value)
    case Bytes(no, data) => BytesField(no, data)
  }

  function WriteAll(fields: seq<Field>): seq<byte> {
    if fields == [] then [] else Write(fields[0]) + WriteAll(fields[1..])
  }

  predicate IsDefault(f: Field) { if f.Num? then f.value == 0 else f.data == [] }

  /** The fields that are written. */
  function Written(fields: seq<Field>): seq<Field> {
    if fields == [] then [] else (if IsDefault(fields[0]) then [] else [fields[0]]) + Written(fields[1..])
  }

  lemma Parts(a: seq<byte>, b: seq<byte>, c: seq<byte>, rest: seq<byte>)
    ensures (a + b + c) + rest == a + (b + (c + rest))
  {}

  lemma NumReads(no: nat, value: nat, rest: seq<byte>)
    requires value != 0
    ensures Fields(UintField(no, value) + rest) == Prepended([Num(no, value)], Fields(rest))
  {
    var behind := Varint(value) + rest;
    Reassociate(Tag(no, 0), Varint(value), rest);
    TagReads(no, 0, behind);
    VarintReads(value, rest);
    assert Fields(Tag(no, 0) + behind) == NumBehind(no, behind);
  }

  lemma BytesReads(no: nat, data: seq<byte>, rest: seq<byte>)
    requires data != []
    ensures Fields(BytesField(no, data) + rest) == Prepended([Bytes(no, data)], Fields(rest))
  {
    var behind := Varint(|data|) + (data + rest);
    Parts(Tag(no, 2), Varint(|data|), data, rest);
    TagReads(no, 2, behind);
    DataReads(no, data, rest);
    assert Fields(Tag(no, 2) + behind) == BytesBehind(no, behind);
  }

  lemma DataReads(no: nat, data: seq<byte>, rest: seq<byte>)
    ensures BytesBehind(no, Varint(|data|) + (data + rest)) == Prepended([Bytes(no, data)], Fields(rest))
  {
    VarintReads(|data|, data + rest);
    assert (data + rest)[..|data|] == data && (data + rest)[|data|..] == rest;
  }

  /** What is written is read back, field by field. */
  lemma {:induction false} FieldsReadBack(fields: seq<Field>)
    ensures Fields(WriteAll(fields)) == Some(Written(fields))
  {
    if fields != [] {
      var (f, rest) := (fields[0], WriteAll(fields[1..]));
      FieldsReadBack(fields[1..]);
      if IsDefault(f) {
        assert [] + rest == rest && [] + Written(fields[1..]) == Written(fields[1..]);
      } else if f.Num? {
        NumReads(f.no, f.value, rest);
      } else {
        BytesReads(f.no, f.data, rest);
      }
    }
  }

  /** The number and the bytes of a field: the last one of its kind, or the default. */
  function NumOf(fields: seq<Field>, no: nat): nat {
    if fields == [] then 0
    else if Last(fields).Num? && Last(fields).no == no then Last(fields).value
    else NumOf(Front(fields), no)
  }

  function BytesOf(fields: seq<Field>, no: nat): seq<byte> {
    if fields == [] then []
    else if Last(fields).Bytes? && Last(fields).no == no then Last(fields).data
    else BytesOf(Front(fields), no)
  }

  ghost predicate DistinctNumbers(fields: seq<Field>) {
    forall i, j :: 0 <= i < j < |fields| ==> fields[i].no != fields[j].no
  }

  lemma {:induction false} WrittenSnoc(fields: seq<Field>)
    requires fields != []
    ensures Written(fields) == Written(Front(fields)) + (if IsDefault(Last(fields)) then [] else [Last(fields)])
  {
    if |fields| > 1 {
      WrittenSnoc(fields[1..]);
      assert Front(fields[1..]) == Front(fields)[1..];
    } else {
      assert Front(fields) == [] && fields[1..] == [];
    }
  }

  /** How the last of the fields bears on a field number. */
  lemma LastField(fields: seq<Field>, no: nat)
    requires fields != []
    ensures var (f, before) := (Last(fields), Written(Front(fields)));
            && NumOf(Written(fields), no) ==
               (if f.Num? && f.no == no && f.value != 0 then f.value else NumOf(before, no))
            && BytesOf(Written(fields), no) ==
               (if f.Bytes? && f.no == no && f.data != [] then f.data else BytesOf(before, no))
  {
    WrittenSnoc(fields);
    if IsDefault(Last(fields)) {
      assert Written(Front(fields)) + [] == Written(Front(fields));
    } else {
      assert Front(Written(Front(fields)) + [Last(fields)]) == Written(Front(fields));
    }
  }

  lemma {:induction false} AbsentIsDefault(fields: seq<Field>, no: nat)
    requires forall i :: 0 <= i < |fields| ==> fields[i].no != no
    ensures NumOf(Written(fields), no) == 0 && BytesOf(Written(fields), no) == []
  {
    if fields != [] {
      AbsentIsDefault(Front(fields), no);
      LastField(fields, no);
    }
  }

  ghost predicate Found(written: seq<Field>, f: Field) {
    match f
    case Num(no, value) => NumOf(written, no) == value
    case Bytes(no, data) => BytesOf(written, no) == data
  }

  /** Every field of a message with distinct field numbers is found again, the default ones too. */
  lemma {:induction false} FieldFound(fields: seq<Field>, k: nat)
    requires DistinctNumbers(fields) && k < |fields|
    ensures Found(Written(fields), fields[k])
  {
    LastField(fields, fields[k].no);
    if k < |fields| - 1 {
      FieldFound(Front(fields), k);
    } else {
      AbsentIsDefault(Front(fields), fields[k].no);
    }
  }

  function ReadChunk(s: seq<byte>): Option<UploadChunk> {
    match Fields(s)
    case None => None
    case Some(f) => Some(UploadChunk(BytesOf(f, 1), NumOf(f, 2), BytesOf(f, 3), NumOf(f, 4) != 0, BytesOf(f, 5)))
  }

  function ChunkFields(c: UploadChunk): seq<Field> {
    [Bytes(1, c.fileId), Num(2, c.index), Bytes(3, c.data), Num(4, if c.isLast then 1 else 0), Bytes(5, c.checksum)]
  }

  lemma {:induction false} WriteSnoc(fields: seq<Field>)
    requires fields != []
    ensures WriteAll(fields) == WriteAll(Front(fields)) + Write(Last(fields))
  {
    if |fields| == 1 {
      assert Front(fields) == [] && fields[1..] == [];
      assert Write(fields[0]) + [] == Write(fields[0]) && [] + Write(fields[0]) == Write(fields[0]);
    } else {
      WriteSnoc(fields[1..]);
      assert Front(fields[1..]) == Front(fields)[1..];
      Reassociate(Write(fields[0]), WriteAll(Front(fields)[1..]), Write(Last(fields)));
    }
  }

  lemma WriteFive(fields: seq<Field>)
    requires |fields| == 5
    ensures WriteAll(fields) ==
            Write(fields[0]) + Write(fields[1]) + Write(fields[2]) + Write(fields[3]) + Write(fields[4])
  {
    WriteFour(Front(fields));
    WriteSnoc(fields);
  }

  lemma WriteFour(fields: seq<Field>)
    requires |fields| == 4
    ensures WriteAll(fields) == Write(fields[0]) + Write(fields[1]) + Write(fields[2]) + Write(fields[3])
  {
    var (a, b, c, d) := (Write(fields[0]), Write(fields[1]), Write(fields[2]), Write(fields[3]));
    assert WriteAll(fields[1..][1..][1..][1..]) == [];
    assert WriteAll(fields[1..][1..][1..]) == d + [] && d + [] == d;
    assert WriteAll(fields[1..][1..]) == c + d;
    assert WriteAll(fields[1..]) == b + (c + d);
    assert a + (b + (c + d)) == a + b + c + d;
  }

  /** An upload chunk comes back from its bytes, whatever it holds. */
  lemma ChunkReadsBack(c: UploadChunk)
    ensures ReadChunk(ChunkBytes(GROTTO, c)) == Some(c)
  {
    var fields := ChunkFields(c);
    WriteFive(fields);
    FieldsReadBack(fields);
    assert ChunkBytes(GROTTO, c) == WriteAll(fields);
    FieldFound(fields, 0);
    FieldFound(fields, 1);
    FieldFound(fields, 2);
    FieldFound(fields, 3);
    FieldFound(fields, 4);
  }

  datatype Envelope = Envelope(seqNo: nat, timestamp: nat, kind: nat, payload: seq<byte>)

  function ReadEnvelope(s: seq<byte>): Option<Envelope> {
    match Fields(s)
    case None => None
    case Some(f) => Some(Envelope(NumOf(f, 1), NumOf(f, 2), NumOf(f, 3), BytesOf(f, 4)))
  }

  lemma EnvelopeReadsBack(e: Envelope)
    ensures ReadEnvelope(EnvelopeBytes(GROTTO, e.seqNo, e.timestamp, e.kind, e.payload)) == Some(e)
  {
    var fields := [Num(1, e.seqNo), Num(2, e.timestamp), Num(3, e.kind), Bytes(4, e.payload)];
    WriteFour(fields);
    FieldsReadBack(fields);
    assert EnvelopeBytes(GROTTO, e.seqNo, e.timestamp, e.kind, e.payload) == WriteAll(fields);
    FieldFound(fields, 0);
    FieldFound(fields, 1);
    FieldFound(fields, 2);
    FieldFound(fields, 3);
  }

  /** The chunk inside the envelope that an upload hands to the transport is the chunk that was cut. */
  lemma SentChunkReadsBack(c: UploadChunk, timestamp: nat)
    ensures var wire := EnvelopeBytes(GROTTO, 0, timestamp, MT_FILE_UPLOAD, ChunkBytes(GROTTO, c));
            && ReadEnvelope(wire).Some? && ReadEnvelope(wire).value.kind == 80
            && ReadChunk(ReadEnvelope(wire).value.payload) == Some(c)
  {
    EnvelopeReadsBack(Envelope(0, timestamp, MT_FILE_UPLOAD, ChunkBytes(GROTTO, c)));
    ChunkReadsBack(c);
  }
}
