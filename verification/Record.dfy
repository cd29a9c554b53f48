/** On-disk WAL records: a 24-byte header followed by the payload. */
module Record {
  import opened Common
  import opened Bytes
  import opened Stream

  /** CRC32C is a library routine: any function of the payload will do. */
  type Crc = Buffer -> U32

  const WAL_MAGIC: Buffer := [0x57, 0x4C, 0x4F, 0x47]  // "WLOG"
  const MAX_RECORD_SIZE: nat := 16 * 1024 * 1024
  const RECORD_HEADER_SIZE: nat := 24

  datatype EntryType = PutMachineType | CreateInstanceType | ApplyEventType | DeleteInstanceType
                     | SnapshotType | CheckpointType | NoopType

  datatype WalError =
    | InvalidHeader
    | CorruptedRecord(expected: U32, actual: U32)
    | RecordTooLarge(size: nat)
    | Json

  datatype RecordHeader = RecordHeader(entryType: EntryType, flags: Byte, payloadLen: nat, crc: nat, sequence: nat)

  datatype WalRecord = WalRecord(header: RecordHeader, payload: Buffer)

  function TypeCode(t: EntryType): Byte {
    match t
    case PutMachineType => 1
    case CreateInstanceType => 2
    case ApplyEventType => 3
    case DeleteInstanceType => 4
    case SnapshotType => 5
    case CheckpointType => 6
    case NoopType => 255
  }

  function TypeOfCode(b: Byte): (r: Option<EntryType>)
    ensures r.Some? ==> TypeCode(r.value) == b
    ensures forall t :: TypeCode(t) == b ==> r == Some(t)
  {
    if b == 1 then Some(PutMachineType)
    else if b == 2 then Some(CreateInstanceType)
    else if b == 3 then Some(ApplyEventType)
    else if b == 4 then Some(DeleteInstanceType)
    else if b == 5 then Some(SnapshotType)
    else if b == 6 then Some(CheckpointType)
    else if b == 255 then Some(NoopType)
    else None
  }

  function NewRecord(crc: Crc, t: EntryType, sequence: nat, payload: Buffer): WalRecord {
    WalRecord(RecordHeader(t, 0, |payload| % 0x1_0000_0000, crc(payload), sequence), payload)
  }

  function DiskSize(r: WalRecord): nat {
    RECORD_HEADER_SIZE + |r.payload|
  }

  function Header(h: RecordHeader): (s: Buffer)
    ensures |s| == RECORD_HEADER_SIZE
  {
    WAL_MAGIC + [TypeCode(h.entryType), h.flags, 0, 0]
    + BigEndian(h.payloadLen, 4) + BigEndian(h.crc, 4) + BigEndian(h.sequence, 8)
  }

  function Encode(r: WalRecord): Result<Buffer, WalError> {
    if |r.payload| > MAX_RECORD_SIZE then Err(RecordTooLarge(|r.payload|))
    else Ok(Header(r.header) + r.payload)
  }

  /** The header fields of a buffer that holds at least a header. */
  function PayloadLen(buf: Buffer): nat requires |buf| >= 24 { FromBigEndian(buf[8..12]) }
  function CrcField(buf: Buffer): nat requires |buf| >= 24 { FromBigEndian(buf[12..16]) }
  function Sequence(buf: Buffer): nat requires |buf| >= 24 { FromBigEndian(buf[16..24]) }

  /** What the header alone says, before the payload is looked at. */
  function CheckHeader(buf: Buffer): Option<Step<WalRecord, WalError>>
    requires |buf| >= RECORD_HEADER_SIZE
  {
    if buf[..4] != WAL_MAGIC then
      Some(if buf[..4] == [0, 0, 0, 0] then More else Fail(InvalidHeader, 0))
    else if TypeOfCode(buf[4]).None? then Some(Fail(InvalidHeader, 0))
    else if PayloadLen(buf) > MAX_RECORD_SIZE then Some(Fail(RecordTooLarge(PayloadLen(buf)), 0))
    else None
  }

  /** The record a full buffer holds, or a CRC mismatch, which is reported after the record was consumed. */
  function TakeRecord(crc: Crc, buf: Buffer): Step<WalRecord, WalError>
    requires |buf| >= RECORD_HEADER_SIZE && TypeOfCode(buf[4]).Some?
    requires |buf| >= RECORD_HEADER_SIZE + PayloadLen(buf)
  {
    var total := RECORD_HEADER_SIZE + PayloadLen(buf);
    var payload := buf[RECORD_HEADER_SIZE..total];
    if crc(payload) != CrcField(buf) then
      FromBigEndianBound(buf[12..16]);
      Pow256Values();
      Fail(CorruptedRecord(CrcField(buf), crc(payload)), total)
    else
      var header := RecordHeader(TypeOfCode(buf[4]).value, buf[5], PayloadLen(buf), CrcField(buf), Sequence(buf));
      Item(WalRecord(header, payload), total)
  }

  function Decode(crc: Crc, buf: Buffer): Step<WalRecord, WalError> {
    if |buf| < RECORD_HEADER_SIZE then More
    else match CheckHeader(buf)
      case Some(step) => step
      case None =>
        if |buf| < RECORD_HEADER_SIZE + PayloadLen(buf) then More else TakeRecord(crc, buf)
  }

  /** The decoder as a value, for the generic stream reader. */
  function Decoder(crc: Crc): Buffer -> Step<WalRecord, WalError> {
    (buf: Buffer) => Decode(crc, buf)
  }

  ghost predicate WellFormed(crc: Crc, r: WalRecord) {
    && r.header.payloadLen == |r.payload| <= MAX_RECORD_SIZE
    && r.header.crc == crc(r.payload)
    && r.header.sequence < 0x1_0000_0000_0000_0000
  }

  /** Everything decoding depends on sits in the bytes it has already seen. */
  lemma DecodeStable(crc: Crc, b: Buffer, x: Buffer)
    ensures !Decode(crc, b).More? ==> Decode(crc, b + x) == Decode(crc, b)
  {
    if |b| >= RECORD_HEADER_SIZE {
      SameHeader(b, b + x);
      var total := RECORD_HEADER_SIZE + PayloadLen(b);
      if |b| >= total {
        assert (b + x)[RECORD_HEADER_SIZE..total] == b[RECORD_HEADER_SIZE..total];
      }
    }
  }

  /** Buffers that share their first 24 bytes share every header field. */
  lemma SameHeader(a: Buffer, b: Buffer)
    requires |a| >= 24 && |b| >= 24 && a[..24] == b[..24]
    ensures a[..4] == b[..4] && a[4] == b[4] && a[5] == b[5]
    ensures PayloadLen(a) == PayloadLen(b) && CrcField(a) == CrcField(b) && Sequence(a) == Sequence(b)
    ensures CheckHeader(a) == CheckHeader(b)
  {
    assert a[..4] == a[..24][..4] == b[..24][..4] == b[..4];
    assert a[4] == a[..24][4] && a[5] == a[..24][5] && b[4] == b[..24][4] && b[5] == b[..24][5];
    assert a[8..12] == a[..24][8..12] == b[..24][8..12] == b[8..12];
    assert a[12..16] == a[..24][12..16] == b[..24][12..16] == b[12..16];
    assert a[16..24] == a[..24][16..24] == b[..24][16..24] == b[16..24];
  }

  lemma DecoderIncremental(crc: Crc)
    ensures Incremental(Decoder(crc))
  {
    forall b, x | !Decode(crc, b).More? ensures Decode(crc, b + x) == Decode(crc, b) {
      DecodeStable(crc, b, x);
    }
  }

  /** The encoded header reads back field by field. */
  lemma HeaderReadsBack(h: RecordHeader)
    requires h.payloadLen < 0x1_0000_0000 && h.crc < 0x1_0000_0000 && h.sequence < 0x1_0000_0000_0000_0000
    ensures var s := Header(h);
            && s[..4] == WAL_MAGIC && s[4] == TypeCode(h.entryType) && s[5] == h.flags
            && PayloadLen(s) == h.payloadLen && CrcField(s) == h.crc && Sequence(s) == h.sequence
  {
    var s := Header(h);
    Pow256Values();
    FieldRoundTrip(h.payloadLen, 4);
    FieldRoundTrip(h.crc, 4);
    FieldRoundTrip(h.sequence, 8);
    assert s[8..12] == BigEndian(h.payloadLen, 4);
    assert s[12..16] == BigEndian(h.crc, 4);
    assert s[16..24] == BigEndian(h.sequence, 8);
  }

  /** Whatever follows it, an encoded record decodes to itself and consumes exactly its own bytes. */
  lemma DecodeEncoded(crc: Crc, r: WalRecord, after: Buffer)
    requires WellFormed(crc, r)
    ensures Decode(crc, Encode(r).value + after) == Item(r, DiskSize(r))
  {
    var buf := Encode(r).value + after;
    HeaderReadsBack(r.header);
    assert buf[..24] == Header(r.header)[..24];
    SameHeader(buf, Header(r.header));
    assert buf[24..24 + |r.payload|] == r.payload;
  }

  /** A torn record, cut anywhere before its last byte, asks for more. */
  lemma DecodeTorn(crc: Crc, r: WalRecord, k: nat)
    requires WellFormed(crc, r) && k < DiskSize(r)
    ensures Decode(crc, Encode(r).value[..k]).More?
  {
    if k >= 24 {
      var buf := Encode(r).value[..k];
      HeaderReadsBack(r.header);
      assert buf[..24] == Header(r.header)[..24];
      SameHeader(buf, Header(r.header));
    }
  }

  /** Zero padding asks for more. */
  lemma DecodeZeros(crc: Crc, buf: Buffer)
    requires AllZero(buf)
    ensures Decode(crc, buf).More?
  {
    if |buf| >= 24 {
      assert buf[..4] == [0, 0, 0, 0];
    }
  }

  /** A decoded record is well formed and occupies exactly the bytes it was read from. */
  lemma DecodeSound(crc: Crc, buf: Buffer)
    requires Decode(crc, buf).Item?
    ensures var step := Decode(crc, buf);
            && WellFormed(crc, step.item) && step.used == DiskSize(step.item) <= |buf|
            && step.item.payload == buf[24..step.used]
  {
    FromBigEndianBound(buf[16..24]);
    Pow256Values();
  }

  // ---------------------------------------------------------------------------------------------------------------
  // What the decoder answers, read off the bytes
  // ---------------------------------------------------------------------------------------------------------------

  function RecordEnd(buf: Buffer): nat
    requires |buf| >= 24
  {
    24 + U32At(buf, 8)
  }

  lemma RecordFields(buf: Buffer)
    requires |buf| >= 24
    ensures PayloadLen(buf) == U32At(buf, 8) && CrcField(buf) == U32At(buf, 12) && Sequence(buf) == U64At(buf, 16)
  {
    FieldsAt(buf, 8);
    FieldsAt(buf, 12);
    FieldsAt(buf, 16);
  }

  /** Every answer of the decoder, and when it is given. */
  lemma RecordAnswers(crc: Crc, buf: Buffer)
    ensures var step := Decode(crc, buf);
            if |buf| < 24 then step.More?
            else if buf[..4] == [0, 0, 0, 0] then step.More?
            else if buf[..4] != [0x57, 0x4C, 0x4F, 0x47] || !(1 <= buf[4] <= 6 || buf[4] == 255) then
              step == Fail(InvalidHeader, 0)
            else if U32At(buf, 8) > 0x100_0000 then step == Fail(RecordTooLarge(U32At(buf, 8)), 0)
            else if |buf| < RecordEnd(buf) then step.More?
            else if crc(buf[24..RecordEnd(buf)]) != U32At(buf, 12) then
              && step.Fail? && step.used == RecordEnd(buf) && step.error.CorruptedRecord?
              && step.error.expected == U32At(buf, 12) && step.error.actual == crc(buf[24..RecordEnd(buf)])
            else
              && step.Item? && step.used == RecordEnd(buf) && TypeCode(step.item.header.entryType) == buf[4]
              && step.item.header.flags == buf[5] && step.item.header.sequence == U64At(buf, 16)
              && step.item.payload == buf[24..RecordEnd(buf)]
  {
    hide FromBigEndian;
    if |buf| >= 24 {
      RecordFields(buf);
      if !(1 <= buf[4] <= 6 || buf[4] == 255) {
        assert forall t :: TypeCode(t) != buf[4];
      } else {
        assert TypeOfCode(buf[4]).Some?;
      }
    }
  }

  /** An answer rests on the bytes it consumed, or on the header alone. */
  lemma DecodePrefix(crc: Crc, buf: Buffer, k: nat)
    requires RECORD_HEADER_SIZE <= k <= |buf|
    ensures Decode(crc, buf).Item? && Decode(crc, buf).used <= k ==> Decode(crc, buf[..k]) == Decode(crc, buf)
    ensures Decode(crc, buf).Fail? && Decode(crc, buf).used == 0 ==> Decode(crc, buf[..k]) == Decode(crc, buf)
  {
    assert buf[..k][..24] == buf[..24];
    SameHeader(buf, buf[..k]);
    if Decode(crc, buf).Item? && Decode(crc, buf).used <= k {
      var n := Decode(crc, buf).used;
      assert buf[..k][24..n] == buf[24..n];
    }
  }
}
