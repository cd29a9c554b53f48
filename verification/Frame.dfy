/** RCP frames: an 18-byte header, an optional header extension, and the payload. */
module Frame {
  import opened Common
  import opened Bytes
  import opened Stream
  import opened Record

  const MAGIC: Buffer := [0x52, 0x43, 0x50, 0x58]  // "RCPX"
  const FRAME_HEADER_SIZE: nat := 18
  const PROTOCOL_VERSION: nat := 1
  const MAX_PAYLOAD_SIZE: nat := 16 * 1024 * 1024

  type U16 = n: int | 0 <= n < 0x1_0000

  datatype ProtocolError =
    | InvalidMagic(magic: Buffer)
    | UnsupportedVersion(version: nat)
    | InvalidFlags(bits: nat)
    | FrameTooLarge(size: nat)
    | CrcMismatch(expected: nat, actual: nat)

  datatype Frame = Frame(version: U16, flags: U16, headerExtension: Buffer, payload: Buffer)

  /** Bit 0 of the flags. */
  predicate HasCrc(flags: nat) { flags % 2 == 1 }

  /** Only the low four bits may be set. */
  predicate ValidFlags(flags: nat) { flags < 0x10 }

  /** Lengths are cast to their field widths before they are written or checked. */
  function FrameHeader(crc: Crc, f: Frame): (s: Buffer)
    ensures |s| == FRAME_HEADER_SIZE
  {
    MAGIC + BigEndian(f.version, 2) + BigEndian(f.flags, 2)
    + BigEndian(|f.headerExtension| % 0x1_0000, 2) + BigEndian(|f.payload| % 0x1_0000_0000, 4)
    + BigEndian(if HasCrc(f.flags) then crc(f.payload) else 0, 4)
  }

  function EncodeFrame(crc: Crc, f: Frame): Result<Buffer, ProtocolError> {
    var payloadLen := |f.payload| % 0x1_0000_0000;
    if payloadLen > MAX_PAYLOAD_SIZE then Err(FrameTooLarge(payloadLen))
    else Ok(FrameHeader(crc, f) + f.headerExtension + f.payload)
  }

  function VersionField(buf: Buffer): nat requires |buf| >= 18 { FromBigEndian(buf[4..6]) }
  function FlagsField(buf: Buffer): nat requires |buf| >= 18 { FromBigEndian(buf[6..8]) }
  function ExtensionLen(buf: Buffer): nat requires |buf| >= 18 { FromBigEndian(buf[8..10]) }
  function FramePayloadLen(buf: Buffer): nat requires |buf| >= 18 { FromBigEndian(buf[10..14]) }
  function FrameCrc(buf: Buffer): nat requires |buf| >= 18 { FromBigEndian(buf[14..18]) }

  function HeaderError(buf: Buffer): Option<ProtocolError>
    requires |buf| >= FRAME_HEADER_SIZE
  {
    if buf[..4] != MAGIC then Some(InvalidMagic(buf[..4]))
    else if VersionField(buf) != PROTOCOL_VERSION then Some(UnsupportedVersion(VersionField(buf)))
    else if !ValidFlags(FlagsField(buf)) then Some(InvalidFlags(FlagsField(buf)))
    else if FramePayloadLen(buf) > MAX_PAYLOAD_SIZE then Some(FrameTooLarge(FramePayloadLen(buf)))
    else None
  }

  /** The frame a full buffer holds; a CRC mismatch is reported after the frame was consumed. */
  function TakeFrame(crc: Crc, buf: Buffer): Step<Frame, ProtocolError>
    requires |buf| >= FRAME_HEADER_SIZE && HeaderError(buf).None?
    requires |buf| >= FRAME_HEADER_SIZE + ExtensionLen(buf) + FramePayloadLen(buf)
  {
    var body := FRAME_HEADER_SIZE + ExtensionLen(buf);
    var total := body + FramePayloadLen(buf);
    var payload := buf[body..total];
    if HasCrc(FlagsField(buf)) && crc(payload) != FrameCrc(buf) then
      Fail(CrcMismatch(FrameCrc(buf), crc(payload)), total)
    else
      Item(Frame(VersionField(buf), FlagsField(buf), buf[FRAME_HEADER_SIZE..body], payload), total)
  }

  function DecodeFrame(crc: Crc, buf: Buffer): Step<Frame, ProtocolError> {
    if |buf| < FRAME_HEADER_SIZE then More
    else match HeaderError(buf)
      case Some(e) => Fail(e, 0)
      case None =>
        if |buf| < FRAME_HEADER_SIZE + ExtensionLen(buf) + FramePayloadLen(buf) then More else TakeFrame(crc, buf)
  }

  function FrameDecoder(crc: Crc): Buffer -> Step<Frame, ProtocolError> {
    (buf: Buffer) => DecodeFrame(crc, buf)
  }

  lemma SameFrameHeader(a: Buffer, b: Buffer)
    requires |a| >= 18 && |b| >= 18 && a[..18] == b[..18]
    ensures HeaderError(a) == HeaderError(b) && VersionField(a) == VersionField(b) && FlagsField(a) == FlagsField(b)
    ensures ExtensionLen(a) == ExtensionLen(b) && FramePayloadLen(a) == FramePayloadLen(b) && FrameCrc(a) == FrameCrc(b)
  {
    assert a[..4] == a[..18][..4] == b[..18][..4] == b[..4];
    assert a[4..6] == a[..18][4..6] == b[..18][4..6] == b[4..6];
    assert a[6..8] == a[..18][6..8] == b[..18][6..8] == b[6..8];
    assert a[8..10] == a[..18][8..10] == b[..18][8..10] == b[8..10];
    assert a[10..14] == a[..18][10..14] == b[..18][10..14] == b[10..14];
    assert a[14..18] == a[..18][14..18] == b[..18][14..18] == b[14..18];
  }

  lemma FrameStable(crc: Crc, b: Buffer, x: Buffer)
    ensures !DecodeFrame(crc, b).More? ==> DecodeFrame(crc, b + x) == DecodeFrame(crc, b)
  {
    if |b| >= FRAME_HEADER_SIZE {
      assert (b + x)[..18] == b[..18];
      SameFrameHeader(b, b + x);
      var body := FRAME_HEADER_SIZE + ExtensionLen(b);
      var total := body + FramePayloadLen(b);
      if |b| >= total {
        assert (b + x)[body..total] == b[body..total];
        assert (b + x)[FRAME_HEADER_SIZE..body] == b[FRAME_HEADER_SIZE..body];
      }
    }
  }

  lemma FrameDecoderIncremental(crc: Crc)
    ensures Incremental(FrameDecoder(crc))
  {
    forall b, x | !DecodeFrame(crc, b).More? ensures DecodeFrame(crc, b + x) == DecodeFrame(crc, b) {
      FrameStable(crc, b, x);
    }
  }

  /** The frames that survive the trip: what a version 1 peer can say within the field widths. */
  ghost predicate WellFormedFrame(f: Frame) {
    && f.version == PROTOCOL_VERSION && ValidFlags(f.flags)
    && |f.headerExtension| < 0x1_0000 && |f.payload| <= MAX_PAYLOAD_SIZE
  }

  lemma FrameHeaderReadsBack(crc: Crc, f: Frame)
    ensures var s := FrameHeader(crc, f);
            && s[..4] == MAGIC && VersionField(s) == f.version && FlagsField(s) == f.flags
            && ExtensionLen(s) == |f.headerExtension| % 0x1_0000
            && FramePayloadLen(s) == |f.payload| % 0x1_0000_0000
            && FrameCrc(s) == if HasCrc(f.flags) then crc(f.payload) else 0
  {
    hide BigEndian, FromBigEndian;
    var s := FrameHeader(crc, f);
    var c: nat := if HasCrc(f.flags) then crc(f.payload) else 0;
    Pow256Values();
    FieldRoundTrip(f.version, 2);
    FieldRoundTrip(f.flags, 2);
    FieldRoundTrip(|f.headerExtension| % 0x1_0000, 2);
    FieldRoundTrip(|f.payload| % 0x1_0000_0000, 4);
    FieldRoundTrip(c, 4);
    SixParts(MAGIC, BigEndian(f.version, 2), BigEndian(f.flags, 2), BigEndian(|f.headerExtension| % 0x1_0000, 2),
             BigEndian(|f.payload| % 0x1_0000_0000, 4), BigEndian(c, 4));
  }

  lemma SixParts(magic: Buffer, version: Buffer, flags: Buffer, extension: Buffer, payload: Buffer, crc: Buffer)
    requires |magic| == 4 && |version| == 2 && |flags| == 2 && |extension| == 2 && |payload| == 4 && |crc| == 4
    ensures var s := magic + version + flags + extension + payload + crc;
            && s[..4] == magic && s[4..6] == version && s[6..8] == flags
            && s[8..10] == extension && s[10..14] == payload && s[14..18] == crc
  {
  }

  /** Whatever follows it, a well-formed frame decodes to itself and consumes exactly its own bytes. */
  lemma DecodeEncodedFrame(crc: Crc, f: Frame, after: Buffer)
    requires WellFormedFrame(f)
    ensures EncodeFrame(crc, f).Ok?
    ensures DecodeFrame(crc, EncodeFrame(crc, f).value + after) == Item(f, |EncodeFrame(crc, f).value|)
  {
    hide FrameHeader, VersionField, FlagsField, ExtensionLen, FramePayloadLen, FrameCrc;
    var h := FrameHeader(crc, f);
    var buf := EncodeFrame(crc, f).value + after;
    FrameHeaderReadsBack(crc, f);
    assert buf[..18] == h[..18];
    SameFrameHeader(buf, h);
    assert h[..4] == MAGIC && HeaderError(buf).None?;
    var body := 18 + |f.headerExtension|;
    assert buf[18..body] == f.headerExtension;
    assert buf[body..body + |f.payload|] == f.payload;
  }

  /**
   A frame survives encoding and decoding if and only if it is well formed: a longer header extension loses its
   length in a 16-bit cast, a payload longer than 32 bits can say loses its own, and other versions and flags are
   written but not accepted back.
   */
  lemma FrameRoundTrip(crc: Crc, f: Frame)
    ensures (EncodeFrame(crc, f).Ok?
             && DecodeFrame(crc, EncodeFrame(crc, f).value) == Item(f, |EncodeFrame(crc, f).value|))
            <==> WellFormedFrame(f)
  {
    if WellFormedFrame(f) {
      DecodeEncodedFrame(crc, f, []);
      assert EncodeFrame(crc, f).value + [] == EncodeFrame(crc, f).value;
    } else if EncodeFrame(crc, f).Ok? && DecodeFrame(crc, EncodeFrame(crc, f).value).Item? {
      DecodedWellFormed(crc, EncodeFrame(crc, f).value);
    }
  }

  lemma DecodedWellFormed(crc: Crc, buf: Buffer)
    requires DecodeFrame(crc, buf).Item?
    ensures WellFormedFrame(DecodeFrame(crc, buf).item)
  {
    FromBigEndianBound(buf[8..10]);
    Pow256Values();
  }

  // ---------------------------------------------------------------------------------------------------------------
  // What the decoder answers, read off the bytes
  // ---------------------------------------------------------------------------------------------------------------

  /** "RCPX", version 1, no flag above bit 3, and a payload of at most 16 MiB. */
  predicate HeaderInOrder(buf: Buffer) {
    && |buf| >= 18 && buf[..4] == [0x52, 0x43, 0x50, 0x58] && U16At(buf, 4) == 1 && U16At(buf, 6) < 16
    && U32At(buf, 10) <= 0x100_0000
  }

  /** Where the header says the frame ends. */
  function FrameEnd(buf: Buffer): nat
    requires |buf| >= 18
  {
    18 + U16At(buf, 8) + U32At(buf, 10)
  }

  function PayloadBytes(buf: Buffer): Buffer
    requires |buf| >= 18 && FrameEnd(buf) <= |buf|
  {
    buf[18 + U16At(buf, 8)..FrameEnd(buf)]
  }

  /** Bit 0 of the flags is not set, or bytes 14 to 18 are the checksum of the payload. */
  predicate ChecksumHolds(crc: Crc, buf: Buffer)
    requires |buf| >= 18 && FrameEnd(buf) <= |buf|
  {
    buf[7] % 2 == 1 ==> crc(PayloadBytes(buf)) == U32At(buf, 14)
  }

  /** The buffer begins with this frame, whole and with a checksum that holds. */
  predicate Framed(crc: Crc, buf: Buffer, f: Frame) {
    && HeaderInOrder(buf) && FrameEnd(buf) <= |buf| && ChecksumHolds(crc, buf)
    && f.version == 1 && f.flags == U16At(buf, 6)
    && f.headerExtension == buf[18..18 + U16At(buf, 8)] && f.payload == PayloadBytes(buf)
  }

  lemma HeaderFields(buf: Buffer)
    requires |buf| >= 18
    ensures VersionField(buf) == U16At(buf, 4) && FlagsField(buf) == U16At(buf, 6) && ExtensionLen(buf) == U16At(buf, 8)
    ensures FramePayloadLen(buf) == U32At(buf, 10) && FrameCrc(buf) == U32At(buf, 14)
  {
    FieldsAt(buf, 4);
    FieldsAt(buf, 6);
    FieldsAt(buf, 8);
    FieldsAt(buf, 10);
    FieldsAt(buf, 14);
  }

  /** Frames and requests for more: exactly when a whole frame with a good checksum is there, or may yet come. */
  lemma FrameAnswers(crc: Crc, buf: Buffer)
    ensures var step := DecodeFrame(crc, buf);
            && (step.More? <==> |buf| < 18 || (HeaderInOrder(buf) && |buf| < FrameEnd(buf)))
            && (step.Item? <==> HeaderInOrder(buf) && FrameEnd(buf) <= |buf| && ChecksumHolds(crc, buf))
            && (step.Item? ==> step.used == FrameEnd(buf) && Framed(crc, buf, step.item))
  {
    hide FromBigEndian;
    if |buf| >= 18 {
      HeaderFields(buf);
    }
  }

  /**
   Failures: a checksum that does not hold costs the whole frame, and each other error is reported exactly when its
   test is the first that the header fails, and consumes nothing.
   */
  lemma FrameErrors(crc: Crc, buf: Buffer)
    requires |buf| >= 18
    ensures var step := DecodeFrame(crc, buf);
            var magic, version, flags := buf[..4] == [0x52, 0x43, 0x50, 0x58], U16At(buf, 4), U16At(buf, 6);
            && (step.Fail? && step.error.CrcMismatch? <==>
                  HeaderInOrder(buf) && FrameEnd(buf) <= |buf| && !ChecksumHolds(crc, buf))
            && (step.Fail? && step.error.CrcMismatch? ==>
                  step == Fail(CrcMismatch(U32At(buf, 14), crc(PayloadBytes(buf))), FrameEnd(buf)))
            && (step == Fail(InvalidMagic(buf[..4]), 0) <==> !magic)
            && (step == Fail(UnsupportedVersion(version), 0) <==> magic && version != 1)
            && (step == Fail(InvalidFlags(flags), 0) <==> magic && version == 1 && flags >= 16)
            && (step == Fail(FrameTooLarge(U32At(buf, 10)), 0) <==>
                  magic && version == 1 && flags < 16 && U32At(buf, 10) > 0x100_0000)
  {
    hide FromBigEndian;
    HeaderFields(buf);
  }

  /**
   What encoding writes, byte by byte: it fails exactly when the payload's length, cut to 32 bits, is above 16 MiB, and
   else writes the header, the extension and the payload, with a checksum of the payload or, without bit 0, a zero.
   */
  lemma FrameBytes(crc: Crc, f: Frame)
    ensures var r, length := EncodeFrame(crc, f), |f.payload| % 0x1_0000_0000;
            if length > 0x100_0000 then r == Err(FrameTooLarge(length))
            else
              && r.Ok? && var b := r.value;
              && |b| == 18 + |f.headerExtension| + |f.payload| && b[..4] == [0x52, 0x43, 0x50, 0x58]
              && U16At(b, 4) == f.version && U16At(b, 6) == f.flags
              && U16At(b, 8) == |f.headerExtension| % 0x1_0000 && U32At(b, 10) == length
              && U32At(b, 14) == (if f.flags % 2 == 1 then crc(f.payload) else 0)
              && b[18..18 + |f.headerExtension|] == f.headerExtension && b[18 + |f.headerExtension|..] == f.payload
  {
    hide FromBigEndian, BigEndian, FrameHeader;
    if EncodeFrame(crc, f).Ok? {
      var h, b := FrameHeader(crc, f), EncodeFrame(crc, f).value;
      FrameHeaderReadsBack(crc, f);
      assert b[..18] == h[..18];
      SameFrameHeader(b, h);
      HeaderFields(b);
    }
  }

  /** The bytes begin with these frames, one behind the other. */
  predicate FramedAll(crc: Crc, bytes: Buffer, frames: seq<Frame>)
    decreases |frames|
  {
    frames == [] || (Framed(crc, bytes, frames[0]) && FramedAll(crc, bytes[FrameEnd(bytes)..], frames[1..]))
  }

  lemma {:induction false} ChainedAreFramed(crc: Crc, bytes: Buffer, pos: nat, items: seq<Positioned<Frame>>)
    requires Chained(FrameDecoder(crc), bytes, pos, items)
    ensures FramedAll(crc, bytes, Payloads(items))
    decreases |items|
  {
    hide DecodeFrame, Framed;
    if items == [] {
    } else {
      FrameAnswers(crc, bytes);
      var n := DecodeFrame(crc, bytes).used;
      ChainedAreFramed(crc, bytes[n..], pos + n, items[1..]);
      assert Payloads(items)[1..] == Payloads(items[1..]);
    }
  }

  /** Whatever a byte stream delivers stands in it, frame by frame, with its checksums. */
  lemma DeliveredIsFramed(crc: Crc, bytes: Buffer)
    ensures FramedAll(crc, bytes, Payloads(Items(WireTrace(crc, bytes))))
  {
    hide DecodeFrame, Drain, Items, FramedAll;
    FrameDecoderIncremental(crc);
    ItemsAreChained(FrameDecoder(crc), bytes, 0);
    ChainedAreFramed(crc, bytes, 0, Items(WireTrace(crc, bytes)));
  }

  /** The bytes of a list of frames on the wire. */
  function Wire(crc: Crc, fs: seq<Frame>): Buffer {
    if fs == [] then [] else
      (match EncodeFrame(crc, fs[0]) case Ok(bytes) => bytes case Err(_) => []) + Wire(crc, fs[1..])
  }

  ghost predicate AllWellFormedFrames(fs: seq<Frame>) {
    forall i :: 0 <= i < |fs| ==> WellFormedFrame(fs[i])
  }

  function Payloads<T>(items: seq<Positioned<T>>): (ts: seq<T>)
    ensures |ts| == |items|
    ensures forall i :: 0 <= i < |items| ==> ts[i] == items[i].item
  {
    if items == [] then [] else [items[0].item] + Payloads(items[1..])
  }

  /** Decoding the wire image of frames gives exactly those frames and stops exactly at an incomplete tail. */
  lemma {:induction false} DrainWire(crc: Crc, fs: seq<Frame>, tail: Buffer, pos: nat)
    requires AllWellFormedFrames(fs) && DecodeFrame(crc, tail).More?
    requires Incremental(FrameDecoder(crc))
    ensures Payloads(Items(Drain(FrameDecoder(crc), Wire(crc, fs) + tail, pos))) == fs
    ensures End(Drain(FrameDecoder(crc), Wire(crc, fs) + tail, pos)) == Dry(tail)
  {
    hide DecodeFrame, EncodeFrame, Drain, Items, End, Incremental, WellFormedFrame;
    if fs == [] {
      assert Wire(crc, fs) + tail == tail;
      DrainDry(FrameDecoder(crc), tail, pos);
    } else {
      var f, after := fs[0], Wire(crc, fs[1..]) + tail;
      DecodeEncodedFrame(crc, f, after);
      var bytes := EncodeFrame(crc, f).value;
      assert Wire(crc, fs) + tail == bytes + after;
      DrainCons(FrameDecoder(crc), bytes, f, after, pos);
      DrainWire(crc, fs[1..], tail, pos + |bytes|);
      var later := Items(Drain(FrameDecoder(crc), after, pos + |bytes|));
      assert ([At(pos, f)] + later)[1..] == later;
    }
  }

  /** The decoding of a whole byte stream at once. */
  ghost function WireTrace(crc: Crc, data: Buffer): Trace<Frame, ProtocolError> {
    FrameDecoderIncremental(crc);
    Drain(FrameDecoder(crc), data, 0)
  }

  class Decoder {
    var buffer: Buffer

    constructor ()
      ensures buffer == []
    {
      buffer := [];
    }

    method Extend(data: Buffer)
      modifies this
      ensures buffer == old(buffer) + data
    {
      buffer := buffer + data;
    }

    /** The next frame. The buffer loses exactly what the answer used: nothing when more bytes are needed. */
    method NextFrame(crc: Crc) returns (step: Step<Frame, ProtocolError>)
      modifies this
      ensures step == DecodeFrame(crc, old(buffer))
      ensures step.Item? ==> Framed(crc, old(buffer), step.item)
      ensures match step
              case More => buffer == old(buffer)
              case Item(_, used) => used <= |old(buffer)| && buffer == old(buffer)[used..]
              case Fail(_, used) => used <= |old(buffer)| && buffer == old(buffer)[used..]
    {
      FrameAnswers(crc, buffer);
      step := DecodeFrame(crc, buffer);
      match step
      case More =>
      case Item(_, used) => buffer := buffer[used..];
      case Fail(_, used) => buffer := buffer[used..];
    }

    /**
     The connection loop: every chunk read from the socket is appended, then all complete frames are taken out.
     The frames do not depend on how the bytes were chunked. After a failure, the buffer and the chunks not yet read
     are what stands behind the bytes that the failure used.
     */
    method Receive(crc: Crc, chunks: seq<Buffer>) returns (frames: seq<Frame>, failure: Option<ProtocolError>)
      requires DecodeFrame(crc, buffer).More?
      modifies this
      ensures var trace := WireTrace(crc, old(buffer) + Concat(chunks));
              && frames == Payloads(Items(trace))
              && match End(trace)
                 case Dry(rest) => failure.None? && buffer == rest
                 case Failed(_, e, rest) =>
                   failure == Some(e) && exists n :: 0 < n <= |chunks| && rest == buffer + Concat(chunks[n..])
      ensures FramedAll(crc, old(buffer) + Concat(chunks), frames)
    {
      hide DecodeFrame, Pending, Drain, Items, End, Incremental, Payloads, Framed, FramedAll;
      ghost var decode := FrameDecoder(crc);
      FrameDecoderIncremental(crc);
      ghost var whole := buffer + Concat(chunks);
      DeliveredIsFramed(crc, whole);
      ghost var items: seq<Positioned<Frame>>, pos: nat := [], 0;
      frames, failure := [], None;
      PendingStart(decode, whole);
      var i := 0;
      while i < |chunks|
        invariant 0 <= i <= |chunks|
        invariant DecodeFrame(crc, buffer).More?
        invariant Pending(decode, whole, items, buffer + Concat(chunks[i..]), pos)
        invariant frames == Payloads(items)
      {
        assert buffer + Concat(chunks[i..]) == (buffer + chunks[i]) + Concat(chunks[i..][1..]);
        assert chunks[i..][1..] == chunks[i + 1..];
        Extend(chunks[i]);
        ghost var later := Concat(chunks[i + 1..]);
        while true
          invariant Pending(decode, whole, items, buffer + later, pos)
          invariant frames == Payloads(items)
          decreases |buffer|
        {
          PendingStep(decode, whole, items, buffer, later, pos);
          UsedSome(crc, buffer);
          var step := NextFrame(crc);
          match step
          case More =>
            break;
          case Item(frame, used) =>
            PayloadsAppend(items, At(pos, frame));
            frames := frames + [frame];
            items, pos := items + [At(pos, frame)], pos + used;
          case Fail(e, _) =>
            failure := Some(e);
            assert 0 < i + 1 <= |chunks| && later == Concat(chunks[i + 1..]);
            return;
        }
        i := i + 1;
      }
      assert buffer + Concat(chunks[i..]) == buffer;
      PendingDone(decode, whole, items, buffer, pos);
    }
  }

  lemma UsedSome(crc: Crc, buf: Buffer)
    ensures DecodeFrame(crc, buf).Item? ==> 0 < DecodeFrame(crc, buf).used <= |buf|
  {
  }

  lemma {:induction false} PayloadsAppend<T>(items: seq<Positioned<T>>, x: Positioned<T>)
    ensures Payloads(items + [x]) == Payloads(items) + [x.item]
  {
    if items == [] {
    } else {
      assert (items + [x])[1..] == items[1..] + [x];
      PayloadsAppend(items[1..], x);
    }
  }

  /**
   Streaming: whatever way the wire image of well-formed frames, plus any incomplete tail, is cut into chunks, a fresh
   decoder yields exactly those frames in order and is left holding exactly the tail.
   */
  method ReceiveFrames(crc: Crc, fs: seq<Frame>, tail: Buffer, chunks: seq<Buffer>)
    returns (d: Decoder, frames: seq<Frame>, failure: Option<ProtocolError>)
    requires AllWellFormedFrames(fs) && DecodeFrame(crc, tail).More?
    requires Concat(chunks) == Wire(crc, fs) + tail
    ensures frames == fs && failure.None? && d.buffer == tail
  {
    hide DecodeFrame, EncodeFrame, Drain, Items, End;
    FrameDecoderIncremental(crc);
    d := new Decoder();
    ShortNeedsMore(crc, d.buffer);
    assert d.buffer + Concat(chunks) == Concat(chunks);
    DrainWire(crc, fs, tail, 0);
    frames, failure := d.Receive(crc, chunks);
  }

  lemma ShortNeedsMore(crc: Crc, buf: Buffer)
    ensures |buf| < FRAME_HEADER_SIZE ==> DecodeFrame(crc, buf).More?
  {
  }
}
