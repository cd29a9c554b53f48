/** WAL segment files: appending, syncing and the chunked reader. */
module Segment {
  import opened Common
  import opened Bytes
  import opened Stream
  import opened Record

  const READ_CHUNK: nat := 8192

  type Records = seq<Positioned<WalRecord>>

  datatype ReadError = ReadError(offset: nat, error: WalError)

  /** Decodes a whole file image at once: the reference for the chunked reader. */
  function ReadImage(crc: Crc, data: Buffer): Result<Records, ReadError> {
    DecoderIncremental(crc);
    var trace := Drain(Decoder(crc), data, 0);
    match End(trace)
    case Failed(pos, e, _) => Err(ReadError(pos, e))
    case _ => Ok(Items(trace))
  }

  /** The file image of a list of records. */
  function Image(rs: seq<WalRecord>): Buffer
    requires forall i :: 0 <= i < |rs| ==> |rs[i].payload| <= MAX_RECORD_SIZE
  {
    if rs == [] then [] else Encode(rs[0]).value + Image(rs[1..])
  }

  /** The same records at the sum of the sizes before them. */
  function Placed(rs: seq<WalRecord>, pos: nat): (items: Records)
    ensures |items| == |rs| && forall i :: 0 <= i < |rs| ==> items[i].item == rs[i]
  {
    if rs == [] then [] else [At(pos, rs[0])] + Placed(rs[1..], pos + DiskSize(rs[0]))
  }

  /** A tail that holds no complete record: nothing, zero padding, or a torn write. */
  ghost predicate Torn(crc: Crc, tail: Buffer) {
    || AllZero(tail)
    || exists r, k: nat :: WellFormed(crc, r) && k < DiskSize(r) && tail == Encode(r).value[..k]
  }

  lemma TornAsksForMore(crc: Crc, tail: Buffer)
    requires Torn(crc, tail)
    ensures Decode(crc, tail).More?
  {
    if AllZero(tail) {
      DecodeZeros(crc, tail);
    } else {
      var r, k: nat :| WellFormed(crc, r) && k < DiskSize(r) && tail == Encode(r).value[..k];
      DecodeTorn(crc, r, k);
    }
  }

  ghost predicate AllWellFormed(crc: Crc, rs: seq<WalRecord>) {
    forall i :: 0 <= i < |rs| ==> WellFormed(crc, rs[i])
  }

  /** An image decodes to exactly its records, and decoding stops exactly at an incomplete tail. */
  lemma DrainImage(crc: Crc, rs: seq<WalRecord>, tail: Buffer, pos: nat)
    requires AllWellFormed(crc, rs) && Decode(crc, tail).More?
    requires Incremental(Decoder(crc))
    ensures Items(Drain(Decoder(crc), Image(rs) + tail, pos)) == Placed(rs, pos)
    ensures End(Drain(Decoder(crc), Image(rs) + tail, pos)) == Dry(tail)
  {
    hide Decode, Drain, Items, End, Incremental, Image;
    BehindImage(crc, rs, tail, pos);
    DrainDry(Decoder(crc), tail, pos + |Image(rs)|);
    assert Placed(rs, pos) + [] == Placed(rs, pos);
  }

  /** Reading ignores a torn tail. */
  lemma ReadImageOfRecords(crc: Crc, rs: seq<WalRecord>, tail: Buffer)
    requires AllWellFormed(crc, rs) && Torn(crc, tail)
    ensures ReadImage(crc, Image(rs) + tail) == Ok(Placed(rs, 0))
  {
    TornAsksForMore(crc, tail);
    DecoderIncremental(crc);
    DrainImage(crc, rs, tail, 0);
  }

  /** Behind `bytes`, which decode to `items`, decoding goes on with whatever stands there. */
  ghost predicate GoesOn(crc: Crc, bytes: Buffer, items: Records, behind: Buffer, pos: nat)
    requires Incremental(Decoder(crc))
  {
    var there := Drain(Decoder(crc), behind, pos + |bytes|);
    var trace := Drain(Decoder(crc), bytes + behind, pos);
    Items(trace) == items + Items(there) && End(trace) == End(there)
  }

  lemma NothingGoesOn(crc: Crc, behind: Buffer, pos: nat)
    requires Incremental(Decoder(crc))
    ensures GoesOn(crc, [], [], behind, pos)
  {
    hide Decode, Drain, Items, End, Incremental;
    assert [] + behind == behind;
  }

  lemma GoesOnBehind(crc: Crc, r: WalRecord, bytes: Buffer, items: Records, behind: Buffer, pos: nat)
    requires WellFormed(crc, r) && Incremental(Decoder(crc)) && GoesOn(crc, bytes, items, behind, pos + DiskSize(r))
    ensures GoesOn(crc, Encode(r).value + bytes, [At(pos, r)] + items, behind, pos)
  {
    hide Decode, Header, Drain, Items, End, Incremental;
    DecodeEncoded(crc, r, bytes + behind);
    DrainCons(Decoder(crc), Encode(r).value, r, bytes + behind, pos);
    assert Encode(r).value + bytes + behind == Encode(r).value + (bytes + behind);
  }

  lemma {:induction false} ImageGoesOn(crc: Crc, rs: seq<WalRecord>, behind: Buffer, pos: nat)
    requires AllWellFormed(crc, rs) && Incremental(Decoder(crc))
    ensures GoesOn(crc, Image(rs), Placed(rs, pos), behind, pos)
  {
    hide GoesOn, Incremental, Encode;
    if rs == [] {
      NothingGoesOn(crc, behind, pos);
    } else {
      ImageGoesOn(crc, rs[1..], behind, pos + DiskSize(rs[0]));
      GoesOnBehind(crc, rs[0], Image(rs[1..]), Placed(rs[1..], pos + DiskSize(rs[0])), behind, pos);
    }
  }

  /** Behind an image, decoding goes on with whatever stands there. */
  lemma BehindImage(crc: Crc, rs: seq<WalRecord>, behind: Buffer, pos: nat)
    requires AllWellFormed(crc, rs) && Incremental(Decoder(crc))
    ensures var there := Drain(Decoder(crc), behind, pos + |Image(rs)|);
            var trace := Drain(Decoder(crc), Image(rs) + behind, pos);
            Items(trace) == Placed(rs, pos) + Items(there) && End(trace) == End(there)
  {
    ImageGoesOn(crc, rs, behind, pos);
  }

  /** What completes an unfinished tail reaches past it. */
  lemma CompletesPast(crc: Crc, tail: Buffer, more: Buffer)
    requires Decode(crc, tail).More? && Decode(crc, tail + more).Item?
    ensures Decode(crc, tail + more).used > |tail|
  {
    var used := Decode(crc, tail + more).used;
    DecodeSound(crc, tail + more);
    assert (tail + more)[..|tail|] == tail;
    if used <= |tail| {
      DecodePrefix(crc, tail + more, |tail|);
    }
  }

  ghost predicate NoneAt(items: Records, pos: nat) {
    forall i :: 0 <= i < |items| ==> items[i].pos != pos
  }

  lemma NotFound(a: Records, b: Records, pos: nat, r: WalRecord)
    requires NoneAt(a, pos) && NoneAt(b, pos)
    ensures At(pos, r) !in a + b
  {
  }

  /** No record starts right behind an unfinished tail. */
  lemma NothingBehindTail(crc: Crc, tail: Buffer, more: Buffer, pos: nat)
    requires Incremental(Decoder(crc)) && Decode(crc, tail).More? && tail != []
    ensures NoneAt(Items(Drain(Decoder(crc), tail + more, pos)), pos + |tail|)
  {
    hide Decode, Drain, Items, End;
    var buf := tail + more;
    match Decode(crc, buf)
    case More => DrainDry(Decoder(crc), buf, pos);
    case Fail(_, _) => DrainFail(Decoder(crc), buf, pos);
    case Item(r, used) =>
      CompletesPast(crc, tail, more);
      DecodeSound(crc, buf);
      DrainNext(Decoder(crc), buf, pos);
      DrainPositions(Decoder(crc), buf[used..], pos + used);
  }

  ghost predicate ReadBack(crc: Crc, data: Buffer, pos: nat, r: WalRecord) {
    ReadImage(crc, data).Ok? && At(pos, r) in ReadImage(crc, data).value
  }

  /** What reading an image with something behind it finds. */
  lemma ReadBehind(crc: Crc, rs: seq<WalRecord>, behind: Buffer)
    requires AllWellFormed(crc, rs)
    ensures Incremental(Decoder(crc))
    ensures var there := Drain(Decoder(crc), behind, |Image(rs)|);
            var read := ReadImage(crc, Image(rs) + behind);
            if End(there).Failed? then read.Err? else read == Ok(Placed(rs, 0) + Items(there))
  {
    DecoderIncremental(crc);
    hide Decode, Header, Drain, Items, End, Incremental, Image, Placed;
    BehindImage(crc, rs, behind, 0);
  }

  lemma FoundBehind(crc: Crc, data: Buffer, placed: Records, n: nat, r: WalRecord)
    requires ReadImage(crc, data) == Ok(placed + [At(n, r)])
    ensures ReadBack(crc, data, n, r)
  {
    hide ReadImage;
    assert (placed + [At(n, r)])[|placed|] == At(n, r);
  }

  lemma AppendFound(crc: Crc, rs: seq<WalRecord>, r: WalRecord)
    requires AllWellFormed(crc, rs) && WellFormed(crc, r)
    ensures ReadBack(crc, Image(rs) + Encode(r).value, |Image(rs)|, r)
  {
    var bytes, n := Encode(r).value, |Image(rs)|;
    hide Decode, Header, Drain, Items, End, Encode, Incremental, Image, Placed, ReadImage, ReadBack;
    ReadBehind(crc, rs, bytes);
    OneRecord(crc, r, n);
    FoundBehind(crc, Image(rs) + bytes, Placed(rs, 0), n, r);
  }

  lemma HiddenBehind(crc: Crc, data: Buffer, placed: Records, n: nat, tail: Buffer, more: Buffer, r: WalRecord)
    requires Incremental(Decoder(crc)) && Decode(crc, tail).More? && tail != [] && NoneAt(placed, n + |tail|)
    requires ReadImage(crc, data).Err?
          || ReadImage(crc, data) == Ok(placed + Items(Drain(Decoder(crc), tail + more, n)))
    ensures !ReadBack(crc, data, n + |tail|, r)
  {
    hide Decode, Drain, Items, Incremental, ReadImage, NoneAt, ReadBack;
    NothingBehindTail(crc, tail, more, n);
    var there := Items(Drain(Decoder(crc), tail + more, n));
    NotFound(placed, there, n + |tail|, r);
    NotRead(crc, data, placed + there, n + |tail|, r);
  }

  lemma AppendHidden(crc: Crc, rs: seq<WalRecord>, tail: Buffer, more: Buffer, r: WalRecord)
    requires AllWellFormed(crc, rs) && Decode(crc, tail).More? && tail != []
    ensures !ReadBack(crc, Image(rs) + (tail + more), |Image(rs)| + |tail|, r)
  {
    hide Decode, Drain, Items, End, Incremental, ReadImage, NoneAt, ReadBack, Image, Placed;
    ReadBehind(crc, rs, tail + more);
    PlacedWithin(crc, rs, |Image(rs)| + |tail|);
    HiddenBehind(crc, Image(rs) + (tail + more), Placed(rs, 0), |Image(rs)|, tail, more, r);
  }

  lemma NotRead(crc: Crc, data: Buffer, items: Records, pos: nat, r: WalRecord)
    requires At(pos, r) !in items && (ReadImage(crc, data).Err? || ReadImage(crc, data) == Ok(items))
    ensures !ReadBack(crc, data, pos, r)
  {
    hide ReadImage;
  }

  /**
   When an append is read back: a record put behind records and a tail that decoding cannot complete is found there if
   and only if there is no such tail. Reopening must therefore be preceded by a repair.
   */
  lemma AppendReadBack(crc: Crc, rs: seq<WalRecord>, tail: Buffer, r: WalRecord)
    requires AllWellFormed(crc, rs) && Decode(crc, tail).More? && WellFormed(crc, r)
    ensures ReadBack(crc, Image(rs) + (tail + Encode(r).value), |Image(rs)| + |tail|, r) <==> tail == []
  {
    var bytes := Encode(r).value;
    hide Decode, Encode, Image, ReadBack;
    if tail == [] {
      assert tail + bytes == bytes;
      AppendFound(crc, rs, r);
    } else {
      AppendHidden(crc, rs, tail, bytes, r);
    }
  }

  lemma OneRecord(crc: Crc, r: WalRecord, pos: nat)
    requires WellFormed(crc, r) && Incremental(Decoder(crc))
    ensures Items(Drain(Decoder(crc), Encode(r).value, pos)) == [At(pos, r)]
    ensures End(Drain(Decoder(crc), Encode(r).value, pos)) == Dry([])
  {
    hide Decode, Header, Drain, Items, End, Incremental;
    var bytes := Encode(r).value;
    assert bytes + [] == bytes;
    DecodeEncoded(crc, r, []);
    DrainCons(Decoder(crc), bytes, r, [], pos);
    ShortAsksForMore(crc, []);
    DrainDry(Decoder(crc), [], pos + |bytes|);
  }

  lemma PlacedWithin(crc: Crc, rs: seq<WalRecord>, pos: nat)
    requires AllWellFormed(crc, rs) && pos >= |Image(rs)|
    ensures NoneAt(Placed(rs, 0), pos)
  {
    PlacedBelow(rs, 0);
  }

  lemma {:induction false} PlacedBelow(rs: seq<WalRecord>, pos: nat)
    requires forall i :: 0 <= i < |rs| ==> |rs[i].payload| <= MAX_RECORD_SIZE
    ensures forall i :: 0 <= i < |rs| ==> Placed(rs, pos)[i].pos < pos + |Image(rs)|
  {
    if rs == [] {
    } else {
      PlacedBelow(rs[1..], pos + DiskSize(rs[0]));
      assert |Encode(rs[0]).value| == DiskSize(rs[0]) >= RECORD_HEADER_SIZE;
    }
  }

  /** For example, records behind four or more zero bytes are never read. */
  lemma PaddingHidesAppends(crc: Crc, rs: seq<WalRecord>, zeros: Buffer, more: Buffer)
    requires AllWellFormed(crc, rs) && AllZero(zeros) && |zeros| >= 4
    ensures ReadImage(crc, Image(rs) + (zeros + more)) == Ok(Placed(rs, 0))
  {
    var tail := zeros + more;
    if |tail| >= 24 {
      assert tail[..4] == [0, 0, 0, 0];
    }
    DecoderIncremental(crc);
    DrainImage(crc, rs, tail, 0);
  }

  class Segment {
    const id: nat
    const maxSize: nat
    var data: Buffer      // the file's contents
    var size: nat
    var syncPending: bool
    ghost var synced: nat // length of the prefix known to be on disk

    ghost predicate Valid()
      reads this
    {
      && size == |data|
      && synced <= |data|
      && (!syncPending ==> synced == |data|)
    }

    /** `create`: a new, empty file. */
    constructor Create(id: nat, maxSize: nat)
      ensures Valid() && this.id == id && this.maxSize == maxSize && data == [] && !syncPending
    {
      this.id, this.maxSize := id, maxSize;
      data, size, syncPending, synced := [], 0, false, 0;
    }

    /** `open`: an existing file, as found on disk. */
    constructor Open(id: nat, maxSize: nat, contents: Buffer)
      ensures Valid() && this.id == id && this.maxSize == maxSize && data == contents && !syncPending
    {
      this.id, this.maxSize := id, maxSize;
      data, size, syncPending, synced := contents, |contents|, false, |contents|;
    }

    predicate CanFit(recordSize: nat)
      reads this
    {
      size + recordSize <= maxSize
    }

    /** Appends at the end of the file and reports where; an oversized payload changes nothing. */
    method Append(record: WalRecord) returns (r: Result<nat, WalError>)
      requires Valid()
      modifies this
      ensures Valid() && synced == old(synced)
      ensures match Encode(record)
              case Err(e) => r == Err(e) && data == old(data) && syncPending == old(syncPending)
              case Ok(bytes) => r == Ok(|old(data)|) && data == old(data) + bytes && syncPending
    {
      match Encode(record)
      case Err(e) => return Err(e);
      case Ok(bytes) =>
        var offset := size;
        data := data + bytes;
        size := size + |bytes|;
        syncPending := true;
        return Ok(offset);
    }

    method Sync()
      requires Valid()
      modifies this
      ensures Valid() && data == old(data) && !syncPending && synced == |data|
    {
      if syncPending {
        synced := |data|;
        syncPending := false;
      }
    }

    /**
     Reads the file in chunks of whatever length the reader returns, decoding as the bytes arrive. The result
     does not depend on the chunks: it is the decoding of the whole file.
     */
    method ReadAll(crc: Crc) returns (r: Result<Records, ReadError>)
      requires Valid()
      ensures r == ReadImage(crc, data)
    {
      hide Decode, Pending, Drain, Items, End, Incremental;
      var records: Records := [];
      var offset: nat, cursor: nat := 0, 0;
      var buf: Buffer := [];
      DecoderIncremental(crc);
      PendingStart(Decoder(crc), data);
      ShortAsksForMore(crc, buf);
      assert buf + data[cursor..] == data;
      while cursor < |data|
        invariant cursor <= |data| && Decode(crc, buf).More?
        invariant Pending(Decoder(crc), data, records, buf + data[cursor..], offset)
        decreases |data| - cursor
      {
        var n: nat :| 1 <= n <= READ_CHUNK && n <= |data| - cursor;
        MoveCursor(buf, data, cursor, n);
        buf := buf + data[cursor..cursor + n];
        cursor := cursor + n;
        while |buf| >= RECORD_HEADER_SIZE
          invariant Pending(Decoder(crc), data, records, buf + data[cursor..], offset)
          decreases |buf|
        {
          PendingStep(Decoder(crc), data, records, buf, data[cursor..], offset);
          match Decode(crc, buf)
          case Item(record, used) =>
            DecodeSound(crc, buf);
            records := records + [At(offset, record)];
            offset := offset + DiskSize(record);
            buf := buf[used..];
          case More =>
            break;
          case Fail(e, _) =>
            return Err(ReadError(offset, e));
        }
        ShortAsksForMore(crc, buf);
      }
      assert buf + data[cursor..] == buf;
      PendingDone(Decoder(crc), data, records, buf, offset);
      return Ok(records);
    }

    /** Cuts the file at `offset`. */
    method TruncateAt(offset: nat)
      requires Valid() && offset <= |data|
      modifies this
      ensures Valid() && data == old(data)[..offset] && !syncPending
    {
      data := data[..offset];
      size := offset;
      synced := if synced <= offset then synced else offset;
      Sync();
    }
  }

  lemma MoveCursor(buf: Buffer, data: Buffer, cursor: nat, n: nat)
    requires cursor + n <= |data|
    ensures buf + data[cursor..] == (buf + data[cursor..cursor + n]) + data[cursor + n..]
  {
    assert data[cursor..] == data[cursor..cursor + n] + data[cursor + n..];
  }

  lemma ShortAsksForMore(crc: Crc, buf: Buffer)
    ensures |buf| < RECORD_HEADER_SIZE ==> Decode(crc, buf).More?
  {
  }
}
