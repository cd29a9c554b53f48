/**
 Incremental decoding of a byte stream.

 The record reader of a segment and the frame decoder of a connection are the same machine: a buffer that grows
 by arbitrary chunks, and a decoder that asks for more bytes, takes an item off the front, or fails.
 */
module Stream {
  import opened Common
  import opened Bytes

  /** One call of a decoder: `used` is what it consumed from the front of the buffer. */
  datatype Step<T, E> = More | Item(item: T, used: nat) | Fail(error: E, used: nat)

  /** An answer never changes when bytes are appended behind it, and an item is never empty. */
  ghost predicate Incremental<T(!new), E(!new)>(decode: Buffer -> Step<T, E>) {
    && (forall b :: decode(b).Item? ==> 0 < decode(b).used <= |b|)
    && (forall b :: decode(b).Fail? ==> decode(b).used <= |b|)
    && (forall b, x {:trigger decode(b + x)} :: !decode(b).More? ==> decode(b + x) == decode(b))
  }

  /** A whole decoding: items with their positions, ending where the bytes run dry or at a failure. */
  datatype Trace<T, E> =
    | Dry(rest: Buffer)
    | Failed(pos: nat, error: E, rest: Buffer)
    | Next(pos: nat, item: T, tail: Trace<T, E>)

  datatype Positioned<T> = At(pos: nat, item: T)

  /** Decodes the buffer at once, `pos` being the position of its first byte. */
  function Drain<T(!new), E(!new)>(decode: Buffer -> Step<T, E>, buf: Buffer, pos: nat): Trace<T, E>
    requires Incremental(decode)
    decreases |buf|
  {
    match decode(buf)
    case More => Dry(buf)
    case Fail(e, n) => Failed(pos, e, buf[n..])
    case Item(t, n) => Next(pos, t, Drain(decode, buf[n..], pos + n))
  }

  function Items<T, E>(trace: Trace<T, E>): seq<Positioned<T>> {
    match trace
    case Next(pos, t, tail) => [At(pos, t)] + Items(tail)
    case _ => []
  }

  /** The items stand one behind the other from `pos` on, each decoded from the bytes where it stands. */
  ghost predicate Chained<T(!new), E(!new)>(
    decode: Buffer -> Step<T, E>, buf: Buffer, pos: nat, items: seq<Positioned<T>>)
    decreases |items|
  {
    items == [] ||
    (&& items[0].pos == pos
     && var step := decode(buf);
        && step.Item? && step.item == items[0].item && step.used <= |buf|
        && Chained(decode, buf[step.used..], pos + step.used, items[1..]))
  }

  lemma {:induction false} ItemsAreChained<T(!new), E(!new)>(decode: Buffer -> Step<T, E>, buf: Buffer, pos: nat)
    requires Incremental(decode)
    ensures Chained(decode, buf, pos, Items(Drain(decode, buf, pos)))
    decreases |buf|
  {
    if decode(buf).Item? {
      var n, items := decode(buf).used, Items(Drain(decode, buf, pos));
      ItemsAreChained(decode, buf[n..], pos + n);
      assert items[1..] == Items(Drain(decode, buf[n..], pos + n));
    }
  }

  /** The `Dry` or `Failed` that a decoding ends with. */
  function End<T, E>(trace: Trace<T, E>): (end: Trace<T, E>)
    ensures !end.Next?
  {
    match trace
    case Next(_, _, tail) => End(tail)
    case _ => trace
  }

  /** Continues a decoding with bytes that arrived later; `end` is the position behind the bytes decoded so far. */
  ghost function Resume<T(!new), E(!new)>(
    decode: Buffer -> Step<T, E>, trace: Trace<T, E>, more: Buffer, end: nat): Trace<T, E>
    requires Incremental(decode)
  {
    match trace
    case Dry(rest) => Drain(decode, rest + more, if end < |rest| then 0 else end - |rest|)
    case Failed(pos, e, rest) => Failed(pos, e, rest + more)
    case Next(pos, t, tail) => Next(pos, t, Resume(decode, tail, more, end))
  }

  /** Decoding what is there and then the rest is decoding everything at once, wherever the cut falls. */
  lemma {:induction false} DrainAppend<T(!new), E(!new)>(
    decode: Buffer -> Step<T, E>, a: Buffer, more: Buffer, pos: nat)
    requires Incremental(decode)
    ensures Drain(decode, a + more, pos) == Resume(decode, Drain(decode, a, pos), more, pos + |a|)
    decreases |a|
  {
    var step := decode(a);
    if !step.More? {
      var n := step.used;
      assert decode(a + more) == step;
      assert (a + more)[n..] == a[n..] + more;
      if step.Item? {
        DrainAppend(decode, a[n..], more, pos + n);
        assert pos + n + |a[n..]| == pos + |a|;
      }
    }
  }

  lemma DrainDry<T(!new), E(!new)>(decode: Buffer -> Step<T, E>, buf: Buffer, pos: nat)
    requires Incremental(decode) && decode(buf).More?
    ensures Items(Drain(decode, buf, pos)) == [] && End(Drain(decode, buf, pos)) == Dry(buf)
  {
  }

  lemma DrainFail<T(!new), E(!new)>(decode: Buffer -> Step<T, E>, buf: Buffer, pos: nat)
    requires Incremental(decode) && decode(buf).Fail?
    ensures Items(Drain(decode, buf, pos)) == []
    ensures End(Drain(decode, buf, pos)) == Failed(pos, decode(buf).error, buf[decode(buf).used..])
  {
  }

  /** The first item, and what is left behind it. */
  lemma DrainNext<T(!new), E(!new)>(decode: Buffer -> Step<T, E>, buf: Buffer, pos: nat)
    requires Incremental(decode) && decode(buf).Item?
    ensures var trace := Drain(decode, buf, pos);
            var later := Drain(decode, buf[decode(buf).used..], pos + decode(buf).used);
            Items(trace) == [At(pos, decode(buf).item)] + Items(later) && End(trace) == End(later)
  {
  }

  /** An item whose bytes are `bytes`, in front of anything. */
  lemma DrainCons<T(!new), E(!new)>(decode: Buffer -> Step<T, E>, bytes: Buffer, item: T, after: Buffer, pos: nat)
    requires Incremental(decode) && decode(bytes + after) == Item(item, |bytes|)
    ensures Items(Drain(decode, bytes + after, pos)) == [At(pos, item)] + Items(Drain(decode, after, pos + |bytes|))
    ensures End(Drain(decode, bytes + after, pos)) == End(Drain(decode, after, pos + |bytes|))
  {
    assert (bytes + after)[|bytes|..] == after;
    DrainNext(decode, bytes + after, pos);
  }

  /** What a resumed decoding adds to one that ran dry. */
  lemma {:induction false} ResumeItems<T(!new), E(!new)>(
    decode: Buffer -> Step<T, E>, trace: Trace<T, E>, more: Buffer, end: nat)
    requires Incremental(decode)
    requires End(trace).Dry? && |End(trace).rest| <= end
    ensures var rest := End(trace).rest;
            var later := Drain(decode, rest + more, end - |rest|);
            && Items(Resume(decode, trace, more, end)) == Items(trace) + Items(later)
            && End(Resume(decode, trace, more, end)) == End(later)
  {
    if trace.Next? {
      ResumeItems(decode, trace.tail, more, end);
    }
  }

  ghost predicate Ordered<T>(items: seq<Positioned<T>>, lo: nat, hi: nat) {
    && (forall i :: 0 <= i < |items| ==> lo <= items[i].pos < hi)
    && (forall i, j :: 0 <= i < j < |items| ==> items[i].pos < items[j].pos)
  }

  /** Items come at strictly increasing positions inside the buffer. */
  lemma {:induction false} DrainPositions<T(!new), E(!new)>(decode: Buffer -> Step<T, E>, buf: Buffer, pos: nat)
    requires Incremental(decode)
    ensures Ordered(Items(Drain(decode, buf, pos)), pos, pos + |buf|)
    decreases |buf|
  {
    if decode(buf).Item? {
      var n := decode(buf).used;
      DrainPositions(decode, buf[n..], pos + n);
    }
  }

  /** Decoding stops dry exactly at a suffix of the buffer that asks for more. */
  lemma {:induction false} DrainEnd<T(!new), E(!new)>(decode: Buffer -> Step<T, E>, buf: Buffer, pos: nat)
    requires Incremental(decode)
    ensures var end := End(Drain(decode, buf, pos));
            end.Dry? ==> |end.rest| <= |buf| && end.rest == buf[|buf| - |end.rest|..] && decode(end.rest).More?
    decreases |buf|
  {
    if decode(buf).Item? {
      var n := decode(buf).used;
      DrainEnd(decode, buf[n..], pos + n);
    }
  }

  /** A reader's progress: the items so far and those still in `unread` are the items of the whole stream. */
  ghost predicate Pending<T(!new), E(!new)>(
    decode: Buffer -> Step<T, E>, whole: Buffer, items: seq<Positioned<T>>, unread: Buffer, pos: nat)
    requires Incremental(decode)
  {
    && Items(Drain(decode, whole, 0)) == items + Items(Drain(decode, unread, pos))
    && End(Drain(decode, whole, 0)) == End(Drain(decode, unread, pos))
  }

  lemma PendingStart<T(!new), E(!new)>(decode: Buffer -> Step<T, E>, whole: Buffer)
    requires Incremental(decode)
    ensures Pending(decode, whole, [], whole, 0)
  {
    var trace := Drain(decode, whole, 0);
    assert [] + Items(trace) == Items(trace);
  }

  /** One decode call on the bytes at hand advances the decoding of everything unread. */
  lemma PendingStep<T(!new), E(!new)>(
    decode: Buffer -> Step<T, E>, whole: Buffer, items: seq<Positioned<T>>, buf: Buffer, later: Buffer, pos: nat)
    requires Incremental(decode)
    requires Pending(decode, whole, items, buf + later, pos)
    ensures match decode(buf)
            case Item(item, used) =>
              Pending(decode, whole, items + [At(pos, item)], buf[used..] + later, pos + used)
            case Fail(e, used) =>
              End(Drain(decode, whole, 0)) == Failed(pos, e, buf[used..] + later)
              && Items(Drain(decode, whole, 0)) == items
            case More => true
  {
    hide Drain, Items, End;
    var step := decode(buf);
    if !step.More? {
      assert decode(buf + later) == step;
      assert (buf + later)[step.used..] == buf[step.used..] + later;
      if step.Item? {
        DrainNext(decode, buf + later, pos);
        var left := Items(Drain(decode, buf[step.used..] + later, pos + step.used));
        assert items + ([At(pos, step.item)] + left) == (items + [At(pos, step.item)]) + left;
      } else {
        DrainFail(decode, buf + later, pos);
        assert items + [] == items;
      }
    }
  }

  lemma PendingDone<T(!new), E(!new)>(
    decode: Buffer -> Step<T, E>, whole: Buffer, items: seq<Positioned<T>>, buf: Buffer, pos: nat)
    requires Incremental(decode)
    requires Pending(decode, whole, items, buf, pos) && decode(buf).More?
    ensures Items(Drain(decode, whole, 0)) == items && End(Drain(decode, whole, 0)) == Dry(buf)
  {
    hide Drain, Items, End;
    DrainDry(decode, buf, pos);
    assert items + [] == items;
  }

  function Concat(chunks: seq<Buffer>): Buffer {
    if chunks == [] then [] else chunks[0] + Concat(chunks[1..])
  }
}
