/** Packed WAL offsets: the segment id above 40 bits of offset, in a 64-bit word. */
module Offset {

  const SEGMENT_SPAN: nat := 0x100_0000_0000
  const MAX_SEGMENT: nat := 0x100_0000
  const WORD: nat := 0x1_0000_0000_0000_0000

  /** `WalOffset::new`, for offsets below 40 bits: the shift drops the bits of the id above 24. */
  function Pack(segment: nat, offset: nat): nat {
    segment * SEGMENT_SPAN % WORD + offset
  }

  function SegmentOf(packed: nat): nat { packed / SEGMENT_SPAN }

  function OffsetOf(packed: nat): nat { packed % SEGMENT_SPAN }

  /** Below 2 to the 24 segments nothing is lost. */
  lemma PackPlain(segment: nat, offset: nat)
    requires offset < SEGMENT_SPAN && segment < MAX_SEGMENT
    ensures Pack(segment, offset) == segment * SEGMENT_SPAN + offset < WORD
    ensures SegmentOf(Pack(segment, offset)) == segment && OffsetOf(Pack(segment, offset)) == offset
  {
  }

  /** The segment id can be read back if and only if it has at most 24 bits. */
  lemma PackKeepsSegment(segment: nat, offset: nat)
    requires offset < SEGMENT_SPAN
    ensures SegmentOf(Pack(segment, offset)) == segment <==> segment < MAX_SEGMENT
  {
    if segment < MAX_SEGMENT {
      PackPlain(segment, offset);
    } else {
      assert segment * SEGMENT_SPAN % WORD < WORD;
    }
  }

  /** Packed offsets order records by segment first, then by offset inside it. */
  lemma PackOrder(s1: nat, o1: nat, s2: nat, o2: nat)
    requires o1 < SEGMENT_SPAN && o2 < SEGMENT_SPAN && s1 < MAX_SEGMENT && s2 < MAX_SEGMENT
    ensures Pack(s1, o1) < Pack(s2, o2) <==> s1 < s2 || (s1 == s2 && o1 < o2)
  {
    PackPlain(s1, o1);
    PackPlain(s2, o2);
  }
}
