/** Byte buffers and the big-endian integer fields of the record and frame headers. */
module Bytes {

  type Byte = b: int | 0 <= b < 256
  type Buffer = seq<Byte>
  type U32 = n: int | 0 <= n < 0x1_0000_0000

  function Pow256(k: nat): (p: nat)
    ensures p > 0
  {
    if k == 0 then 1 else 256 * Pow256(k - 1)
  }

  /** The low `k` bytes of `v`, most significant first: `put_u16`, `put_u32`, `put_u64` after an `as` cast. */
  function BigEndian(v: nat, k: nat): (s: Buffer)
    ensures |s| == k
  {
    if k == 0 then [] else BigEndian(v / 256, k - 1) + [v % 256]
  }

  /** `from_be_bytes`. */
  function FromBigEndian(s: Buffer): nat {
    if s == [] then 0 else FromBigEndian(s[..|s| - 1]) * 256 + s[|s| - 1]
  }

  /** A field that fits its width survives the round trip. */
  lemma {:induction false} FieldRoundTrip(v: nat, k: nat)
    requires v < Pow256(k)
    ensures FromBigEndian(BigEndian(v, k)) == v
  {
    if k > 0 {
      assert v / 256 < Pow256(k - 1);
      FieldRoundTrip(v / 256, k - 1);
      assert BigEndian(v, k)[..k - 1] == BigEndian(v / 256, k - 1);
    }
  }

  /** Every header field fits the width it is read from. */
  lemma {:induction false} FromBigEndianBound(s: Buffer)
    ensures FromBigEndian(s) < Pow256(|s|)
  {
    if s == [] {
    } else {
      FromBigEndianBound(s[..|s| - 1]);
    }
  }

  lemma Pow256Values()
    ensures Pow256(2) == 0x1_0000 && Pow256(4) == 0x1_0000_0000 && Pow256(8) == 0x1_0000_0000_0000_0000
  {
    assert Pow256(1) == 256;
    assert Pow256(2) == 0x1_0000;
    assert Pow256(3) == 0x100_0000;
    assert Pow256(4) == 0x1_0000_0000;
    assert Pow256(6) == 256 * Pow256(5) == 65536 * Pow256(4);
    assert Pow256(8) == 256 * Pow256(7) == 65536 * Pow256(6);
  }

  /** Two, four and eight bytes as the number they stand for, written out. */
  function U16At(s: Buffer, i: nat): nat
    requires i + 2 <= |s|
  {
    0x100 * (s[i] as int) + s[i + 1]
  }

  function U32At(s: Buffer, i: nat): nat
    requires i + 4 <= |s|
  {
    0x100_0000 * (s[i] as int) + 0x1_0000 * (s[i + 1] as int) + 0x100 * (s[i + 2] as int) + s[i + 3]
  }

  function U64At(s: Buffer, i: nat): nat
    requires i + 8 <= |s|
  {
    0x1_0000_0000 * U32At(s, i) + U32At(s, i + 4)
  }

  lemma TwoBytes(s: Buffer)
    requires |s| == 2
    ensures FromBigEndian(s) == U16At(s, 0)
  {
    assert FromBigEndian(s[..1]) == s[0] by { assert s[..1][..0] == []; }
  }

  lemma FourBytes(s: Buffer)
    requires |s| == 4
    ensures FromBigEndian(s) == U32At(s, 0)
  {
    assert s[..3][..2] == s[..2];
    TwoBytes(s[..2]);
  }

  lemma EightBytes(s: Buffer)
    requires |s| == 8
    ensures FromBigEndian(s) == U64At(s, 0)
  {
    assert s[..7][..6] == s[..6] && s[..6][..5] == s[..5] && s[..5][..4] == s[..4];
    FourBytes(s[..4]);
    assert FromBigEndian(s[..5]) == FromBigEndian(s[..4]) * 256 + s[4];
    assert FromBigEndian(s[..6]) == FromBigEndian(s[..5]) * 256 + s[5];
    assert FromBigEndian(s[..7]) == FromBigEndian(s[..6]) * 256 + s[6];
  }

  /** What a big-endian field says: its first byte counts most. */
  lemma FieldsAt(s: Buffer, i: nat)
    ensures i + 2 <= |s| ==> FromBigEndian(s[i..i + 2]) == U16At(s, i)
    ensures i + 4 <= |s| ==> FromBigEndian(s[i..i + 4]) == U32At(s, i)
    ensures i + 8 <= |s| ==> FromBigEndian(s[i..i + 8]) == U64At(s, i)
  {
    if i + 2 <= |s| {
      TwoBytes(s[i..i + 2]);
    }
    if i + 4 <= |s| {
      FourBytes(s[i..i + 4]);
    }
    if i + 8 <= |s| {
      EightBytes(s[i..i + 8]);
    }
  }

  predicate AllZero(s: Buffer) {
    forall i :: 0 <= i < |s| ==> s[i] == 0
  }
}
