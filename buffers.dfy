/** The byte-buffer primitives of the host runtime that the simulation relies on:
    zero-filled allocation, bounded prefix copy, little-endian unsigned fields at
    fixed offsets, and lexicographic comparison. */
module Buffers {

  /** One byte of a buffer. */
  type Byte = b: int | 0 <= b < 256

  /** 256 to the power `width`: the number of values a `width`-byte field holds. */
  function Pow256(width: nat): (r: nat)
    ensures r >= 1
  {
    if width == 0 then 1 else 256 * Pow256(width - 1)
  }

  const U32Limit: nat := 0x1_0000_0000
  const U64Limit: nat := 0x1_0000_0000_0000_0000

  lemma FieldLimits()
    ensures Pow256(4) == U32Limit
    ensures Pow256(8) == U64Limit
  {
  }

  /** A freshly allocated buffer of `n` bytes: all zero. */
  function Zeroes(n: nat): (r: seq<Byte>)
    ensures |r| == n
    ensures forall i :: 0 <= i < n ==> r[i] == 0
  {
    seq(n, _ => 0)
  }

  /** A buffer of `n` bytes, each the fill value reduced to a byte. */
  function Filled(n: nat, value: int): (r: seq<Byte>)
    ensures |r| == n
    ensures forall i :: 0 <= i < n ==> r[i] == value % 256
  {
    seq(n, _ => value % 256)
  }

  /** The `width` little-endian bytes of `v`. */
  function EncodeLE(v: nat, width: nat): (r: seq<Byte>)
    requires v < Pow256(width)
    ensures |r| == width
  {
    if width == 0 then [] else [v % 256] + EncodeLE(v / 256, width - 1)
  }

  /** The unsigned value of little-endian bytes. */
  function DecodeLE(s: seq<Byte>): (v: nat)
    ensures v < Pow256(|s|)
  {
    if s == [] then 0 else s[0] + 256 * DecodeLE(s[1..])
  }

  /** Reading back a field returns the value written. */
  lemma {:induction false} DecodeEncodeLE(v: nat, width: nat)
    requires v < Pow256(width)
    ensures DecodeLE(EncodeLE(v, width)) == v
  {
    if width > 0 {
      DecodeEncodeLE(v / 256, width - 1);
      assert EncodeLE(v, width)[1..] == EncodeLE(v / 256, width - 1);
    }
  }

  /** Every byte string is the encoding of the value it decodes to. */
  lemma {:induction false} EncodeDecodeLE(s: seq<Byte>)
    ensures EncodeLE(DecodeLE(s), |s|) == s
  {
    if s != [] {
      EncodeDecodeLE(s[1..]);
      var v := DecodeLE(s);
      assert v % 256 == s[0] && v / 256 == DecodeLE(s[1..]);
    }
  }

  /** `s` with the `width` bytes at `offset` replaced by the little-endian `v`. */
  function PutLE(s: seq<Byte>, offset: nat, v: nat, width: nat): (r: seq<Byte>)
    requires offset + width <= |s| && v < Pow256(width)
    ensures |r| == |s|
    ensures r[offset..offset + width] == EncodeLE(v, width)
    ensures forall i :: 0 <= i < |s| && !(offset <= i < offset + width) ==> r[i] == s[i]
  {
    s[..offset] + EncodeLE(v, width) + s[offset + width..]
  }

  /** The unsigned little-endian field of `width` bytes at `offset`. */
  function GetLE(s: seq<Byte>, offset: nat, width: nat): nat
    requires offset + width <= |s|
  {
    DecodeLE(s[offset..offset + width])
  }

  /** Reading a field right after writing it yields the value written. */
  lemma GetPutSame(s: seq<Byte>, offset: nat, v: nat, width: nat)
    requires offset + width <= |s| && v < Pow256(width)
    ensures GetLE(PutLE(s, offset, v, width), offset, width) == v
  {
    DecodeEncodeLE(v, width);
  }

  /** Writing a field leaves every field that does not overlap it as it was. */
  lemma GetPutOther(s: seq<Byte>, offset: nat, v: nat, width: nat, offset': nat, width': nat)
    requires offset + width <= |s| && v < Pow256(width)
    requires offset' + width' <= |s|
    requires offset' + width' <= offset || offset + width <= offset'
    ensures GetLE(PutLE(s, offset, v, width), offset', width') == GetLE(s, offset', width')
  {
    var r := PutLE(s, offset, v, width);
    assert r[offset'..offset' + width'] == s[offset'..offset' + width'];
  }

  /** One field store: `value` as `width` little-endian bytes at `offset`. */
  datatype FieldWrite = FieldWrite(offset: nat, width: nat, value: nat)

  /** Every store of `fs` lies inside a buffer of `length` bytes and its value fits its width. */
  predicate AllFit(fs: seq<FieldWrite>, length: nat) {
    forall i :: 0 <= i < |fs| ==> fs[i].offset + fs[i].width <= length && fs[i].value < Pow256(fs[i].width)
  }

  /** The field at `offset` of `width` bytes does not overlap the store `f`. */
  predicate Apart(offset: nat, width: nat, f: FieldWrite) {
    offset + width <= f.offset || f.offset + f.width <= offset
  }

  /** The field at `offset` of `width` bytes overlaps no store of `fs`. */
  predicate ApartFromAll(offset: nat, width: nat, fs: seq<FieldWrite>) {
    forall i :: 0 <= i < |fs| ==> Apart(offset, width, fs[i])
  }

  /** No two stores of `fs` overlap. */
  predicate PairwiseApart(fs: seq<FieldWrite>) {
    forall i, j :: 0 <= i < |fs| && 0 <= j < |fs| && i != j ==> Apart(fs[i].offset, fs[i].width, fs[j])
  }

  /** `s` after the stores `fs`, in order. */
  function PutAll(s: seq<Byte>, fs: seq<FieldWrite>): (r: seq<Byte>)
    requires AllFit(fs, |s|)
    ensures |r| == |s|
    decreases |fs|
  {
    if fs == [] then s else PutAll(PutLE(s, fs[0].offset, fs[0].value, fs[0].width), fs[1..])
  }

  /** The first store happens first. */
  lemma PutAllFirst(s: seq<Byte>, fs: seq<FieldWrite>)
    requires AllFit(fs, |s|) && fs != []
    ensures fs[0].offset + fs[0].width <= |s| && fs[0].value < Pow256(fs[0].width)
    ensures AllFit(fs[1..], |s|)
    ensures PutAll(s, fs) == PutAll(PutLE(s, fs[0].offset, fs[0].value, fs[0].width), fs[1..])
  {
  }

  /** A field that no store touches keeps its value. */
  lemma {:induction false} GetPutAllOther(s: seq<Byte>, fs: seq<FieldWrite>, offset: nat, width: nat)
    requires AllFit(fs, |s|) && offset + width <= |s|
    requires ApartFromAll(offset, width, fs)
    ensures GetLE(PutAll(s, fs), offset, width) == GetLE(s, offset, width)
    decreases |fs|
  {
    if fs != [] {
      var s' := PutLE(s, fs[0].offset, fs[0].value, fs[0].width);
      GetPutOther(s, fs[0].offset, fs[0].value, fs[0].width, offset, width);
      GetPutAllOther(s', fs[1..], offset, width);
    }
  }

  /** After non-overlapping stores, each field reads back the value stored. */
  lemma {:induction false} GetPutAll(s: seq<Byte>, fs: seq<FieldWrite>, i: nat)
    requires AllFit(fs, |s|) && PairwiseApart(fs) && i < |fs|
    ensures GetLE(PutAll(s, fs), fs[i].offset, fs[i].width) == fs[i].value
    decreases |fs|
  {
    var s' := PutLE(s, fs[0].offset, fs[0].value, fs[0].width);
    if i == 0 {
      GetPutSame(s, fs[0].offset, fs[0].value, fs[0].width);
      assert ApartFromAll(fs[0].offset, fs[0].width, fs[1..]) by {
        forall j | 0 <= j < |fs[1..]|
          ensures Apart(fs[0].offset, fs[0].width, fs[1..][j])
        {
          assert fs[1..][j] == fs[j + 1];
        }
      }
      GetPutAllOther(s', fs[1..], fs[0].offset, fs[0].width);
    } else {
      assert PairwiseApart(fs[1..]) by {
        forall a, b | 0 <= a < |fs[1..]| && 0 <= b < |fs[1..]| && a != b
          ensures Apart(fs[1..][a].offset, fs[1..][a].width, fs[1..][b])
        {
          assert fs[1..][a] == fs[a + 1] && fs[1..][b] == fs[b + 1];
        }
      }
      GetPutAll(s', fs[1..], i - 1);
    }
  }

  /** A byte outside every store is untouched. */
  lemma {:induction false} PutAllElsewhere(s: seq<Byte>, fs: seq<FieldWrite>, k: nat)
    requires AllFit(fs, |s|) && k < |s| && ApartFromAll(k, 1, fs)
    ensures PutAll(s, fs)[k] == s[k]
    decreases |fs|
  {
    if fs != [] {
      var s' := PutLE(s, fs[0].offset, fs[0].value, fs[0].width);
      PutAllElsewhere(s', fs[1..], k);
    }
  }

  /** `writeUIntLE` on a buffer: the field at `offset` is replaced in place. */
  method WriteLE(buf: array<Byte>, offset: nat, v: nat, width: nat)
    requires offset + width <= buf.Length && v < Pow256(width)
    modifies buf
    ensures buf[..] == PutLE(old(buf[..]), offset, v, width)
  {
    var bytes := EncodeLE(v, width);
    forall i | 0 <= i < width {
      buf[offset + i] := bytes[i];
    }
    assert buf[..] == PutLE(old(buf[..]), offset, v, width);
  }

  /** `src.copy(dst)`: as many leading bytes of `src` as fit are copied to the
      front of `dst`; the rest of `dst` is untouched. */
  method CopyInto(src: seq<Byte>, dst: array<Byte>) returns (copied: nat)
    modifies dst
    ensures copied == if |src| < dst.Length then |src| else dst.Length
    ensures dst[..] == src[..copied] + old(dst[copied..])
  {
    copied := if |src| < dst.Length then |src| else dst.Length;
    forall i | 0 <= i < copied {
      dst[i] := src[i];
    }
    assert dst[..] == src[..copied] + old(dst[copied..]);
  }

  /** `a.compare(b)`: the sign of the lexicographic order of the two byte strings,
      a proper prefix ordering before the longer string. */
  function Compare(a: seq<Byte>, b: seq<Byte>): (r: int)
    ensures r == -1 || r == 0 || r == 1
  {
    if a == [] && b == [] then 0
    else if a == [] then -1
    else if b == [] then 1
    else if a[0] < b[0] then -1
    else if a[0] > b[0] then 1
    else Compare(a[1..], b[1..])
  }

  /** Two byte strings compare equal exactly when they are equal. */
  lemma {:induction false} CompareZeroIffEqual(a: seq<Byte>, b: seq<Byte>)
    ensures Compare(a, b) == 0 <==> a == b
  {
    if a != [] && b != [] && a[0] == b[0] {
      CompareZeroIffEqual(a[1..], b[1..]);
      assert a == [a[0]] + a[1..] && b == [b[0]] + b[1..];
    }
  }

  /** Swapping the operands flips the sign of the comparison. */
  lemma {:induction false} CompareAntisymmetric(a: seq<Byte>, b: seq<Byte>)
    ensures Compare(b, a) == -Compare(a, b)
  {
    if a != [] && b != [] && a[0] == b[0] {
      CompareAntisymmetric(a[1..], b[1..]);
    }
  }

  /** A nonzero comparison is decided by the first differing byte, or by length
      when one string is a prefix of the other. */
  lemma {:induction false} CompareFirstDifference(a: seq<Byte>, b: seq<Byte>, k: nat)
    requires k <= |a| && k <= |b| && a[..k] == b[..k]
    requires (k < |a| && k < |b| && a[k] != b[k]) || k == |a| || k == |b|
    ensures k < |a| && k < |b| ==> Compare(a, b) == (if a[k] < b[k] then -1 else 1)
    ensures k == |a| && k < |b| ==> Compare(a, b) == -1
    ensures k < |a| && k == |b| ==> Compare(a, b) == 1
  {
    if k > 0 {
      assert a[0] == a[..k][0] && b[0] == b[..k][0];
      assert a[1..][..k - 1] == a[..k][1..];
      assert b[1..][..k - 1] == b[..k][1..];
      CompareFirstDifference(a[1..], b[1..], k - 1);
    }
  }
}
