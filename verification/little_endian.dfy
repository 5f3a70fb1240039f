/** Unsigned and two's-complement little-endian byte strings.

    A byte string is a `seq<int>` whose every element lies in 0..255; the
    first byte is the least significant one. These are the encodings that a
    `DataView` setter uses when called with `littleEndian = true`.
 */
module LittleEndian {

  predicate IsByte(x: int) {
    0 <= x < 0x100
  }

  predicate IsBytes(s: seq<int>) {
    forall i :: 0 <= i < |s| ==> IsByte(s[i])
  }

  lemma BytesConcat(a: seq<int>, b: seq<int>)
    requires IsBytes(a) && IsBytes(b)
    ensures IsBytes(a + b)
  {
    forall i | 0 <= i < |a + b|
      ensures IsByte((a + b)[i])
    {
      if i >= |a| {
        assert (a + b)[i] == b[i - |a|];
      }
    }
  }

  /** A signed 16-bit integer. */
  predicate IsInt16(v: int) {
    -0x8000 <= v <= 0x7FFF
  }

  /** 256^n, the number of distinct values that n bytes can hold. */
  function Pow256(n: nat): nat {
    if n == 0 then 1 else 0x100 * Pow256(n - 1)
  }

  lemma Pow256Small()
    ensures Pow256(2) == 0x1_0000
    ensures Pow256(4) == 0x1_0000_0000
  {
  }

  /** The unsigned value of a little-endian byte string. */
  function FromLE(b: seq<int>): (v: int)
    ensures IsBytes(b) ==> 0 <= v < Pow256(|b|)
  {
    if |b| == 0 then 0 else b[0] + 0x100 * FromLE(b[1..])
  }

  /** The n-byte little-endian representation of v. */
  function ToLE(v: nat, n: nat): (b: seq<int>)
    requires v < Pow256(n)
    ensures |b| == n && IsBytes(b)
    ensures FromLE(b) == v
  {
    if n == 0 then [] else [v % 0x100] + ToLE(v / 0x100, n - 1)
  }

  /** Every byte string is the representation of its own value. */
  lemma {:induction false} ToLEFromLE(b: seq<int>)
    requires IsBytes(b)
    ensures ToLE(FromLE(b), |b|) == b
  {
    if |b| > 0 {
      var rest := FromLE(b[1..]);
      ToLEFromLE(b[1..]);
      assert FromLE(b) % 0x100 == b[0] && FromLE(b) / 0x100 == rest;
    }
  }

  /** Two byte strings of the same length with the same value are equal. */
  lemma FromLEInjective(a: seq<int>, b: seq<int>)
    requires IsBytes(a) && IsBytes(b) && |a| == |b|
    requires FromLE(a) == FromLE(b)
    ensures a == b
  {
    ToLEFromLE(a);
    ToLEFromLE(b);
  }

  /** Reads two bytes as a two's-complement signed 16-bit integer. */
  function DecodeI16(b: seq<int>): (v: int)
    requires |b| == 2
    ensures IsBytes(b) ==> IsInt16(v)
  {
    Pow256Small();
    var u := FromLE(b);
    if u >= 0x8000 then u - 0x1_0000 else u
  }

  /** Writes a signed 16-bit integer as two two's-complement bytes. */
  function EncodeI16(v: int): (b: seq<int>)
    requires IsInt16(v)
    ensures |b| == 2 && IsBytes(b)
    ensures DecodeI16(b) == v
  {
    Pow256Small();
    ToLE(if v < 0 then v + 0x1_0000 else v, 2)
  }

  /** Every pair of bytes is the encoding of the value it decodes to. */
  lemma EncodeDecodeI16(b: seq<int>)
    requires |b| == 2 && IsBytes(b)
    ensures EncodeI16(DecodeI16(b)) == b
  {
    Pow256Small();
    ToLEFromLE(b);
  }
}
