/** The part of the ECMAScript `DataView` that the WAV encoder uses.

    A view is modelled as the byte string it covers. Each setter first
    converts its number argument with the corresponding ECMAScript
    conversion (ToUint8, ToUint16, ToUint32 or ToInt16), which reduces it
    modulo 2^8, 2^16 or 2^32, and then stores the little-endian bytes at the
    given offset, leaving every other byte alone. A setter whose bytes would
    fall outside the view throws a RangeError in ECMAScript; here that is a
    precondition, since every write of the encoder lies inside its buffer.
 */
module DataView {
  import opened LittleEndian

  /** ECMAScript ToUint8 on an integral number. */
  function ToUint8(v: int): (r: int)
    ensures IsByte(r) && (v - r) % 0x100 == 0
    ensures IsByte(v) ==> r == v
  {
    v % 0x100
  }

  /** ECMAScript ToUint16 on an integral number. */
  function ToUint16(v: int): (r: nat)
    ensures r < 0x1_0000 && (v - r) % 0x1_0000 == 0
    ensures 0 <= v < 0x1_0000 ==> r == v
  {
    v % 0x1_0000
  }

  /** ECMAScript ToUint32 on an integral number. */
  function ToUint32(v: int): (r: nat)
    ensures r < 0x1_0000_0000 && (v - r) % 0x1_0000_0000 == 0
    ensures 0 <= v < 0x1_0000_0000 ==> r == v
  {
    v % 0x1_0000_0000
  }

  /** ECMAScript ToInt16 on an integral number: wraps into -32768..32767. */
  function ToInt16(v: int): (r: int)
    ensures IsInt16(r) && (v - r) % 0x1_0000 == 0
    ensures IsInt16(v) ==> r == v
  {
    var u := v % 0x1_0000;
    if u >= 0x8000 then u - 0x1_0000 else u
  }

  /** A fresh `ArrayBuffer` of n bytes is zero-filled. */
  function Zeros(n: nat): (view: seq<int>)
    ensures |view| == n && IsBytes(view)
  {
    seq(n, _ => 0)
  }

  /** Overwrites the bytes at offset .. offset + |bytes| - 1. */
  function SetBytes(view: seq<int>, offset: nat, bytes: seq<int>): (r: seq<int>)
    requires offset + |bytes| <= |view|
    ensures |r| == |view|
    ensures r[offset..offset + |bytes|] == bytes
    ensures forall j :: 0 <= j < |view| && !(offset <= j < offset + |bytes|) ==> r[j] == view[j]
    ensures IsBytes(view) && IsBytes(bytes) ==> IsBytes(r)
  {
    view[..offset] + bytes + view[offset + |bytes|..]
  }

  /** `view.setUint8(offset, value)`. */
  function SetUint8(view: seq<int>, offset: nat, value: int): (r: seq<int>)
    requires offset < |view|
    ensures |r| == |view| && r[offset] == ToUint8(value)
    ensures forall j :: 0 <= j < |view| && j != offset ==> r[j] == view[j]
    ensures IsBytes(view) ==> IsBytes(r)
  {
    view[offset := ToUint8(value)]
  }

  /** The two little-endian bytes that `setUint16(_, value, true)` stores. */
  function LE16(value: int): (b: seq<int>)
    ensures |b| == 2 && IsBytes(b) && FromLE(b) == ToUint16(value)
  {
    Pow256Small();
    ToLE(ToUint16(value), 2)
  }

  /** The four little-endian bytes that `setUint32(_, value, true)` stores. */
  function LE32(value: int): (b: seq<int>)
    ensures |b| == 4 && IsBytes(b) && FromLE(b) == ToUint32(value)
  {
    Pow256Small();
    ToLE(ToUint32(value), 4)
  }

  /** `view.setUint16(offset, value, true)`. */
  function SetUint16(view: seq<int>, offset: nat, value: int): (r: seq<int>)
    requires offset + 2 <= |view|
    ensures |r| == |view| && FromLE(r[offset..offset + 2]) == ToUint16(value)
    ensures forall j :: 0 <= j < |view| && !(offset <= j < offset + 2) ==> r[j] == view[j]
    ensures IsBytes(view) ==> IsBytes(r)
  {
    SetBytes(view, offset, LE16(value))
  }

  /** `view.setUint32(offset, value, true)`. */
  function SetUint32(view: seq<int>, offset: nat, value: int): (r: seq<int>)
    requires offset + 4 <= |view|
    ensures |r| == |view| && FromLE(r[offset..offset + 4]) == ToUint32(value)
    ensures forall j :: 0 <= j < |view| && !(offset <= j < offset + 4) ==> r[j] == view[j]
    ensures IsBytes(view) ==> IsBytes(r)
  {
    SetBytes(view, offset, LE32(value))
  }

  /** `view.setInt16(offset, value, true)`. */
  function SetInt16(view: seq<int>, offset: nat, value: int): (r: seq<int>)
    requires offset + 2 <= |view|
    ensures |r| == |view| && DecodeI16(r[offset..offset + 2]) == ToInt16(value)
    ensures forall j :: 0 <= j < |view| && !(offset <= j < offset + 2) ==> r[j] == view[j]
    ensures IsBytes(view) ==> IsBytes(r)
  {
    SetBytes(view, offset, EncodeI16(ToInt16(value)))
  }

  /** The bytes `writeString` stores for a string: the low eight bits of
      each character code, one byte per character. */
  function StringBytes(s: string): (b: seq<int>)
    ensures |b| == |s| && IsBytes(b)
  {
    seq(|s|, i requires 0 <= i < |s| => ToUint8(s[i] as int))
  }

  /** `writeString(view, offset, string)` from its loop index i onwards:
      each remaining character's code goes to offset + i, through setUint8. */
  function WriteChars(view: seq<int>, offset: nat, s: string, i: nat): (r: seq<int>)
    requires i <= |s| && offset + |s| <= |view|
    decreases |s| - i
    ensures |r| == |view|
    ensures forall k :: i <= k < |s| ==> r[offset + k] == ToUint8(s[k] as int)
    ensures forall j :: 0 <= j < |view| && !(offset + i <= j < offset + |s|) ==> r[j] == view[j]
    ensures IsBytes(view) ==> IsBytes(r)
  {
    if i == |s| then view
    else WriteChars(SetUint8(view, offset + i, s[i] as int), offset, s, i + 1)
  }

  /** `writeString(view, offset, string)`: byte offset + i receives the low
      eight bits of character i, and no byte outside the string's span moves. */
  function WriteString(view: seq<int>, offset: nat, s: string): (r: seq<int>)
    requires offset + |s| <= |view|
    ensures |r| == |view|
    ensures forall k :: 0 <= k < |s| ==> r[offset + k] == ToUint8(s[k] as int)
    ensures forall j :: 0 <= j < |view| && !(offset <= j < offset + |s|) ==> r[j] == view[j]
    ensures IsBytes(view) ==> IsBytes(r)
  {
    WriteChars(view, offset, s, 0)
  }

  /** v is view with the bytes `written` stored from offset start on and
      every other byte unchanged. */
  predicate WrittenAt(v: seq<int>, view: seq<int>, start: nat, written: seq<int>) {
    && start + |written| <= |view|
    && v == SetBytes(view, start, written)
  }

  /** `writeString` into an untouched view stores the string's bytes. */
  lemma WriteStringFirst(view: seq<int>, start: nat, s: string)
    requires start + |s| <= |view|
    ensures WrittenAt(WriteString(view, start, s), view, start, StringBytes(s))
  {
    var r := WriteString(view, start, s);
    var expected := view[..start] + StringBytes(s) + view[start + |s|..];
    forall j | 0 <= j < |r|
      ensures r[j] == expected[j]
    {
      if start <= j < start + |s| {
        assert r[start + (j - start)] == ToUint8(s[j - start] as int);
      }
    }
  }

  /** A setter writing right after the bytes already written extends them. */
  lemma SetBytesExtends(v: seq<int>, view: seq<int>, start: nat, written: seq<int>, bytes: seq<int>)
    requires WrittenAt(v, view, start, written)
    requires start + |written| + |bytes| <= |view|
    ensures WrittenAt(SetBytes(v, start + |written|, bytes), view, start, written + bytes)
  {
    var offset := start + |written|;
    assert v[..offset] == view[..start] + written;
    assert v[offset + |bytes|..] == view[offset + |bytes|..];
  }

  /** So does `writeString`, with the string's bytes. */
  lemma WriteStringExtends(v: seq<int>, view: seq<int>, start: nat, written: seq<int>, s: string)
    requires WrittenAt(v, view, start, written)
    requires start + |written| + |s| <= |view|
    ensures WrittenAt(WriteString(v, start + |written|, s), view, start, written + StringBytes(s))
  {
    var offset := start + |written|;
    var r := WriteString(v, offset, s);
    var expected := view[..start] + (written + StringBytes(s)) + view[offset + |s|..];
    forall j | 0 <= j < |r|
      ensures r[j] == expected[j]
    {
      if offset <= j < offset + |s| {
        assert r[offset + (j - offset)] == ToUint8(s[j - offset] as int);
      }
    }
  }
}
