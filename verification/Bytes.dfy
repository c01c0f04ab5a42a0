/**
 Byte order conversion and in-place string trimming (venues/common.cpp), and the C string
 conventions the callers rely on. The host is little endian and the wire is big endian, which is
 what FormatData stands for when BSE_LITTLE_ENDIAN is not defined.
 */
module Bytes {
  import opened Sequences

  type Byte = bv8

  // ---------------------------------------------------------------- byte order

  function ReverseEndian16(data: bv16): bv16 {
    ((data & 0xff00) >> 8) | ((data & 0x00ff) << 8)
  }

  function ReverseEndian32(data: bv32): bv32 {
    ((data & 0xff000000) >> 24) | ((data & 0x00ff0000) >> 8) | ((data & 0x0000ff00) << 8) | ((data & 0x000000ff) << 24)
  }

  /** The value memcpy leaves in a 16-bit variable. */
  function Load16(b: seq<Byte>): bv16
    requires |b| == 2
  {
    (b[0] as bv16) | ((b[1] as bv16) << 8)
  }

  function Store16(v: bv16): (b: seq<Byte>)
    ensures |b| == 2
  {
    [(v & 0xff) as Byte, (v >> 8) as Byte]
  }

  function Load32(b: seq<Byte>): bv32
    requires |b| == 4
  {
    (b[0] as bv32) | ((b[1] as bv32) << 8) | ((b[2] as bv32) << 16) | ((b[3] as bv32) << 24)
  }

  function Store32(v: bv32): (b: seq<Byte>)
    ensures |b| == 4
  {
    [(v & 0xff) as Byte, ((v >> 8) & 0xff) as Byte, ((v >> 16) & 0xff) as Byte, (v >> 24) as Byte]
  }

  /** A field as the code reads it from a record: load, then FormatData. */
  function Read16(b: seq<Byte>): bv16
    requires |b| == 2
  {
    ReverseEndian16(Load16(b))
  }

  function Read32(b: seq<Byte>): bv32
    requires |b| == 4
  {
    ReverseEndian32(Load32(b))
  }

  function Value32(v: bv32): nat {
    v as int
  }

  function ReadNumber(b: seq<Byte>): nat
    requires |b| == 4
  {
    Value32(Read32(b))
  }

  /** A field as the code writes it into a record: FormatData, then store. */
  function Wire16(v: bv16): (b: seq<Byte>)
    ensures |b| == 2
  {
    Store16(ReverseEndian16(v))
  }

  function Wire32(v: bv32): (b: seq<Byte>)
    ensures |b| == 4
  {
    Store32(ReverseEndian32(v))
  }

  lemma ReverseEndianInvolution(v: bv16, w: bv32)
    ensures ReverseEndian16(ReverseEndian16(v)) == v
    ensures ReverseEndian32(ReverseEndian32(w)) == w
  {
  }

  /** Written fields are in network order: most significant byte first. */
  lemma WireIsBigEndian(v: bv16, w: bv32)
    ensures Wire16(v) == [(v >> 8) as Byte, (v & 0xff) as Byte]
    ensures Wire32(w) == [(w >> 24) as Byte, ((w >> 16) & 0xff) as Byte, ((w >> 8) & 0xff) as Byte, (w & 0xff) as Byte]
  {
  }

  lemma FieldRoundTrip(v: bv16, w: bv32)
    ensures Read16(Wire16(v)) == v
    ensures Read32(Wire32(w)) == w
  {
  }

  /** The number read back from a written field is the number itself, in its full width. */
  lemma NumberRoundTrip(w: bv32)
    ensures ReadNumber(Wire32(w)) == w as int
  {
    FieldRoundTrip(0, w);
  }

  /** Any four bytes are some written field. */
  lemma EveryFieldIsWritten(b: seq<Byte>)
    requires |b| == 4
    ensures Wire32(Read32(b)) == b
  {
  }

  // ---------------------------------------------------------------- C strings

  /** The characters before the first NUL, which is what c_str() shows a C function. */
  function CString(s: seq<Byte>): (r: seq<Byte>)
    ensures r <= s
    ensures 0 !in r
    ensures |r| < |s| ==> s[|r|] == 0
  {
    Before(s, 0)
  }

  function Repeat(b: Byte, n: nat): (r: seq<Byte>)
    ensures |r| == n
    ensures forall i :: 0 <= i < n ==> r[i] == b
  {
    if n == 0 then [] else [b] + Repeat(b, n - 1)
  }

  /** strncpy into a field of the given width: copy up to the first NUL, fill with NULs. */
  function StrNCopy(s: seq<Byte>, width: nat): (field: seq<Byte>)
    ensures |field| == width
  {
    var text := CString(s);
    if |text| >= width then text[..width] else text + Repeat(0, width - |text|)
  }

  /** The text of a field as read back with strnlen. */
  lemma StrNCopyText(s: seq<Byte>, width: nat)
    ensures CString(StrNCopy(s, width)) == if |CString(s)| >= width then CString(s)[..width] else CString(s)
  {
    var text, field := CString(s), StrNCopy(s, width);
    if |text| < width {
      BeforeIs(field, 0, text);
    } else {
      BeforeIs(field, 0, text[..width]);
    }
  }

  // ---------------------------------------------------------------- trimming

  /** isspace in the C locale. */
  predicate IsSpace(ch: Byte) {
    ch == 0x20 || 0x09 <= ch <= 0x0d
  }

  function LeftTrimmed(s: seq<Byte>): (r: seq<Byte>) {
    if s != [] && IsSpace(s[0]) then LeftTrimmed(s[1..]) else s
  }

  function RightTrimmed(s: seq<Byte>): (r: seq<Byte>) {
    if s != [] && IsSpace(s[|s| - 1]) then RightTrimmed(s[..|s| - 1]) else s
  }

  function Trimmed(s: seq<Byte>): (r: seq<Byte>) {
    RightTrimmed(LeftTrimmed(s))
  }

  predicate AllSpace(s: seq<Byte>) {
    forall i :: 0 <= i < |s| ==> IsSpace(s[i])
  }

  /** A string that trim leaves alone. */
  predicate NoOuterSpace(s: seq<Byte>) {
    s != [] ==> !IsSpace(s[0]) && !IsSpace(s[|s| - 1])
  }

  lemma {:induction false} LeftTrimmedPrefix(a: seq<Byte>, s: seq<Byte>)
    requires AllSpace(a)
    requires s != [] ==> !IsSpace(s[0])
    ensures LeftTrimmed(a + s) == s
  {
    if a == [] {
      assert a + s == s;
    } else {
      assert (a + s)[0] == a[0] && (a + s)[1..] == a[1..] + s;
      LeftTrimmedPrefix(a[1..], s);
    }
  }

  lemma {:induction false} RightTrimmedSuffix(s: seq<Byte>, b: seq<Byte>)
    requires AllSpace(b)
    ensures RightTrimmed(s + b) == RightTrimmed(s)
  {
    if b == [] {
      assert s + b == s;
    } else {
      assert (s + b)[|s + b| - 1] == b[|b| - 1];
      assert (s + b)[..|s + b| - 1] == s + b[..|b| - 1];
      RightTrimmedSuffix(s, b[..|b| - 1]);
    }
  }

  /** Trimming removes exactly the outer white space: r is the one core that has none around it. */
  lemma TrimmedUnique(a: seq<Byte>, r: seq<Byte>, b: seq<Byte>)
    requires AllSpace(a) && AllSpace(b) && NoOuterSpace(r)
    ensures Trimmed(a + r + b) == r
  {
    if r == [] {
      LeftTrimmedPrefix(a + b, []);
      assert a + r + b == a + b + [];
    } else {
      LeftTrimmedPrefix(a, r + b);
      assert a + r + b == a + (r + b);
      RightTrimmedSuffix(r, b);
    }
  }

  lemma {:induction false} LeftTrimmedSplit(s: seq<Byte>) returns (a: seq<Byte>)
    ensures AllSpace(a) && s == a + LeftTrimmed(s)
    ensures LeftTrimmed(s) != [] ==> !IsSpace(LeftTrimmed(s)[0])
  {
    if s != [] && IsSpace(s[0]) {
      var tail := LeftTrimmedSplit(s[1..]);
      a := [s[0]] + tail;
      assert s == [s[0]] + s[1..];
    } else {
      a := [];
    }
  }

  lemma {:induction false} RightTrimmedSplit(s: seq<Byte>) returns (b: seq<Byte>)
    ensures AllSpace(b) && s == RightTrimmed(s) + b
    ensures RightTrimmed(s) != [] ==> !IsSpace(RightTrimmed(s)[|RightTrimmed(s)| - 1])
  {
    if s != [] && IsSpace(s[|s| - 1]) {
      var init := RightTrimmedSplit(s[..|s| - 1]);
      b := init + [s[|s| - 1]];
      assert s == s[..|s| - 1] + [s[|s| - 1]];
    } else {
      b := [];
    }
  }

  /** Every string splits into white space, its trimmed core, and white space. */
  lemma TrimmedSplit(s: seq<Byte>) returns (a: seq<Byte>, b: seq<Byte>)
    ensures AllSpace(a) && AllSpace(b)
    ensures s == a + Trimmed(s) + b
    ensures NoOuterSpace(Trimmed(s))
  {
    a := LeftTrimmedSplit(s);
    b := RightTrimmedSplit(LeftTrimmed(s));
    assert s == a + (Trimmed(s) + b);
    if Trimmed(s) != [] {
      assert Trimmed(s)[0] == LeftTrimmed(s)[0];
    }
  }

  /** Padding on the right never shows after a trim, and a trimmed string is a fixed point. */
  lemma TrimmedPadding(s: seq<Byte>, b: seq<Byte>)
    requires AllSpace(b)
    ensures Trimmed(s + b) == Trimmed(s)
    ensures Trimmed(Trimmed(s)) == Trimmed(s)
    ensures NoOuterSpace(s) <==> Trimmed(s) == s
  {
    var a, c := TrimmedSplit(s);
    TrimmedUnique(a, Trimmed(s), c + b);
    assert s + b == a + Trimmed(s) + (c + b);
    TrimmedUnique([], Trimmed(s), []);
    assert [] + Trimmed(s) + [] == Trimmed(s);
    if NoOuterSpace(s) {
      TrimmedUnique([], s, []);
      assert [] + s + [] == s;
    }
  }

  /** What trim removes: space, tab, newline, vertical tab, form feed and carriage return, and nothing else. */
  lemma TrimmedWhite(a: seq<Byte>, core: seq<Byte>, b: seq<Byte>)
    requires forall ch <- a + b :: ch in {0x20, 0x09, 0x0a, 0x0b, 0x0c, 0x0d}
    requires core != [] ==> core[0] !in {0x20, 0x09, 0x0a, 0x0b, 0x0c, 0x0d}
    requires core != [] ==> core[|core| - 1] !in {0x20, 0x09, 0x0a, 0x0b, 0x0c, 0x0d}
    ensures Trimmed(a + core + b) == core && Trimmed(core) == core
  {
    forall i | 0 <= i < |a| ensures IsSpace(a[i]) {
      assert (a + b)[i] in a + b;
    }
    forall i | 0 <= i < |b| ensures IsSpace(b[i]) {
      assert (a + b)[|a| + i] in a + b;
    }
    TrimmedUnique(a, core, b);
    TrimmedPadding(core, []);
  }

  /** A std::string whose characters are erased in place. */
  class MutableString {
    var chars: seq<Byte>

    constructor (text: seq<Byte>)
      ensures chars == text
    {
      chars := text;
    }

    method LTrim()
      modifies this
      ensures chars == LeftTrimmed(old(chars))
    {
      var first := 0;
      while first < |chars| && IsSpace(chars[first])
        invariant first <= |chars|
        invariant LeftTrimmed(chars[first..]) == LeftTrimmed(chars)
      {
        assert chars[first..][1..] == chars[first + 1..];
        first := first + 1;
      }
      chars := chars[first..];
    }

    method RTrim()
      modifies this
      ensures chars == RightTrimmed(old(chars))
    {
      var last := |chars|;
      assert chars[..last] == chars;
      while last > 0 && IsSpace(chars[last - 1])
        invariant last <= |chars|
        invariant RightTrimmed(chars[..last]) == RightTrimmed(chars)
      {
        assert chars[..last][..last - 1] == chars[..last - 1];
        last := last - 1;
      }
      chars := chars[..last];
    }

    method Trim()
      modifies this
      ensures chars == Trimmed(old(chars))
    {
      LTrim();
      RTrim();
    }
  }
}
