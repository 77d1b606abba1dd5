/** UTF-8 as Rust's `str` uses it: a `string` is the sequence of its Unicode
  * scalar values and `Encode` gives its bytes (section 3 of RFC 3629).
  * Byte offsets are measured in the encoding, and `IsCharBoundary` is the byte
  * test the standard library makes before it slices.
  */
module Utf8 {

  type Byte = b: int | 0 <= b < 256

  function CodePoint(c: char): nat {
    c as int
  }

  function EncodeChar(c: char): (bytes: seq<Byte>)
    ensures 1 <= |bytes| <= 4
    ensures !IsContinuation(bytes[0])
    ensures forall i :: 1 <= i < |bytes| ==> IsContinuation(bytes[i])
    ensures |bytes| == 1 <==> bytes[0] < 0x80
  {
    var n := CodePoint(c);
    if n < 0x80 then [n]
    else if n < 0x800 then [0xC0 + n / 0x40, 0x80 + n % 0x40]
    else if n < 0x10000 then [0xE0 + n / 0x1000, 0x80 + n / 0x40 % 0x40, 0x80 + n % 0x40]
    else [0xF0 + n / 0x40000, 0x80 + n / 0x1000 % 0x40, 0x80 + n / 0x40 % 0x40, 0x80 + n % 0x40]
  }

  function Encode(s: string): (bytes: seq<Byte>)
    ensures |s| <= |bytes| <= 4 * |s|
  {
    if s == [] then [] else EncodeChar(s[0]) + Encode(s[1..])
  }

  function ByteLen(s: string): nat {
    |Encode(s)|
  }

  predicate IsContinuation(b: Byte) {
    0x80 <= b < 0xC0
  }

  predicate IsCharBoundary(bytes: seq<Byte>, i: nat)
    requires i <= |bytes|
  {
    i == 0 || i == |bytes| || !IsContinuation(bytes[i])
  }

  lemma {:induction false} EncodeConcat(a: string, b: string)
    ensures Encode(a + b) == Encode(a) + Encode(b)
  {
    if a == [] {
      assert a + b == b;
    } else {
      assert (a + b)[1..] == a[1..] + b;
      EncodeConcat(a[1..], b);
    }
  }

  /** Splitting the characters splits the bytes at the prefix's byte length. */
  lemma EncodeSplit(s: string, k: nat)
    requires k <= |s|
    ensures Encode(s) == Encode(s[..k]) + Encode(s[k..])
    ensures ByteLen(s[..k]) <= ByteLen(s)
    ensures Encode(s)[..ByteLen(s[..k])] == Encode(s[..k])
    ensures Encode(s)[ByteLen(s[..k])..] == Encode(s[k..])
  {
    assert s == s[..k] + s[k..];
    EncodeConcat(s[..k], s[k..]);
  }

  lemma EncodeOne(c: char)
    ensures Encode([c]) == EncodeChar(c)
  {
    assert [c][1..] == [];
  }

  /** One more character moves the byte offset by that character's width. */
  lemma EncodeStep(s: string, k: nat)
    requires k < |s|
    ensures Encode(s[..k + 1]) == Encode(s[..k]) + EncodeChar(s[k])
    ensures Encode(s[k..]) == EncodeChar(s[k]) + Encode(s[k + 1..])
    ensures ByteLen(s[..k]) + |EncodeChar(s[k])| <= ByteLen(s)
    ensures Encode(s)[ByteLen(s[..k])..ByteLen(s[..k + 1])] == EncodeChar(s[k])
  {
    assert s[..k + 1] == s[..k] + [s[k]];
    EncodeConcat(s[..k], [s[k]]);
    EncodeOne(s[k]);
    EncodeSplit(s, k);
    EncodeSplit(s, k + 1);
    assert s[k..][1..] == s[k + 1..];
    var bytes, at := Encode(s), ByteLen(s[..k]);
    assert bytes[..ByteLen(s[..k + 1])] == Encode(s[..k]) + EncodeChar(s[k]);
    assert bytes[at..ByteLen(s[..k + 1])] == bytes[..ByteLen(s[..k + 1])][at..];
  }

  ghost predicate EndsPrefix(s: string, i: nat, k: nat) {
    k <= |s| && i == ByteLen(s[..k])
  }

  /** Prefixes of a string are its first character followed by prefixes of the rest. */
  lemma PrefixTail(s: string, k: nat)
    requires k < |s|
    ensures ByteLen(s[..k + 1]) == |EncodeChar(s[0])| + ByteLen(s[1..][..k])
  {
    assert s[..k + 1][1..] == s[1..][..k];
    assert s[..k + 1][0] == s[0];
  }

  lemma InsideFirst(s: string, i: nat, k: nat)
    requires s != [] && 0 < i < |EncodeChar(s[0])|
    ensures i < ByteLen(s) && !IsCharBoundary(Encode(s), i) && !EndsPrefix(s, i, k)
  {
    assert Encode(s)[i] == EncodeChar(s[0])[i];
    if 0 < k <= |s| { PrefixTail(s, k - 1); }
  }

  lemma PastFirst(s: string, i: nat)
    requires s != [] && |EncodeChar(s[0])| <= i <= ByteLen(s)
    ensures i - |EncodeChar(s[0])| <= ByteLen(s[1..])
    ensures i > 0 && (IsCharBoundary(Encode(s), i) <==> IsCharBoundary(Encode(s[1..]), i - |EncodeChar(s[0])|))
  {
    var width, rest := |EncodeChar(s[0])|, Encode(s[1..]);
    assert Encode(s) == EncodeChar(s[0]) + rest;
    if i < |Encode(s)| { assert Encode(s)[i] == rest[i - width]; }
    if i == width && rest != [] { FirstByteStarts(s[1..]); }
  }

  lemma FirstByteStarts(s: string)
    requires s != []
    ensures Encode(s) != [] && !IsContinuation(Encode(s)[0])
  {
    assert Encode(s)[0] == EncodeChar(s[0])[0];
  }

  /** The byte test finds exactly the offsets at which a prefix of characters ends. */
  lemma {:induction false} BoundaryIff(s: string, i: nat)
    requires i <= ByteLen(s)
    ensures IsCharBoundary(Encode(s), i) <==> exists k :: 0 <= k <= |s| && EndsPrefix(s, i, k)
  {
    if i == 0 {
      assert EndsPrefix(s, 0, 0);
    } else if i < |EncodeChar(s[0])| {
      forall k ensures !EndsPrefix(s, i, k) { InsideFirst(s, i, k); }
      InsideFirst(s, i, 0);
    } else {
      var j := i - |EncodeChar(s[0])|;
      PastFirst(s, i);
      BoundaryIff(s[1..], j);
      if k :| 0 <= k <= |s| && EndsPrefix(s, i, k) {
        assert s[..0] == [];
        PrefixTail(s, k - 1);
        assert EndsPrefix(s[1..], j, k - 1);
      }
      if k :| 0 <= k <= |s[1..]| && EndsPrefix(s[1..], j, k) {
        PrefixTail(s, k);
        assert EndsPrefix(s, i, k + 1);
      }
    }
  }

  /** The encoding of a character tells where it ends, so no encoding extends another. */
  lemma EncodeCharPrefixFree(a: char, b: char, x: seq<Byte>, y: seq<Byte>)
    requires EncodeChar(a) + x == EncodeChar(b) + y
    ensures a == b && x == y
  {
    var ea, eb := EncodeChar(a), EncodeChar(b);
    assert (ea + x)[0] == ea[0] && (eb + y)[0] == eb[0];
    assert |ea| == |eb|;
    assert ea == (ea + x)[..|ea|] == eb;
    assert x == (ea + x)[|ea|..] == y;
    DecodeChar(a);
    DecodeChar(b);
  }

  lemma DecodeChar(c: char)
    ensures var e: seq<int> := EncodeChar(c);
      CodePoint(c) ==
      if |e| == 1 then e[0]
      else if |e| == 2 then (e[0] - 0xC0) * 0x40 + (e[1] - 0x80)
      else if |e| == 3 then (e[0] - 0xE0) * 0x1000 + (e[1] - 0x80) * 0x40 + (e[2] - 0x80)
      else (e[0] - 0xF0) * 0x40000 + (e[1] - 0x80) * 0x1000 + (e[2] - 0x80) * 0x40 + (e[3] - 0x80)
  {
    var n := CodePoint(c);
    assert n == n / 0x40 * 0x40 + n % 0x40;
    assert n / 0x1000 == n / 0x40 / 0x40;
    assert n / 0x40000 == n / 0x40 / 0x40 / 0x40;
  }

  lemma {:induction false} EncodeInjective(a: string, b: string)
    requires Encode(a) == Encode(b)
    ensures a == b
  {
    if a != [] && b != [] {
      EncodeCharPrefixFree(a[0], b[0], Encode(a[1..]), Encode(b[1..]));
      EncodeInjective(a[1..], b[1..]);
      assert a == [a[0]] + a[1..] && b == [b[0]] + b[1..];
    } else {
      assert ByteLen(a) == 0 || ByteLen(b) == 0;
    }
  }

  lemma PrefixBytesGrow(text: string, j: nat, k: nat)
    requires j < k <= |text|
    ensures ByteLen(text[..j]) < ByteLen(text[..k])
  {
    assert text[..k] == text[..j] + text[j..k];
    EncodeConcat(text[..j], text[j..k]);
  }

  // --- Slicing ------------------------------------------------------------------

  lemma PrefixEnd(s: string, i: nat) returns (k: nat)
    requires i <= ByteLen(s) && IsCharBoundary(Encode(s), i)
    ensures k <= |s| && i == ByteLen(s[..k])
  {
    BoundaryIff(s, i);
    k :| 0 <= k <= |s| && EndsPrefix(s, i, k);
  }

  lemma EndIsBoundary(s: string, k: nat)
    requires k <= |s|
    ensures ByteLen(s[..k]) <= ByteLen(s) && IsCharBoundary(Encode(s), ByteLen(s[..k]))
  {
    EncodeSplit(s, k);
    BoundaryIff(s, ByteLen(s[..k]));
    assert EndsPrefix(s, ByteLen(s[..k]), k);
  }

  lemma BoundaryTail(s: string, off: nat)
    requires 0 < off <= ByteLen(s) && IsCharBoundary(Encode(s), off)
    ensures s != [] && |EncodeChar(s[0])| <= off && off - |EncodeChar(s[0])| <= ByteLen(s[1..])
    ensures IsCharBoundary(Encode(s[1..]), off - |EncodeChar(s[0])|)
    ensures forall k :: 0 <= k < |s| ==> ByteLen(s[..k + 1]) == |EncodeChar(s[0])| + ByteLen(s[1..][..k])
  {
    var k := PrefixEnd(s, off);
    assert s[..0] == [];
    forall j | 0 <= j < |s| ensures ByteLen(s[..j + 1]) == |EncodeChar(s[0])| + ByteLen(s[1..][..j]) {
      PrefixTail(s, j);
    }
    EndIsBoundary(s[1..], k - 1);
  }

  /** The number of characters before a boundary. */
  function CharIndex(s: string, off: nat): (k: nat)
    requires off <= ByteLen(s) && IsCharBoundary(Encode(s), off)
    ensures k <= |s|
    decreases |s|
  {
    if off == 0 then 0
    else
      BoundaryTail(s, off);
      1 + CharIndex(s[1..], off - |EncodeChar(s[0])|)
  }

  lemma {:induction false} CharIndexIs(s: string, off: nat)
    requires off <= ByteLen(s) && IsCharBoundary(Encode(s), off)
    ensures ByteLen(s[..CharIndex(s, off)]) == off
    decreases |s|
  {
    if off > 0 {
      BoundaryTail(s, off);
      CharIndexIs(s[1..], off - |EncodeChar(s[0])|);
    }
  }

  lemma CharIndexOrder(s: string, from: nat, to: nat)
    requires from <= to <= ByteLen(s) && IsCharBoundary(Encode(s), from) && IsCharBoundary(Encode(s), to)
    ensures CharIndex(s, from) <= CharIndex(s, to)
  {
    CharIndexIs(s, from);
    CharIndexIs(s, to);
    if CharIndex(s, to) < CharIndex(s, from) { PrefixBytesGrow(s, CharIndex(s, to), CharIndex(s, from)); }
  }

  /** A byte-range slice; the preconditions are the checks that make the source panic. */
  function Slice(s: string, from: nat, to: nat): string
    requires from <= to <= ByteLen(s) && IsCharBoundary(Encode(s), from) && IsCharBoundary(Encode(s), to)
  {
    CharIndexOrder(s, from, to);
    s[CharIndex(s, from)..CharIndex(s, to)]
  }

  /** Where a prefix of characters ends is a boundary, and the bytes from there are the rest's. */
  lemma Offset(s: string, k: nat)
    requires k <= |s|
    ensures ByteLen(s[..k]) <= ByteLen(s) && IsCharBoundary(Encode(s), ByteLen(s[..k]))
    ensures Encode(s)[ByteLen(s[..k])..] == Encode(s[k..])
  {
    EncodeSplit(s, k);
    EndIsBoundary(s, k);
  }

  lemma CharIndexAt(s: string, k: nat)
    requires k <= |s|
    ensures ByteLen(s[..k]) <= ByteLen(s) && IsCharBoundary(Encode(s), ByteLen(s[..k]))
    ensures CharIndex(s, ByteLen(s[..k])) == k
  {
    Offset(s, k);
    var off := ByteLen(s[..k]);
    CharIndexIs(s, off);
    var j := CharIndex(s, off);
    if j < k { PrefixBytesGrow(s, j, k); } else if k < j { PrefixBytesGrow(s, k, j); }
  }

  lemma OffsetAdd(s: string, k: nat, m: nat)
    requires k + m <= |s|
    ensures ByteLen(s[..k + m]) == ByteLen(s[..k]) + ByteLen(s[k..][..m])
  {
    assert s[..k + m] == s[..k] + s[k..][..m];
    EncodeConcat(s[..k], s[k..][..m]);
  }
}
