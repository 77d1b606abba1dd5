/** JSON string escaping at the byte level, as the wire writer does it, against
  * section 7 of RFC 8259: what an escape costs, that it reads back as what was
  * written, and that it holds no control byte.
  */
module Json {
  import opened Wrappers
  import opened Utf8

  const QUOTE: Byte := 0x22
  const BACKSLASH: Byte := 0x5C
  const USIZE_MAX: nat := 0xFFFF_FFFF_FFFF_FFFF

  function Sat(n: nat): nat {
    if n > USIZE_MAX then USIZE_MAX else n
  }

  function HexDigit(n: nat): (b: Byte)
    requires n < 16
    ensures b >= 0x30
  {
    if n < 10 then 0x30 + n else 0x61 + (n - 10)
  }

  /** The letter of a shorthand escape. */
  function Shorthand(b: Byte): Option<Byte> {
    if b == QUOTE then Some(QUOTE)
    else if b == BACKSLASH then Some(BACKSLASH)
    else if b == 0x08 then Some(0x62)
    else if b == 0x09 then Some(0x74)
    else if b == 0x0A then Some(0x6E)
    else if b == 0x0C then Some(0x66)
    else if b == 0x0D then Some(0x72)
    else None
  }

  function EscapeByte(b: Byte): (r: seq<Byte>)
    ensures |r| > 0 && forall i :: 0 <= i < |r| ==> r[i] >= 0x20
    ensures r[0] != QUOTE
  {
    if Shorthand(b).Some? then [BACKSLASH, Shorthand(b).value]
    else if b < 0x20 then [BACKSLASH, 0x75, 0x30, 0x30, HexDigit(b / 16), HexDigit(b % 16)]
    else [b]
  }

  function Escape(s: seq<Byte>): seq<Byte> {
    if s == [] then [] else EscapeByte(s[0]) + Escape(s[1..])
  }

  function Quoted(b: seq<Byte>): (r: seq<Byte>)
    ensures |r| == |b| + 2
  {
    [QUOTE] + b + [QUOTE]
  }

  function Str(s: string): (r: seq<Byte>)
    ensures |r| == |Escape(Encode(s))| + 2
  {
    Quoted(Escape(Encode(s)))
  }

  /** What the wire spends on `text` between the quotes. */
  function EscapedLen(text: string): nat {
    Sat(|Escape(Encode(text))|)
  }

  lemma {:induction false} EscapeConcat(a: seq<Byte>, b: seq<Byte>)
    ensures Escape(a + b) == Escape(a) + Escape(b)
  {
    if a == [] {
      assert a + b == b;
    } else {
      assert (a + b)[1..] == a[1..] + b;
      EscapeConcat(a[1..], b);
    }
  }

  /** The cost table of the admission check. */
  function EscapeCost(b: Byte): (cost: nat)
    ensures cost == |EscapeByte(b)|
  {
    if b == 0x22 || b == 0x5C || b == 0x08 || b == 0x09 || b == 0x0A || b == 0x0C || b == 0x0D then 2
    else if b <= 0x1F then 6
    else 1
  }

  lemma EscapeStep(s: seq<Byte>, i: nat)
    requires i < |s|
    ensures |Escape(s[..i + 1])| == |Escape(s[..i])| + EscapeCost(s[i])
  {
    assert s[..i + 1] == s[..i] + [s[i]];
    EscapeConcat(s[..i], [s[i]]);
    assert [s[i]][1..] == [];
    assert Escape([s[i]]) == EscapeByte(s[i]);
  }

  method JsonEscapedLen(text: string) returns (len: nat)
    ensures len == EscapedLen(text)
    ensures len <= USIZE_MAX && (|Escape(Encode(text))| <= USIZE_MAX ==> len == |Escape(Encode(text))|)
  {
    var bytes := Encode(text);
    len := 0;
    for i := 0 to |bytes|
      invariant len == Sat(|Escape(bytes[..i])|)
    {
      EscapeStep(bytes, i);
      len := Sat(len + EscapeCost(bytes[i]));
    }
    assert bytes[..|bytes|] == bytes;
  }

  // --- Reading it back ----------------------------------------------------------------

  function HexValue(b: Byte): Option<nat> {
    if 0x30 <= b <= 0x39 then Some(b - 0x30)
    else if 0x61 <= b <= 0x66 then Some(b - 0x61 + 10)
    else if 0x41 <= b <= 0x46 then Some(b - 0x41 + 10)
    else None
  }

  /** The byte a two-byte escape stands for. */
  function FromShorthand(letter: Byte): Option<Byte> {
    if letter == QUOTE || letter == BACKSLASH || letter == 0x2F then Some(letter)
    else if letter == 0x62 then Some(0x08)
    else if letter == 0x74 then Some(0x09)
    else if letter == 0x6E then Some(0x0A)
    else if letter == 0x66 then Some(0x0C)
    else if letter == 0x72 then Some(0x0D)
    else None
  }

  /** Reads string contents up to the closing quote, and returns what follows it. A raw control
    * byte is malformed; of the `\u` escapes, only those for one-byte characters are read.
    */
  function ReadString(s: seq<Byte>): Option<(seq<Byte>, seq<Byte>)> {
    if s == [] || s[0] < 0x20 then None
    else if s[0] == QUOTE then Some(([], s[1..]))
    else if s[0] != BACKSLASH then Prepend(s[0], ReadString(s[1..]))
    else if |s| < 2 then None
    else if s[1] != 0x75 then
      if FromShorthand(s[1]).None? then None else Prepend(FromShorthand(s[1]).value, ReadString(s[2..]))
    else if |s| < 6 || s[2] != 0x30 || s[3] != 0x30 || HexValue(s[4]).None? || HexValue(s[5]).None? then None
    else
      var value := HexValue(s[4]).value * 16 + HexValue(s[5]).value;
      if value >= 0x80 then None else Prepend(value, ReadString(s[6..]))
  }

  function Prepend(b: Byte, tail: Option<(seq<Byte>, seq<Byte>)>): Option<(seq<Byte>, seq<Byte>)> {
    if tail.None? then None else Some(([b] + tail.value.0, tail.value.1))
  }

  lemma ReadOne(b: Byte, rest: seq<Byte>)
    ensures ReadString(EscapeByte(b) + rest) == Prepend(b, ReadString(rest))
  {
    var e := EscapeByte(b);
    var s := e + rest;
    assert s[|e|..] == rest;
    if Shorthand(b).Some? {
      assert s[0] == BACKSLASH && s[1] == Shorthand(b).value;
      assert FromShorthand(s[1]) == Some(b);
    } else if b < 0x20 {
      assert s[0] == BACKSLASH && s[1] == 0x75 && s[2] == 0x30 && s[3] == 0x30;
      assert s[4] == HexDigit(b / 16) && s[5] == HexDigit(b % 16);
      assert HexValue(s[4]) == Some(b / 16) && HexValue(s[5]) == Some(b % 16);
    } else {
      assert s[0] == b;
    }
  }

  /** An escaped string ends at its own closing quote and reads back as what was written. */
  lemma {:induction false} EscapeReadsBack(s: seq<Byte>, rest: seq<Byte>)
    ensures ReadString(Escape(s) + [QUOTE] + rest) == Some((s, rest))
  {
    if s == [] {
      assert Escape(s) + [QUOTE] + rest == [QUOTE] + rest;
      assert ([QUOTE] + rest)[1..] == rest;
    } else {
      EscapeReadsBack(s[1..], rest);
      var tail := Escape(s[1..]) + [QUOTE] + rest;
      assert Escape(s) + [QUOTE] + rest == EscapeByte(s[0]) + tail;
      ReadOne(s[0], tail);
      assert [s[0]] + s[1..] == s;
    }
  }

  lemma {:induction false} EscapeHasNoControls(s: seq<Byte>)
    ensures forall i :: 0 <= i < |Escape(s)| ==> Escape(s)[i] >= 0x20
  {
    if s != [] {
      EscapeHasNoControls(s[1..]);
    }
  }

  lemma {:induction false} EscapeBounds(s: seq<Byte>)
    ensures |s| <= |Escape(s)| <= 6 * |s|
  {
    if s != [] {
      EscapeBounds(s[1..]);
      assert |EscapeByte(s[0])| == EscapeCost(s[0]);
    }
  }

  // --- The same escape, character by character ------------------------------------------

  /** Section 7 of RFC 8259: quotation mark, reverse solidus and the control characters must be
    * escaped; everything else may stand for itself.
    */
  predicate MustEscape(c: char) {
    c == '\"' || c == '\\' || c as int < 0x20
  }

  function EscapeChar(c: char): seq<char> {
    if !MustEscape(c) then [c]
    else
      var e := EscapeByte(c as int);
      seq(|e|, i requires 0 <= i < |e| => if e[i] < 0x80 then e[i] as char else '?')
  }

  /** A character stands for itself unless it is a quotation mark, a reverse solidus or below the space. */
  lemma EscapedWhenNeeded(c: char)
    ensures EscapeChar(c) == [c] <==> c != '\"' && c != '\\' && c >= ' '
  {
    if MustEscape(c) { assert |EscapeByte(c as int)| > 1; }
  }

  function EscapeText(s: string): string {
    if s == [] then [] else EscapeChar(s[0]) + EscapeText(s[1..])
  }

  lemma {:induction false} EncodeAscii(s: string)
    requires forall i :: 0 <= i < |s| ==> s[i] as int < 0x80
    ensures |Encode(s)| == |s| && forall i :: 0 <= i < |s| ==> Encode(s)[i] == s[i] as int
  {
    if s != [] {
      EncodeAscii(s[1..]);
    }
  }

  lemma {:induction false} HighBytesPass(b: seq<Byte>)
    requires forall i :: 0 <= i < |b| ==> b[i] >= 0x80
    ensures Escape(b) == b
  {
    if b != [] {
      HighBytesPass(b[1..]);
      assert EscapeByte(b[0]) == [b[0]];
      assert b == [b[0]] + b[1..];
    }
  }

  lemma EscapeCharIsBytewise(c: char)
    ensures Encode(EscapeChar(c)) == Escape(EncodeChar(c))
  {
    if c as int < 0x80 {
      AsciiCharIsBytewise(c);
    } else {
      HighBytesPass(EncodeChar(c));
      EncodeOne(c);
    }
  }

  lemma AsciiCharIsBytewise(c: char)
    requires c as int < 0x80
    ensures Encode(EscapeChar(c)) == Escape(EncodeChar(c))
  {
    var bytes := EncodeChar(c);
    assert bytes == [c as int] && bytes[1..] == [];
    assert Escape(bytes) == EscapeByte(c as int);
    if MustEscape(c) {
      EncodeAscii(EscapeChar(c));
    } else {
      EncodeOne(c);
    }
  }

  /** Escaping the UTF-8 bytes one by one is escaping the characters: the byte loop never
    * touches part of a multi-byte character.
    */
  lemma {:induction false} BytewiseIsCharwise(s: string)
    ensures Encode(EscapeText(s)) == Escape(Encode(s))
    ensures EscapedLen(s) == Sat(ByteLen(EscapeText(s)))
  {
    if s != [] {
      BytewiseIsCharwise(s[1..]);
      EncodeConcat(EscapeChar(s[0]), EscapeText(s[1..]));
      EscapeCharIsBytewise(s[0]);
      EscapeConcat(EncodeChar(s[0]), Encode(s[1..]));
    }
  }

  // --- Numbers -----------------------------------------------------------------------

  function Digits(n: nat): (r: seq<Byte>)
    ensures forall i :: 0 <= i < |r| ==> 0x30 <= r[i] <= 0x39
  {
    if n < 10 then [0x30 + n] else Digits(n / 10) + [0x30 + n % 10]
  }

  function Pow10(k: nat): (r: nat)
    ensures r >= 1
  {
    if k == 0 then 1 else 10 * Pow10(k - 1)
  }

  lemma {:induction false} DigitsLen(n: nat, k: nat)
    requires k > 0 && n < Pow10(k)
    ensures 1 <= |Digits(n)| <= k
  {
    if n >= 10 {
      assert k > 1;
      DigitsLen(n / 10, k - 1);
    }
  }
}
