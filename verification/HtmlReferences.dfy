/** Character references, written by name or by number: which are read back, and which stay as they are. */
module HtmlReferences {
  import opened Wrappers
  import opened Chars
  import opened HtmlStrip
  import opened HtmlScan
  import opened HtmlText

  // --- Writers ------------------------------------------------------------------------------

  predicate IsDecDigit(c: char) {
    '0' <= c <= '9'
  }

  predicate IsHexDigit(c: char) {
    IsDecDigit(c) || 'a' <= c <= 'f' || 'A' <= c <= 'F'
  }

  function Digit(n: nat, upper: bool): (c: char)
    requires n < 16
    ensures IsHexDigit(c) && (n < 10 ==> IsDecDigit(c))
  {
    if n < 10 then '0' + n as char else (if upper then 'A' else 'a') + (n - 10) as char
  }

  function Dec(n: nat): (s: string)
    ensures s != [] && forall i :: 0 <= i < |s| ==> IsDecDigit(s[i])
  {
    (if n < 10 then [] else Dec(n / 10)) + [Digit(n % 10, false)]
  }

  /** Hexadecimal digits; `upper` says which of them, counted from the right, are capitals. */
  function Hex(n: nat, upper: nat -> bool, k: nat): (s: string)
    ensures s != [] && forall i :: 0 <= i < |s| ==> IsHexDigit(s[i])
    decreases n
  {
    (if n < 16 then [] else Hex(n / 16, upper, k + 1)) + [Digit(n % 16, upper(k))]
  }

  function Zeros(k: nat): (s: string)
    ensures |s| == k && forall i :: 0 <= i < |s| ==> s[i] == '0'
  {
    if k == 0 then [] else ['0'] + Zeros(k - 1)
  }

  function Plus(plus: bool): string {
    if plus then "+" else ""
  }

  /** A decimal reference, as the parser takes it: leading zeros and a plus sign are allowed. */
  function DecBody(n: nat, plus: bool, zeros: nat): string {
    ['#'] + (Plus(plus) + (Zeros(zeros) + Dec(n)))
  }

  function HexBody(n: nat, x: char, plus: bool, zeros: nat, upper: nat -> bool): string {
    ['#'] + ([x] + (Plus(plus) + (Zeros(zeros) + Hex(n, upper, 0))))
  }

  predicate IsScalar(n: nat) {
    n < 0xD800 || 0xE000 <= n <= 0x10FFFF
  }

  // --- The parser reads what the writers write ----------------------------------------------------

  lemma DigitsStep(s: string, c: char, radix: nat)
    ensures DigitsValue(s + [c], radix) ==
      if DigitsValue(s, radix).None? || DigitValue(c, radix).None? then None
      else Some(DigitsValue(s, radix).value * radix + DigitValue(c, radix).value)
  {
    assert (s + [c])[..|s|] == s;
  }

  lemma {:induction false} ZerosValue(k: nat, radix: nat)
    requires radix > 0
    ensures DigitsValue(Zeros(k), radix) == Some(0)
  {
    if k > 0 {
      ZerosValue(k - 1, radix);
      assert Zeros(k) == Zeros(k - 1) + ['0'] by { ZerosSwap(k - 1); }
      DigitsStep(Zeros(k - 1), '0', radix);
    }
  }

  lemma {:induction false} ZerosSwap(k: nat)
    ensures ['0'] + Zeros(k) == Zeros(k) + ['0']
  {
    if k > 0 {
      ZerosSwap(k - 1);
    }
  }

  lemma DigitReads(n: nat, upper: bool, radix: nat)
    requires n < radix <= 16
    ensures DigitValue(Digit(n, upper), radix) == Some(n)
  {
  }

  lemma {:induction false} DecValue(n: nat, zeros: nat)
    ensures DigitsValue(Zeros(zeros) + Dec(n), 10) == Some(n)
  {
    var front, last := if n < 10 then [] else Dec(n / 10), Digit(n % 10, false);
    DigitReads(n % 10, false, 10);
    if n < 10 { ZerosValue(zeros, 10); } else { DecValue(n / 10, zeros); }
    LastDigit(zeros, front, last, 10, if n < 10 then 0 else n / 10, n % 10);
  }

  lemma {:induction false} HexValue(n: nat, upper: nat -> bool, k: nat, zeros: nat)
    ensures DigitsValue(Zeros(zeros) + Hex(n, upper, k), 16) == Some(n)
    decreases n
  {
    var front, last := if n < 16 then [] else Hex(n / 16, upper, k + 1), Digit(n % 16, upper(k));
    DigitReads(n % 16, upper(k), 16);
    if n < 16 { ZerosValue(zeros, 16); } else { HexValue(n / 16, upper, k + 1, zeros); }
    LastDigit(zeros, front, last, 16, if n < 16 then 0 else n / 16, n % 16);
  }

  lemma Regroup(a: string, b: string, c: string)
    ensures a + (b + c) == (a + b) + c
    ensures b == [] ==> a + b == a
  {
  }

  lemma LastDigit(zeros: nat, front: string, last: char, radix: nat, high: nat, low: nat)
    requires if front == [] then DigitsValue(Zeros(zeros), radix) == Some(high)
             else DigitsValue(Zeros(zeros) + front, radix) == Some(high)
    requires DigitValue(last, radix) == Some(low)
    ensures DigitsValue(Zeros(zeros) + (front + [last]), radix) == Some(high * radix + low)
  {
    var head := Zeros(zeros) + front;
    Regroup(Zeros(zeros), front, [last]);
    assert DigitsValue(head, radix) == Some(high);
    DigitsStep(head, last, radix);
  }

  lemma ParsesSigned(digits: string, plus: bool, radix: nat, n: nat)
    requires digits != [] && IsHexDigit(digits[0]) && DigitsValue(digits, radix) == Some(n)
    ensures ParseU32(Plus(plus) + digits, radix) == if n <= U32_MAX then Some(n) else None
  {
    if plus {
      assert (Plus(plus) + digits)[1..] == digits;
    } else {
      assert Plus(plus) + digits == digits;
    }
  }

  /** The code point read, if it is one. */
  ghost function Read(n: nat): Option<char> {
    if IsScalar(n) then Some(n as char) else None
  }

  function Coded(code: Option<nat>): Option<char> {
    if code.None? then None else CharFrom(code.value)
  }

  lemma ThirtyNine(t: string)
    requires |t| == 2 && t[0] == '3' && t[1] == '9'
    ensures ParseU32(t, 10) == Some(39)
  {
    var three := t[..1];
    DigitsStep([], '3', 10);
    DigitsStep(three, '9', 10);
    assert [] + ['3'] == three && three + ['9'] == t;
  }

  lemma NumberSignNames(e: string)
    requires e != [] && e[0] == '#' && e != "#39"
    ensures var num := e[1..];
      DecodeOneEntity(e) ==
        if num != [] && (num[0] == 'x' || num[0] == 'X') then Coded(ParseU32(num[1..], 16)) else Coded(ParseU32(num, 10))
  {
  }

  lemma TheLiteral(e: string)
    requires e == "#39"
    ensures DecodeOneEntity(e) == Some('\'') && |e| == 3 && e[1] == '3' && e[2] == '9'
  {
  }

  /** After a number sign only the number counts, the one literal among the names included. */
  lemma NumericEntity(t: string)
    ensures DecodeOneEntity(['#'] + t) ==
      if t != [] && (t[0] == 'x' || t[0] == 'X') then Coded(ParseU32(t[1..], 16)) else Coded(ParseU32(t, 10))
  {
    var e := ['#'] + t;
    assert e[1..] == t;
    if e == "#39" {
      TheLiteral(e);
      assert t[0] == e[1] && t[1] == e[2];
      ThirtyNine(t);
    } else {
      NumberSignNames(e);
    }
  }

  lemma DecodesDec(n: nat, plus: bool, zeros: nat)
    ensures DecodeOneEntity(DecBody(n, plus, zeros)) == Read(n)
  {
    var digits := Zeros(zeros) + Dec(n);
    DecValue(n, zeros);
    ParsesSigned(digits, plus, 10, n);
    NumericEntity(Plus(plus) + digits);
  }

  lemma DecodesHex(n: nat, x: char, plus: bool, zeros: nat, upper: nat -> bool)
    requires x == 'x' || x == 'X'
    ensures DecodeOneEntity(HexBody(n, x, plus, zeros, upper)) == Read(n)
  {
    var digits := Zeros(zeros) + Hex(n, upper, 0);
    HexValue(n, upper, 0, zeros);
    ParsesSigned(digits, plus, 16, n);
    NumericEntity([x] + (Plus(plus) + digits));
    assert ([x] + (Plus(plus) + digits))[1..] == Plus(plus) + digits;
  }

  // --- What a reference becomes ---------------------------------------------------------------------

  lemma {:induction false} SemiTooFar(body: string, rest: string, limit: nat)
    requires limit <= |body| && ';' !in body
    ensures FindWithin(body + rest, ';', limit) == None
  {
    if limit > 0 {
      assert body == [body[0]] + body[1..];
      assert (body + rest)[1..] == body[1..] + rest;
      SemiTooFar(body[1..], rest, limit - 1);
    }
  }

  /** Text between an ampersand and a semicolon is read as one character, or stays as it is. */
  lemma ReferenceIs(body: string, rest: string)
    requires Unmarked(body)
    ensures Decoded("&" + body + ";" + rest) ==
      if |body| < 12 && DecodeOneEntity(body).Some? then [DecodeOneEntity(body).value] + Decoded(rest)
      else "&" + body + ";" + Decoded(rest)
  {
    if |body| < 12 && DecodeOneEntity(body).Some? {
      DecodesEntity(body, DecodeOneEntity(body).value, rest);
    } else {
      var s, after := "&" + body + ";" + rest, body + ";" + rest;
      assert s[1..] == after;
      if |body| < 12 {
        SemiAt(body, rest);
        assert after[..|body|] == body;
      } else {
        assert after == body + (";" + rest);
        SemiTooFar(body, ";" + rest, 12);
      }
      assert after[..|body| + 1] == body + ";" && after[|body| + 1..] == rest;
      DecodedRun(after, |body| + 1);
      assert "&" + (body + ";" + Decoded(rest)) == "&" + body + ";" + Decoded(rest);
    }
  }

  /** No ampersand and no semicolon. */
  predicate Unmarked(s: string) {
    ';' !in s && '&' !in s
  }

  lemma DigitsUnmarked(s: string)
    requires forall i :: 0 <= i < |s| ==> IsHexDigit(s[i])
    ensures Unmarked(s)
  {
  }

  lemma JoinUnmarked(a: string, b: string)
    requires Unmarked(a) && Unmarked(b)
    ensures Unmarked(a + b)
  {
  }

  lemma NumberUnmarked(plus: bool, zeros: nat, digits: string)
    requires forall i :: 0 <= i < |digits| ==> IsHexDigit(digits[i])
    ensures Unmarked(Plus(plus) + (Zeros(zeros) + digits))
  {
    DigitsUnmarked(digits);
    DigitsUnmarked(Zeros(zeros));
    JoinUnmarked(Zeros(zeros), digits);
    JoinUnmarked(Plus(plus), Zeros(zeros) + digits);
  }

  /** A decimal reference becomes its character exactly when it names one and its semicolon is among the
    * first twelve characters; a surrogate or a larger number stays as it was written.
    */
  lemma DecimalReference(n: nat, plus: bool, zeros: nat, rest: string)
    ensures var body := DecBody(n, plus, zeros);
      Decoded("&" + body + ";" + rest) ==
        if IsScalar(n) && |body| < 12 then [n as char] + Decoded(rest) else "&" + body + ";" + Decoded(rest)
  {
    DecodesDec(n, plus, zeros);
    NumberUnmarked(plus, zeros, Dec(n));
    JoinUnmarked(['#'], Plus(plus) + (Zeros(zeros) + Dec(n)));
    ReferenceIs(DecBody(n, plus, zeros), rest);
  }

  /** So does a hexadecimal one, with either `x` and digits of either case. */
  lemma HexReference(n: nat, x: char, plus: bool, zeros: nat, upper: nat -> bool, rest: string)
    requires x == 'x' || x == 'X'
    ensures var body := HexBody(n, x, plus, zeros, upper);
      Decoded("&" + body + ";" + rest) ==
        if IsScalar(n) && |body| < 12 then [n as char] + Decoded(rest) else "&" + body + ";" + Decoded(rest)
  {
    var number := Plus(plus) + (Zeros(zeros) + Hex(n, upper, 0));
    DecodesHex(n, x, plus, zeros, upper);
    NumberUnmarked(plus, zeros, Hex(n, upper, 0));
    JoinUnmarked([x], number);
    JoinUnmarked(['#'], [x] + number);
    ReferenceIs(HexBody(n, x, plus, zeros, upper), rest);
  }

  /** Written without leading zeros every reference to a character is short enough. */
  lemma PlainReferencesFit(n: nat, upper: nat -> bool)
    requires n <= 0x10FFFF
    ensures |DecBody(n, false, 0)| <= 8 && |HexBody(n, 'x', false, 0, upper)| <= 8
  {
    DecLen(n, 7);
    HexLen(n, upper, 0, 6);
  }

  function Pow(b: nat, k: nat): nat {
    if k == 0 then 1 else b * Pow(b, k - 1)
  }

  lemma {:induction false} DecLen(n: nat, k: nat)
    requires k > 0 && n < Pow(10, k)
    ensures |Dec(n)| <= k
  {
    if n >= 10 {
      DecLen(n / 10, k - 1);
    }
  }

  lemma {:induction false} HexLen(n: nat, upper: nat -> bool, i: nat, k: nat)
    requires k > 0 && n < Pow(16, k)
    ensures |Hex(n, upper, i)| <= k
    decreases k
  {
    if n >= 16 {
      HexLen(n / 16, upper, i + 1, k - 1);
    }
  }

  // --- Names and malformed references ---------------------------------------------------------------

  const NAMES: map<string, char> :=
    map["amp" := '&', "lt" := '<', "gt" := '>', "quot" := '\"', "apos" := '\'', "nbsp" := ' ']

  /** Exactly the six names are read; any other name stays as it was written. */
  lemma NamedReference(name: string, rest: string)
    requires ';' !in name && '&' !in name && (name == [] || name[0] != '#')
    ensures Decoded("&" + name + ";" + rest) ==
      if name in NAMES then [NAMES[name]] + Decoded(rest) else "&" + name + ";" + Decoded(rest)
  {
    ReferenceIs(name, rest);
    NamesAreRead(name);
  }

  lemma NamesAreRead(name: string)
    requires name == [] || name[0] != '#'
    ensures DecodeOneEntity(name) == if name in NAMES then Some(NAMES[name]) else None
    ensures name in NAMES ==> |name| < 12
  {
  }

  /** An optional plus sign and at least one digit of the base. */
  predicate NumberIn(t: string, hex: bool) {
    var number := if t != [] && t[0] == '+' then t[1..] else t;
    number != [] && forall i :: 0 <= i < |number| ==> if hex then IsHexDigit(number[i]) else IsDecDigit(number[i])
  }

  /** What may follow a number sign. */
  predicate NumberForm(t: string) {
    if t != [] && (t[0] == 'x' || t[0] == 'X') then NumberIn(t[1..], true) else NumberIn(t, false)
  }

  lemma {:induction false} DigitsAreDigits(s: string, hex: bool)
    requires DigitsValue(s, if hex then 16 else 10).Some?
    ensures forall i :: 0 <= i < |s| ==> if hex then IsHexDigit(s[i]) else IsDecDigit(s[i])
  {
    if s != [] {
      DigitsAreDigits(s[..|s| - 1], hex);
    }
  }

  /** A number sign without a well-formed number stays as it was written. */
  lemma MalformedStays(t: string, rest: string)
    requires ';' !in t && '&' !in t && !NumberForm(t)
    ensures Decoded("&" + (['#'] + t) + ";" + rest) == "&" + (['#'] + t) + ";" + Decoded(rest)
  {
    ReferenceIs(['#'] + t, rest);
    NumericEntity(t);
    var hex := t != [] && (t[0] == 'x' || t[0] == 'X');
    var number := if hex then t[1..] else t;
    var digits := if number != [] && number[0] == '+' then number[1..] else number;
    if ParseU32(number, if hex then 16 else 10).Some? { DigitsAreDigits(digits, hex); }
  }

  // --- Text written with references comes back --------------------------------------------------------

  /** How one character is written. */
  datatype Style =
    | Plain
    | Named(name: string)
    | Decimal(zeros: nat)
    | Hexadecimal(x: char, zeros: nat, upper: nat -> bool)

  /** A style that fits the character. */
  predicate Fits(c: char, style: Style) {
    match style
    case Plain => c != '&' && c != '<'
    case Named(name) => name in NAMES && NAMES[name] == c
    case Decimal(zeros) => |DecBody(c as int, false, zeros)| < 12
    case Hexadecimal(x, zeros, upper) => (x == 'x' || x == 'X') && |HexBody(c as int, x, false, zeros, upper)| < 12
  }

  function Written(c: char, style: Style): string {
    match style
    case Plain => [c]
    case Named(name) => "&" + name + ";"
    case Decimal(zeros) => "&" + DecBody(c as int, false, zeros) + ";"
    case Hexadecimal(x, zeros, upper) => "&" + HexBody(c as int, x, false, zeros, upper) + ";"
  }

  function WriteText(s: string, styles: seq<Style>): string
    requires |styles| == |s|
  {
    if s == [] then [] else Written(s[0], styles[0]) + WriteText(s[1..], styles[1..])
  }

  lemma WrittenIsRead(c: char, style: Style, rest: string)
    requires Fits(c, style)
    ensures Decoded(Written(c, style) + rest) == [c] + Decoded(rest)
  {
    match style {
      case Plain => assert ([c] + rest)[1..] == rest;
      case Named(name) =>
        NamesHaveNoTags(name);
        NamedReference(name, rest);
      case Decimal(zeros) => DecimalReference(c as int, false, zeros, rest);
      case Hexadecimal(x, zeros, upper) => HexReference(c as int, x, false, zeros, upper, rest);
    }
  }

  lemma {:induction false} TextIsRead(s: string, styles: seq<Style>)
    requires |styles| == |s| && forall i :: 0 <= i < |s| ==> Fits(s[i], styles[i])
    ensures Decoded(WriteText(s, styles)) == s
  {
    if s != [] {
      TextIsRead(s[1..], styles[1..]);
      WrittenIsRead(s[0], styles[0], WriteText(s[1..], styles[1..]));
      assert s == [s[0]] + s[1..];
    }
  }

  lemma NamesHaveNoTags(name: string)
    requires name in NAMES
    ensures '<' !in name && ';' !in name && '&' !in name && name[0] != '#'
  {
  }

  lemma WrittenHasNoTags(c: char, style: Style)
    requires Fits(c, style)
    ensures '<' !in Written(c, style)
  {
    match style {
      case Plain =>
      case Named(name) => NamesHaveNoTags(name);
      case Decimal(zeros) => BodyHasNoTags(Plus(false) + (Zeros(zeros) + Dec(c as int)));
      case Hexadecimal(x, zeros, upper) => BodyHasNoTags([x] + (Plus(false) + (Zeros(zeros) + Hex(c as int, upper, 0))));
    }
  }

  lemma BodyHasNoTags(number: string)
    requires '<' !in number
    ensures '<' !in "&" + (['#'] + number) + ";"
  {
  }

  lemma {:induction false} TextHasNoTags(s: string, styles: seq<Style>)
    requires |styles| == |s| && forall i :: 0 <= i < |s| ==> Fits(s[i], styles[i])
    ensures '<' !in WriteText(s, styles)
  {
    if s != [] {
      WrittenHasNoTags(s[0], styles[0]);
      TextHasNoTags(s[1..], styles[1..]);
    }
  }

  /** However each character of a text is written, plainly, by name or by number, the whole pipeline
    * recovers the text, up to unsafe characters and the width of its gaps.
    */
  lemma WrittenTextComesBack(s: string, styles: seq<Style>)
    requires |styles| == |s| && forall i :: 0 <= i < |s| ==> Fits(s[i], styles[i])
    ensures Stripped(WriteText(s, styles)) == Compact(Safe(s))
  {
    TextHasNoTags(s, styles);
    NoTagsKept(WriteText(s, styles));
    TextIsRead(s, styles);
  }
}
