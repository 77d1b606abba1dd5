/** The tag scanners. The source walks bytes; the reference is a tokenizer over
  * characters. Both agree on every string, and every slice the byte walk takes
  * lands on a character boundary.
  */
module HtmlScan {
  import opened Wrappers
  import opened Utf8
  import opened Chars

  // --- The tokenizer, over characters ---------------------------------------------------

  predicate IsQuote(c: char) {
    c == '\"' || c == '\''
  }

  predicate IsAlnum(c: char) {
    '0' <= c <= '9' || 'A' <= c <= 'Z' || 'a' <= c <= 'z'
  }

  predicate EndsName(c: char) {
    c == '>' || c == '/' || c == ' ' || c == '\t' || c == '\n' || c == '\r' || c as int == 0x0C
  }

  /** Characters through the end of a tag, from inside it: a quoted `>` does not close it. */
  function TagLen(s: string, quote: Option<char>): (k: nat)
    ensures k <= |s|
  {
    if s == [] then 0
    else if quote.Some? then 1 + TagLen(s[1..], if s[0] == quote.value then None else quote)
    else if IsQuote(s[0]) then 1 + TagLen(s[1..], Some(s[0]))
    else if s[0] == '>' then 1
    else 1 + TagLen(s[1..], None)
  }

  function NameLen(s: string): (k: nat)
    ensures k <= |s|
  {
    if s == [] || !IsAlnum(s[0]) then 0 else 1 + NameLen(s[1..])
  }

  predicate ClosesRaw(s: string, name: string) {
    && |s| >= 2 + |name| && s[0] == '<' && s[1] == '/'
    && EqIgnoreCase(s[2..2 + |name|], name)
    && (|s| == 2 + |name| || EndsName(s[2 + |name|]))
  }

  /** Characters through the close tag that ends a raw-text element. */
  function RawLen(s: string, name: string): (k: Option<nat>)
    ensures k.Some? ==> 0 < k.value <= |s|
  {
    if s == [] then None
    else if ClosesRaw(s, name) then Some(1 + TagLen(s[1..], None))
    else
      var k := RawLen(s[1..], name);
      if k.None? then None else Some(k.value + 1)
  }

  function RunLen(s: string): (k: nat)
    ensures k <= |s|
  {
    if s == [] || s[0] == '<' then 0 else 1 + RunLen(s[1..])
  }

  predicate Closing(s: string) {
    s != [] && s[0] == '/'
  }

  /** The name after `<` and an optional slash. */
  function TagName(s: string): string {
    var t := if Closing(s) then s[1..] else s;
    t[..NameLen(t)]
  }

  predicate OpensRaw(s: string) {
    !Closing(s) && (EqIgnoreCase(TagName(s), "script") || EqIgnoreCase(TagName(s), "style"))
  }

  /** Characters from just after a `<` to where text resumes. */
  function MarkupLen(s: string): (k: nat)
    ensures k <= |s|
  {
    var tag := TagLen(s, None);
    if !OpensRaw(s) then tag
    else
      var body := RawLen(s[tag..], TagName(s));
      if body.None? then |s| else tag + body.value
  }

  /** The text outside tags and outside script and style bodies. */
  function KeptText(s: string): string
    decreases |s|
  {
    if s == [] then []
    else if s[0] == '<' then KeptText(s[1..][MarkupLen(s[1..])..])
    else [s[0]] + KeptText(s[1..])
  }

  // --- The scanners, over bytes ---------------------------------------------------------------

  function TagBytes(b: seq<Byte>, quote: Option<Byte>): (k: nat)
    ensures k <= |b|
  {
    if b == [] then 0
    else if quote.Some? then 1 + TagBytes(b[1..], if b[0] == quote.value then None else quote)
    else if b[0] == 0x22 || b[0] == 0x27 then 1 + TagBytes(b[1..], Some(b[0]))
    else if b[0] == 0x3E then 1
    else 1 + TagBytes(b[1..], None)
  }

  predicate AlnumByte(b: Byte) {
    0x30 <= b <= 0x39 || 0x41 <= b <= 0x5A || 0x61 <= b <= 0x7A
  }

  predicate EndsNameByte(b: Byte) {
    b == 0x3E || b == 0x2F || b == 0x20 || b == 0x09 || b == 0x0A || b == 0x0D || b == 0x0C
  }

  function LowerByte(b: Byte): Byte {
    if 0x41 <= b <= 0x5A then b + 32 else b
  }

  predicate EqIgnoreCaseBytes(a: seq<Byte>, b: seq<Byte>) {
    |a| == |b| && forall i :: 0 <= i < |a| ==> LowerByte(a[i]) == LowerByte(b[i])
  }

  predicate ClosesRawBytes(b: seq<Byte>, name: seq<Byte>) {
    && |b| >= 2 + |name| && b[0] == 0x3C && b[1] == 0x2F
    && EqIgnoreCaseBytes(b[2..2 + |name|], name)
    && (|b| == 2 + |name| || EndsNameByte(b[2 + |name|]))
  }

  function RawBytes(b: seq<Byte>, name: seq<Byte>): (k: Option<nat>)
    ensures k.Some? ==> 0 < k.value <= |b|
  {
    if b == [] then None
    else if ClosesRawBytes(b, name) then Some(1 + TagBytes(b[1..], None))
    else
      var k := RawBytes(b[1..], name);
      if k.None? then None else Some(k.value + 1)
  }

  function NameBytes(b: seq<Byte>): (k: nat)
    ensures k <= |b|
  {
    if b == [] || !AlnumByte(b[0]) then 0 else 1 + NameBytes(b[1..])
  }

  function RunBytes(b: seq<Byte>): (k: nat)
    ensures k <= |b|
  {
    if b == [] || b[0] == 0x3C then 0 else 1 + RunBytes(b[1..])
  }

  method ScanToTagEnd(bytes: seq<Byte>, from: nat) returns (end: nat)
    requires from <= |bytes|
    ensures end == from + TagBytes(bytes[from..], None)
  {
    var i := from;
    var quote: Option<Byte> := None;
    while i < |bytes|
      invariant from <= i <= |bytes|
      invariant from + TagBytes(bytes[from..], None) == i + TagBytes(bytes[i..], quote)
    {
      var b := bytes[i];
      assert bytes[i..][1..] == bytes[i + 1..];
      if quote.Some? {
        if b == quote.value { quote := None; }
      } else if b == 0x22 || b == 0x27 {
        quote := Some(b);
      } else if b == 0x3E {
        return i + 1;
      }
      i := i + 1;
    }
    end := |bytes|;
  }

  method FindRawTextClose(bytes: seq<Byte>, from: nat, name: seq<Byte>) returns (end: Option<nat>)
    requires from <= |bytes|
    ensures var k := RawBytes(bytes[from..], name); end == if k.Some? then Some(from + k.value) else None
  {
    var i := from;
    while i < |bytes|
      invariant from <= i <= |bytes|
      invariant var k, rest := RawBytes(bytes[from..], name), RawBytes(bytes[i..], name);
        if rest.Some? then k == Some(i - from + rest.value) else k.None?
    {
      assert bytes[i..][1..] == bytes[i + 1..];
      if ClosesRawBytes(bytes[i..], name) {
        var close := ScanToTagEnd(bytes, i + 1);
        return Some(close);
      }
      i := i + 1;
    }
    end := None;
  }

  /** Just past an ASCII alphanumeric name. */
  method ScanName(bytes: seq<Byte>, from: nat) returns (end: nat)
    requires from <= |bytes|
    ensures end == from + NameBytes(bytes[from..])
  {
    end := from;
    while end < |bytes| && AlnumByte(bytes[end])
      invariant from <= end <= |bytes|
      invariant from + NameBytes(bytes[from..]) == end + NameBytes(bytes[end..])
    {
      assert bytes[end..][1..] == bytes[end + 1..];
      end := end + 1;
    }
  }

  /** The next `<`, or the end. */
  method ScanRun(bytes: seq<Byte>, from: nat) returns (end: nat)
    requires from <= |bytes|
    ensures end == from + RunBytes(bytes[from..])
  {
    end := from;
    while end < |bytes| && bytes[end] != 0x3C
      invariant from <= end <= |bytes|
      invariant from + RunBytes(bytes[from..]) == end + RunBytes(bytes[end..])
    {
      assert bytes[end..][1..] == bytes[end + 1..];
      end := end + 1;
    }
  }

  // --- Bytes against characters ------------------------------------------------------------------

  /** A character is one ASCII byte, or only bytes no scanner looks for. */
  lemma CharBytes(c: char)
    ensures c as int < 0x80 ==> EncodeChar(c) == [c as int]
    ensures c as int >= 0x80 ==> forall i :: 0 <= i < |EncodeChar(c)| ==> EncodeChar(c)[i] >= 0x80
  {
  }

  function AsByte(q: Option<char>): Option<Byte> {
    if q.Some? && q.value as int < 0x80 then Some(q.value as int) else None
  }

  lemma {:induction false} TagSkipsHigh(e: seq<Byte>, rest: seq<Byte>, quote: Option<Byte>)
    requires forall i :: 0 <= i < |e| ==> e[i] >= 0x80
    requires quote.Some? ==> quote.value < 0x80
    ensures TagBytes(e + rest, quote) == |e| + TagBytes(rest, quote)
  {
    if e == [] {
      assert e + rest == rest;
    } else {
      assert (e + rest)[1..] == e[1..] + rest;
      TagSkipsHigh(e[1..], rest, quote);
    }
  }

  /** The quote a tag scan is in after one character. */
  function NextQuote(c: char, quote: Option<char>): Option<char> {
    if quote.Some? then (if c == quote.value then None else quote) else if IsQuote(c) then Some(c) else None
  }

  predicate ClosesTag(c: char, quote: Option<char>) {
    quote.None? && c == '>'
  }

  /** One character, as the byte scan goes through it. */
  lemma TagBytesStep(c: char, rest: seq<Byte>, quote: Option<char>)
    requires quote.Some? ==> IsQuote(quote.value)
    ensures TagBytes(EncodeChar(c) + rest, AsByte(quote))
         == |EncodeChar(c)| + if ClosesTag(c, quote) then 0 else TagBytes(rest, AsByte(NextQuote(c, quote)))
  {
    var e := EncodeChar(c);
    CharBytes(c);
    if c as int < 0x80 {
      assert (e + rest)[0] == c as int && (e + rest)[1..] == rest;
    } else {
      TagSkipsHigh(e, rest, AsByte(quote));
    }
  }

  lemma TagLenStep(s: string, quote: Option<char>)
    requires s != []
    ensures TagLen(s, quote) == 1 + if ClosesTag(s[0], quote) then 0 else TagLen(s[1..], NextQuote(s[0], quote))
  {
  }

  lemma {:induction false} TagBytesAreChars(s: string, quote: Option<char>)
    requires quote.Some? ==> IsQuote(quote.value)
    ensures TagBytes(Encode(s), AsByte(quote)) == ByteLen(s[..TagLen(s, quote)])
    decreases s
  {
    if s != [] {
      TagBytesStep(s[0], Encode(s[1..]), quote);
      TagLenStep(s, quote);
      if ClosesTag(s[0], quote) {
        PrefixTail(s, 0);
        assert s[1..][..0] == [];
      } else {
        TagBytesAreChars(s[1..], NextQuote(s[0], quote));
        PrefixTail(s, TagLen(s[1..], NextQuote(s[0], quote)));
      }
    }
  }

  lemma {:induction false} RunSkipsHigh(e: seq<Byte>, rest: seq<Byte>)
    requires forall i :: 0 <= i < |e| ==> e[i] >= 0x80
    ensures RunBytes(e + rest) == |e| + RunBytes(rest)
  {
    if e == [] {
      assert e + rest == rest;
    } else {
      assert (e + rest)[1..] == e[1..] + rest;
      RunSkipsHigh(e[1..], rest);
    }
  }

  lemma {:induction false} RunBytesAreChars(s: string)
    ensures RunBytes(Encode(s)) == ByteLen(s[..RunLen(s)])
  {
    if s != [] {
      var c, e, rest := s[0], EncodeChar(s[0]), Encode(s[1..]);
      CharBytes(c);
      RunBytesAreChars(s[1..]);
      PrefixTail(s, RunLen(s[1..]));
      if c as int < 0x80 {
        assert (e + rest)[0] == c as int && (e + rest)[1..] == rest;
      } else {
        RunSkipsHigh(e, rest);
      }
    }
  }

  lemma {:induction false} NameBytesAreChars(s: string)
    ensures NameBytes(Encode(s)) == NameLen(s) == ByteLen(s[..NameLen(s)])
  {
    if s != [] {
      var c, e, rest := s[0], EncodeChar(s[0]), Encode(s[1..]);
      CharBytes(c);
      NameBytesAreChars(s[1..]);
      PrefixTail(s, NameLen(s[1..]));
      assert (e + rest)[0] == e[0];
      if c as int < 0x80 {
        assert (e + rest)[0] == c as int && (e + rest)[1..] == rest;
      }
    }
  }

  // --- Close tags ---------------------------------------------------------------------------

  predicate IsName(name: string) {
    forall i :: 0 <= i < |name| ==> IsAlnum(name[i])
  }

  predicate StartsWith(s: string, name: string) {
    |s| >= |name| && EqIgnoreCase(s[..|name|], name)
  }

  predicate StartsWithBytes(b: seq<Byte>, name: seq<Byte>) {
    |b| >= |name| && EqIgnoreCaseBytes(b[..|name|], name)
  }

  lemma StartsWithStep(s: string, name: string)
    requires name != []
    ensures StartsWith(s, name) <==> s != [] && LowerChar(s[0]) == LowerChar(name[0]) && StartsWith(s[1..], name[1..])
  {
    if |s| >= |name| {
      var a, b := s[..|name|], name;
      assert a[1..] == s[1..][..|name[1..]|];
      if EqIgnoreCase(a, b) {
        assert forall i :: 0 <= i < |b| ==> LowerChar(a[i]) == AsciiLower(a)[i] == AsciiLower(b)[i] == LowerChar(b[i]);
        assert AsciiLower(a[1..]) == AsciiLower(b[1..]);
      }
      if LowerChar(a[0]) == LowerChar(b[0]) && EqIgnoreCase(a[1..], b[1..]) {
        assert forall i :: 0 <= i < |b[1..]| ==>
          LowerChar(a[1..][i]) == AsciiLower(a[1..])[i] == AsciiLower(b[1..])[i] == LowerChar(b[1..][i]);
        assert AsciiLower(a) == AsciiLower(b);
      }
    }
  }

  lemma StartsWithBytesStep(b: seq<Byte>, name: seq<Byte>)
    requires name != []
    ensures StartsWithBytes(b, name) <==> b != [] && LowerByte(b[0]) == LowerByte(name[0]) && StartsWithBytes(b[1..], name[1..])
  {
    if |b| >= |name| {
      var a := b[..|name|];
      assert a[1..] == b[1..][..|name[1..]|];
      assert a[0] == b[0];
      if LowerByte(b[0]) == LowerByte(name[0]) && EqIgnoreCaseBytes(a[1..], name[1..]) {
        forall i | 0 <= i < |a| ensures LowerByte(a[i]) == LowerByte(name[i]) {
          if i > 0 { assert LowerByte(a[1..][i - 1]) == LowerByte(name[1..][i - 1]); }
        }
      }
    }
  }

  lemma LowerAgrees(c: char, d: char)
    requires d as int < 0x80
    ensures c as int < 0x80 ==> (LowerChar(c) == LowerChar(d) <==> LowerByte(c as int) == LowerByte(d as int))
    ensures c as int >= 0x80 ==> LowerChar(c) != LowerChar(d)
  {
  }

  lemma {:induction false} StartsWithAgrees(s: string, name: string)
    requires IsName(name)
    ensures StartsWithBytes(Encode(s), Encode(name)) <==> StartsWith(s, name)
    ensures StartsWith(s, name) ==> |Encode(name)| == |name| && Encode(s)[|name|..] == Encode(s[|name|..])
    decreases name
  {
    if name == [] {
      assert s[..0] == [] && AsciiLower([]) == [];
    } else {
      var d := name[0];
      CharBytes(d);
      StartsWithStep(s, name);
      StartsWithBytesStep(Encode(s), Encode(name));
      assert Encode(name)[1..] == Encode(name[1..]);
      if s != [] {
        CharBytes(s[0]);
        LowerAgrees(s[0], d);
        if s[0] as int < 0x80 {
          assert Encode(s)[1..] == Encode(s[1..]);
          StartsWithAgrees(s[1..], name[1..]);
          if StartsWith(s, name) {
            assert s[|name|..] == s[1..][|name[1..]|..];
            assert Encode(s)[|name|..] == Encode(s)[1..][|name[1..]|..];
          }
        } else {
          assert Encode(s)[0] >= 0x80;
        }
      }
    }
  }

  lemma FirstByte(s: string)
    requires s != []
    ensures Encode(s) != [] && Encode(s)[0] == EncodeChar(s[0])[0]
    ensures s[0] as int < 0x80 ==> Encode(s)[0] == s[0] as int && Encode(s)[1..] == Encode(s[1..])
    ensures s[0] as int >= 0x80 ==> Encode(s)[0] >= 0x80
  {
    CharBytes(s[0]);
  }

  /** The two characters that open a close tag, seen as bytes. */
  lemma OpensCloseAgrees(s: string)
    ensures (|Encode(s)| >= 2 && Encode(s)[0] == 0x3C && Encode(s)[1] == 0x2F) <==> (|s| >= 2 && s[0] == '<' && s[1] == '/')
    ensures |s| >= 2 && s[0] == '<' && s[1] == '/' ==> Encode(s)[2..] == Encode(s[2..])
  {
    if s != [] { FirstByte(s); }
    if s != [] && s[0] == '<' {
      assert Encode(s)[1..] == Encode(s[1..]);
      if |s| > 1 {
        FirstByte(s[1..]);
        assert s[1..][1..] == s[2..];
        assert Encode(s)[2..] == Encode(s)[1..][1..];
      }
    }
  }

  /** What follows a name, seen as bytes. */
  lemma EndsNameAgrees(t: string)
    ensures Encode(t) == [] <==> t == []
    ensures t != [] ==> (EndsNameByte(Encode(t)[0]) <==> EndsName(t[0]))
  {
    if t != [] { FirstByte(t); }
  }

  lemma ClosesRawAgrees(s: string, name: string)
    requires IsName(name)
    ensures ClosesRawBytes(Encode(s), Encode(name)) <==> ClosesRaw(s, name)
  {
    NameWidth(name);
    OpensCloseAgrees(s);
    if |s| >= 2 && s[0] == '<' && s[1] == '/' {
      var b, t, n := Encode(s), s[2..], |name|;
      StartsWithAgrees(t, name);
      CloseTail(b, Encode(name));
      CloseTailChars(s, name);
      if StartsWith(t, name) { EndsNameAgrees(t[n..]); }
    }
  }

  lemma CloseTail(b: seq<Byte>, name: seq<Byte>)
    requires |b| >= 2 && b[0] == 0x3C && b[1] == 0x2F
    ensures ClosesRawBytes(b, name) <==>
      StartsWithBytes(b[2..], name) && (b[2..][|name|..] == [] || EndsNameByte(b[2..][|name|..][0]))
  {
    if |b| >= 2 + |name| { assert b[2..][..|name|] == b[2..2 + |name|]; }
  }

  lemma CloseTailChars(s: string, name: string)
    requires |s| >= 2 && s[0] == '<' && s[1] == '/'
    ensures ClosesRaw(s, name) <==>
      StartsWith(s[2..], name) && (s[2..][|name|..] == [] || EndsName(s[2..][|name|..][0]))
  {
    if |s| >= 2 + |name| { assert s[2..][..|name|] == s[2..2 + |name|]; }
  }

  lemma {:induction false} NameWidth(name: string)
    requires IsName(name)
    ensures |Encode(name)| == |name|
  {
    if name != [] {
      CharBytes(name[0]);
      NameWidth(name[1..]);
    }
  }

  function Plus(k: Option<nat>, n: nat): Option<nat> {
    if k.Some? then Some(k.value + n) else None
  }

  lemma {:induction false} RawSkipsHigh(e: seq<Byte>, rest: seq<Byte>, name: seq<Byte>)
    requires forall i :: 0 <= i < |e| ==> e[i] >= 0x80
    ensures RawBytes(e + rest, name) == Plus(RawBytes(rest, name), |e|)
  {
    if e == [] {
      assert e + rest == rest;
    } else {
      assert (e + rest)[1..] == e[1..] + rest;
      RawSkipsHigh(e[1..], rest, name);
    }
  }

  /** A byte that does not start the close tag is passed over. */
  lemma RawSkipsOne(b: seq<Byte>, name: seq<Byte>)
    requires b != [] && !ClosesRawBytes(b, name)
    ensures RawBytes(b, name) == Plus(RawBytes(b[1..], name), 1)
  {
  }

  lemma RawStepAscii(s: string, name: string)
    requires s != [] && s[0] as int < 0x80 && IsName(name) && !ClosesRaw(s, name)
    ensures RawBytes(Encode(s), Encode(name)) == Plus(RawBytes(Encode(s[1..]), Encode(name)), 1)
  {
    FirstByte(s);
    ClosesRawAgrees(s, name);
    RawSkipsOne(Encode(s), Encode(name));
  }

  lemma RawStepWide(s: string, name: string)
    requires s != [] && s[0] as int >= 0x80
    ensures RawBytes(Encode(s), Encode(name)) == Plus(RawBytes(Encode(s[1..]), Encode(name)), |EncodeChar(s[0])|)
  {
    CharBytes(s[0]);
    assert Encode(s) == EncodeChar(s[0]) + Encode(s[1..]);
    RawSkipsHigh(EncodeChar(s[0]), Encode(s[1..]), Encode(name));
  }

  /** So is every byte of a character that does not. */
  lemma RawBytesStep(s: string, name: string)
    requires s != [] && IsName(name) && !ClosesRaw(s, name)
    ensures RawBytes(Encode(s), Encode(name)) == Plus(RawBytes(Encode(s[1..]), Encode(name)), |EncodeChar(s[0])|)
  {
    if s[0] as int >= 0x80 {
      RawStepWide(s, name);
    } else {
      CharBytes(s[0]);
      RawStepAscii(s, name);
    }
  }

  /** The close tag itself. */
  lemma RawBytesClose(s: string, name: string)
    requires IsName(name) && ClosesRaw(s, name)
    ensures RawBytes(Encode(s), Encode(name)) == Some(1 + ByteLen(s[1..][..TagLen(s[1..], None)]))
  {
    CharBytes(s[0]);
    FirstByte(s);
    ClosesRawAgrees(s, name);
    TagBytesAreChars(s[1..], None);
  }

  lemma RawLenStep(s: string, name: string)
    requires s != []
    ensures RawLen(s, name) == if ClosesRaw(s, name) then Some(1 + TagLen(s[1..], None)) else Plus(RawLen(s[1..], name), 1)
  {
  }

  /** The byte length of the first `k` characters, where there are that many to take. */
  function Width(s: string, k: Option<nat>): Option<nat>
    requires k.Some? ==> k.value <= |s|
  {
    if k.Some? then Some(ByteLen(s[..k.value])) else None
  }

  lemma WidthPlus(s: string, k: Option<nat>)
    requires s != [] && (k.Some? ==> k.value <= |s[1..]|)
    ensures Width(s, Plus(k, 1)) == Plus(Width(s[1..], k), |EncodeChar(s[0])|)
  {
    if k.Some? { PrefixTail(s, k.value); }
  }

  lemma {:induction false} RawBytesAreChars(s: string, name: string)
    requires IsName(name)
    ensures RawBytes(Encode(s), Encode(name)) == Width(s, RawLen(s, name))
    decreases s
  {
    if s != [] {
      RawLenStep(s, name);
      if ClosesRaw(s, name) {
        RawBytesClose(s, name);
        CharBytes(s[0]);
        WidthPlus(s, Some(TagLen(s[1..], None)));
      } else {
        RawBytesStep(s, name);
        RawBytesAreChars(s[1..], name);
        WidthPlus(s, RawLen(s[1..], name));
      }
    }
  }
}
