/** A reader for JSON values, and that it reads back whatever the wire writer serialized. */
module JsonValues {
  import opened Wrappers
  import opened Utf8
  import opened Json
  import opened Framing

  /** A value as it is read, its strings still the bytes between the quotes. */
  datatype Raw =
    | RawNull
    | RawBool(b: bool)
    | RawNumber(token: seq<Byte>)
    | RawText(bytes: seq<Byte>)
    | RawArray(items: seq<Raw>)
    | RawObject(fields: seq<RawField>)
  datatype RawField = RawField(name: seq<Byte>, value: Raw)

  // --- The reader -----------------------------------------------------------------------------

  /** Section 6 of RFC 8259: digits, signs, the point and the exponent. */
  predicate IsNumberByte(b: Byte) {
    0x30 <= b <= 0x39 || b == 0x2B || b == 0x2D || b == 0x2E || b == 0x45 || b == 0x65
  }

  function NumberLen(s: seq<Byte>): (k: nat)
    ensures k <= |s|
  {
    if s == [] || !IsNumberByte(s[0]) then 0 else 1 + NumberLen(s[1..])
  }

  lemma {:induction false} StringShrinks(s: seq<Byte>)
    ensures ReadString(s).Some? ==> |ReadString(s).value.1| < |s|
    decreases |s|
  {
    if s != [] {
      StringShrinks(s[1..]);
      if |s| >= 2 { StringShrinks(s[2..]); }
      if |s| >= 6 { StringShrinks(s[6..]); }
    }
  }

  /** A string from its opening quote on. */
  function ReadQuoted(s: seq<Byte>): (r: Option<(seq<Byte>, seq<Byte>)>)
    ensures r.Some? ==> |r.value.1| < |s|
  {
    if s == [] || s[0] != QUOTE then None
    else
      StringShrinks(s[1..]);
      ReadString(s[1..])
  }

  /** One value at the front of the input, and what follows it. */
  function ReadValue(s: seq<Byte>): (r: Option<(Raw, seq<Byte>)>)
    ensures r.Some? ==> |r.value.1| < |s|
    decreases |s|, 0
  {
    if s == [] then None
    else if s[0] == QUOTE then
      var text := ReadQuoted(s);
      if text.None? then None else Some((RawText(text.value.0), text.value.1))
    else if s[0] == 0x5B then
      if |s| > 1 && s[1] == 0x5D then Some((RawArray([]), s[2..]))
      else
        var items := ReadItems(s[1..]);
        if items.None? then None else Some((RawArray(items.value.0), items.value.1))
    else if s[0] == 0x7B then
      if |s| > 1 && s[1] == 0x7D then Some((RawObject([]), s[2..]))
      else
        var fields := ReadFields(s[1..]);
        if fields.None? then None else Some((RawObject(fields.value.0), fields.value.1))
    else if [0x6E, 0x75, 0x6C, 0x6C] <= s then Some((RawNull, s[4..]))
    else if [0x74, 0x72, 0x75, 0x65] <= s then Some((RawBool(true), s[4..]))
    else if [0x66, 0x61, 0x6C, 0x73, 0x65] <= s then Some((RawBool(false), s[5..]))
    else if NumberLen(s) == 0 then None
    else Some((RawNumber(s[..NumberLen(s)]), s[NumberLen(s)..]))
  }

  /** At least one value, separated by commas, up to the closing bracket. */
  function ReadItems(s: seq<Byte>): (r: Option<(seq<Raw>, seq<Byte>)>)
    ensures r.Some? ==> |r.value.1| < |s|
    decreases |s|, 1
  {
    var first := ReadValue(s);
    if first.None? || first.value.1 == [] then None
    else
      var rest := first.value.1;
      if rest[0] == 0x5D then Some(([first.value.0], rest[1..]))
      else if rest[0] != 0x2C then None
      else
        var more := ReadItems(rest[1..]);
        if more.None? then None else Some(([first.value.0] + more.value.0, more.value.1))
  }

  /** One name, a colon, and its value. */
  function ReadField(s: seq<Byte>): (r: Option<(RawField, seq<Byte>)>)
    ensures r.Some? ==> |r.value.1| < |s|
    decreases |s|, 1
  {
    var name := ReadQuoted(s);
    if name.None? || name.value.1 == [] || name.value.1[0] != 0x3A then None
    else
      var value := ReadValue(name.value.1[1..]);
      if value.None? then None else Some((RawField(name.value.0, value.value.0), value.value.1))
  }

  function ReadFields(s: seq<Byte>): (r: Option<(seq<RawField>, seq<Byte>)>)
    ensures r.Some? ==> |r.value.1| < |s|
    decreases |s|, 2
  {
    var first := ReadField(s);
    if first.None? || first.value.1 == [] then None
    else
      var rest := first.value.1;
      if rest[0] == 0x7D then Some(([first.value.0], rest[1..]))
      else if rest[0] != 0x2C then None
      else
        var more := ReadFields(rest[1..]);
        if more.None? then None else Some(([first.value.0] + more.value.0, more.value.1))
  }

  // --- What is read of a written value ------------------------------------------------------------

  function RawOf(v: Value): Raw
    decreases v, 0
  {
    match v
    case Null => RawNull
    case Bool(b) => RawBool(b)
    case Number(token) => RawNumber(token)
    case Text(s) => RawText(Encode(s))
    case Array(items) => RawArray(RawItems(items))
    case Object(fields) => RawObject(RawFields(fields))
  }

  function RawItems(items: seq<Value>): (r: seq<Raw>)
    decreases items, 1
  {
    if items == [] then [] else [RawOf(items[0])] + RawItems(items[1..])
  }

  function RawFields(fields: seq<Field>): (r: seq<RawField>)
    decreases fields, 1
  {
    if fields == [] then []
    else [RawField(Encode(fields[0].name), RawOf(fields[0].value))] + RawFields(fields[1..])
  }

  ghost predicate NumberToken(token: seq<Byte>) {
    token != [] && forall i :: 0 <= i < |token| ==> IsNumberByte(token[i])
  }

  /** Every number in the value is written as a number. */
  ghost predicate Writable(v: Value)
    decreases v
  {
    match v
    case Number(token) => NumberToken(token)
    case Array(items) => forall i :: 0 <= i < |items| ==> Writable(items[i])
    case Object(fields) => forall i :: 0 <= i < |fields| ==> Writable(fields[i].value)
    case _ => true
  }

  lemma {:induction false} WritableIsClean(v: Value)
    requires Writable(v)
    ensures NumbersOk(v)
    decreases v
  {
    match v {
      case Array(items) => forall i | 0 <= i < |items| ensures NumbersOk(items[i]) { WritableIsClean(items[i]); }
      case Object(fields) =>
        forall i | 0 <= i < |fields| ensures NumbersOk(fields[i].value) { WritableIsClean(fields[i].value); }
      case _ =>
    }
  }

  /** Nothing that would carry a number on. */
  ghost predicate Ends(rest: seq<Byte>) {
    rest == [] || !IsNumberByte(rest[0])
  }

  lemma {:induction false} NumberEnds(token: seq<Byte>, rest: seq<Byte>)
    requires (forall i :: 0 <= i < |token| ==> IsNumberByte(token[i])) && Ends(rest)
    ensures NumberLen(token + rest) == |token|
  {
    if token == [] {
      assert token + rest == rest;
    } else {
      assert (token + rest)[1..] == token[1..] + rest;
      NumberEnds(token[1..], rest);
    }
  }

  lemma ReadsNumber(token: seq<Byte>, rest: seq<Byte>)
    requires NumberToken(token) && Ends(rest)
    ensures ReadValue(token + rest) == Some((RawNumber(token), rest))
  {
    var s := token + rest;
    NumberEnds(token, rest);
    assert s[0] == token[0];
    assert s[..|token|] == token && s[|token|..] == rest;
  }

  lemma ReadsStr(text: string, rest: seq<Byte>)
    ensures ReadQuoted(Str(text) + rest) == Some((Encode(text), rest))
  {
    var body := Escape(Encode(text)) + [QUOTE] + rest;
    assert Str(text) + rest == [QUOTE] + body;
    assert ([QUOTE] + body)[1..] == body;
    EscapeReadsBack(Encode(text), rest);
  }

  /** No value starts like the end of a list. */
  lemma FirstByte(v: Value)
    requires Writable(v)
    ensures Serialize(v) != [] && Serialize(v)[0] != 0x5D && Serialize(v)[0] != 0x7D
  {
    match v {
      case Number(token) => assert IsNumberByte(token[0]);
      case Text(s) => assert Str(s)[0] == QUOTE;
      case _ =>
    }
  }

  /** Any writable value is read back whole, and what follows it is left. */
  lemma {:induction false} ValueReadsBack(v: Value, rest: seq<Byte>)
    requires Writable(v) && Ends(rest)
    ensures ReadValue(Serialize(v) + rest) == Some((RawOf(v), rest))
    decreases v, 0
  {
    match v {
      case Null => assert (Serialize(v) + rest)[4..] == rest;
      case Bool(b) => WordReads(b, rest);
      case Number(token) => ReadsNumber(token, rest);
      case Text(s) =>
        ReadsStr(s, rest);
        assert (Str(s) + rest)[0] == QUOTE;
      case Array(items) => ArrayReads(items, rest);
      case Object(fields) => ObjectReads(fields, rest);
    }
  }

  lemma WordReads(b: bool, rest: seq<Byte>)
    ensures ReadValue(Serialize(Bool(b)) + rest) == Some((RawBool(b), rest))
  {
    var s := Serialize(Bool(b)) + rest;
    assert s[if b then 4 else 5..] == rest;
  }

  lemma Bracketed(open: Byte, body: seq<Byte>, close: Byte, rest: seq<Byte>)
    ensures var s := [open] + body + [close] + rest;
      && s[0] == open && s[1..] == body + ([close] + rest)
      && (body == [] ==> |s| > 1 && s[1] == close && s[2..] == rest)
      && (body != [] ==> |s| > 1 && s[1] == body[0])
  {
  }

  lemma {:induction false} ArrayReads(items: seq<Value>, rest: seq<Byte>)
    requires (forall i :: 0 <= i < |items| ==> Writable(items[i])) && Ends(rest)
    ensures ReadValue([0x5B] + SerializeItems(items) + [0x5D] + rest) == Some((RawArray(RawItems(items)), rest))
    decreases items, 2
  {
    Bracketed(0x5B, SerializeItems(items), 0x5D, rest);
    if items != [] {
      ItemsStart(items);
      ItemsRead(items, rest);
    }
  }

  lemma ItemsStart(items: seq<Value>)
    requires items != [] && Writable(items[0])
    ensures SerializeItems(items) != [] && SerializeItems(items)[0] != 0x5D
  {
    FirstByte(items[0]);
  }

  lemma {:induction false} ItemsRead(items: seq<Value>, rest: seq<Byte>)
    requires items != [] && forall i :: 0 <= i < |items| ==> Writable(items[i])
    ensures ReadItems(SerializeItems(items) + ([0x5D] + rest)) == Some((RawItems(items), rest))
    decreases items, 1
  {
    var end := [0x5D] + rest;
    if |items| == 1 {
      ValueReadsBack(items[0], end);
      assert end[1..] == rest;
      assert RawItems(items) == [RawOf(items[0])];
    } else {
      var more := [0x2C] + (SerializeItems(items[1..]) + end);
      assert SerializeItems(items) + end == Serialize(items[0]) + more;
      ValueReadsBack(items[0], more);
      assert more[1..] == SerializeItems(items[1..]) + end;
      ItemsRead(items[1..], rest);
    }
  }

  lemma {:induction false} ObjectReads(fields: seq<Field>, rest: seq<Byte>)
    requires (forall i :: 0 <= i < |fields| ==> Writable(fields[i].value)) && Ends(rest)
    ensures ReadValue([0x7B] + SerializeFields(fields) + [0x7D] + rest) == Some((RawObject(RawFields(fields)), rest))
    decreases fields, 3
  {
    Bracketed(0x7B, SerializeFields(fields), 0x7D, rest);
    if fields != [] {
      FieldsStart(fields);
      FieldsRead(fields, rest);
    }
  }

  lemma FieldsStart(fields: seq<Field>)
    requires fields != []
    ensures SerializeFields(fields) != [] && SerializeFields(fields)[0] == QUOTE
  {
    assert Str(fields[0].name)[0] == QUOTE;
  }

  /** A field's name, its colon and its value. */
  function OneField(f: Field): seq<Byte> {
    Str(f.name) + [0x3A] + Serialize(f.value)
  }

  lemma {:induction false} FieldReads(f: Field, rest: seq<Byte>)
    requires Writable(f.value) && Ends(rest)
    ensures ReadField(OneField(f) + rest) == Some((RawField(Encode(f.name), RawOf(f.value)), rest))
    decreases f, 1
  {
    var tail := [0x3A] + (Serialize(f.value) + rest);
    assert OneField(f) + rest == Str(f.name) + tail;
    ReadsStr(f.name, tail);
    assert tail[1..] == Serialize(f.value) + rest;
    ValueReadsBack(f.value, rest);
  }

  lemma Regroup(a: seq<Byte>, b: seq<Byte>, c: seq<Byte>, d: seq<Byte>)
    ensures a + b + c + d == a + (b + (c + d))
  {
  }

  lemma FieldsSplit(fields: seq<Field>, end: seq<Byte>)
    requires |fields| > 1
    ensures SerializeFields(fields) + end == OneField(fields[0]) + ([0x2C] + (SerializeFields(fields[1..]) + end))
  {
    Regroup(OneField(fields[0]), [0x2C], SerializeFields(fields[1..]), end);
  }

  /** One turn of the reader: a field, then the end or a comma and more. */
  lemma ReadsFieldThen(one: seq<Byte>, f: RawField, rest: seq<Byte>)
    requires rest != [] && ReadField(one + rest) == Some((f, rest))
    ensures rest[0] == 0x7D ==> ReadFields(one + rest) == Some(([f], rest[1..]))
    ensures rest[0] == 0x2C && ReadFields(rest[1..]).Some? ==>
      ReadFields(one + rest) == Some(([f] + ReadFields(rest[1..]).value.0, ReadFields(rest[1..]).value.1))
  {
  }

  lemma {:induction false} FieldsRead(fields: seq<Field>, rest: seq<Byte>)
    requires fields != [] && forall i :: 0 <= i < |fields| ==> Writable(fields[i].value)
    ensures ReadFields(SerializeFields(fields) + ([0x7D] + rest)) == Some((RawFields(fields), rest))
    decreases fields, 2
  {
    var end := [0x7D] + rest;
    var f := fields[0];
    var raw := RawField(Encode(f.name), RawOf(f.value));
    assert f in fields;
    assert end[1..] == rest;
    if |fields| == 1 {
      FieldReads(f, end);
      ReadsFieldThen(OneField(f), raw, end);
      assert RawFields(fields) == [raw];
    } else {
      var tail := SerializeFields(fields[1..]) + end;
      FieldReads(f, [0x2C] + tail);
      assert ([0x2C] + tail)[1..] == tail;
      FieldsRead(fields[1..], rest);
      ReadsFieldThen(OneField(f), raw, [0x2C] + tail);
      FieldsSplit(fields, end);
    }
  }

  // --- Nothing is lost ----------------------------------------------------------------------------

  lemma {:induction false} RawDetermines(a: Value, b: Value)
    requires RawOf(a) == RawOf(b)
    ensures a == b
    decreases a, 0
  {
    match (a, b) {
      case (Text(s), Text(t)) => EncodeInjective(s, t);
      case (Array(items), Array(others)) => RawItemsDetermine(items, others);
      case (Object(fields), Object(others)) => RawFieldsDetermine(fields, others);
      case _ =>
    }
  }

  lemma {:induction false} RawItemsDetermine(a: seq<Value>, b: seq<Value>)
    requires RawItems(a) == RawItems(b)
    ensures a == b
    decreases a, 1
  {
    if a != [] && b != [] {
      assert RawItems(a)[0] == RawItems(b)[0] && RawItems(a)[1..] == RawItems(b)[1..];
      RawDetermines(a[0], b[0]);
      RawItemsDetermine(a[1..], b[1..]);
      assert a == [a[0]] + a[1..] && b == [b[0]] + b[1..];
    }
  }

  lemma {:induction false} RawFieldsDetermine(a: seq<Field>, b: seq<Field>)
    requires RawFields(a) == RawFields(b)
    ensures a == b
    decreases a, 1
  {
    if a != [] && b != [] {
      assert RawFields(a)[0] == RawFields(b)[0] && RawFields(a)[1..] == RawFields(b)[1..];
      EncodeInjective(a[0].name, b[0].name);
      RawDetermines(a[0].value, b[0].value);
      RawFieldsDetermine(a[1..], b[1..]);
      assert a == [a[0]] + a[1..] && b == [b[0]] + b[1..];
    }
  }

  /** Different values are never serialized alike. */
  lemma SerializeDetermines(a: Value, b: Value)
    requires Writable(a) && Writable(b) && Serialize(a) == Serialize(b)
    ensures a == b
  {
    ValueReadsBack(a, []);
    ValueReadsBack(b, []);
    assert Serialize(a) + [] == Serialize(b) + [];
    RawDetermines(a, b);
  }

  /** A value within the cap arrives, however the stream is cut: the frame the peer reads holds that value
    * and nothing else.
    */
  lemma ValueCrossesTheWire(v: Value, rest: seq<Byte>, calls: seq<Read>, maxBytes: nat)
    requires Writable(v) && |Serialize(v)| <= maxBytes && Received(calls) == Framed(Serialize(v)) + rest
    ensures var frame := FrameOf(Received(calls), EndsBroken(calls), maxBytes);
      frame.Ok? && ReadValue(frame.value) == Some((RawOf(v), []))
  {
    WritableIsClean(v);
    JsonCrossesTheWire(v, rest, calls, maxBytes);
    ValueReadsBack(v, []);
    assert Serialize(v) + [] == Serialize(v);
  }
}
