/** The newline-delimited frame reader, and what crosses the wire through it. */
module Framing {
  import opened Wrappers
  import opened Utf8
  import opened Json

  const NEWLINE: Byte := 0x0A
  const CHUNK_BYTES: nat := 4096

  datatype FrameError = TooLarge | FirstReadTimeout | IoError

  /** One call to the transport's read. */
  datatype Read = Data(bytes: seq<Byte>) | Eof | Broken

  ghost predicate ReadsOk(calls: seq<Read>) {
    forall i :: 0 <= i < |calls| && calls[i].Data? ==> 0 < |calls[i].bytes| <= CHUNK_BYTES
  }

  /** The bytes the peer sent before it closed or broke off. */
  function Received(calls: seq<Read>): seq<Byte> {
    if calls == [] || !calls[0].Data? then [] else calls[0].bytes + Received(calls[1..])
  }

  function EndsBroken(calls: seq<Read>): bool {
    if calls == [] || calls[0].Eof? then false
    else if calls[0].Broken? then true
    else EndsBroken(calls[1..])
  }

  /** The chunks as the transport delivers them. */
  function Sent(chunks: seq<seq<Byte>>): (r: seq<Read>)
    ensures |r| == |chunks| && forall i :: 0 <= i < |r| ==> r[i] == Data(chunks[i])
  {
    seq(|chunks|, i requires 0 <= i < |chunks| => Data(chunks[i]))
  }

  function Joined(chunks: seq<seq<Byte>>): seq<Byte> {
    if chunks == [] then [] else Joined(chunks[..|chunks| - 1]) + chunks[|chunks| - 1]
  }

  lemma {:induction false} JoinedFirst(chunks: seq<seq<Byte>>)
    requires chunks != []
    ensures Joined(chunks) == chunks[0] + Joined(chunks[1..])
  {
    if |chunks| > 1 {
      var front := chunks[..|chunks| - 1];
      JoinedFirst(front);
      assert front[1..] == chunks[1..][..|chunks| - 2];
    }
  }

  /** Whatever the cut, the chunks arrive joined, and the stream is broken exactly if what ends it is. */
  lemma {:induction false} CutArrives(chunks: seq<seq<Byte>>, end: seq<Read>)
    requires end == [] || !end[0].Data?
    ensures Received(Sent(chunks) + end) == Joined(chunks)
    ensures EndsBroken(Sent(chunks) + end) <==> end != [] && end[0] == Broken
  {
    if chunks == [] {
      assert Sent(chunks) + end == end;
    } else {
      assert (Sent(chunks) + end)[1..] == Sent(chunks[1..]) + end;
      CutArrives(chunks[1..], end);
      JoinedFirst(chunks);
    }
  }

  predicate HasNewline(s: seq<Byte>) {
    NEWLINE in s
  }

  /** Where the first newline is, or the length when there is none. */
  function LineEnd(s: seq<Byte>): (k: nat)
    ensures k <= |s|
  {
    if s == [] || s[0] == NEWLINE then 0 else 1 + LineEnd(s[1..])
  }

  lemma {:induction false} LineEndIsFirstNewline(s: seq<Byte>)
    ensures NEWLINE !in s[..LineEnd(s)]
    ensures LineEnd(s) < |s| <==> NEWLINE in s
    ensures LineEnd(s) < |s| ==> s[LineEnd(s)] == NEWLINE
  {
    if s != [] && s[0] != NEWLINE {
      LineEndIsFirstNewline(s[1..]);
      assert s == [s[0]] + s[1..];
      assert s[..LineEnd(s)] == [s[0]] + s[1..][..LineEnd(s[1..])];
    }
  }

  /** The frame in a byte stream, however the stream is cut into reads. */
  function FrameOf(stream: seq<Byte>, broken: bool, maxBytes: nat): Result<seq<Byte>, FrameError> {
    var end := LineEnd(stream);
    if end > maxBytes then Err(TooLarge)
    else if end == |stream| && broken then Err(IoError)
    else Ok(stream[..end])
  }

  lemma {:induction false} LineEndSplit(a: seq<Byte>, b: seq<Byte>)
    ensures LineEnd(a + b) == if NEWLINE in a then LineEnd(a) else |a| + LineEnd(b)
  {
    if a == [] {
      assert a + b == b;
    } else {
      assert (a + b)[1..] == a[1..] + b;
      assert a == [a[0]] + a[1..];
      if a[0] != NEWLINE { LineEndSplit(a[1..], b); }
    }
  }

  /** A chunk with a newline ends the line begun so far. */
  lemma ChunkEnds(line: seq<Byte>, chunk: seq<Byte>, rest: seq<Byte>, broken: bool, maxBytes: nat)
    requires NEWLINE !in line && NEWLINE in chunk
    ensures FrameOf(line + (chunk + rest), broken, maxBytes)
         == if |line| + LineEnd(chunk) > maxBytes then Err(TooLarge) else Ok(line + chunk[..LineEnd(chunk)])
  {
    LineEndThrough(line, chunk, rest);
    TakeThrough(line, chunk, rest, LineEnd(chunk));
  }

  lemma LineEndThrough(line: seq<Byte>, chunk: seq<Byte>, rest: seq<Byte>)
    requires NEWLINE !in line && NEWLINE in chunk
    ensures LineEnd(line + (chunk + rest)) == |line| + LineEnd(chunk)
    ensures |line| + LineEnd(chunk) < |line + (chunk + rest)|
  {
    LineEndSplit(line, chunk + rest);
    LineEndSplit(chunk, rest);
    LineEndIsFirstNewline(chunk);
  }

  lemma TakeThrough(line: seq<Byte>, chunk: seq<Byte>, rest: seq<Byte>, k: nat)
    requires k <= |chunk|
    ensures (line + (chunk + rest))[..|line| + k] == line + chunk[..k]
  {
  }

  /** One without only lengthens it. */
  lemma ChunkContinues(line: seq<Byte>, chunk: seq<Byte>, rest: seq<Byte>, broken: bool, maxBytes: nat)
    requires NEWLINE !in line && NEWLINE !in chunk && |line| + |chunk| > maxBytes
    ensures FrameOf(line + (chunk + rest), broken, maxBytes) == Err(TooLarge)
  {
    LineEndSplit(line, chunk + rest);
    LineEndSplit(chunk, rest);
    LineEndIsFirstNewline(chunk);
  }

  /** What the end of the stream decides. */
  lemma EndDecides(line: seq<Byte>, broken: bool, maxBytes: nat)
    requires NEWLINE !in line && |line| <= maxBytes
    ensures FrameOf(line, broken, maxBytes) == if broken then Err(IoError) else Ok(line)
  {
    LineEndIsFirstNewline(line);
    assert line[..|line|] == line;
  }

  method Position(bytes: seq<Byte>) returns (newline: Option<nat>)
    ensures newline == if NEWLINE in bytes then Some(LineEnd(bytes)) else None
  {
    var i := 0;
    while i < |bytes| && bytes[i] != NEWLINE
      invariant 0 <= i <= |bytes| && NEWLINE !in bytes[..i]
    {
      i := i + 1;
    }
    assert bytes[..|bytes|] == bytes;
    LineEndIsFirstNewline(bytes);
    if i == |bytes| { return None; }
    assert bytes == bytes[..i] + bytes[i..];
    LineEndSplit(bytes[..i], bytes[i..]);
    newline := Some(i);
  }

  /** Reads one frame. `peak` is the most the line buffer ever held. */
  method ReadLineBounded(calls: seq<Read>, maxBytes: nat, firstReadTimesOut: bool)
    returns (r: Result<seq<Byte>, FrameError>, peak: nat)
    requires ReadsOk(calls)
    ensures r == if firstReadTimesOut then Err(FirstReadTimeout) else FrameOf(Received(calls), EndsBroken(calls), maxBytes)
    ensures peak <= maxBytes
  {
    var line: seq<Byte> := [];
    peak := 0;
    if firstReadTimesOut { return Err(FirstReadTimeout), peak; }
    ghost var broken := EndsBroken(calls);
    var i := 0;
    while i < |calls| && calls[i].Data?
      invariant 0 <= i <= |calls|
      invariant Received(calls) == line + Received(calls[i..]) && broken == EndsBroken(calls[i..])
      invariant NEWLINE !in line && |line| == peak <= maxBytes
    {
      var chunk := calls[i].bytes;
      assert calls[i..][1..] == calls[i + 1..];
      ghost var rest := Received(calls[i + 1..]);
      var newline := Position(chunk);
      if newline.Some? {
        ChunkEnds(line, chunk, rest, broken, maxBytes);
        if |line| + newline.value > maxBytes { return Err(TooLarge), peak; }
        line := line + chunk[..newline.value];
        return Ok(line), |line|;
      }
      if |line| + |chunk| > maxBytes {
        ChunkContinues(line, chunk, rest, broken, maxBytes);
        return Err(TooLarge), peak;
      }
      assert line + (chunk + rest) == line + chunk + rest;
      line := line + chunk;
      peak := |line|;
      i := i + 1;
    }
    assert Received(calls) == line;
    EndDecides(line, broken, maxBytes);
    if i < |calls| && calls[i].Broken? { return Err(IoError), peak; }
    r := Ok(line);
  }

  // --- Across the wire ----------------------------------------------------------------

  function Framed(payload: seq<Byte>): seq<Byte> {
    payload + [NEWLINE]
  }

  /** Nothing below the space: no control byte, so no newline. */
  ghost predicate Clean(b: seq<Byte>) {
    forall i :: 0 <= i < |b| ==> b[i] >= 0x20
  }

  /** A clean payload within the cap is read back unchanged, however it and whatever follows it
    * are cut into reads; a longer one is refused by every cut.
    */
  lemma FrameReadsBack(payload: seq<Byte>, rest: seq<Byte>, calls: seq<Read>, maxBytes: nat)
    requires Clean(payload) && Received(calls) == Framed(payload) + rest
    ensures FrameOf(Received(calls), EndsBroken(calls), maxBytes)
         == if |payload| <= maxBytes then Ok(payload) else Err(TooLarge)
  {
    var tail := [NEWLINE] + rest;
    assert Framed(payload) + rest == payload + tail;
    LineEndIsFirstNewline(payload);
    LineEndSplit(payload, tail);
    assert (payload + tail)[..|payload|] == payload;
  }

  // --- JSON payloads are clean ----------------------------------------------------------

  datatype Value =
    | Null
    | Bool(b: bool)
    | Number(token: seq<Byte>)
    | Text(s: string)
    | Array(items: seq<Value>)
    | Object(fields: seq<Field>)
  datatype Field = Field(name: string, value: Value)

  function Serialize(v: Value): seq<Byte>
    decreases v, 0
  {
    match v
    case Null => [0x6E, 0x75, 0x6C, 0x6C]
    case Bool(b) => if b then [0x74, 0x72, 0x75, 0x65] else [0x66, 0x61, 0x6C, 0x73, 0x65]
    case Number(token) => token
    case Text(s) => Str(s)
    case Array(items) => [0x5B] + SerializeItems(items) + [0x5D]
    case Object(fields) => [0x7B] + SerializeFields(fields) + [0x7D]
  }

  function SerializeItems(items: seq<Value>): seq<Byte>
    decreases items, 1
  {
    if items == [] then []
    else if |items| == 1 then Serialize(items[0])
    else Serialize(items[0]) + [0x2C] + SerializeItems(items[1..])
  }

  function SerializeFields(fields: seq<Field>): seq<Byte>
    decreases fields, 1
  {
    if fields == [] then []
    else
      var one := Str(fields[0].name) + [0x3A] + Serialize(fields[0].value);
      if |fields| == 1 then one else one + [0x2C] + SerializeFields(fields[1..])
  }

  /** Number tokens are the digits, signs, dots and exponents of section 6 of RFC 8259. */
  ghost predicate NumbersOk(v: Value)
    decreases v
  {
    match v
    case Number(token) => Clean(token)
    case Array(items) => forall i :: 0 <= i < |items| ==> NumbersOk(items[i])
    case Object(fields) => forall i :: 0 <= i < |fields| ==> NumbersOk(fields[i].value)
    case _ => true
  }

  lemma StrClean(s: string)
    ensures Clean(Str(s))
  {
    EscapeHasNoControls(Encode(s));
  }

  lemma {:induction false} SerializeClean(v: Value)
    requires NumbersOk(v)
    ensures Clean(Serialize(v))
    decreases v, 0
  {
    match v {
      case Text(s) => StrClean(s);
      case Array(items) => ItemsClean(items);
      case Object(fields) => FieldsClean(fields);
      case _ =>
    }
  }

  lemma {:induction false} ItemsClean(items: seq<Value>)
    requires forall i :: 0 <= i < |items| ==> NumbersOk(items[i])
    ensures Clean(SerializeItems(items))
    decreases items, 1
  {
    if items != [] {
      SerializeClean(items[0]);
      ItemsClean(items[1..]);
    }
  }

  lemma {:induction false} FieldsClean(fields: seq<Field>)
    requires forall i :: 0 <= i < |fields| ==> NumbersOk(fields[i].value)
    ensures Clean(SerializeFields(fields))
    decreases fields, 1
  {
    if fields != [] {
      StrClean(fields[0].name);
      SerializeClean(fields[0].value);
      FieldsClean(fields[1..]);
    }
  }

  /** Any JSON payload the writer admits is the payload every reader gets, on every cut. */
  lemma JsonCrossesTheWire(v: Value, rest: seq<Byte>, calls: seq<Read>, maxBytes: nat)
    requires NumbersOk(v) && |Serialize(v)| <= maxBytes && Received(calls) == Framed(Serialize(v)) + rest
    ensures FrameOf(Received(calls), EndsBroken(calls), maxBytes) == Ok(Serialize(v))
  {
    SerializeClean(v);
    FrameReadsBack(Serialize(v), rest, calls, maxBytes);
  }
}
