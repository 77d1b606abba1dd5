/** The buffer whose digest identifies a stored representation set, and the parser
  * that recovers the set from it whatever bytes a MIME string holds.
  */
module SetHash {
  import opened Wrappers
  import opened Ordering
  import opened Utf8
  import opened Json
  import Chars
  import opened Roles
  import opened Representations

  const BAR: Byte := 0x7C
  const NEWLINE: Byte := 0x0A
  const HASH_BYTES: nat := 64

  /** One line of the buffer. */
  datatype Line = Line(role: Role, ordinal: nat, mime: seq<Byte>, payloadHash: seq<Byte>)

  function RoleBytes(r: Role): (b: seq<Byte>)
    ensures |b| == |RoleName(r)| && BAR !in b
  {
    var s := RoleName(r);
    seq(|s|, i requires 0 <= i < |s| => if s[i] as int < 0x7C then s[i] as int else 0x3F)
  }

  /** No name holds a bar or anything above it, so its bytes are its characters. */
  lemma RoleBytesAreTheName(r: Role)
    ensures forall i :: 0 <= i < |RoleName(r)| ==> RoleBytes(r)[i] == RoleName(r)[i] as int
  {
  }

  function EncodeLine(l: Line): seq<Byte> {
    RoleBytes(l.role) + [BAR] + (Digits(l.ordinal) + [BAR] + (Digits(|l.mime|) + [BAR] + (l.mime + [BAR] + l.payloadHash)))
  }

  function Buffer(lines: seq<Line>): seq<Byte> {
    if lines == [] then []
    else if |lines| == 1 then EncodeLine(lines[0])
    else EncodeLine(lines[0]) + [NEWLINE] + Buffer(lines[1..])
  }

  // --- The parser ----------------------------------------------------------------------

  /** Splits at the first bar. */
  function AtBar(s: seq<Byte>): Option<(seq<Byte>, seq<Byte>)> {
    if s == [] then None
    else if s[0] == BAR then Some(([], s[1..]))
    else
      var tail := AtBar(s[1..]);
      if tail.None? then None else Some(([s[0]] + tail.value.0, tail.value.1))
  }

  function Number(digits: seq<Byte>): Option<nat> {
    if digits == [] then Some(0)
    else
      var front, last := Number(digits[..|digits| - 1]), digits[|digits| - 1];
      if front.None? || !(0x30 <= last <= 0x39) then None else Some(front.value * 10 + (last - 0x30))
  }

  function RoleFrom(s: seq<Byte>): Option<Role> {
    if s == RoleBytes(Primary) then Some(Primary)
    else if s == RoleBytes(PlainFallback) then Some(PlainFallback)
    else if s == RoleBytes(Alternative) then Some(Alternative)
    else None
  }

  /** The length-prefixed MIME and the fixed-width hash. */
  function ParseTail(role: Role, ordinal: nat, len: nat, s: seq<Byte>): Option<(Line, seq<Byte>)> {
    if |s| < len + 1 + HASH_BYTES || s[len] != BAR then None
    else Some((Line(role, ordinal, s[..len], s[len + 1..][..HASH_BYTES]), s[len + 1..][HASH_BYTES..]))
  }

  function ParseLine(s: seq<Byte>): Option<(Line, seq<Byte>)> {
    var a := AtBar(s);
    if a.None? || RoleFrom(a.value.0).None? then None
    else
      var b := AtBar(a.value.1);
      if b.None? || Number(b.value.0).None? then None
      else
        var c := AtBar(b.value.1);
        if c.None? || Number(c.value.0).None? then None
        else ParseTail(RoleFrom(a.value.0).value, Number(b.value.0).value, Number(c.value.0).value, c.value.1)
  }

  function Parse(s: seq<Byte>): Option<seq<Line>>
    decreases |s|
  {
    if s == [] then Some([])
    else
      var l := ParseLine(s);
      if l.None? then None
      else if l.value.1 == [] then Some([l.value.0])
      else if l.value.1[0] != NEWLINE || |l.value.1| >= |s| then None
      else
        var rest := Parse(l.value.1[1..]);
        if rest.None? then None else Some([l.value.0] + rest.value)
  }

  // --- The parser recovers the lines --------------------------------------------------------

  lemma {:induction false} AtBarSplits(a: seq<Byte>, b: seq<Byte>)
    requires BAR !in a
    ensures AtBar(a + [BAR] + b) == Some((a, b))
  {
    var s := a + [BAR] + b;
    if a == [] {
      assert s[1..] == b;
    } else {
      assert a == [a[0]] + a[1..];
      assert s[1..] == a[1..] + [BAR] + b;
      AtBarSplits(a[1..], b);
    }
  }

  lemma {:induction false} NumberReadsDigits(n: nat)
    ensures Number(Digits(n)) == Some(n)
  {
    var d := Digits(n);
    if n >= 10 {
      NumberReadsDigits(n / 10);
      assert d[..|d| - 1] == Digits(n / 10);
    } else {
      assert d[..0] == [];
    }
  }

  /** A line reads back in front of anything: bars, newlines and digits in its MIME included. */
  lemma LineReadsBack(l: Line, rest: seq<Byte>)
    requires |l.payloadHash| == HASH_BYTES
    ensures ParseLine(EncodeLine(l) + rest) == Some((l, rest))
  {
    var t := l.mime + [BAR] + l.payloadHash + rest;
    var u := Digits(|l.mime|) + [BAR] + t;
    var v := Digits(l.ordinal) + [BAR] + u;
    assert EncodeLine(l) + rest == RoleBytes(l.role) + [BAR] + v;
    assert RoleFrom(RoleBytes(l.role)) == Some(l.role) && BAR !in RoleBytes(l.role) && RoleBytes(l.role) != [];
    AtBarSplits(RoleBytes(l.role), v);
    AtBarSplits(Digits(l.ordinal), u);
    AtBarSplits(Digits(|l.mime|), t);
    NumberReadsDigits(l.ordinal);
    NumberReadsDigits(|l.mime|);
    TailReadsBack(l, rest);
  }

  lemma TailReadsBack(l: Line, rest: seq<Byte>)
    requires |l.payloadHash| == HASH_BYTES
    ensures ParseTail(l.role, l.ordinal, |l.mime|, l.mime + [BAR] + l.payloadHash + rest) == Some((l, rest))
  {
    var t := l.mime + [BAR] + l.payloadHash + rest;
    assert t[..|l.mime|] == l.mime;
    assert t[|l.mime| + 1..] == l.payloadHash + rest;
  }

  lemma NoEmptyLine(l: Line)
    ensures EncodeLine(l) != []
  {
    assert BAR in EncodeLine(l);
  }

  lemma {:induction false} BufferReadsBack(lines: seq<Line>)
    requires forall i :: 0 <= i < |lines| ==> |lines[i].payloadHash| == HASH_BYTES
    ensures Parse(Buffer(lines)) == Some(lines)
  {
    if lines != [] {
      var head, tail := lines[0], lines[1..];
      NoEmptyLine(head);
      if |lines| == 1 {
        LineReadsBack(head, []);
        assert EncodeLine(head) + [] == EncodeLine(head);
        assert [head] == lines;
      } else {
        BufferReadsBack(tail);
        var more := [NEWLINE] + Buffer(tail);
        LineReadsBack(head, more);
        assert Buffer(lines) == EncodeLine(head) + more;
        assert more[1..] == Buffer(tail);
        assert [head] + tail == lines;
      }
    }
  }

  /** So no two lists of lines share a buffer. */
  lemma BufferInjective(a: seq<Line>, b: seq<Line>)
    requires forall i :: 0 <= i < |a| ==> |a[i].payloadHash| == HASH_BYTES
    requires forall i :: 0 <= i < |b| ==> |b[i].payloadHash| == HASH_BYTES
    ensures Buffer(a) == Buffer(b) <==> a == b
  {
    BufferReadsBack(a);
    BufferReadsBack(b);
  }

  // --- The set and its buffer -----------------------------------------------------------------

  /** SHA-256 as 64 hex digits, and the JSON form of a path list. */
  datatype Digests = Digests(text: string -> seq<Byte>, blob: Bytes -> seq<Byte>, paths: seq<string> -> seq<Byte>)

  ghost predicate DigestsOk(d: Digests) {
    && (forall t {:trigger d.text(t)} :: |d.text(t)| == HASH_BYTES)
    && (forall b {:trigger d.blob(b)} :: |d.blob(b)| == HASH_BYTES)
    && (forall p {:trigger d.paths(p)} :: |d.paths(p)| == HASH_BYTES)
  }

  function PayloadHash(d: Digests, data: DataRef): seq<Byte> {
    match data
    case InlineText(t) => d.text(t)
    case DatabaseBlob(b) => d.blob(b)
    case PathList(p) => d.paths(p)
  }

  predicate SameKind(a: DataRef, b: DataRef) {
    (a.InlineText? <==> b.InlineText?) && (a.DatabaseBlob? <==> b.DatabaseBlob?)
  }

  /** No two of these payloads of one kind collide. Payloads of different kinds may: their bytes can be equal. */
  ghost predicate NoCollision(d: Digests, reps: seq<StoredRep>) {
    forall x, y :: x in reps && y in reps && SameKind(x.data, y.data) && PayloadHash(d, x.data) == PayloadHash(d, y.data) ==>
      x.data == y.data
  }

  function LineOf(d: Digests, r: StoredRep): Line {
    Line(r.role, r.ordinal, Encode(r.mime), PayloadHash(d, r.data))
  }

  function KeyLe(a: StoredRep, b: StoredRep): bool {
    if Rank(a.role) != Rank(b.role) then Rank(a.role) < Rank(b.role)
    else if a.ordinal != b.ordinal then a.ordinal < b.ordinal
    else LexLe(a.mime, b.mime)
  }

  lemma KeyOrder()
    ensures TotalPreorder(KeyLe)
    ensures forall a, b :: KeyLe(a, b) && KeyLe(b, a) <==> a.role == b.role && a.ordinal == b.ordinal && a.mime == b.mime
  {
    LexIsTotalOrder();
    forall a: StoredRep, b: StoredRep
      ensures KeyLe(a, b) || KeyLe(b, a)
      ensures KeyLe(a, b) && KeyLe(b, a) <==> a.role == b.role && a.ordinal == b.ordinal && a.mime == b.mime
    {
      assert LexLe(a.mime, b.mime) || LexLe(b.mime, a.mime);
      assert LexLe(a.mime, a.mime);
    }
    forall a: StoredRep, b: StoredRep, c: StoredRep | KeyLe(a, b) && KeyLe(b, c) ensures KeyLe(a, c) {
      if LexLe(a.mime, b.mime) && LexLe(b.mime, c.mime) { assert LexLe(a.mime, c.mime); }
    }
  }

  function Lines(d: Digests, reps: seq<StoredRep>): (r: seq<Line>)
    ensures |r| == |reps|
  {
    seq(|reps|, i requires 0 <= i < |reps| => LineOf(d, reps[i]))
  }

  /** What is digested. */
  function SetBuffer(d: Digests, reps: seq<StoredRep>): seq<Byte> {
    Buffer(Lines(d, SortBy(KeyLe, reps)))
  }

  method ComputeSetBuffer(d: Digests, reps: seq<StoredRep>) returns (buf: seq<Byte>)
    ensures buf == SetBuffer(d, reps)
  {
    var sorted := SortBy(KeyLe, reps);
    ghost var lines := Lines(d, sorted);
    buf := [];
    var i := |sorted|;
    while i > 0
      invariant 0 <= i <= |sorted|
      invariant buf == Buffer(lines[i..])
    {
      i := i - 1;
      assert lines[i..][1..] == lines[i + 1..];
      var line := EncodeLine(LineOf(d, sorted[i]));
      buf := if i + 1 < |sorted| then line + [NEWLINE] + buf else line;
    }
    assert lines[0..] == lines;
  }

  /** Equal buffers mean equal sorted lists of role, ordinal, MIME and payload hash. */
  lemma BufferDeterminesLines(d: Digests, a: seq<StoredRep>, b: seq<StoredRep>)
    requires DigestsOk(d)
    ensures SetBuffer(d, a) == SetBuffer(d, b) <==> Lines(d, SortBy(KeyLe, a)) == Lines(d, SortBy(KeyLe, b))
  {
    HashWidths(d, SortBy(KeyLe, a));
    HashWidths(d, SortBy(KeyLe, b));
    BufferInjective(Lines(d, SortBy(KeyLe, a)), Lines(d, SortBy(KeyLe, b)));
  }

  lemma HashWidths(d: Digests, reps: seq<StoredRep>)
    requires DigestsOk(d)
    ensures forall i :: 0 <= i < |reps| ==> |Lines(d, reps)[i].payloadHash| == HASH_BYTES
  {
  }

  ghost predicate KeysDistinct(reps: seq<StoredRep>) {
    forall x, y :: x in reps && y in reps && KeyLe(x, y) && KeyLe(y, x) ==> x == y
  }

  /** Reordering a set whose keys are distinct leaves its buffer as it was. */
  lemma BufferIgnoresOrder(d: Digests, a: seq<StoredRep>, b: seq<StoredRep>)
    requires multiset(a) == multiset(b) && KeysDistinct(a)
    ensures SetBuffer(d, a) == SetBuffer(d, b)
  {
    KeyOrder();
    SortBySorts(KeyLe, a);
    SortBySorts(KeyLe, b);
    SameMultisetSameElements(a, SortBy(KeyLe, a));
    forall x | x in SortBy(KeyLe, a) ensures x in a { assert x in Elements(a); }
    SortedUnique(KeyLe, SortBy(KeyLe, a), SortBy(KeyLe, b));
  }

  /** The data kind that normalization fixes for a MIME string. */
  predicate KindFits(r: StoredRep) {
    match r.data
    case InlineText(_) => r.mime in CANONICAL_TEXT_MIMES
    case DatabaseBlob(_) => r.mime in IMAGE_MIMES
    case PathList(_) => r.mime !in CANONICAL_TEXT_MIMES && r.mime !in IMAGE_MIMES
  }

  /** Without a collision a line determines its representation, given that the MIME fixes the kind. */
  lemma LineDeterminesRep(d: Digests, a: StoredRep, b: StoredRep)
    requires KindFits(a) && KindFits(b) && LineOf(d, a) == LineOf(d, b)
    requires SameKind(a.data, b.data) && PayloadHash(d, a.data) == PayloadHash(d, b.data) ==> a.data == b.data
    ensures a == b
  {
    EncodeInjective(a.mime, b.mime);
    KindsApart(a.mime);
  }

  lemma KindsApart(mime: string)
    ensures !(mime in CANONICAL_TEXT_MIMES && mime in IMAGE_MIMES)
  {
    assert mime in CANONICAL_TEXT_MIMES ==> mime[0] == 't' || mime[0] == 'a';
    assert mime in IMAGE_MIMES ==> mime[0] == 'i';
  }

  /** For normalized sets whose payloads do not collide the buffer is the set: equal exactly when
    * they hold the same representations.
    */
  lemma BufferDeterminesSet(d: Digests, a: seq<StoredRep>, b: seq<StoredRep>)
    requires DigestsOk(d) && NoCollision(d, a + b)
    requires KeysDistinct(a) && KeysDistinct(b)
    requires (forall r :: r in a ==> KindFits(r)) && (forall r :: r in b ==> KindFits(r))
    ensures SetBuffer(d, a) == SetBuffer(d, b) <==> multiset(a) == multiset(b)
  {
    KeyOrder();
    SortBySorts(KeyLe, a);
    SortBySorts(KeyLe, b);
    var sa, sb := SortBy(KeyLe, a), SortBy(KeyLe, b);
    SameMultisetSameElements(a, sa);
    SameMultisetSameElements(b, sb);
    if SetBuffer(d, a) == SetBuffer(d, b) {
      BufferDeterminesLines(d, a, b);
      assert |Lines(d, sa)| == |sa| && |Lines(d, sb)| == |sb|;
      forall i | 0 <= i < |sa| ensures sa[i] == sb[i] {
        assert sa[i] in Elements(a) && sb[i] in Elements(b);
        assert sa[i] in a + b && sb[i] in a + b;
        assert Lines(d, sa)[i] == Lines(d, sb)[i];
        LineDeterminesRep(d, sa[i], sb[i]);
      }
      assert sa == sb;
    } else if multiset(a) == multiset(b) {
      BufferIgnoresOrder(d, a, b);
    }
  }

  /** A payload's data kind is not in the buffer: text and a path list of the same digest and MIME collide. */
  lemma KindIsNotEncoded(d: Digests, mime: string, text: string, paths: seq<string>)
    requires d.text(text) == d.paths(paths)
    ensures SetBuffer(d, [StoredRep(Primary, mime, 0, InlineText(text))])
         == SetBuffer(d, [StoredRep(Primary, mime, 0, PathList(paths))])
  {
    var a, b := StoredRep(Primary, mime, 0, InlineText(text)), StoredRep(Primary, mime, 0, PathList(paths));
    assert [a][1..] == [] && [b][1..] == [];
    assert SortBy(KeyLe, [a]) == [a] && SortBy(KeyLe, [b]) == [b];
    assert Lines(d, [a]) == [LineOf(d, a)] && Lines(d, [b]) == [LineOf(d, b)];
  }

  // --- Stored sets meet the conditions -----------------------------------------------------------

  lemma CanonicalMimesAreBare(mime: string)
    requires mime in CANONICAL_TEXT_MIMES
    ensures BareMime(mime) == mime && CanonicalTextMime(mime).Some?
  {
    NoSemicolon(mime);
    Chars.BeforeAll(mime, ';');
    Chars.TrimNothing(mime);
    CanonicalMimesAreKnown(mime);
  }

  lemma CanonicalMimesAreKnown(mime: string)
    requires mime in CANONICAL_TEXT_MIMES
    ensures CanonicalTextMime(mime).Some?
  {
  }

  lemma NoSemicolon(mime: string)
    requires mime in CANONICAL_TEXT_MIMES
    ensures ';' !in mime && mime != [] && !Chars.IsWhitespace(mime[0]) && !Chars.IsWhitespace(mime[|mime| - 1])
  {
    if mime == "text/plain" {
    } else if mime == "text/html" {
    } else if mime == "application/rtf" {
    }
  }

  lemma ImageMimesHavePrefix(mime: string)
    requires mime in IMAGE_MIMES
    ensures HasImagePrefix(mime)
  {
    assert mime[..6] == "image/";
  }

  lemma StoredKindFits(n: Normalized, role: Role, ordinal: nat)
    requires NormalOk(n)
    ensures KindFits(StoredFrom(n, role, ordinal))
  {
    if n.FilePaths? {
      if n.mime in CANONICAL_TEXT_MIMES { CanonicalMimesAreBare(n.mime); }
      if n.mime in IMAGE_MIMES { ImageMimesHavePrefix(n.mime); }
    }
  }

  lemma StoredSetFits(out: seq<StoredRep>, order: seq<Normalized>, hasFallback: bool)
    requires StoresInOrder(out, order, hasFallback) && |order| <= U32_MAX + 1
    requires forall n :: n in order ==> NormalOk(n)
    ensures KeysDistinct(out) && Sorted(KeyLe, out) && forall r :: r in out ==> KindFits(r)
  {
    StoredKeysDistinct(out, order, hasFallback);
    forall r | r in out ensures KindFits(r) {
      var i :| 0 <= i < |out| && out[i] == r;
      assert order[i] in order;
      StoredKindFits(order[i], r.role, r.ordinal);
    }
  }

  lemma StoredKeysDistinct(out: seq<StoredRep>, order: seq<Normalized>, hasFallback: bool)
    requires StoresInOrder(out, order, hasFallback) && |order| <= U32_MAX + 1
    ensures KeysDistinct(out) && Sorted(KeyLe, out)
  {
    OrdinalsAreDistinct(out, order, hasFallback);
    KeyOrder();
    forall x, y | x in out && y in out && KeyLe(x, y) && KeyLe(y, x) ensures x == y {
      var i :| 0 <= i < |out| && out[i] == x;
      var j :| 0 <= j < |out| && out[j] == y;
    }
  }

  /** The hash of a stored set does not depend on the order its rows are handed over in. */
  lemma StoredSetHashIgnoresOrder(d: Digests, out: seq<StoredRep>, order: seq<Normalized>, hasFallback: bool, shuffled: seq<StoredRep>)
    requires StoresInOrder(out, order, hasFallback) && |order| <= U32_MAX + 1 && multiset(shuffled) == multiset(out)
    ensures SetBuffer(d, shuffled) == SetBuffer(d, out)
  {
    StoredKeysDistinct(out, order, hasFallback);
    BufferIgnoresOrder(d, out, shuffled);
  }

  /** Two stored sets share a buffer exactly when they are the same rows, and then they were built
    * from the same payloads in the same order. Only a collision among their own payloads can break it.
    */
  lemma StoredSetsShareBufferIff(d: Digests, out: seq<StoredRep>, order: seq<Normalized>, hasFallback: bool,
                                 other: seq<StoredRep>, otherOrder: seq<Normalized>, otherFallback: bool)
    requires StoresInOrder(out, order, hasFallback) && |order| <= U32_MAX + 1
    requires StoresInOrder(other, otherOrder, otherFallback) && |otherOrder| <= U32_MAX + 1
    requires forall n :: n in order + otherOrder ==> NormalOk(n)
    requires DigestsOk(d) && NoCollision(d, out + other)
    ensures SetBuffer(d, out) == SetBuffer(d, other) <==> multiset(out) == multiset(other)
    ensures SetBuffer(d, out) == SetBuffer(d, other) <==> out == other
    ensures SetBuffer(d, out) == SetBuffer(d, other) ==> order == otherOrder
  {
    forall n | n in order || n in otherOrder ensures NormalOk(n) { assert n in order + otherOrder; }
    StoredSetFits(out, order, hasFallback);
    StoredSetFits(other, otherOrder, otherFallback);
    BufferDeterminesSet(d, out, other);
    if multiset(out) == multiset(other) {
      KeyOrder();
      SortedUnique(KeyLe, out, other);
      SameRowsSameOrder(out, order, hasFallback, otherOrder, otherFallback);
    }
  }

  /** A stored row holds its payload whole. */
  lemma SameRowsSameOrder(out: seq<StoredRep>, order: seq<Normalized>, hasFallback: bool, otherOrder: seq<Normalized>,
                          otherFallback: bool)
    requires StoresInOrder(out, order, hasFallback) && StoresInOrder(out, otherOrder, otherFallback)
    ensures order == otherOrder
  {
    forall i | 0 <= i < |order| ensures order[i] == otherOrder[i] {
      assert out[i].data == StoredFrom(order[i], out[i].role, OrdinalAt(i)).data;
    }
  }
}
