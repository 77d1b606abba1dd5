/** From a clipboard snapshot to the stored representation set: which payloads are
  * kept, which one is primary, and in what order they are stored.
  */
module Representations {
  import opened Wrappers
  import opened Ordering
  import opened Chars
  import opened Roles

  type Bytes = seq<bv8>

  datatype Data = TextData(text: string) | BytesData(bytes: Bytes) | PathsData(paths: seq<string>)
  datatype ClipboardRep = ClipboardRep(mime: string, data: Data)

  datatype Normalized =
    | Text(canonicalMime: string, text: string)
    | Image(mime: string, bytes: Bytes)
    | FilePaths(mime: string, paths: seq<string>)

  /** Decoding bytes as UTF-8 and checking image signatures are not modelled. */
  datatype Sniffer = Sniffer(utf8: Bytes -> Option<string>, imageMatches: (string, Bytes) -> bool)

  // --- Normalization ----------------------------------------------------------------

  function BareMime(mime: string): string {
    Trim(Before(mime, ';'))
  }

  const CANONICAL_TEXT_MIMES: set<string> := {"text/plain", "text/html", "application/rtf", "text/rtf"}

  function CanonicalTextMime(bare: string): (r: Option<string>)
    ensures r.Some? ==> r.value in CANONICAL_TEXT_MIMES
  {
    if EqIgnoreCase(bare, "text/plain") || EqIgnoreCase(bare, "public.utf8-plain-text") then Some("text/plain")
    else if EqIgnoreCase(bare, "text/html") || EqIgnoreCase(bare, "public.html") then Some("text/html")
    else if EqIgnoreCase(bare, "application/rtf") || EqIgnoreCase(bare, "public.rtf") then Some("application/rtf")
    else if EqIgnoreCase(bare, "text/rtf") then Some("text/rtf")
    else None
  }

  /** Every name a text payload may come under, in lower case, and the name it is filed under. */
  const TEXT_NAMES: map<string, string> := map[
    "text/plain" := "text/plain", "public.utf8-plain-text" := "text/plain",
    "text/html" := "text/html", "public.html" := "text/html",
    "application/rtf" := "application/rtf", "public.rtf" := "application/rtf", "text/rtf" := "text/rtf"]

  /** A name is filed by its lower case, parameters and spaces around it aside. */
  lemma TextIsFiledByName(name: string, params: string)
    requires ';' !in name && AsciiLower(name) in TEXT_NAMES
    ensures CanonicalTextMime(name) == Some(TEXT_NAMES[AsciiLower(name)])
    ensures BareMime(name + ";" + params) == Trim(name)
  {
    NamesAreLower(AsciiLower(name));
    BeforeHere(name, ';', params);
  }

  lemma OtherNamesAreNoText(name: string)
    requires AsciiLower(name) !in TEXT_NAMES
    ensures CanonicalTextMime(name) == None
  {
    forall known | known in TEXT_NAMES ensures AsciiLower(known) == known { NamesAreLower(known); }
  }

  lemma NamesAreLower(known: string)
    requires known in TEXT_NAMES
    ensures AsciiLower(known) == known
  {
  }

  const IMAGE_MIMES: set<string> := {"image/png", "image/jpeg", "image/gif", "image/webp", "image/tiff"}

  predicate HasImagePrefix(mime: string) {
    |mime| >= 6 && EqIgnoreCase(mime[..6], "image/")
  }

  lemma ImagePrefixIs(mime: string)
    ensures HasImagePrefix(mime) <==> "image/" <= AsciiLower(mime)
  {
    assert AsciiLower("image/") == "image/";
    if |mime| >= 6 {
      assert AsciiLower(mime)[..6] == AsciiLower(mime[..6]);
    }
  }

  /** What normalization promises of a kept payload: its kind can be read off its MIME. */
  predicate NormalOk(n: Normalized) {
    match n
    case Text(mime, text) => mime in CANONICAL_TEXT_MIMES && Trim(text) != ""
    case Image(mime, bytes) => mime in IMAGE_MIMES && bytes != []
    case FilePaths(mime, paths) => CanonicalTextMime(BareMime(mime)).None? && !HasImagePrefix(mime) && paths != []
  }

  function TextOf(sniff: Sniffer, data: Data): Option<string> {
    match data
    case TextData(t) => Some(t)
    case BytesData(b) => sniff.utf8(b)
    case PathsData(_) => None
  }

  function NormalizeOne(sniff: Sniffer, rep: ClipboardRep): (r: Option<Normalized>)
    ensures r.Some? ==> NormalOk(r.value)
  {
    var bare := BareMime(rep.mime);
    if CanonicalTextMime(bare).Some? then
      var text := TextOf(sniff, rep.data);
      if text.None? || Trim(text.value) == "" then None else Some(Text(CanonicalTextMime(bare).value, text.value))
    else if HasImagePrefix(rep.mime) then
      if !rep.data.BytesData? || rep.data.bytes == [] || AsciiLower(bare) !in IMAGE_MIMES
         || !sniff.imageMatches(rep.mime, rep.data.bytes) then None
      else Some(Image(AsciiLower(bare), rep.data.bytes))
    else if rep.data.PathsData? && rep.data.paths != [] then Some(FilePaths(rep.mime, rep.data.paths))
    else None
  }

  /** The payloads still in their slots, in snapshot order. */
  function Left(slots: seq<Option<Normalized>>): seq<Normalized> {
    if slots == [] then []
    else (if slots[0].Some? then [slots[0].value] else []) + Left(slots[1..])
  }

  lemma {:induction false} LeftStep(slots: seq<Option<Normalized>>, i: nat)
    requires i < |slots|
    ensures Left(slots[..i + 1]) == Left(slots[..i]) + if slots[i].Some? then [slots[i].value] else []
  {
    if i > 0 {
      assert slots[..i + 1][1..] == slots[1..][..i] && slots[..i][1..] == slots[1..][..i - 1];
      LeftStep(slots[1..], i - 1);
    }
  }

  function Each(sniff: Sniffer, reps: seq<ClipboardRep>): (r: seq<Option<Normalized>>)
    ensures |r| == |reps| && forall i :: 0 <= i < |r| ==> r[i] == NormalizeOne(sniff, reps[i])
  {
    seq(|reps|, i requires 0 <= i < |reps| => NormalizeOne(sniff, reps[i]))
  }

  /** Filled slot `i` is found behind as many payloads as there are in the slots before it. */
  lemma {:induction false} LeftAt(slots: seq<Option<Normalized>>, i: nat)
    requires i < |slots| && slots[i].Some?
    ensures |Left(slots[..i])| < |Left(slots)| && Left(slots)[|Left(slots[..i])|] == slots[i].value
  {
    if i > 0 {
      LeftAt(slots[1..], i - 1);
      assert slots[..i][1..] == slots[1..][..i - 1];
    }
  }

  lemma {:induction false} LeftFrom(slots: seq<Option<Normalized>>, n: Normalized)
    ensures n in Left(slots) <==> Some(n) in slots
  {
    if slots != [] {
      LeftFrom(slots[1..], n);
      assert slots == [slots[0]] + slots[1..];
    }
  }

  /** A text payload is kept exactly when it reads as text that is not blank, under its canonical
    * name; an image when its bytes match an allowed type; a path list when it is not empty.
    */
  lemma KeptWhen(sniff: Sniffer, rep: ClipboardRep)
    ensures var bare, n := BareMime(rep.mime), NormalizeOne(sniff, rep);
      && (CanonicalTextMime(bare).Some? ==>
            (n.Some? <==> TextOf(sniff, rep.data).Some? && Trim(TextOf(sniff, rep.data).value) != ""))
      && (CanonicalTextMime(bare).None? && HasImagePrefix(rep.mime) ==>
            (n.Some? <==> rep.data.BytesData? && rep.data.bytes != [] && AsciiLower(bare) in IMAGE_MIMES
                          && sniff.imageMatches(rep.mime, rep.data.bytes)))
      && (CanonicalTextMime(bare).None? && !HasImagePrefix(rep.mime) ==>
            (n.Some? <==> rep.data.PathsData? && rep.data.paths != []))
      && (n.Some? ==> Carries(sniff, rep, n.value))
  {
  }

  /** The kept payload is the clipboard's own, unchanged. */
  ghost predicate Carries(sniff: Sniffer, rep: ClipboardRep, n: Normalized) {
    match n
    case Text(mime, text) =>
      && CanonicalTextMime(BareMime(rep.mime)) == Some(mime)
      && (rep.data == TextData(text) || (rep.data.BytesData? && sniff.utf8(rep.data.bytes) == Some(text)))
    case Image(mime, bytes) => rep.data == BytesData(bytes) && mime == AsciiLower(BareMime(rep.mime))
    case FilePaths(mime, paths) => rep.data == PathsData(paths) && mime == rep.mime
  }

  /** Every payload that qualifies is kept, once, in snapshot order. */
  method NormalizeRepresentations(sniff: Sniffer, reps: seq<ClipboardRep>) returns (out: seq<Normalized>)
    ensures out == Left(Each(sniff, reps))
    ensures forall i :: 0 <= i < |out| ==> NormalOk(out[i])
  {
    ghost var each := Each(sniff, reps);
    out := [];
    for i := 0 to |reps|
      invariant out == Left(each[..i])
    {
      LeftStep(each, i);
      var n := NormalizeOne(sniff, reps[i]);
      if n.Some? { out := out + [n.value]; }
    }
    assert each[..|reps|] == each;
    forall i | 0 <= i < |out| ensures NormalOk(out[i]) {
      LeftFrom(each, out[i]);
      var k :| 0 <= k < |each| && each[k] == Some(out[i]);
    }
  }

  // --- The primary ------------------------------------------------------------------------

  datatype Markup = Html | Rtf

  datatype Content =
    | FileListContent(paths: seq<string>)
    | ImageContent(mime: string, bytes: Bytes)
    | RichTextContent(plain: string, markup: string, kind: Markup)
    | PlainContent(text: string)

  datatype Pick = Pick(content: Content, idx: nat, fallback: bool)

  function FirstWhere(ns: seq<Normalized>, p: Normalized -> bool): (r: Option<nat>)
    ensures r.Some? ==> r.value < |ns| && p(ns[r.value]) && forall i :: 0 <= i < r.value ==> !p(ns[i])
    ensures r.None? ==> forall i :: 0 <= i < |ns| ==> !p(ns[i])
  {
    if ns == [] then None
    else if p(ns[0]) then Some(0)
    else
      var r := FirstWhere(ns[1..], p);
      if r.Some? then Some(r.value + 1) else None
  }

  predicate IsText(n: Normalized, mime: string) {
    n.Text? && n.canonicalMime == mime
  }

  predicate IsRtf(n: Normalized) {
    n.Text? && (n.canonicalMime == "text/rtf" || n.canonicalMime == "application/rtf")
  }

  function FindText(ns: seq<Normalized>, mime: string): Option<nat> {
    FirstWhere(ns, n => IsText(n, mime))
  }

  /** The source panics here on anything but a text payload; every call below meets the demand. */
  function TextAt(ns: seq<Normalized>, idx: nat): string
    requires idx < |ns| && ns[idx].Text?
  {
    ns[idx].text
  }

  function PickPrimary(ns: seq<Normalized>, stripHtml: string -> string): Option<Pick> {
    var files := FirstWhere(ns, (n: Normalized) => n.FilePaths?);
    var image := FirstWhere(ns, (n: Normalized) => n.Image?);
    if files.Some? then Some(Pick(FileListContent(ns[files.value].paths), files.value, false))
    else if image.Some? then
      Some(Pick(ImageContent(ns[image.value].mime, ns[image.value].bytes), image.value, false))
    else
      var plain, html, rtf := FindText(ns, "text/plain"), FindText(ns, "text/html"), FirstWhere(ns, n => IsRtf(n));
      if plain.Some? then
        if html.Some? then Some(Pick(RichTextContent(TextAt(ns, plain.value), TextAt(ns, html.value), Html), html.value, true))
        else if rtf.Some? then Some(Pick(RichTextContent(TextAt(ns, plain.value), TextAt(ns, rtf.value), Rtf), rtf.value, true))
        else Some(Pick(PlainContent(TextAt(ns, plain.value)), plain.value, false))
      else if html.Some? then
        Some(Pick(RichTextContent(stripHtml(TextAt(ns, html.value)), TextAt(ns, html.value), Html), html.value, false))
      else if rtf.Some? then
        Some(Pick(RichTextContent(TextAt(ns, rtf.value), TextAt(ns, rtf.value), Rtf), rtf.value, false))
      else None
  }

  /** How rich a payload is as a primary. */
  function Richness(n: Normalized): nat {
    match n
    case FilePaths(_, _) => 5
    case Image(_, _) => 4
    case Text(mime, _) => if mime == "text/html" then 3 else if mime == "text/plain" then 1 else 2
  }

  predicate HasPlain(ns: seq<Normalized>) {
    exists i :: 0 <= i < |ns| && IsText(ns[i], "text/plain")
  }

  /** The first payload of the richest kind present. */
  ghost predicate FirstRichest(ns: seq<Normalized>, idx: nat) {
    && idx < |ns|
    && (forall i :: 0 <= i < |ns| ==> Richness(ns[i]) <= Richness(ns[idx]))
    && (forall i :: 0 <= i < idx ==> Richness(ns[i]) < Richness(ns[idx]))
  }

  predicate FirstPlain(ns: seq<Normalized>, plain: string) {
    exists i :: 0 <= i < |ns| && ns[i] == Text("text/plain", plain)
                && forall j :: 0 <= j < i ==> !IsText(ns[j], "text/plain")
  }

  /** The entry's content is the picked payload's own; a markup primary's plain text is the first
    * plain payload, or without one the stripped HTML or the RTF source.
    */
  ghost predicate BuiltFrom(ns: seq<Normalized>, idx: nat, content: Content, stripHtml: string -> string)
    requires idx < |ns|
  {
    match ns[idx]
    case FilePaths(_, paths) => content == FileListContent(paths)
    case Image(mime, bytes) => content == ImageContent(mime, bytes)
    case Text(mime, text) =>
      if mime == "text/plain" then content == PlainContent(text)
      else
        && content.RichTextContent? && content.markup == text && content.kind == (if mime == "text/html" then Html else Rtf)
        && (HasPlain(ns) ==> FirstPlain(ns, content.plain))
        && (!HasPlain(ns) ==> content.plain == if mime == "text/html" then stripHtml(text) else text)
  }

  lemma RichnessTellsKind(n: Normalized)
    requires NormalOk(n)
    ensures 1 <= Richness(n) <= 5
    ensures (Richness(n) == 5 <==> n.FilePaths?) && (Richness(n) == 4 <==> n.Image?)
    ensures (Richness(n) == 3 <==> IsText(n, "text/html")) && (Richness(n) == 2 <==> IsRtf(n))
    ensures Richness(n) == 1 <==> IsText(n, "text/plain")
  {
  }

  /** A primary exists for every non-empty normalized list; it is the first payload of the richest
    * kind present, and the content is built from it; a plain fallback is announced exactly when a
    * markup primary has a plain sibling.
    */
  lemma PrimaryIsRichest(ns: seq<Normalized>, stripHtml: string -> string)
    requires forall i :: 0 <= i < |ns| ==> NormalOk(ns[i])
    ensures PickPrimary(ns, stripHtml).Some? <==> ns != []
    ensures var r := PickPrimary(ns, stripHtml);
      r.Some? ==>
        && FirstRichest(ns, r.value.idx)
        && BuiltFrom(ns, r.value.idx, r.value.content, stripHtml)
        && (r.value.fallback <==> 2 <= Richness(ns[r.value.idx]) <= 3 && HasPlain(ns))
  {
    forall i | 0 <= i < |ns|
      ensures 1 <= Richness(ns[i]) <= 5
      ensures (Richness(ns[i]) == 5 <==> ns[i].FilePaths?) && (Richness(ns[i]) == 4 <==> ns[i].Image?)
      ensures (Richness(ns[i]) == 3 <==> IsText(ns[i], "text/html")) && (Richness(ns[i]) == 2 <==> IsRtf(ns[i]))
      ensures Richness(ns[i]) == 1 <==> IsText(ns[i], "text/plain")
    {
      RichnessTellsKind(ns[i]);
    }
    var files := FirstWhere(ns, (n: Normalized) => n.FilePaths?);
    var image := FirstWhere(ns, (n: Normalized) => n.Image?);
    var plain, html, rtf := FindText(ns, "text/plain"), FindText(ns, "text/html"), FirstWhere(ns, n => IsRtf(n));
    var first := if files.Some? then files else if image.Some? then image
                 else if html.Some? then html else if rtf.Some? then rtf else plain;
    assert first.Some? ==> FirstRichest(ns, first.value);
    assert first.None? ==> ns == [];
    assert plain.Some? ==> FirstPlain(ns, ns[plain.value].text);
  }

  // --- The stored set ---------------------------------------------------------------------

  const U32_MAX: nat := 0xFFFF_FFFF

  datatype DataRef = InlineText(text: string) | DatabaseBlob(bytes: Bytes) | PathList(paths: seq<string>)
  datatype StoredRep = StoredRep(role: Role, mime: string, ordinal: nat, data: DataRef)

  function StoredFrom(n: Normalized, role: Role, ordinal: nat): StoredRep {
    match n
    case Text(mime, text) => StoredRep(role, mime, ordinal, InlineText(text))
    case Image(mime, bytes) => StoredRep(role, mime, ordinal, DatabaseBlob(bytes))
    case FilePaths(mime, paths) => StoredRep(role, mime, ordinal, PathList(paths))
  }

  function NextOrdinal(n: nat): nat {
    if n >= U32_MAX then U32_MAX else n + 1
  }

  function OrdinalAt(i: nat): nat {
    if i > U32_MAX then U32_MAX else i
  }

  function Filled(ns: seq<Normalized>): (r: seq<Option<Normalized>>)
    ensures |r| == |ns| && forall i :: 0 <= i < |r| ==> r[i] == Some(ns[i])
  {
    seq(|ns|, i requires 0 <= i < |ns| => Some(ns[i]))
  }

  lemma {:induction false} LeftFilled(ns: seq<Normalized>)
    ensures Left(Filled(ns)) == ns
  {
    if ns != [] {
      LeftFilled(ns[1..]);
      assert Filled(ns)[1..] == Filled(ns[1..]);
      assert ns == [ns[0]] + ns[1..];
    }
  }

  /** Taking one payload out of its slot takes exactly it. */
  lemma {:induction false} LeftTake(slots: seq<Option<Normalized>>, i: nat)
    requires i < |slots| && slots[i].Some?
    ensures multiset(Left(slots)) == multiset(Left(slots[i := None])) + multiset{slots[i].value}
  {
    var t := slots[i := None];
    if i == 0 {
      assert t[1..] == slots[1..];
    } else {
      LeftTake(slots[1..], i - 1);
      assert t[1..] == slots[1..][i - 1 := None];
    }
  }

  /** The stored form of `order`, the first being primary and the second the fallback if there is one. */
  ghost predicate StoresInOrder(out: seq<StoredRep>, order: seq<Normalized>, hasFallback: bool) {
    && |out| == |order|
    && forall i :: 0 <= i < |out| ==> out[i] == StoredFrom(order[i],
         if i == 0 then Primary else if i == 1 && hasFallback then PlainFallback else Alternative, OrdinalAt(i))
  }

  /** The slot the fallback is taken from. */
  function FallbackIdx(ns: seq<Normalized>, primary: nat, hasPlainFallback: bool): (r: Option<nat>)
    ensures r.Some? ==> r.value < |ns| && r.value != primary && IsText(ns[r.value], "text/plain")
  {
    var plain := FindText(ns, "text/plain");
    if hasPlainFallback && plain.Some? && plain.value != primary then plain else None
  }

  /** The set's order: the primary, the fallback, then everything else as the snapshot had it. */
  function StoredOrder(ns: seq<Normalized>, primary: nat, hasPlainFallback: bool): seq<Normalized>
    requires primary < |ns|
  {
    var fallback := FallbackIdx(ns, primary, hasPlainFallback);
    var slots := Filled(ns)[primary := None];
    if fallback.Some? then [ns[primary], ns[fallback.value]] + Left(slots[fallback.value := None])
    else [ns[primary]] + Left(slots)
  }

  ghost predicate IsFirstPlain(ns: seq<Normalized>, plain: nat) {
    && plain < |ns| && ns[plain].Text? && ns[plain].canonicalMime == "text/plain"
    && forall i :: 0 <= i < plain ==> !(ns[i].Text? && ns[i].canonicalMime == "text/plain")
  }

  /** Without a fallback: the primary, then all the others as the snapshot had them. */
  lemma PrimaryThenRest(ns: seq<Normalized>, primary: nat, hasPlainFallback: bool)
    requires primary < |ns|
    requires !hasPlainFallback || !HasPlain(ns) || IsFirstPlain(ns, primary)
    ensures StoredOrder(ns, primary, hasPlainFallback) == [ns[primary]] + ns[..primary] + ns[primary + 1..]
    ensures FallbackIdx(ns, primary, hasPlainFallback) == None
  {
    LeftWithout(Filled(ns), primary);
    FilledParts(ns, primary);
  }

  /** With one: the primary, then the first plain text, then the others. */
  lemma PrimaryThenPlain(ns: seq<Normalized>, primary: nat, plain: nat)
    requires primary < |ns| && plain != primary && IsFirstPlain(ns, plain)
    ensures FallbackIdx(ns, primary, true) == Some(plain)
    ensures StoredOrder(ns, primary, true) == [ns[primary], ns[plain]] +
      if plain < primary then ns[..plain] + ns[plain + 1..primary] + ns[primary + 1..]
      else ns[..primary] + ns[primary + 1..plain] + ns[plain + 1..]
  {
    PlainIsFound(ns, primary, plain);
    LeftWithout(Filled(ns)[primary := None], plain);
    TwoTaken(ns, primary, plain);
  }

  lemma PlainIsFound(ns: seq<Normalized>, primary: nat, plain: nat)
    requires primary < |ns| && plain != primary && IsFirstPlain(ns, plain)
    ensures FallbackIdx(ns, primary, true) == Some(plain)
  {
  }

  lemma {:induction false} LeftSplit(a: seq<Option<Normalized>>, b: seq<Option<Normalized>>)
    ensures Left(a + b) == Left(a) + Left(b)
  {
    if a == [] {
      assert a + b == b;
    } else {
      assert (a + b)[1..] == a[1..] + b;
      LeftSplit(a[1..], b);
    }
  }

  lemma LeftWithout(slots: seq<Option<Normalized>>, i: nat)
    requires i < |slots|
    ensures Left(slots[i := None]) == Left(slots[..i]) + Left(slots[i + 1..])
  {
    assert slots[i := None] == slots[..i] + ([None] + slots[i + 1..]);
    LeftSplit(slots[..i], [None] + slots[i + 1..]);
    assert ([None] + slots[i + 1..])[1..] == slots[i + 1..];
  }

  lemma FilledParts(ns: seq<Normalized>, i: nat)
    requires i < |ns|
    ensures Left(Filled(ns)[..i]) == ns[..i] && Left(Filled(ns)[i + 1..]) == ns[i + 1..]
  {
    assert Filled(ns)[..i] == Filled(ns[..i]) && Filled(ns)[i + 1..] == Filled(ns[i + 1..]);
    LeftFilled(ns[..i]);
    LeftFilled(ns[i + 1..]);
  }

  lemma TwoTaken(ns: seq<Normalized>, primary: nat, plain: nat)
    requires primary < |ns| && plain < |ns| && plain != primary
    ensures var slots := Filled(ns)[primary := None];
      Left(slots[..plain]) + Left(slots[plain + 1..]) ==
        if plain < primary then ns[..plain] + ns[plain + 1..primary] + ns[primary + 1..]
        else ns[..primary] + ns[primary + 1..plain] + ns[plain + 1..]
  {
    if plain < primary {
      TakenAfter(ns, primary, plain);
    } else {
      TakenBefore(ns, primary, plain);
    }
  }

  lemma TakenAfter(ns: seq<Normalized>, primary: nat, plain: nat)
    requires plain < primary < |ns|
    ensures var slots := Filled(ns)[primary := None];
      Left(slots[..plain]) == ns[..plain] && Left(slots[plain + 1..]) == ns[plain + 1..primary] + ns[primary + 1..]
  {
    var slots, k := Filled(ns)[primary := None], primary - plain - 1;
    assert slots[..plain] == Filled(ns[..plain]);
    LeftFilled(ns[..plain]);
    var tail := ns[plain + 1..];
    LeftWithout(Filled(tail), k);
    FilledParts(tail, k);
    assert slots[plain + 1..] == Filled(tail)[k := None];
    assert tail[..k] == ns[plain + 1..primary] && tail[k + 1..] == ns[primary + 1..];
  }

  lemma TakenBefore(ns: seq<Normalized>, primary: nat, plain: nat)
    requires primary < plain < |ns|
    ensures var slots := Filled(ns)[primary := None];
      Left(slots[..plain]) == ns[..primary] + ns[primary + 1..plain] && Left(slots[plain + 1..]) == ns[plain + 1..]
  {
    var slots := Filled(ns)[primary := None];
    assert slots[plain + 1..] == Filled(ns[plain + 1..]);
    LeftFilled(ns[plain + 1..]);
    var head := ns[..plain];
    LeftWithout(Filled(head), primary);
    FilledParts(head, primary);
    assert slots[..plain] == Filled(head)[primary := None];
    assert head[..primary] == ns[..primary] && head[primary + 1..] == ns[primary + 1..plain];
  }

  /** Nothing is lost or doubled. */
  lemma StoredOrderConserves(ns: seq<Normalized>, primary: nat, hasPlainFallback: bool)
    requires primary < |ns|
    ensures multiset(StoredOrder(ns, primary, hasPlainFallback)) == multiset(ns)
  {
    var slots := Filled(ns);
    LeftFilled(ns);
    LeftTake(slots, primary);
    var fallback := FallbackIdx(ns, primary, hasPlainFallback);
    if fallback.Some? {
      ThenFallback(slots[primary := None], fallback.value, ns[primary]);
    } else {
      assert multiset([ns[primary]] + Left(slots[primary := None]))
          == multiset{ns[primary]} + multiset(Left(slots[primary := None]));
    }
  }

  lemma ThenFallback(slots: seq<Option<Normalized>>, i: nat, first: Normalized)
    requires i < |slots| && slots[i].Some?
    ensures multiset([first, slots[i].value] + Left(slots[i := None])) == multiset{first} + multiset(Left(slots))
  {
    LeftTake(slots, i);
    var rest := Left(slots[i := None]);
    assert multiset([first, slots[i].value] + rest) == multiset{first} + multiset{slots[i].value} + multiset(rest);
  }

  /** Rows are numbered from 0, and from 2^32 on they share the last number; the first is the primary, the
    * second the fallback if there is one, and each holds its payload whole.
    */
  lemma StoredRowIs(out: seq<StoredRep>, order: seq<Normalized>, hasFallback: bool, i: nat)
    requires StoresInOrder(out, order, hasFallback) && i < |out|
    ensures out[i].ordinal == if i < 0x1_0000_0000 then i else 0xFFFF_FFFF
    ensures out[i].role == Primary <==> i == 0
    ensures out[i].role == PlainFallback <==> i == 1 && hasFallback
    ensures match order[i]
      case Text(mime, text) => out[i].mime == mime && out[i].data == InlineText(text)
      case Image(mime, bytes) => out[i].mime == mime && out[i].data == DatabaseBlob(bytes)
      case FilePaths(mime, paths) => out[i].mime == mime && out[i].data == PathList(paths)
  {
  }

  lemma StoresOneMore(out: seq<StoredRep>, order: seq<Normalized>, hasFallback: bool, n: Normalized)
    requires StoresInOrder(out, order, hasFallback) && |out| >= if hasFallback then 2 else 1
    ensures StoresInOrder(out + [StoredFrom(n, Alternative, OrdinalAt(|out|))], order + [n], hasFallback)
  {
  }

  method BuildStoredSet(ns: seq<Normalized>, primary: nat, hasPlainFallback: bool) returns (out: seq<StoredRep>)
    requires primary < |ns|
    ensures StoresInOrder(out, StoredOrder(ns, primary, hasPlainFallback), FallbackIdx(ns, primary, hasPlainFallback).Some?)
  {
    var fallback := FallbackIdx(ns, primary, hasPlainFallback);
    var slots := Filled(ns);
    out := [StoredFrom(slots[primary].value, Primary, 0)];
    slots := slots[primary := None];
    var ordinal := 1;
    if fallback.Some? {
      out := out + [StoredFrom(slots[fallback.value].value, PlainFallback, ordinal)];
      slots := slots[fallback.value := None];
      ordinal := NextOrdinal(ordinal);
    }
    ghost var head := if fallback.Some? then [ns[primary], ns[fallback.value]] else [ns[primary]];
    for i := 0 to |slots|
      invariant |out| >= |head| && StoresInOrder(out, head + Left(slots[..i]), fallback.Some?)
      invariant ordinal == OrdinalAt(|out|)
    {
      LeftStep(slots, i);
      if slots[i].Some? {
        assert head + Left(slots[..i + 1]) == head + Left(slots[..i]) + [slots[i].value];
        StoresOneMore(out, head + Left(slots[..i]), fallback.Some?, slots[i].value);
        out := out + [StoredFrom(slots[i].value, Alternative, ordinal)];
        ordinal := NextOrdinal(ordinal);
      }
    }
    assert slots[..|slots|] == slots;
  }

  /** In a stored set of at most 2^32 payloads no two share an ordinal. */
  lemma OrdinalsAreDistinct(out: seq<StoredRep>, order: seq<Normalized>, hasFallback: bool)
    requires StoresInOrder(out, order, hasFallback) && |order| <= U32_MAX + 1
    ensures forall i, j :: 0 <= i < j < |out| ==> out[i].ordinal < out[j].ordinal && Rank(out[i].role) <= Rank(out[j].role)
  {
  }
}
