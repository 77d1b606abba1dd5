/** The tag stripper: a walk over bytes that keeps the text between the tags and outside script and style
  * bodies. It is proved against the tokenizer over characters, position by position: the byte walk stands
  * where the characters end.
  */
module HtmlStrip {
  import opened Wrappers
  import opened Utf8
  import opened Chars
  import opened HtmlScan

  // --- The byte walk ------------------------------------------------------------------------

  /** Byte offset `off` is where character `k` starts. */
  ghost predicate Here(html: string, k: nat, off: nat) {
    k <= |html| && off == ByteLen(html[..k])
  }

  /** What a position gives: a legal place to slice, and the bytes of the remaining characters. */
  lemma HereFacts(html: string, k: nat, off: nat)
    requires Here(html, k, off)
    ensures off <= ByteLen(html) && IsCharBoundary(Encode(html), off) && Encode(html)[off..] == Encode(html[k..])
  {
    Offset(html, k);
  }

  lemma Moves(html: string, k: nat, off: nat, m: nat, bytes: nat)
    requires Here(html, k, off) && m <= |html[k..]| && bytes == ByteLen(html[k..][..m])
    ensures Here(html, k + m, off + bytes) && html[k..][m..] == html[k + m..]
  {
    OffsetAdd(html, k, m);
  }

  /** A count that is the width of `m` characters moves past those characters. */
  lemma Lands(html: string, k: nat, off: nat, m: nat, width: nat, end: nat)
    requires Here(html, k, off) && m <= |html[k..]| && width == ByteLen(html[k..][..m]) && end == off + width
    ensures Here(html, k + m, end)
  {
    Moves(html, k, off, m, width);
  }

  lemma SliceIs(html: string, k: nat, off: nat, m: nat, end: nat)
    requires Here(html, k, off) && Here(html, k + m, end) && off <= end
    ensures end <= ByteLen(html) && IsCharBoundary(Encode(html), off) && IsCharBoundary(Encode(html), end)
    ensures Slice(html, off, end) == html[k..][..m]
  {
    CharIndexAt(html, k);
    CharIndexAt(html, k + m);
    assert html[k..k + m] == html[k..][..m];
  }

  lemma NameCount(html: string, k: nat, off: nat)
    requires Here(html, k, off) && off <= ByteLen(html)
    ensures NameBytes(Encode(html)[off..]) == ByteLen(html[k..][..NameLen(html[k..])])
  {
    var rest := html[k..];
    assert Encode(html)[off..] == Encode(rest) by { HereFacts(html, k, off); }
    NameBytesAreChars(rest);
  }

  lemma SlashHere(html: string, k: nat, off: nat)
    requires Here(html, k, off) && off <= ByteLen(html)
    ensures (off < ByteLen(html) && Encode(html)[off] == 0x2F) <==> Closing(html[k..])
    ensures Closing(html[k..]) ==> Here(html, k + 1, off + 1) && html[k..][1..] == html[k + 1..]
  {
    HereFacts(html, k, off);
    var r := html[k..];
    if r != [] {
      FirstByte(r);
      CharBytes(r[0]);
      PrefixTail(r, 0);
      assert Encode(html)[off] == Encode(html)[off..][0];
      if r[0] == '/' { Moves(html, k, off, 1, 1); }
    }
  }

  /** Past a `<`: the tag's name, and whether it opens a raw-text element. */
  method ReadName(html: string, bytes: seq<Byte>, from: nat, ghost k: nat) returns (raw: bool, name: string)
    requires bytes == Encode(html) && Here(html, k, from) && from <= |bytes|
    ensures raw == OpensRaw(html[k..]) && name == TagName(html[k..])
  {
    SlashHere(html, k, from);
    var closing := from < |bytes| && bytes[from] == 0x2F;
    var nameStart := if closing then from + 1 else from;
    ghost var at := if closing then k + 1 else k;
    assert Here(html, at, nameStart);
    var j := ScanName(bytes, nameStart);
    NameCount(html, at, nameStart);
    Lands(html, at, nameStart, NameLen(html[at..]), j - nameStart, j);
    SliceIs(html, at, nameStart, NameLen(html[at..]), j);
    name := Slice(html, nameStart, j);
    raw := !closing && (EqIgnoreCase(name, "script") || EqIgnoreCase(name, "style"));
  }

  lemma {:induction false} NameIsName(s: string)
    ensures IsName(s[..NameLen(s)])
  {
    if s != [] && IsAlnum(s[0]) {
      NameIsName(s[1..]);
      assert s[..NameLen(s)] == [s[0]] + s[1..][..NameLen(s[1..])];
    }
  }

  lemma TagCount(html: string, k: nat, off: nat)
    requires Here(html, k, off) && off <= ByteLen(html)
    ensures TagBytes(Encode(html)[off..], None) == ByteLen(html[k..][..TagLen(html[k..], None)])
  {
    var rest := html[k..];
    assert Encode(html)[off..] == Encode(rest) by { HereFacts(html, k, off); }
    TagBytesAreChars(rest, None);
  }

  lemma RawCount(html: string, k: nat, off: nat, name: string)
    requires Here(html, k, off) && off <= ByteLen(html) && IsName(name)
    ensures RawBytes(Encode(html)[off..], Encode(name)) == Width(html[k..], RawLen(html[k..], name))
  {
    var rest := html[k..];
    assert Encode(html)[off..] == Encode(rest) by { HereFacts(html, k, off); }
    RawBytesAreChars(rest, name);
  }

  /** From just past a `<` to just past the tag. */
  method SkipTagOnly(html: string, bytes: seq<Byte>, from: nat, ghost k: nat) returns (end: nat)
    requires bytes == Encode(html) && Here(html, k, from) && from <= |bytes|
    ensures Here(html, k + TagLen(html[k..], None), end)
  {
    end := ScanToTagEnd(bytes, from);
    TagCount(html, k, from);
    Lands(html, k, from, TagLen(html[k..], None), end - from, end);
  }

  /** From just past a `<` to where text resumes. */
  method SkipMarkup(html: string, bytes: seq<Byte>, from: nat, ghost k: nat) returns (end: nat)
    requires bytes == Encode(html) && Here(html, k, from) && from <= |bytes|
    ensures Here(html, k + MarkupLen(html[k..]), end)
  {
    var raw, name := ReadName(html, bytes, from, k);
    ghost var tag := TagLen(html[k..], None);
    end := SkipTagOnly(html, bytes, from, k);
    if !raw {
      NotRaw(html, k, tag);
      return;
    }
    NameIsName(html[k..]);
    end := SkipRaw(html, bytes, end, name, k + tag);
    Raw(html, k, tag);
  }

  lemma NotRaw(html: string, k: nat, tag: nat)
    requires k <= |html| && !OpensRaw(html[k..]) && tag == TagLen(html[k..], None)
    ensures k + MarkupLen(html[k..]) == k + tag
  {
  }

  /** Where character `k` is once a raw-text body is skipped. */
  ghost function AfterRaw(html: string, k: nat, name: string): (r: nat)
    requires k <= |html|
    ensures r <= |html|
  {
    var len := RawLen(html[k..], name);
    if len.Some? then k + len.value else |html|
  }

  lemma Raw(html: string, k: nat, tag: nat)
    requires k <= |html| && OpensRaw(html[k..]) && tag == TagLen(html[k..], None)
    ensures k + tag <= |html| && k + MarkupLen(html[k..]) == AfterRaw(html, k + tag, TagName(html[k..]))
  {
    assert html[k..][tag..] == html[k + tag..];
  }

  method SkipRaw(html: string, bytes: seq<Byte>, from: nat, name: string, ghost k: nat) returns (end: nat)
    requires bytes == Encode(html) && Here(html, k, from) && IsName(name)
    ensures Here(html, AfterRaw(html, k, name), end)
  {
    HereFacts(html, k, from);
    var close := FindRawTextClose(bytes, from, Encode(name));
    end := if close.Some? then close.value else |bytes|;
    RawCount(html, k, from, name);
    ghost var len := RawLen(html[k..], name);
    if len.Some? {
      Lands(html, k, from, len.value, end - from, end);
    } else {
      assert html[..|html|] == html;
    }
  }

  lemma {:induction false} RunIsKept(s: string)
    ensures KeptText(s) == s[..RunLen(s)] + KeptText(s[RunLen(s)..])
  {
    if s != [] && s[0] != '<' {
      RunIsKept(s[1..]);
      assert s[..RunLen(s)] == [s[0]] + s[1..][..RunLen(s[1..])];
      assert s[RunLen(s)..] == s[1..][RunLen(s[1..])..];
    } else {
      assert s[..0] == [] && s[0..] == s;
    }
  }

  lemma RunCount(html: string, k: nat, off: nat)
    requires Here(html, k, off) && off <= ByteLen(html)
    ensures RunBytes(Encode(html)[off..]) == ByteLen(html[k..][..RunLen(html[k..])])
  {
    var rest := html[k..];
    assert Encode(html)[off..] == Encode(rest) by { HereFacts(html, k, off); }
    RunBytesAreChars(rest);
  }

  /** Copies a run of text up to the next `<`. */
  method CopyRun(html: string, bytes: seq<Byte>, from: nat, ghost k: nat) returns (run: string, end: nat)
    requires bytes == Encode(html) && Here(html, k, from) && from <= |bytes|
    ensures run == html[k..][..RunLen(html[k..])] && Here(html, k + RunLen(html[k..]), end)
  {
    end := ScanRun(bytes, from);
    RunCount(html, k, from);
    Lands(html, k, from, RunLen(html[k..]), end - from, end);
    SliceIs(html, k, from, RunLen(html[k..]), end);
    run := Slice(html, from, end);
  }

  lemma OpenHere(html: string, k: nat, off: nat)
    requires Here(html, k, off) && off < ByteLen(html)
    ensures k < |html| && (Encode(html)[off] == 0x3C <==> html[k] == '<')
    ensures html[k] == '<' ==> Here(html, k + 1, off + 1)
  {
    HereFacts(html, k, off);
    var r := html[k..];
    FirstByte(r);
    CharBytes(r[0]);
    PrefixTail(r, 0);
    assert Encode(html)[off] == Encode(html)[off..][0];
    if r[0] == '<' { Moves(html, k, off, 1, 1); }
  }

  /** Markup contributes nothing. */
  lemma KeptMarkup(html: string, k: nat)
    requires k < |html| && html[k] == '<'
    ensures k + 1 + MarkupLen(html[k + 1..]) <= |html|
    ensures KeptText(html[k..]) == KeptText(html[k + 1 + MarkupLen(html[k + 1..])..])
  {
    var s := html[k..];
    assert s[1..] == html[k + 1..];
    assert s[1..][MarkupLen(s[1..])..] == html[k + 1 + MarkupLen(html[k + 1..])..];
  }

  /** A run contributes itself. */
  lemma KeptRun(html: string, k: nat)
    requires k < |html| && html[k] != '<'
    ensures 0 < RunLen(html[k..]) && k + RunLen(html[k..]) <= |html|
    ensures html[k..][..RunLen(html[k..])] + KeptText(html[k + RunLen(html[k..])..]) == KeptText(html[k..])
  {
    var s := html[k..];
    RunIsKept(s);
    assert s[RunLen(s)..] == html[k + RunLen(s)..];
  }

  /** A tag, with whatever it hides: nothing is kept. */
  method SkipTag(html: string, bytes: seq<Byte>, from: nat, ghost k: nat) returns (end: nat, ghost at: nat)
    requires bytes == Encode(html) && Here(html, k, from) && k < |html| && html[k] == '<' && Here(html, k + 1, from + 1)
    ensures Here(html, at, end) && k < at && KeptText(html[at..]) == KeptText(html[k..])
  {
    KeptMarkup(html, k);
    HereFacts(html, k + 1, from + 1);
    end := SkipMarkup(html, bytes, from + 1, k + 1);
    at := k + 1 + MarkupLen(html[k + 1..]);
  }

  /** A run of text: all of it is kept. */
  method KeepRun(html: string, bytes: seq<Byte>, from: nat, ghost k: nat) returns (run: string, end: nat, ghost at: nat)
    requires bytes == Encode(html) && Here(html, k, from) && k < |html| && html[k] != '<'
    ensures Here(html, at, end) && k < at && run + KeptText(html[at..]) == KeptText(html[k..])
  {
    KeptRun(html, k);
    HereFacts(html, k, from);
    run, end := CopyRun(html, bytes, from, k);
    at := k + RunLen(html[k..]);
  }

  lemma Regroup(a: string, b: string, c: string)
    ensures a + (b + c) == (a + b) + c
  {
  }

  /** The walk over the bytes keeps exactly the tokenizer's text; every slice it takes is legal. */
  method StripTags(html: string) returns (out: string)
    ensures out == KeptText(html)
  {
    var bytes := Encode(html);
    out := [];
    var i: nat := 0;
    ghost var k: nat := 0;
    assert html[0..] == html && html[..0] == [];
    while i < |bytes|
      invariant Here(html, k, i)
      invariant out + KeptText(html[k..]) == KeptText(html)
      decreases |html| - k
    {
      OpenHere(html, k, i);
      if bytes[i] == 0x3C {
        i, k := SkipTag(html, bytes, i, k);
      } else {
        var run;
        ghost var before := out;
        run, i, k := KeepRun(html, bytes, i, k);
        out := out + run;
        Regroup(before, run, KeptText(html[k..]));
      }
    }
    HereFacts(html, k, i);
    assert html[k..] == [];
  }
}
