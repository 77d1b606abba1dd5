/** After the tags are gone: entity decoding, the removal of unsafe characters,
  * whitespace compaction, and what the finished text is like. Text quoted into
  * markup comes back from the whole pipeline.
  */
module HtmlText {
  import opened Wrappers
  import opened Utf8
  import opened Chars
  import opened HtmlScan
  import opened HtmlStrip

  // --- Entities ---------------------------------------------------------------------------

  const ENTITY_SCAN_CHARS: nat := 12
  const U32_MAX: nat := 0xFFFF_FFFF

  function DigitValue(c: char, radix: nat): Option<nat> {
    var v := if '0' <= c <= '9' then c as int - '0' as int
             else if 'a' <= c <= 'f' then c as int - 'a' as int + 10
             else if 'A' <= c <= 'F' then c as int - 'A' as int + 10
             else 99;
    if v < radix then Some(v) else None
  }

  function DigitsValue(s: string, radix: nat): Option<nat> {
    if s == [] then Some(0)
    else
      var front, last := DigitsValue(s[..|s| - 1], radix), DigitValue(s[|s| - 1], radix);
      if front.None? || last.None? then None else Some(front.value * radix + last.value)
  }

  /** An unsigned 32-bit parse: an optional plus sign, at least one digit, no overflow. */
  function ParseU32(s: string, radix: nat): Option<nat> {
    var digits := if s != [] && s[0] == '+' then s[1..] else s;
    var v := DigitsValue(digits, radix);
    if digits == [] || v.None? || v.value > U32_MAX then None else v
  }

  function CharFrom(code: nat): Option<char> {
    if code < 0xD800 || 0xE000 <= code < 0x11_0000 then Some(code as char) else None
  }

  function DecodeOneEntity(e: string): Option<char> {
    if e == "amp" then Some('&')
    else if e == "lt" then Some('<')
    else if e == "gt" then Some('>')
    else if e == "quot" then Some('\"')
    else if e == "apos" || e == "#39" then Some('\'')
    else if e == "nbsp" then Some(' ')
    else if e == [] || e[0] != '#' then None
    else
      var num := e[1..];
      var code := if num != [] && (num[0] == 'x' || num[0] == 'X') then ParseU32(num[1..], 16) else ParseU32(num, 10);
      if code.None? then None else CharFrom(code.value)
  }

  /** The first `c` among the first `limit` characters. */
  function FindWithin(s: string, c: char, limit: nat): (r: Option<nat>)
    ensures r.Some? ==> r.value < |s| && r.value < limit && s[r.value] == c
  {
    if s == [] || limit == 0 then None
    else if s[0] == c then Some(0)
    else
      var r := FindWithin(s[1..], c, limit - 1);
      if r.Some? then Some(r.value + 1) else None
  }

  /** The character an entity right after a `&` stands for, and where the entity ends. */
  function EntityAt(after: string): (r: Option<(char, nat)>)
    ensures r.Some? ==> r.value.1 <= |after|
  {
    var semi := FindWithin(after, ';', ENTITY_SCAN_CHARS);
    if semi.None? || DecodeOneEntity(after[..semi.value]).None? then None
    else Some((DecodeOneEntity(after[..semi.value]).value, semi.value + 1))
  }

  function Decoded(s: string): string
    decreases |s|
  {
    if s == [] then []
    else if s[0] != '&' then [s[0]] + Decoded(s[1..])
    else if EntityAt(s[1..]).Some? then [EntityAt(s[1..]).value.0] + Decoded(s[1..][EntityAt(s[1..]).value.1..])
    else ['&'] + Decoded(s[1..])
  }

  lemma {:induction false} DecodedRun(s: string, n: nat)
    requires n <= |s| && '&' !in s[..n]
    ensures Decoded(s) == s[..n] + Decoded(s[n..])
  {
    if n == 0 {
      assert s[..0] == [] && s[0..] == s;
    } else {
      var rest := s[1..];
      assert s[..n] == [s[0]] + rest[..n - 1] && s[n..] == rest[n - 1..];
      assert s[0] in s[..n];
      DecodedRun(rest, n - 1);
      assert [s[0]] + (rest[..n - 1] + Decoded(s[n..])) == s[..n] + Decoded(s[n..]);
    }
  }

  method FindChar(s: string, c: char) returns (at: Option<nat>)
    ensures at.None? ==> c !in s
    ensures at.Some? ==> at.value < |s| && s[at.value] == c && c !in s[..at.value]
  {
    var i := 0;
    while i < |s| && s[i] != c
      invariant 0 <= i <= |s| && c !in s[..i]
    {
      i := i + 1;
    }
    assert s[..|s|] == s;
    at := if i < |s| then Some(i) else None;
  }

  /** One turn of the loop below: the run before the ampersand, then the entity or the ampersand itself. */
  lemma DecodedTurn(out: string, rest: string, amp: nat)
    requires amp < |rest| && rest[amp] == '&' && '&' !in rest[..amp]
    ensures var after := rest[amp + 1..];
      out + Decoded(rest) ==
      if EntityAt(after).Some? then (out + rest[..amp] + [EntityAt(after).value.0]) + Decoded(after[EntityAt(after).value.1..])
      else (out + rest[..amp] + ['&']) + Decoded(after)
  {
    DecodedRun(rest, amp);
    assert rest[amp..][1..] == rest[amp + 1..] && rest[amp..][0] == '&';
  }

  method DecodeHtmlEntities(text: string) returns (out: string)
    ensures out == Decoded(text)
  {
    out := [];
    var rest := text;
    var amp: Option<nat> := FindChar(rest, '&');
    while amp.Some?
      invariant amp.None? ==> '&' !in rest
      invariant amp.Some? ==> amp.value < |rest| && rest[amp.value] == '&' && '&' !in rest[..amp.value]
      invariant out + Decoded(rest) == Decoded(text)
      decreases |rest| + if amp.Some? then 1 else 0
    {
      DecodedTurn(out, rest, amp.value);
      out := out + rest[..amp.value];
      var after := rest[amp.value + 1..];
      var entity := EntityAt(after);
      if entity.Some? {
        out := out + [entity.value.0];
        rest := after[entity.value.1..];
      } else {
        out := out + ['&'];
        rest := after;
      }
      amp := FindChar(rest, '&');
    }
    DecodedRun(rest, |rest|);
    assert rest[..|rest|] == rest && rest[|rest|..] == [];
    out := out + rest;
  }

  // --- Unsafe characters and whitespace ---------------------------------------------------------

  predicate IsBidiOrInvisible(c: char) {
    var n := c as int;
    || n == 0x061C || 0x200B <= n <= 0x200F || 0x202A <= n <= 0x202E || 0x2060 <= n <= 0x2064
    || 0x2066 <= n <= 0x2069 || 0x206A <= n <= 0x206F || n == 0xFEFF
  }

  /** Marks, embeddings, overrides and isolates: the Bidi_Control property. */
  const BIDI_CONTROLS: seq<int> :=
    [0x061C, 0x200E, 0x200F, 0x202A, 0x202B, 0x202C, 0x202D, 0x202E, 0x2066, 0x2067, 0x2068, 0x2069]

  /** Zero-width space, joiners, word joiner and invisible operators, deprecated formatting, byte order mark. */
  const INVISIBLES: seq<int> :=
    [0x200B, 0x200C, 0x200D, 0x2060, 0x2061, 0x2062, 0x2063, 0x2064, 0x206A, 0x206B, 0x206C, 0x206D, 0x206E, 0x206F, 0xFEFF]

  lemma UnsafeAreListed(c: char)
    ensures IsBidiOrInvisible(c) <==> c as int in BIDI_CONTROLS || c as int in INVISIBLES
    ensures IsUnsafe(c) <==> IsBidiOrInvisible(c) || (IsControl(c) && !(0x09 <= c as int <= 0x0D) && c as int != 0x85)
  {
  }

  predicate IsUnsafe(c: char) {
    !IsWhitespace(c) && (IsControl(c) || IsBidiOrInvisible(c))
  }

  function Safe(s: string): string {
    if s == [] then [] else (if IsUnsafe(s[0]) then [] else [s[0]]) + Safe(s[1..])
  }

  function WordLen(s: string): (k: nat)
    ensures k <= |s| && forall i :: 0 <= i < k ==> !IsWhitespace(s[i])
    ensures k < |s| ==> IsWhitespace(s[k])
  {
    if s == [] || IsWhitespace(s[0]) then 0 else 1 + WordLen(s[1..])
  }

  function Words(s: string): seq<string>
    decreases |s|
  {
    if s == [] then []
    else if IsWhitespace(s[0]) then Words(s[1..])
    else [s[..WordLen(s)]] + Words(s[WordLen(s)..])
  }

  function Spaced(words: seq<string>): string {
    if words == [] then [] else if |words| == 1 then words[0] else words[0] + " " + Spaced(words[1..])
  }

  function Compact(s: string): string {
    Spaced(Words(s))
  }

  function Stripped(html: string): string {
    Compact(Safe(Decoded(KeptText(html))))
  }

  method FilterSafe(s: string) returns (out: string)
    ensures out == Safe(s)
  {
    out := [];
    var i := |s|;
    while i > 0
      invariant 0 <= i <= |s| && out == Safe(s[i..])
    {
      i := i - 1;
      assert s[i..][1..] == s[i + 1..];
      if !IsUnsafe(s[i]) { out := [s[i]] + out; }
    }
    assert s[0..] == s;
  }

  method StripHtml(html: string) returns (out: string)
    ensures out == Stripped(html)
  {
    var kept := StripTags(html);
    var decoded := DecodeHtmlEntities(kept);
    var safe := FilterSafe(decoded);
    out := Compact(safe);
  }

  // --- What the finished text is like --------------------------------------------------------------

  ghost predicate WordOk(w: string) {
    w != [] && forall i :: 0 <= i < |w| ==> !IsWhitespace(w[i])
  }

  /** Only single spaces, none at either end, and nothing a reader cannot see. */
  ghost predicate Presentable(s: string) {
    && (forall i :: 0 <= i < |s| ==> !IsUnsafe(s[i]) && (IsWhitespace(s[i]) ==> s[i] == ' '))
    && (s != [] ==> s[0] != ' ' && s[|s| - 1] != ' ')
    && (forall i :: 0 <= i < |s| - 1 ==> !(s[i] == ' ' && s[i + 1] == ' '))
  }

  lemma {:induction false} SafeIsSafe(s: string)
    ensures forall i :: 0 <= i < |Safe(s)| ==> !IsUnsafe(Safe(s)[i])
  {
    if s != [] {
      SafeIsSafe(s[1..]);
    }
  }

  lemma {:induction false} WordsAreWords(s: string)
    requires forall i :: 0 <= i < |s| ==> !IsUnsafe(s[i])
    ensures forall w :: w in Words(s) ==> WordOk(w) && forall i :: 0 <= i < |w| ==> !IsUnsafe(w[i])
    decreases |s|
  {
    if s == [] {
    } else if IsWhitespace(s[0]) {
      WordsAreWords(s[1..]);
    } else {
      WordsAreWords(s[WordLen(s)..]);
    }
  }

  lemma {:induction false} SpacedIsPresentable(words: seq<string>)
    requires forall w :: w in words ==> WordOk(w) && forall i :: 0 <= i < |w| ==> !IsUnsafe(w[i])
    ensures Presentable(Spaced(words)) && (words != [] ==> Spaced(words) != [])
  {
    if |words| == 1 {
      assert words[0] in words;
    } else if |words| > 1 {
      assert words == [words[0]] + words[1..];
      assert words[0] in words;
      SpacedIsPresentable(words[1..]);
    }
  }

  /** Whatever markup comes in, the text that comes out has no control, bidirectional or
    * zero-width character, and only single spaces between its words.
    */
  lemma StrippedIsPresentable(html: string)
    ensures Presentable(Stripped(html))
    ensures forall i :: 0 <= i < |Stripped(html)| ==> !IsControl(Stripped(html)[i]) && !IsBidiOrInvisible(Stripped(html)[i])
  {
    var safe := Safe(Decoded(KeptText(html)));
    SafeIsSafe(Decoded(KeptText(html)));
    WordsAreWords(safe);
    SpacedIsPresentable(Words(safe));
  }

  lemma {:induction false} WordLenOf(w: string, rest: string)
    requires (forall i :: 0 <= i < |w| ==> !IsWhitespace(w[i])) && (rest == [] || IsWhitespace(rest[0]))
    ensures WordLen(w + rest) == |w|
  {
    if w == [] {
      assert w + rest == rest;
    } else {
      assert (w + rest)[1..] == w[1..] + rest;
      WordLenOf(w[1..], rest);
    }
  }

  /** Splitting undoes joining, so compaction is idempotent. */
  lemma {:induction false} WordsOfSpaced(words: seq<string>)
    requires forall w :: w in words ==> WordOk(w)
    ensures Words(Spaced(words)) == words
  {
    if words != [] {
      var w := words[0];
      assert w in words;
      assert words == [w] + words[1..];
      var rest := if |words| == 1 then "" else " " + Spaced(words[1..]);
      var s := Spaced(words);
      assert s == w + rest;
      WordLenOf(w, rest);
      assert s[..|w|] == w && s[|w|..] == rest;
      assert s[0] == w[0];
      if |words| > 1 {
        WordsOfSpaced(words[1..]);
        assert rest[1..] == Spaced(words[1..]);
      }
    }
  }

  // --- Text put into markup comes back ---------------------------------------------------------------

  /** The entity name a quoted character is written with. */
  function EntityName(c: char): Option<string> {
    if c == '&' then Some("amp")
    else if c == '<' then Some("lt")
    else if c == '>' then Some("gt")
    else if c == '\"' then Some("quot")
    else if c == '\'' then Some("#39")
    else None
  }

  /** How a writer quotes text in markup. */
  function Quoted(c: char): string {
    if EntityName(c).Some? then "&" + EntityName(c).value + ";" else [c]
  }

  function QuoteText(s: string): string {
    if s == [] then [] else Quoted(s[0]) + QuoteText(s[1..])
  }

  lemma {:induction false} QuotedHasNoTags(s: string)
    ensures '<' !in QuoteText(s)
  {
    if s != [] {
      QuotedHasNoTags(s[1..]);
    }
  }

  lemma {:induction false} NoTagsKept(s: string)
    requires '<' !in s
    ensures KeptText(s) == s
  {
    if s != [] {
      assert s == [s[0]] + s[1..];
      NoTagsKept(s[1..]);
    }
  }

  lemma SemiAt(body: string, rest: string)
    requires |body| < ENTITY_SCAN_CHARS && ';' !in body
    ensures FindWithin(body + ";" + rest, ';', ENTITY_SCAN_CHARS) == Some(|body|)
  {
    FoundAt(body, rest, ENTITY_SCAN_CHARS);
  }

  lemma {:induction false} FoundAt(body: string, rest: string, limit: nat)
    requires |body| < limit && ';' !in body
    ensures FindWithin(body + ";" + rest, ';', limit) == Some(|body|)
  {
    var s := body + ";" + rest;
    if body != [] {
      assert body == [body[0]] + body[1..];
      assert s[1..] == body[1..] + ";" + rest;
      FoundAt(body[1..], rest, limit - 1);
    }
  }

  lemma DecodesEntity(body: string, c: char, rest: string)
    requires |body| < ENTITY_SCAN_CHARS && ';' !in body && DecodeOneEntity(body) == Some(c)
    ensures Decoded("&" + body + ";" + rest) == [c] + Decoded(rest)
  {
    var s := "&" + body + ";" + rest;
    var after := body + ";" + rest;
    assert s[1..] == after;
    SemiAt(body, rest);
    assert after[..|body|] == body;
    assert after[|body| + 1..] == rest;
  }

  lemma DecodesQuoted(c: char, rest: string)
    ensures Decoded(Quoted(c) + rest) == [c] + Decoded(rest)
  {
    if EntityName(c).Some? {
      DecodesEntity(EntityName(c).value, c, rest);
      assert "&" + EntityName(c).value + ";" + rest == Quoted(c) + rest;
    } else {
      assert ([c] + rest)[1..] == rest;
    }
  }

  lemma {:induction false} DecodedQuoteText(s: string)
    ensures Decoded(QuoteText(s)) == s
  {
    if s != [] {
      DecodedQuoteText(s[1..]);
      DecodesQuoted(s[0], QuoteText(s[1..]));
      assert s == [s[0]] + s[1..];
    }
  }

  /** Any text quoted into markup is recovered, up to unsafe characters and the width of its gaps. */
  lemma QuotedTextComesBack(s: string)
    ensures Stripped(QuoteText(s)) == Compact(Safe(s))
  {
    QuotedHasNoTags(s);
    NoTagsKept(QuoteText(s));
    DecodedQuoteText(s);
  }
}
