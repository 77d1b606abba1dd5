/** Cutting text into pieces an embedding model can take whole. */
module Chunking {
  import opened Json

  const MAX_EMBED_CHARS: nat := 4_000

  predicate IsCjkOrWide(c: char) {
    var n := c as int;
    || 0x1100 <= n <= 0x115F || 0x2E80 <= n <= 0x303E || 0x3041 <= n <= 0x33FF || 0x3400 <= n <= 0x4DBF
    || 0x4E00 <= n <= 0x9FFF || 0xA000 <= n <= 0xA4CF || 0xAC00 <= n <= 0xD7A3 || 0xF900 <= n <= 0xFAFF
    || 0xFF00 <= n <= 0xFF60 || 0xFFE0 <= n <= 0xFFE6 || 0x1F300 <= n <= 0x1FAFF || 0x20000 <= n <= 0x3FFFD
  }

  function CharTokenQuarters(c: char): nat {
    if IsCjkOrWide(c) then 4 else 1
  }

  /** The chunker's weight: never less than half a token. */
  function Weight(c: char): (w: nat)
    ensures 2 <= w <= 4
  {
    if CharTokenQuarters(c) < 2 then 2 else CharTokenQuarters(c)
  }

  function Cost(s: string): nat {
    if s == [] then 0 else Weight(s[0]) + Cost(s[1..])
  }

  /** Quarter-tokens one chunk may hold. */
  function MaxQuarters(maxTokens: nat): (q: nat)
    ensures q >= 4
  {
    Sat(4 * if maxTokens == 0 then 1 else maxTokens)
  }

  function Concat(chunks: seq<string>): string {
    if chunks == [] then "" else chunks[0] + Concat(chunks[1..])
  }

  // --- The greedy cut ----------------------------------------------------------------------

  /** Characters of the longest prefix within `cap`. */
  function FirstLen(s: string, cap: nat): (k: nat)
    ensures k <= |s| && (s != [] && cap >= 4 ==> k > 0)
  {
    if s == [] || Weight(s[0]) > cap then 0 else 1 + FirstLen(s[1..], cap - Weight(s[0]))
  }

  function Greedy(s: string, cap: nat): seq<string>
    requires cap >= 4
    decreases |s|
  {
    if s == [] then [] else [s[..FirstLen(s, cap)]] + Greedy(s[FirstLen(s, cap)..], cap)
  }

  lemma {:induction false} CostConcat(a: string, b: string)
    ensures Cost(a + b) == Cost(a) + Cost(b)
  {
    if a == [] {
      assert a + b == b;
    } else {
      assert (a + b)[1..] == a[1..] + b;
      CostConcat(a[1..], b);
    }
  }

  /** The longest prefix: it fits, and a prefix fits exactly when it is no longer. */
  lemma {:induction false} FirstLenIsLongest(s: string, cap: nat, k: nat)
    requires k <= |s|
    ensures Cost(s[..k]) <= cap <==> k <= FirstLen(s, cap)
  {
    if s == [] {
      assert s[..k] == [];
    } else if k == 0 {
      assert s[..0] == [];
    } else {
      assert s[..k][1..] == s[1..][..k - 1];
      if Weight(s[0]) <= cap { FirstLenIsLongest(s[1..], cap - Weight(s[0]), k - 1); }
    }
  }

  /** One turn of the loop: the next character joins the chunk, or starts the next one. */
  method Feed(chunks: seq<string>, current: string, quarters: nat, c: char, cap: nat, ghost all: seq<string>, ghost rest: string)
    returns (done: seq<string>, open: string, held: nat)
    requires cap >= 4 && quarters == Cost(current) <= cap
    requires all == chunks + Greedy(current + ([c] + rest), cap)
    ensures open != [] && held == Cost(open) <= cap
    ensures all == done + Greedy(open + rest, cap)
  {
    CostAppend(current, c);
    if current != [] && quarters + Weight(c) > cap {
      CutHere(all, chunks, current, c, rest, cap);
      return chunks + [current], [c], Weight(c);
    }
    assert current + ([c] + rest) == (current + [c]) + rest;
    return chunks, current + [c], quarters + Weight(c);
  }

  method ChunkEstimatedTokens(text: string, maxTokens: nat, totalCap: nat) returns (chunks: seq<string>)
    ensures chunks == Greedy(Taken(text, totalCap), MaxQuarters(maxTokens))
  {
    var cap := MaxQuarters(maxTokens);
    var input := Taken(text, totalCap);
    ghost var all := Greedy(input, cap);
    chunks := [];
    var current, quarters: nat := "", 0;
    assert current + input[0..] == input;
    assert chunks + all == all;
    for i := 0 to |input|
      invariant quarters == Cost(current) <= cap
      invariant current == [] ==> i == 0
      invariant all == chunks + Greedy(current + input[i..], cap)
    {
      assert input[i..] == [input[i]] + input[i + 1..];
      chunks, current, quarters := Feed(chunks, current, quarters, input[i], cap, all, input[i + 1..]);
    }
    assert current + input[|input|..] == current;
    if current != [] {
      WholeChunk(current, cap);
      chunks := chunks + [current];
    }
  }

  /** The chunks are the first `totalCap` characters of the text, or all of it. */
  lemma ConsideredText(text: string, totalCap: nat, cap: nat)
    requires cap >= 4
    ensures Concat(Greedy(Taken(text, totalCap), cap)) == text[..if |text| <= totalCap then |text| else totalCap]
  {
    GreedyCoversWithinCap(Taken(text, totalCap), cap);
    assert text[..|text|] == text;
  }

  /** The characters considered at all. */
  function Taken(text: string, totalCap: nat): string {
    if |text| <= totalCap then text else text[..totalCap]
  }

  lemma CostAppend(s: string, c: char)
    ensures Cost(s + [c]) == Cost(s) + Weight(c) && Cost([c]) == Weight(c)
  {
    CostConcat(s, [c]);
  }

  lemma CutHere(all: seq<string>, chunks: seq<string>, current: string, c: char, rest: string, cap: nat)
    requires cap >= 4 && current != [] && Cost(current) <= cap < Cost(current) + Weight(c)
    requires all == chunks + Greedy(current + ([c] + rest), cap)
    ensures all == chunks + [current] + Greedy([c] + rest, cap)
  {
    FullChunk(current, c, rest, cap);
    assert chunks + ([current] + Greedy([c] + rest, cap)) == (chunks + [current]) + Greedy([c] + rest, cap);
  }

  /** A chunk the next character would overflow is where the greedy cut falls. */
  lemma FullChunk(current: string, c: char, rest: string, cap: nat)
    requires cap >= 4 && current != [] && Cost(current) <= cap < Cost(current) + Weight(c)
    ensures Greedy(current + ([c] + rest), cap) == [current] + Greedy([c] + rest, cap)
  {
    var s, k := current + ([c] + rest), |current|;
    assert s[..k] == current;
    assert s[..k + 1] == current + [c];
    CostConcat(current, [c]);
    FirstLenIsLongest(s, cap, k);
    FirstLenIsLongest(s, cap, k + 1);
    assert s[k..] == [c] + rest;
  }

  lemma WholeChunk(current: string, cap: nat)
    requires cap >= 4 && current != [] && Cost(current) <= cap
    ensures Greedy(current, cap) == [current]
  {
    assert current[..|current|] == current;
    FirstLenIsLongest(current, cap, |current|);
    assert current[|current|..] == [];
  }

  // --- Tokens -----------------------------------------------------------------------------------

  /** The dispatch guard's estimate: a wide character is a token, four others are one, rounded up. */
  function EstimateTokens(s: string): nat {
    (Quarters(s) + 3) / 4
  }

  function Quarters(s: string): nat {
    if s == [] then 0 else CharTokenQuarters(s[0]) + Quarters(s[1..])
  }

  /** How many of the characters are wide. */
  function Wides(s: string): (n: nat)
    ensures n <= |s|
  {
    if s == [] then 0 else (if IsCjkOrWide(s[0]) then 1 else 0) + Wides(s[1..])
  }

  /** A wide character costs a whole token and any other half of one; the guard counts a quarter. */
  lemma {:induction false} CostsAre(s: string)
    ensures Cost(s) == 2 * |s| + 2 * Wides(s)
    ensures Quarters(s) == |s| + 3 * Wides(s)
  {
    if s != [] {
      CostsAre(s[1..]);
    }
  }

  /** Han, kana and hangul are wide; nothing of the Latin, Greek, Cyrillic, Hebrew or Arabic blocks is. */
  lemma WideScripts(c: char)
    ensures 0x4E00 <= c as int <= 0x9FFF || 0x20000 <= c as int <= 0x2FFFF ==> IsCjkOrWide(c)
    ensures 0x3041 <= c as int <= 0x30FF || 0xAC00 <= c as int <= 0xD7A3 ==> IsCjkOrWide(c)
    ensures c as int < 0x1100 ==> !IsCjkOrWide(c)
  {
  }

  /** Every chunk is within the model's cap, a cap of none being one: with a wide character as a token
    * and any other as half, and so by the guard's own estimate too.
    */
  lemma ChunksFitTheModel(s: string, maxTokens: nat, chunk: string)
    requires chunk in Greedy(s, MaxQuarters(maxTokens))
    ensures var cap := if maxTokens == 0 then 1 else maxTokens;
      |chunk| + Wides(chunk) <= 2 * cap && EstimateTokens(chunk) <= cap
  {
    GreedyCoversWithinCap(s, MaxQuarters(maxTokens));
    CostsAre(chunk);
  }

  /** And none is cut short: with the first character of the next it would be over the cap. */
  lemma {:induction false} ChunksAreFull(s: string, maxTokens: nat, i: nat)
    requires var chunks := Greedy(s, MaxQuarters(maxTokens)); i + 1 < |chunks|
    requires 4 * maxTokens <= USIZE_MAX
    ensures var cap, chunks := if maxTokens == 0 then 1 else maxTokens, Greedy(s, MaxQuarters(maxTokens));
      chunks[i + 1] != [] && |chunks[i]| + 1 + Wides(chunks[i] + [chunks[i + 1][0]]) > 2 * cap
    decreases i
  {
    var cap := MaxQuarters(maxTokens);
    var k := FirstLen(s, cap);
    var rest := s[k..];
    if i > 0 {
      ChunksAreFull(rest, maxTokens, i - 1);
    } else {
      FirstLenIsLongest(s, cap, k + 1);
      assert s[..k + 1] == s[..k] + [rest[0]];
      CostsAre(s[..k + 1]);
      assert Greedy(rest, cap)[0] == rest[..FirstLen(rest, cap)];
    }
  }

  // --- What the cut is like -------------------------------------------------------------------

  /** No character is lost, no chunk is empty, and none is over the cap. */
  lemma {:induction false} GreedyCoversWithinCap(s: string, cap: nat)
    requires cap >= 4
    ensures Concat(Greedy(s, cap)) == s
    ensures forall c :: c in Greedy(s, cap) ==> c != "" && Cost(c) <= cap
    decreases |s|
  {
    if s != [] {
      var k := FirstLen(s, cap);
      GreedyCoversWithinCap(s[k..], cap);
      FirstLenIsLongest(s, cap, k);
      assert s == s[..k] + s[k..];
    }
  }

  /** Starting later never needs more chunks. */
  lemma {:induction false} SuffixNeedsNoMore(s: string, k: nat, cap: nat)
    requires cap >= 4 && k <= |s|
    ensures |Greedy(s[k..], cap)| <= |Greedy(s, cap)|
    decreases |s|
  {
    if k > 0 && k < |s| {
      var g := FirstLen(s, cap);
      if k >= g {
        assert s[k..] == s[g..][k - g..];
        SuffixNeedsNoMore(s[g..], k - g, cap);
      } else {
        var t := s[k..];
        var h := FirstLen(t, cap);
        LaterReachesAsFar(s, k, cap);
        assert t[h..] == s[g..][k + h - g..];
        SuffixNeedsNoMore(s[g..], k + h - g, cap);
      }
    } else if k == 0 {
      assert s[0..] == s;
    }
  }

  /** A chunk started inside another ends no earlier. */
  lemma LaterReachesAsFar(s: string, k: nat, cap: nat)
    requires k <= FirstLen(s, cap)
    ensures k + FirstLen(s[k..], cap) >= FirstLen(s, cap)
  {
    var g := FirstLen(s, cap);
    assert s[..g] == s[..k] + s[k..][..g - k];
    CostConcat(s[..k], s[k..][..g - k]);
    FirstLenIsLongest(s, cap, g);
    FirstLenIsLongest(s[k..], cap, g - k);
  }

  /** No way of cutting the text into pieces within the cap uses fewer pieces. */
  lemma {:induction false} GreedyIsMinimal(s: string, cap: nat, parts: seq<string>)
    requires cap >= 4 && Concat(parts) == s
    requires forall p :: p in parts ==> Cost(p) <= cap
    ensures |Greedy(s, cap)| <= |parts|
    decreases |parts|
  {
    if s != [] {
      var p, g := parts[0], FirstLen(s, cap);
      assert p in parts;
      assert parts == [p] + parts[1..];
      assert s[..|p|] == p && s[|p|..] == Concat(parts[1..]);
      FirstLenIsLongest(s, cap, |p|);
      GreedyIsMinimal(s[|p|..], cap, parts[1..]);
      assert s[g..] == s[|p|..][g - |p|..];
      SuffixNeedsNoMore(s[|p|..], g - |p|, cap);
    }
  }
}
