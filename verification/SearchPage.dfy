/** Which caps on MIME strings and labels make every search page fit one frame, and a page within the
  * source's own caps that does not. The condition is exact, so both halves work with the exact size of a
  * row: an upper bound for every page, and a widest page that meets it.
  */
module SearchPage {
  import opened Wrappers
  import opened Utf8
  import opened Json
  import opened Limits
  import opened Policy
  import opened Roles
  import opened IpcBudget
  import opened IpcFrame
  import opened SearchFrame

  const U64_MAX: nat := 0xFFFF_FFFF_FFFF_FFFF

  // --- The caps ---------------------------------------------------------------------------

  /** A row as storage hands it over: a preview of at most 180 characters, MIME strings that escape to
    * at most `m` bytes once truncated, a label of at most `k` characters.
    */
  ghost predicate RowWithinCaps(r: SearchRow, reps: seq<RepSummary>, m: nat, k: nat) {
    && SearchTokensOk(r)
    && |r.preview| <= PREVIEW_MAX_CHARS
    && (r.userLabel.Some? ==> |r.userLabel.value| <= k)
    && forall j :: 0 <= j < |reps| ==> MimeWidth(reps[j]) <= m && reps[j].byteCount <= U64_MAX
  }

  function MimeWidth(s: RepSummary): nat {
    Esc(Truncated(s.mimeType, MAX_DTO_MIME_BYTES))
  }

  ghost predicate WithinCaps(rows: seq<SearchRow>, summaries: Summaries, m: nat, k: nat) {
    && |rows| <= MAX_RESULT_LIMIT
    && forall i :: 0 <= i < |rows| ==> RowWithinCaps(rows[i], RepsOf(summaries, rows[i].id), m, k)
  }

  /** Whatever page within these caps the budget loop takes, its response fits one frame. */
  ghost predicate AlwaysFits(m: nat, k: nat) {
    forall rows, dtos, summaries: Summaries :: WithinCaps(rows, summaries, m, k) && Taken(rows, dtos, summaries) ==>
      |SearchResponse(dtos)| <= MAX_IPC_BYTES
  }

  /** The rows the budget loop takes from a page, as it sends them. */
  ghost predicate Taken(rows: seq<SearchRow>, dtos: seq<SearchDto>, summaries: Summaries) {
    SearchDtosFor(rows, dtos, summaries) && StopsAtBudget(SearchCosts(rows, summaries), |dtos|)
  }

  // --- The exact size of a row ----------------------------------------------------------------

  lemma HeadIs(r: SearchRow)
    ensures |SearchHead(r)| == 66 + |r.id| + |r.kind| + Esc(r.preview) + |r.score| + |r.createdAt| + |Bool(r.pinned)|
  {
  }

  lemma MidIs(r: SearchRow)
    ensures |SearchMid(r)| == 35 + |SensitivityName(r.sensitivity)| + |Listed(ReasonItems(r.rankReasons))|
  {
  }

  lemma TailIs(r: SearchRow)
    ensures |SearchTail(r)| == 62 + |OptStr(r.sourceName)| + |OptStr(r.language)| + |OptNum(r.imageWidth)| + |OptNum(r.imageHeight)|
  {
  }

  lemma JsonIs(d: SearchDto)
    ensures |SearchJson(d)| == |SearchHead(d.row)| + |SearchMid(d.row)| + |SearchTail(d.row)| + LabelWire(d.row.userLabel)
                               + |SummariesJson(d.summaries)| + 27
  {
  }

  lemma SummaryIs(s: RepSummary)
    ensures |SummaryJson(s)| == 40 + Esc(s.mimeType) + |RoleName(s.role)| + |Digits(s.byteCount)|
  {
  }

  lemma LabelIs(o: Option<string>)
    ensures LabelWire(o) == if o.Some? then 11 + Esc(o.value) else 0
  {
  }

  // --- No row within the caps is longer ---------------------------------------------------------

  lemma {:induction false} EscChars(s: string)
    ensures Esc(s) <= 6 * |s| && ByteLen(s) <= 4 * |s|
  {
    if s != [] {
      EscChars(s[1..]);
      EscapeConcat(EncodeChar(s[0]), Encode(s[1..]));
      EscChar(s[0]);
    }
  }

  lemma EscChar(c: char)
    ensures |Escape(EncodeChar(c))| <= 6
  {
    var e := EncodeChar(c);
    if |e| == 1 { EscapeBounds(e); } else { HighBytesPass(e); }
  }

  lemma PreviewKept(preview: string)
    requires |preview| <= PREVIEW_MAX_CHARS
    ensures BoundedPreview(preview) == preview && Esc(preview) <= 1080
  {
    EscChars(preview);
  }

  lemma CountWidth(n: nat)
    requires n <= U64_MAX
    ensures |Digits(n)| <= 20
  {
    TenToTheTwenty();
    DigitsLen(n, 20);
  }

  lemma TenToTheTwenty()
    ensures Pow10(20) == 100000000000000000000 && Pow10(19) == 10000000000000000000
  {
    assert Pow10(5) == 100000;
    assert Pow10(10) == 10000000000;
    assert Pow10(15) == 1000000000000000;
  }

  lemma SummaryWithin(s: RepSummary, m: nat)
    requires MimeWidth(s) <= m && s.byteCount <= U64_MAX
    ensures |SummaryJson(BoundedSummary(s))| + 1 <= 75 + m
  {
    SummaryIs(BoundedSummary(s));
    CountWidth(s.byteCount);
  }

  lemma SummariesWithin(reps: seq<RepSummary>, m: nat)
    requires forall j :: 0 <= j < |reps| ==> MimeWidth(reps[j]) <= m && reps[j].byteCount <= U64_MAX
    ensures |SummariesJson(SummariesWithinCaps(reps))| <= 601 + 8 * m
  {
    var kept := Capped(reps);
    var items := SummaryItems(BoundAll(kept));
    forall i | 0 <= i < |items| ensures |items[i]| + 1 <= 75 + m {
      BoundAllAt(kept, i);
      SummaryWithin(kept[i], m);
    }
    ItemsWithin(items, 8, 75 + m);
    ListedLen(items);
  }

  lemma ItemsWithin(items: seq<Bytes>, n: nat, each: nat)
    requires |items| <= n && forall i :: 0 <= i < |items| ==> |items[i]| + 1 <= each
    ensures SumLen(items) <= n * each
  {
    var costs: seq<nat> := seq(|items|, _ => each);
    ListedWithin(items, costs);
    SumBound(costs, each);
    MulLe(|items|, n, each);
  }

  lemma MulLe(a: nat, b: nat, c: nat)
    requires a <= b
    ensures a * c <= b * c
  {
  }

  lemma TailWithin(r: SearchRow)
    requires SearchTokensOk(r) && EscOpt(r.sourceName) <= 768 && EscOpt(r.language) <= 192
    ensures |SearchTail(r)| <= 1046
  {
    TailIs(r);
    OptNumLen(r.imageWidth);
    OptNumLen(r.imageHeight);
  }

  lemma MidWithin(r: SearchRow)
    requires SearchTokensOk(r)
    ensures |SearchMid(r)| <= 211
  {
    MidIs(r);
    ItemsWithin(ReasonItems(r.rankReasons), 10, 17);
    ListedLen(ReasonItems(r.rankReasons));
  }

  lemma CappedRowWithin(r: SearchRow, summaries: Summaries, m: nat, k: nat)
    requires RowWithinCaps(r, RepsOf(summaries, r.id), m, k)
    ensures |SearchJson(ToSearchDto(r, summaries))| + 1 <= 3143 + 8 * m + 6 * k
  {
    var d := ToSearchDto(r, summaries);
    JsonIs(d);
    HeadIs(d.row);
    PreviewKept(r.preview);
    MidWithin(d.row);
    NameLen(r.sourceName);
    LanguageLen(r.language);
    OptionLenBound(r.sourceName, MAX_DTO_SOURCE_APP_NAME_BYTES);
    OptionLenBound(r.language, MAX_DTO_LANGUAGE_BYTES);
    TailWithin(d.row);
    LabelIs(r.userLabel);
    if r.userLabel.Some? { EscChars(r.userLabel.value); }
    SummariesWithin(RepsOf(summaries, r.id), m);
  }

  lemma CappedPageFits(rows: seq<SearchRow>, dtos: seq<SearchDto>, summaries: Summaries, m: nat, k: nat)
    requires WithinCaps(rows, summaries, m, k) && SearchDtosFor(rows, dtos, summaries) && 8 * m + 6 * k <= 2099
    ensures |SearchResponse(dtos)| <= MAX_IPC_BYTES
  {
    var items := SearchItems(dtos);
    forall i | 0 <= i < |items| ensures |items[i]| + 1 <= 5242 {
      assert dtos[i] == ToSearchDto(rows[i], summaries);
      CappedRowWithin(rows[i], summaries, m, k);
    }
    ItemsWithin(items, MAX_RESULT_LIMIT, 5242);
    ListedLen(items);
  }

  // --- Repeats ------------------------------------------------------------------------------------

  function Repeat<T>(x: T, n: nat): (r: seq<T>)
    ensures |r| == n && forall i :: 0 <= i < n ==> r[i] == x
  {
    seq(n, _ => x)
  }

  const CONTROL: char := 1 as char

  lemma {:induction false} EscControls(n: nat)
    ensures ByteLen(Repeat(CONTROL, n)) == n && Esc(Repeat(CONTROL, n)) == 6 * n
  {
    if n > 0 {
      EscControls(n - 1);
      assert Repeat(CONTROL, n)[1..] == Repeat(CONTROL, n - 1);
      var one := EncodeChar(CONTROL);
      assert one == [1] && one[1..] == [];
      EscapeConcat(one, Encode(Repeat(CONTROL, n - 1)));
      assert |Escape(one)| == 6;
    }
  }

  lemma {:induction false} EscPlain(n: nat)
    ensures ByteLen(Repeat('a', n)) == n && Esc(Repeat('a', n)) == n
  {
    if n > 0 {
      EscPlain(n - 1);
      assert Repeat('a', n)[1..] == Repeat('a', n - 1);
      var one := EncodeChar('a');
      assert one == [0x61] && one[1..] == [];
      EscapeConcat(one, Encode(Repeat('a', n - 1)));
      assert |Escape(one)| == 1;
    }
  }

  lemma {:induction false} SumRepeat(c: nat, n: nat)
    ensures Sum(Repeat(c, n)) == n * c
  {
    if n > 0 {
      SumRepeat(c, n - 1);
      assert Repeat(c, n)[..n - 1] == Repeat(c, n - 1);
    }
  }

  lemma {:induction false} SumLenRepeat(b: Bytes, n: nat)
    ensures SumLen(Repeat(b, n)) == n * (|b| + 1)
  {
    if n > 0 {
      SumLenRepeat(b, n - 1);
      assert Repeat(b, n)[1..] == Repeat(b, n - 1);
    }
  }

  /** A MIME string of at most 49 bytes that escapes to `m`. */
  function HostileMime(m: nat): string {
    Repeat(CONTROL, m / 6) + Repeat('a', m % 6)
  }

  lemma HostileMimeWidth(m: nat)
    requires m <= 291
    ensures ByteLen(HostileMime(m)) <= MAX_DTO_MIME_BYTES
    ensures Truncated(HostileMime(m), MAX_DTO_MIME_BYTES) == HostileMime(m) && Esc(HostileMime(m)) == m
  {
    var a, b := Repeat(CONTROL, m / 6), Repeat('a', m % 6);
    EscControls(m / 6);
    EscPlain(m % 6);
    EncodeConcat(a, b);
    EscapeConcat(Encode(a), Encode(b));
  }

  // --- Pages of one row, over and over ----------------------------------------------------------------

  function Eight(s: RepSummary): (r: seq<RepSummary>)
    ensures |r| == 8 && forall i :: 0 <= i < 8 ==> r[i] == s
  {
    Repeat(s, 8)
  }

  lemma EightBounded(s: RepSummary)
    requires Truncated(s.mimeType, MAX_DTO_MIME_BYTES) == s.mimeType
    ensures SummariesWithinCaps(Eight(s)) == Eight(s)
    ensures |SummariesJson(Eight(s))| == 8 * (|SummaryJson(s)| + 1) + 1
  {
    forall i | 0 <= i < 8 ensures BoundAll(Eight(s))[i] == s { BoundAllAt(Eight(s), i); }
    assert BoundAll(Eight(s)) == Eight(s);
    assert SummaryItems(Eight(s)) == Repeat(SummaryJson(s), 8);
    SumLenRepeat(SummaryJson(s), 8);
    ListedLen(SummaryItems(Eight(s)));
  }

  /** What a row with these eight summaries is charged. */
  lemma CostIs(r: SearchRow, s: RepSummary, m: nat)
    requires |r.preview| <= PREVIEW_MAX_CHARS && MimeWidth(s) == m <= 384
    requires r.sourceName.Some? && r.sourceName.value == Repeat(CONTROL, 128)
    requires r.language.None? || r.language.value == Repeat(CONTROL, 32)
    ensures SearchCost(r, map[r.id := Eight(s)]) == 512 + Esc(r.preview) + 768 + (if r.language.Some? then 192 else 0) + 8 * (m + 64)
    ensures BoundedName(r.sourceName) == r.sourceName
    ensures r.language.Some? ==> Truncated(r.language.value, MAX_DTO_LANGUAGE_BYTES) == r.language.value
  {
    MetadataWithinAllowance(r.preview, r.sourceName, r.language, Eight(s));
    PreviewKept(r.preview);
    EscControls(128);
    EscControls(32);
    EightCost(s, m);
  }

  lemma EightCost(s: RepSummary, m: nat)
    requires MimeWidth(s) == m <= 384
    ensures SumSummaries(Capped(Eight(s))) == 8 * (m + 64)
  {
    var cost: nat := m + 64;
    assert Capped(Eight(s)) == Eight(s);
    assert SummaryCosts(Eight(s)) == Repeat(cost, 8);
    SumRepeat(cost, 8);
  }

  /** Two hundred rows that the budget takes whole, each a few bytes over its share of the frame. */
  lemma PageBreaches(row: SearchRow, summaries: Summaries, dto: SearchDto, cost: nat, m: nat, k: nat)
    returns (rows: seq<SearchRow>, dtos: seq<SearchDto>)
    requires RowWithinCaps(row, RepsOf(summaries, row.id), m, k)
    requires dto == ToSearchDto(row, summaries) && SearchCost(row, summaries) == cost <= 5201 && |SearchJson(dto)| + 1 >= 5243
    ensures WithinCaps(rows, summaries, m, k) && Taken(rows, dtos, summaries) && |SearchResponse(dtos)| > MAX_IPC_BYTES
    ensures forall r :: r in rows ==> r == row
  {
    PageTaken(row, summaries, cost);
    ResponseOver(dto);
    rows, dtos := Repeat(row, 200), Repeat(dto, 200);
  }

  lemma PageTaken(row: SearchRow, summaries: Summaries, cost: nat)
    requires SearchCost(row, summaries) == cost <= 5201
    ensures Taken(Repeat(row, 200), Repeat(ToSearchDto(row, summaries), 200), summaries)
  {
    var costs := SearchCosts(Repeat(row, 200), summaries);
    assert costs == Repeat(cost, 200);
    assert costs[..200] == costs;
    SumRepeat(cost, 200);
  }

  lemma ResponseOver(dto: SearchDto)
    requires |SearchJson(dto)| + 1 >= 5243
    ensures |SearchResponse(Repeat(dto, 200))| > MAX_IPC_BYTES
  {
    var b := SearchJson(dto);
    assert SearchItems(Repeat(dto, 200)) == Repeat(b, 200);
    SumLenRepeat(b, 200);
    ListedLen(Repeat(b, 200));
  }

  // --- The caps that are enough, exactly ----------------------------------------------------------------

  /** A row at every cap, and at the widest of every token. */
  function WidestRow(k: nat): SearchRow {
    SearchRow(Repeat(0x61, 36), Repeat(0x61, 8), Repeat(CONTROL, 180), Repeat(0x31, 16), Repeat(0x31, 35), false, Private,
              Repeat(Repeat(0x61, 14), 10), Some(Repeat(CONTROL, 128)), Some(Repeat(CONTROL, 32)),
              Some(1000000000), Some(1000000000), Some(Repeat(CONTROL, k)))
  }

  function WidestSummary(m: nat): RepSummary {
    RepSummary(PlainFallback, HostileMime(m), 10000000000000000000)
  }

  lemma {:induction false} DigitsExact(n: nat, k: nat)
    requires k > 0 && Pow10(k - 1) <= n < Pow10(k)
    ensures k > 1 ==> |Digits(n)| == k
  {
    if k > 2 {
      DigitsExact(n / 10, k - 1);
    } else if k == 2 {
      assert Pow10(1) == 10 && Pow10(2) == 100;
      assert Digits(n / 10) == [0x30 + n / 10];
    }
  }

  lemma WidestNumbers()
    ensures |Digits(1000000000)| == 10 && 1000000000 < Pow10(10)
    ensures |Digits(10000000000000000000)| == 20
  {
    assert Pow10(5) == 100000;
    assert Pow10(9) == 1000000000 && Pow10(10) == 10000000000;
    DigitsExact(1000000000, 10);
    TenToTheTwenty();
    DigitsExact(10000000000000000000, 20);
  }

  lemma WidestMid(k: nat)
    ensures |SearchMid(WidestRow(k))| == 211
  {
    var r := WidestRow(k);
    MidIs(r);
    assert SensitivityName(Private) == Lit("Private");
    var item := Quoted(Repeat(0x61, 14));
    assert ReasonItems(r.rankReasons) == Repeat(item, 10);
    SumLenRepeat(item, 10);
    ListedLen(Repeat(item, 10));
  }

  lemma WidestTail(k: nat)
    ensures |SearchTail(WidestRow(k))| == 1046
  {
    TailIs(WidestRow(k));
    WidestNumbers();
    EscControls(128);
    EscControls(32);
  }

  lemma WidestSummariesLen(m: nat)
    requires m <= 291
    ensures SummariesWithinCaps(Eight(WidestSummary(m))) == Eight(WidestSummary(m))
    ensures |SummariesJson(Eight(WidestSummary(m)))| == 601 + 8 * m
  {
    HostileMimeWidth(m);
    WidestNumbers();
    SummaryIs(WidestSummary(m));
    EightBounded(WidestSummary(m));
  }

  function WidestSummaries(m: nat, k: nat): Summaries {
    map[WidestRow(k).id := Eight(WidestSummary(m))]
  }

  lemma WidestDto(m: nat, k: nat)
    requires m <= 291
    ensures SearchCost(WidestRow(k), WidestSummaries(m, k)) == 3064 + 8 * m
    ensures ToSearchDto(WidestRow(k), WidestSummaries(m, k)) == SearchDto(WidestRow(k), Eight(WidestSummary(m)))
  {
    HostileMimeWidth(m);
    EscControls(180);
    PreviewKept(WidestRow(k).preview);
    CostIs(WidestRow(k), WidestSummary(m), m);
    WidestSummariesLen(m);
  }

  lemma WidestBytes(m: nat, k: nat)
    requires m <= 291
    ensures |SearchJson(SearchDto(WidestRow(k), Eight(WidestSummary(m))))| == 3142 + 8 * m + 6 * k
  {
    var d := SearchDto(WidestRow(k), Eight(WidestSummary(m)));
    JsonIs(d);
    HeadIs(d.row);
    EscControls(180);
    WidestMid(k);
    WidestTail(k);
    LabelIs(d.row.userLabel);
    EscControls(k);
    WidestSummariesLen(m);
  }

  lemma WidestWithinCaps(m: nat, cap: nat, k: nat)
    requires m <= cap && m <= 291
    ensures RowWithinCaps(WidestRow(k), RepsOf(WidestSummaries(m, k), WidestRow(k).id), cap, k)
  {
    WidestNumbers();
    HostileMimeWidth(m);
  }

  lemma Widest(m: nat, cap: nat, k: nat) returns (row: SearchRow, summaries: Summaries, dto: SearchDto)
    requires m <= cap && m <= 291
    ensures RowWithinCaps(row, RepsOf(summaries, row.id), cap, k) && dto == ToSearchDto(row, summaries)
    ensures SearchCost(row, summaries) == 3064 + 8 * m && |SearchJson(dto)| == 3142 + 8 * m + 6 * k
  {
    WidestDto(m, k);
    WidestBytes(m, k);
    WidestWithinCaps(m, cap, k);
    row, summaries, dto := WidestRow(k), WidestSummaries(m, k), SearchDto(WidestRow(k), Eight(WidestSummary(m)));
  }

  lemma WideCapsBreach(m: nat, k: nat)
    requires 8 * m + 6 * k > 2099
    ensures !AlwaysFits(m, k)
  {
    var width := if m <= 267 then m else 267;
    var row, summaries, dto := Widest(width, m, k);
    var rows, dtos := PageBreaches(row, summaries, dto, 3064 + 8 * width, m, k);
  }

  /** Every page within the caps fits one frame exactly when `8 m + 6 k` is at most 2099: with labels of
    * 80 characters, when no MIME string escapes to more than 202 bytes.
    */
  lemma PagesFitIff(m: nat, k: nat)
    ensures AlwaysFits(m, k) <==> 8 * m + 6 * k <= 2099
  {
    if 8 * m + 6 * k <= 2099 {
      forall rows, dtos, summaries: Summaries | WithinCaps(rows, summaries, m, k) && Taken(rows, dtos, summaries)
        ensures |SearchResponse(dtos)| <= MAX_IPC_BYTES
      {
        CappedPageFits(rows, dtos, summaries, m, k);
      }
    } else {
      WideCapsBreach(m, k);
    }
  }

  /** So every page whose MIME strings need no escaping fits, whatever else is in it. */
  lemma PlainMimesFit(rows: seq<SearchRow>, dtos: seq<SearchDto>, summaries: Summaries)
    requires WithinCaps(rows, summaries, MAX_DTO_MIME_BYTES, LABEL_MAX_CHARS) && Taken(rows, dtos, summaries)
    ensures |SearchResponse(dtos)| <= MAX_IPC_BYTES
  {
    PagesFitIff(MAX_DTO_MIME_BYTES, LABEL_MAX_CHARS);
  }

  // --- A page that breaches with nothing but labels and MIME strings out of the ordinary ------------------------

  function NamedRow(): SearchRow {
    SearchRow(Repeat(0x61, 36), Lit("FileList"), Repeat(CONTROL, 180), Lit("1.0"), Lit("2024-01-01T00:00:00Z"), false, Public,
              [], Some(Repeat(CONTROL, 128)), None, None, None, Some(Repeat(CONTROL, 80)))
  }

  function NamedSummary(): RepSummary {
    RepSummary(Alternative, HostileMime(291), 64)
  }

  function NamedSummaries(): Summaries {
    map[NamedRow().id := Eight(NamedSummary())]
  }

  lemma NamedDto()
    ensures SearchCost(NamedRow(), NamedSummaries()) == 5200
    ensures ToSearchDto(NamedRow(), NamedSummaries()) == SearchDto(NamedRow(), Eight(NamedSummary()))
  {
    HostileMimeWidth(291);
    EscControls(180);
    PreviewKept(NamedRow().preview);
    CostIs(NamedRow(), NamedSummary(), 291);
    EightBounded(NamedSummary());
  }

  lemma NamedSummariesLen()
    ensures |SummariesJson(Eight(NamedSummary()))| >= 2737
  {
    HostileMimeWidth(291);
    EightBounded(NamedSummary());
    SummaryIs(NamedSummary());
  }

  lemma NamedBytes()
    ensures |SearchJson(SearchDto(NamedRow(), Eight(NamedSummary())))| >= 5242
  {
    var d := SearchDto(NamedRow(), Eight(NamedSummary()));
    EscControls(180);
    EscControls(128);
    EscControls(80);
    JsonIs(d);
    HeadIs(d.row);
    MidIs(d.row);
    TailIs(d.row);
    LabelIs(d.row.userLabel);
    NamedSummariesLen();
  }

  lemma NamedWithinCaps()
    ensures RowWithinCaps(NamedRow(), RepsOf(NamedSummaries(), NamedRow().id), 6 * MAX_DTO_MIME_BYTES, LABEL_MAX_CHARS)
  {
    HostileMimeWidth(291);
  }

  lemma NamedCounts()
    ensures SmallCounts(RepsOf(NamedSummaries(), NamedRow().id))
  {
  }

  lemma Named() returns (row: SearchRow, summaries: Summaries, dto: SearchDto)
    ensures RowWithinCaps(row, RepsOf(summaries, row.id), 6 * MAX_DTO_MIME_BYTES, LABEL_MAX_CHARS)
    ensures dto == ToSearchDto(row, summaries) && SearchCost(row, summaries) == 5200 && |SearchJson(dto)| >= 5242
    ensures SmallCounts(RepsOf(summaries, row.id))
  {
    NamedDto();
    NamedBytes();
    NamedWithinCaps();
    NamedCounts();
    row, summaries := NamedRow(), NamedSummaries();
    dto := ToSearchDto(row, summaries);
  }

  ghost predicate SmallCounts(reps: seq<RepSummary>) {
    forall j :: 0 <= j < |reps| ==> reps[j].byteCount <= 64
  }

  /** A page within every cap of the source, all of it taken by the budget loop, over the frame: 180
    * character previews, 80 character labels, MIME strings within 64 bytes, small byte counts.
    */
  lemma LabelsBreachTheFrame() returns (rows: seq<SearchRow>, summaries: Summaries, dtos: seq<SearchDto>)
    ensures WithinCaps(rows, summaries, 6 * MAX_DTO_MIME_BYTES, LABEL_MAX_CHARS)
    ensures forall r :: r in rows ==> SmallCounts(RepsOf(summaries, r.id))
    ensures Taken(rows, dtos, summaries)
    ensures |SearchResponse(dtos)| > MAX_IPC_BYTES
  {
    var row, dto;
    row, summaries, dto := Named();
    rows, dtos := PageBreaches(row, summaries, dto, 5200, 6 * MAX_DTO_MIME_BYTES, LABEL_MAX_CHARS);
  }
}
