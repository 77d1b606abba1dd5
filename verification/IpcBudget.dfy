/** Responses held inside one IPC frame: what a row says, what it is charged, and
  * which rows are taken.
  */
module IpcBudget {
  import opened Wrappers
  import opened Utf8
  import opened Json
  import opened Limits
  import opened Policy
  import opened Roles

  type Bytes = seq<Byte>

  datatype RepSummary = RepSummary(role: Role, mimeType: string, byteCount: nat)

  /** A stored entry as the list handler sees it. The tokens are the already formatted id, kind and times. */
  datatype ListEntry = ListEntry(
    id: Bytes, kind: Bytes, plainText: Option<string>, preview: string, createdAt: Bytes, updatedAt: Bytes,
    lastUsedAt: Option<Bytes>, useCount: nat, pinned: bool, sourceName: Option<string>, sensitivity: Sensitivity)

  datatype EntryDto = EntryDto(
    id: Bytes, kind: Bytes, text: Option<string>, preview: string, createdAt: Bytes, updatedAt: Bytes,
    lastUsedAt: Option<Bytes>, useCount: nat, pinned: bool, sourceName: Option<string>, sensitivity: Sensitivity,
    summaries: seq<RepSummary>)

  const BLOCKED_PREVIEW_PLACEHOLDER: string := "[blocked]"

  // --- Caps ---------------------------------------------------------------------------

  function BoundedPreview(preview: string): string {
    Truncated(preview, PREVIEW_MAX_CHARS * 4)
  }

  function BoundedName(name: Option<string>): Option<string> {
    if name.Some? then Some(Truncated(name.value, MAX_DTO_SOURCE_APP_NAME_BYTES)) else None
  }

  function BoundedSummary(s: RepSummary): RepSummary {
    s.(mimeType := Truncated(s.mimeType, MAX_DTO_MIME_BYTES))
  }

  function Capped(reps: seq<RepSummary>): (r: seq<RepSummary>)
    ensures |r| <= MAX_DTO_REPRESENTATION_SUMMARIES
  {
    if |reps| <= MAX_DTO_REPRESENTATION_SUMMARIES then reps else reps[..MAX_DTO_REPRESENTATION_SUMMARIES]
  }

  function BoundAll(reps: seq<RepSummary>): (r: seq<RepSummary>)
    ensures |r| == |reps|
  {
    if reps == [] then [] else [BoundedSummary(reps[0])] + BoundAll(reps[1..])
  }

  function SummariesWithinCaps(reps: seq<RepSummary>): (r: seq<RepSummary>)
    ensures |r| <= MAX_DTO_REPRESENTATION_SUMMARIES
  {
    BoundAll(Capped(reps))
  }

  function SafePreview(e: ListEntry): string {
    if e.sensitivity.Blocked? then BLOCKED_PREVIEW_PLACEHOLDER else e.preview
  }

  function FromEntry(e: ListEntry, includeText: bool, reps: seq<RepSummary>): EntryDto {
    EntryDto(e.id, e.kind,
             if includeText then Some(if e.plainText.Some? then e.plainText.value else "") else None,
             BoundedPreview(SafePreview(e)), e.createdAt, e.updatedAt, e.lastUsedAt, e.useCount, e.pinned,
             BoundedName(e.sourceName), e.sensitivity, SummariesWithinCaps(reps))
  }

  // --- Prefix sums ---------------------------------------------------------------------

  function Sum(costs: seq<nat>): nat {
    if costs == [] then 0 else Sum(costs[..|costs| - 1]) + costs[|costs| - 1]
  }

  lemma SumStep(costs: seq<nat>, i: nat)
    requires i < |costs|
    ensures Sum(costs[..i + 1]) == Sum(costs[..i]) + costs[i]
  {
    assert costs[..i + 1][..i] == costs[..i];
  }

  lemma {:induction false} SumBound(costs: seq<nat>, max: nat)
    requires forall i :: 0 <= i < |costs| ==> costs[i] <= max
    ensures Sum(costs) <= |costs| * max
  {
    if costs != [] {
      SumBound(costs[..|costs| - 1], max);
      assert |costs| * max == (|costs| - 1) * max + max;
    }
  }

  lemma {:induction false} SumGrows(costs: seq<nat>, n: nat, m: nat)
    requires n <= m <= |costs|
    ensures Sum(costs[..n]) <= Sum(costs[..m])
    decreases m - n
  {
    if n < m {
      SumStep(costs, n);
      SumGrows(costs, n + 1, m);
    }
  }

  /** `taken` rows fit the budget and one more does not. */
  ghost predicate StopsAtBudget(costs: seq<nat>, taken: nat) {
    && taken <= |costs|
    && Sum(costs[..taken]) <= MAX_RESPONSE_TEXT_WIRE_BYTES
    && (taken < |costs| ==> Sum(costs[..taken + 1]) > MAX_RESPONSE_TEXT_WIRE_BYTES)
  }

  /** Such a prefix is the longest that fits. */
  lemma StopIsLongest(costs: seq<nat>, taken: nat, m: nat)
    requires StopsAtBudget(costs, taken) && m <= |costs|
    ensures Sum(costs[..m]) <= MAX_RESPONSE_TEXT_WIRE_BYTES <==> m <= taken
  {
    if m <= taken { SumGrows(costs, m, taken); } else { SumGrows(costs, taken + 1, m); }
  }

  // --- What a row is charged ----------------------------------------------------------

  function SummaryCost(s: RepSummary): nat {
    Sat(EscapedLen(Truncated(s.mimeType, MAX_DTO_MIME_BYTES)) + 64)
  }

  function SummaryCosts(reps: seq<RepSummary>): (r: seq<nat>)
    ensures |r| == |reps|
  {
    seq(|reps|, i requires 0 <= i < |reps| => SummaryCost(reps[i]))
  }

  function SumSummaries(reps: seq<RepSummary>): nat {
    Sum(SummaryCosts(reps))
  }

  function OptionLen(o: Option<string>, max: nat): nat {
    if o.Some? then EscapedLen(Truncated(o.value, max)) else 0
  }

  function WireLenOfStrings(preview: string, sourceName: Option<string>, language: Option<string>,
                            reps: seq<RepSummary>): nat {
    Sat(Sat(Sat(Sat(IPC_ROW_SCALAR_BYTES + EscapedLen(BoundedPreview(preview)))
      + OptionLen(sourceName, MAX_DTO_SOURCE_APP_NAME_BYTES))
      + OptionLen(language, MAX_DTO_LANGUAGE_BYTES))
      + SumSummaries(Capped(reps)))
  }

  lemma TruncatedLen(text: string, max: nat)
    requires max < 0x1_0000
    ensures EscapedLen(Truncated(text, max)) == |Escape(Encode(Truncated(text, max)))| <= 6 * max
  {
    TruncatedIsLongest(text, max);
  }

  lemma SumSummariesBound(reps: seq<RepSummary>)
    ensures SumSummaries(reps) <= |reps| * 448
  {
    var costs := SummaryCosts(reps);
    forall i | 0 <= i < |costs| ensures costs[i] <= 448 { TruncatedLen(reps[i].mimeType, MAX_DTO_MIME_BYTES); }
    SumBound(costs, 448);
  }

  lemma OptionLenBound(o: Option<string>, max: nat)
    requires max < 0x1_0000
    ensures OptionLen(o, max) <= 6 * max
  {
    if o.Some? { TruncatedLen(o.value, max); }
  }

  /** The per-row allowance is honest: no row's metadata is ever charged more, and nothing saturates. */
  lemma MetadataWithinAllowance(preview: string, sourceName: Option<string>, language: Option<string>, reps: seq<RepSummary>)
    ensures WireLenOfStrings(preview, sourceName, language, reps) <= IPC_ROW_OVERHEAD_BYTES
    ensures WireLenOfStrings(preview, sourceName, language, reps)
         == IPC_ROW_SCALAR_BYTES + |Escape(Encode(BoundedPreview(preview)))|
            + OptionLen(sourceName, MAX_DTO_SOURCE_APP_NAME_BYTES) + OptionLen(language, MAX_DTO_LANGUAGE_BYTES)
            + SumSummaries(Capped(reps))
  {
    TruncatedLen(preview, PREVIEW_MAX_CHARS * 4);
    OptionLenBound(sourceName, MAX_DTO_SOURCE_APP_NAME_BYTES);
    OptionLenBound(language, MAX_DTO_LANGUAGE_BYTES);
    SumSummariesBound(Capped(reps));
    assert |Capped(reps)| * 448 <= 8 * 448;
  }

  type Summaries = map<Bytes, seq<RepSummary>>

  function RepsOf(summaries: Summaries, id: Bytes): seq<RepSummary> {
    if id in summaries then summaries[id] else []
  }

  predicate Included(e: ListEntry, includeSensitive: bool) {
    includeSensitive || e.sensitivity.Public? || e.sensitivity.Unknown?
  }

  function TextCost(e: ListEntry, includeSensitive: bool): nat {
    if Included(e, includeSensitive) && e.plainText.Some? then EscapedLen(e.plainText.value) else 0
  }

  function MetadataLen(e: ListEntry, summaries: Summaries): nat {
    WireLenOfStrings(e.preview, e.sourceName, None, RepsOf(summaries, e.id))
  }

  function RowCost(e: ListEntry, summaries: Summaries, includeSensitive: bool): nat {
    Sat(TextCost(e, includeSensitive) + MetadataLen(e, summaries))
  }

  /** Only a first row can go out with its text withheld for size. */
  predicate Withheld(entries: seq<ListEntry>, i: nat, summaries: Summaries, includeSensitive: bool)
    requires i < |entries|
  {
    i == 0 && RowCost(entries[0], summaries, includeSensitive) > MAX_RESPONSE_TEXT_WIRE_BYTES
  }

  function Costs(entries: seq<ListEntry>, summaries: Summaries, includeSensitive: bool): (r: seq<nat>)
    ensures |r| == |entries|
  {
    seq(|entries|, i requires 0 <= i < |entries| => RowCost(entries[i], summaries, includeSensitive))
  }

  /** What the budget is charged: a row's whole cost, or only its metadata where the text is withheld. */
  function Charges(entries: seq<ListEntry>, summaries: Summaries, includeSensitive: bool): (r: seq<nat>)
    ensures |r| == |entries|
  {
    seq(|entries|, i requires 0 <= i < |entries| =>
      if Withheld(entries, i, summaries, includeSensitive) then MetadataLen(entries[i], summaries)
      else RowCost(entries[i], summaries, includeSensitive))
  }

  function DtoAt(entries: seq<ListEntry>, i: nat, summaries: Summaries, includeSensitive: bool): EntryDto
    requires i < |entries|
  {
    FromEntry(entries[i], Included(entries[i], includeSensitive) && !Withheld(entries, i, summaries, includeSensitive),
              RepsOf(summaries, entries[i].id))
  }

  /** The DTOs are those of the first rows, in order. */
  ghost predicate DtosFor(entries: seq<ListEntry>, dtos: seq<EntryDto>, summaries: Summaries, includeSensitive: bool) {
    && |dtos| <= |entries|
    && forall i :: 0 <= i < |dtos| ==> dtos[i] == DtoAt(entries, i, summaries, includeSensitive)
  }

  lemma DtosAppend(entries: seq<ListEntry>, dtos: seq<EntryDto>, dto: EntryDto, summaries: Summaries, includeSensitive: bool)
    requires DtosFor(entries, dtos, summaries, includeSensitive) && |dtos| < |entries|
    requires dto == DtoAt(entries, |dtos|, summaries, includeSensitive)
    ensures DtosFor(entries, dtos + [dto], summaries, includeSensitive)
  {
  }

  lemma MetadataFits(e: ListEntry, summaries: Summaries)
    ensures MetadataLen(e, summaries) <= IPC_ROW_OVERHEAD_BYTES
  {
    MetadataWithinAllowance(e.preview, e.sourceName, None, RepsOf(summaries, e.id));
  }

  lemma SatOnlyCaps(used: nat, cost: nat)
    requires used <= MAX_RESPONSE_TEXT_WIRE_BYTES
    ensures Sat(used + cost) > MAX_RESPONSE_TEXT_WIRE_BYTES <==> used + cost > MAX_RESPONSE_TEXT_WIRE_BYTES
    ensures used + cost <= MAX_RESPONSE_TEXT_WIRE_BYTES ==> Sat(used + cost) == used + cost
  {
  }

  // --- What a row says ----------------------------------------------------------------------

  /** The longest prefix of whole characters within `max` bytes. */
  ghost predicate CutTo(text: string, max: nat, out: string) {
    && out <= text && ByteLen(out) <= max
    && forall k :: 0 <= k <= |text| && ByteLen(text[..k]) <= max ==> k <= |out|
  }

  /** The first eight summaries in order, each MIME string cut to 64 bytes. */
  ghost predicate SummariesSay(reps: seq<RepSummary>, out: seq<RepSummary>) {
    && |out| == (if |reps| <= 8 then |reps| else 8)
    && forall i :: 0 <= i < |out| ==>
         out[i].role == reps[i].role && out[i].byteCount == reps[i].byteCount && CutTo(reps[i].mimeType, 64, out[i].mimeType)
  }

  ghost predicate NameSays(name: Option<string>, out: Option<string>, max: nat) {
    (out.Some? <==> name.Some?) && (name.Some? ==> CutTo(name.value, max, out.value))
  }

  /** Everything in a list row but its text. */
  ghost predicate Describes(e: ListEntry, dto: EntryDto, reps: seq<RepSummary>) {
    && dto.id == e.id && dto.kind == e.kind && dto.createdAt == e.createdAt && dto.updatedAt == e.updatedAt
    && dto.lastUsedAt == e.lastUsedAt && dto.useCount == e.useCount && dto.pinned == e.pinned
    && dto.sensitivity == e.sensitivity
    && (if e.sensitivity == Blocked then dto.preview == "[blocked]" else CutTo(e.preview, 720, dto.preview))
    && NameSays(e.sourceName, dto.sourceName, 128)
    && SummariesSay(reps, dto.summaries)
  }

  /** Whether the caller may see the text at all. */
  ghost predicate Readable(e: ListEntry, includeSensitive: bool) {
    includeSensitive || e.sensitivity == Public || e.sensitivity == Unknown
  }

  /** The row's text, escaped, and its metadata are more than a whole response may hold. */
  ghost predicate OverBudgetAlone(e: ListEntry, summaries: Summaries) {
    e.plainText.Some?
    && |Escape(Encode(e.plainText.value))| + MetadataLen(e, summaries) > MAX_RESPONSE_TEXT_WIRE_BYTES
  }

  /** Text goes out exactly for a row the caller may see that is not an over-budget first one, and is the
    * entry's own, "" where it has none.
    */
  ghost predicate TextSays(entries: seq<ListEntry>, i: nat, summaries: Summaries, includeSensitive: bool, text: Option<string>)
    requires i < |entries|
  {
    var e := entries[i];
    && (text.Some? <==> Readable(e, includeSensitive) && !(i == 0 && OverBudgetAlone(e, summaries)))
    && (text.Some? && e.plainText.Some? ==> text == e.plainText)
    && (text.Some? && e.plainText.None? ==> text == Some(""))
  }

  lemma CutIs(text: string, max: nat)
    ensures CutTo(text, max, Truncated(text, max))
  {
    TruncatedIsLongest(text, max);
  }

  lemma {:induction false} BoundAllAt(reps: seq<RepSummary>, i: nat)
    requires i < |reps|
    ensures BoundAll(reps)[i] == BoundedSummary(reps[i])
  {
    if i > 0 {
      BoundAllAt(reps[1..], i - 1);
    }
  }

  lemma SummariesAre(reps: seq<RepSummary>)
    ensures SummariesSay(reps, SummariesWithinCaps(reps))
  {
    var out := SummariesWithinCaps(reps);
    forall i | 0 <= i < |out|
      ensures out[i].role == reps[i].role && out[i].byteCount == reps[i].byteCount && CutTo(reps[i].mimeType, 64, out[i].mimeType)
    {
      BoundAllAt(Capped(reps), i);
      CutIs(reps[i].mimeType, 64);
    }
  }

  lemma NameIs(name: Option<string>)
    ensures NameSays(name, BoundedName(name), 128)
  {
    if name.Some? { CutIs(name.value, 128); }
  }

  lemma DtoDescribes(e: ListEntry, includeText: bool, reps: seq<RepSummary>)
    ensures Describes(e, FromEntry(e, includeText, reps), reps)
  {
    CutIs(e.preview, 720);
    NameIs(e.sourceName);
    SummariesAre(reps);
    assert Truncated("[blocked]", 720) == "[blocked]" by {
      EncodeAscii("[blocked]");
    }
  }

  lemma WithheldIff(entries: seq<ListEntry>, i: nat, summaries: Summaries, includeSensitive: bool)
    requires i < |entries| && Readable(entries[i], includeSensitive)
    ensures Withheld(entries, i, summaries, includeSensitive) <==> i == 0 && OverBudgetAlone(entries[i], summaries)
  {
    MetadataFits(entries[i], summaries);
  }

  lemma TextIs(entries: seq<ListEntry>, i: nat, summaries: Summaries, includeSensitive: bool)
    requires i < |entries|
    ensures TextSays(entries, i, summaries, includeSensitive, DtoAt(entries, i, summaries, includeSensitive).text)
  {
    if Readable(entries[i], includeSensitive) { WithheldIff(entries, i, summaries, includeSensitive); }
  }

  lemma DtosSay(entries: seq<ListEntry>, dtos: seq<EntryDto>, summaries: Summaries, includeSensitive: bool)
    requires DtosFor(entries, dtos, summaries, includeSensitive)
    ensures forall i :: 0 <= i < |dtos| ==>
      && TextSays(entries, i, summaries, includeSensitive, dtos[i].text)
      && Describes(entries[i], dtos[i], RepsOf(summaries, entries[i].id))
  {
    forall i | 0 <= i < |dtos|
      ensures TextSays(entries, i, summaries, includeSensitive, dtos[i].text)
        && Describes(entries[i], dtos[i], RepsOf(summaries, entries[i].id))
    {
      TextIs(entries, i, summaries, includeSensitive);
      DtoDescribes(entries[i], Included(entries[i], includeSensitive) && !Withheld(entries, i, summaries, includeSensitive),
                   RepsOf(summaries, entries[i].id));
    }
  }

  method EntryDtosWithinBudget(entries: seq<ListEntry>, summaries: Summaries, includeSensitive: bool)
    returns (dtos: seq<EntryDto>)
    ensures DtosFor(entries, dtos, summaries, includeSensitive) && (entries != [] ==> dtos != [])
    ensures StopsAtBudget(Charges(entries, summaries, includeSensitive), |dtos|)
    ensures forall i :: 0 <= i < |dtos| ==>
      && TextSays(entries, i, summaries, includeSensitive, dtos[i].text)
      && Describes(entries[i], dtos[i], RepsOf(summaries, entries[i].id))
  {
    dtos := [];
    var used: nat := 0;
    ghost var charges := Charges(entries, summaries, includeSensitive);
    for i := 0 to |entries|
      invariant |dtos| == i
      invariant DtosFor(entries, dtos, summaries, includeSensitive)
      invariant used == Sum(charges[..i]) <= MAX_RESPONSE_TEXT_WIRE_BYTES
    {
      SumStep(charges, i);
      var rowCost := RowCost(entries[i], summaries, includeSensitive);
      var metadataLen := MetadataLen(entries[i], summaries);
      var reps := RepsOf(summaries, entries[i].id);
      MetadataFits(entries[i], summaries);
      SatOnlyCaps(used, rowCost);
      if Sat(used + rowCost) > MAX_RESPONSE_TEXT_WIRE_BYTES {
        if dtos != [] {
          DtosSay(entries, dtos, summaries, includeSensitive);
          return;
        }
        SatOnlyCaps(used, metadataLen);
        used := Sat(used + metadataLen);
        DtosAppend(entries, dtos, FromEntry(entries[i], false, reps), summaries, includeSensitive);
        dtos := dtos + [FromEntry(entries[i], false, reps)];
      } else {
        used := Sat(used + rowCost);
        var includeText := Included(entries[i], includeSensitive);
        DtosAppend(entries, dtos, FromEntry(entries[i], includeText, reps), summaries, includeSensitive);
        dtos := dtos + [FromEntry(entries[i], includeText, reps)];
      }
    }
    assert charges[..|charges|] == charges;
    DtosSay(entries, dtos, summaries, includeSensitive);
  }

  // --- What the promise comes to ----------------------------------------------------------

  /** Text the admission check accepted is never withheld for size, whatever the row's metadata. */
  lemma AdmittedTextIsNeverWithheld(entries: seq<ListEntry>, i: nat, summaries: Summaries, includeSensitive: bool)
    requires i < |entries| && entries[i].plainText.Some? && EntryTextFitsWire(entries[i].plainText.value)
    ensures RowCost(entries[i], summaries, includeSensitive) <= MAX_RESPONSE_TEXT_WIRE_BYTES
    ensures !Withheld(entries, i, summaries, includeSensitive)
    ensures Included(entries[i], includeSensitive) ==>
      DtoAt(entries, i, summaries, includeSensitive).text == entries[i].plainText
  {
    var e := entries[i];
    MetadataWithinAllowance(e.preview, e.sourceName, None, RepsOf(summaries, e.id));
  }

  /** What a row is charged for its text is what goes out: the escaped text, or nothing. */
  lemma ChargedAsSent(entries: seq<ListEntry>, i: nat, summaries: Summaries, includeSensitive: bool)
    requires i < |entries|
    ensures var text := DtoAt(entries, i, summaries, includeSensitive).text;
      Charges(entries, summaries, includeSensitive)[i]
        == Sat((if text.Some? then |Escape(Encode(text.value))| else 0) + MetadataLen(entries[i], summaries))
  {
    MetadataFits(entries[i], summaries);
    assert Encode("") == [] && Escape([]) == [];
  }

  /** When no row alone is over budget, the rows taken are the longest prefix whose cost fits. */
  lemma TakenPrefixIsLongest(entries: seq<ListEntry>, taken: nat, m: nat, summaries: Summaries, includeSensitive: bool)
    requires forall e :: e in entries ==> RowCost(e, summaries, includeSensitive) <= MAX_RESPONSE_TEXT_WIRE_BYTES
    requires StopsAtBudget(Charges(entries, summaries, includeSensitive), taken) && m <= |entries|
    ensures Sum(Costs(entries, summaries, includeSensitive)[..m]) <= MAX_RESPONSE_TEXT_WIRE_BYTES <==> m <= taken
  {
    assert Charges(entries, summaries, includeSensitive) == Costs(entries, summaries, includeSensitive);
    StopIsLongest(Costs(entries, summaries, includeSensitive), taken, m);
  }

  // --- Search rows ------------------------------------------------------------------------

  datatype SearchRow = SearchRow(
    id: Bytes, kind: Bytes, preview: string, score: Bytes, createdAt: Bytes, pinned: bool, sensitivity: Sensitivity,
    rankReasons: seq<Bytes>, sourceName: Option<string>, language: Option<string>, imageWidth: Option<nat>,
    imageHeight: Option<nat>, userLabel: Option<string>)

  /** A search DTO: the row with its strings capped (but not its label), and the row's summaries. */
  datatype SearchDto = SearchDto(row: SearchRow, summaries: seq<RepSummary>)

  function SearchCost(r: SearchRow, summaries: Summaries): nat {
    WireLenOfStrings(r.preview, r.sourceName, r.language, RepsOf(summaries, r.id))
  }

  function SearchCosts(rows: seq<SearchRow>, summaries: Summaries): (r: seq<nat>)
    ensures |r| == |rows|
  {
    seq(|rows|, i requires 0 <= i < |rows| => SearchCost(rows[i], summaries))
  }

  function ToSearchDto(r: SearchRow, summaries: Summaries): SearchDto {
    SearchDto(r.(preview := BoundedPreview(r.preview), sourceName := BoundedName(r.sourceName),
                 language := if r.language.Some? then Some(Truncated(r.language.value, MAX_DTO_LANGUAGE_BYTES)) else None),
              SummariesWithinCaps(RepsOf(summaries, r.id)))
  }

  ghost predicate SearchDtosFor(rows: seq<SearchRow>, dtos: seq<SearchDto>, summaries: Summaries) {
    |dtos| <= |rows| && forall i :: 0 <= i < |dtos| ==> dtos[i] == ToSearchDto(rows[i], summaries)
  }

  lemma SearchDtosAppend(rows: seq<SearchRow>, dtos: seq<SearchDto>, dto: SearchDto, summaries: Summaries)
    requires SearchDtosFor(rows, dtos, summaries) && |dtos| < |rows| && dto == ToSearchDto(rows[|dtos|], summaries)
    ensures SearchDtosFor(rows, dtos + [dto], summaries)
  {
  }

  lemma SearchRowFits(r: SearchRow, summaries: Summaries)
    ensures SearchCost(r, summaries) <= IPC_ROW_OVERHEAD_BYTES
  {
    MetadataWithinAllowance(r.preview, r.sourceName, r.language, RepsOf(summaries, r.id));
  }

  /** One turn of the loop below: what the next row is charged, and what the total comes to. */
  lemma SearchTurn(rows: seq<SearchRow>, summaries: Summaries, i: nat, used: nat)
    requires i < |rows| && used == Sum(SearchCosts(rows, summaries)[..i]) <= MAX_RESPONSE_TEXT_WIRE_BYTES
    ensures var cost := SearchCost(rows[i], summaries);
      && cost <= IPC_ROW_OVERHEAD_BYTES
      && Sum(SearchCosts(rows, summaries)[..i + 1]) == used + cost
      && (Sat(used + cost) > MAX_RESPONSE_TEXT_WIRE_BYTES <==> used + cost > MAX_RESPONSE_TEXT_WIRE_BYTES)
      && (used + cost <= MAX_RESPONSE_TEXT_WIRE_BYTES ==> Sat(used + cost) == used + cost)
  {
    SumStep(SearchCosts(rows, summaries), i);
    SearchRowFits(rows[i], summaries);
    SatOnlyCaps(used, SearchCost(rows[i], summaries));
  }

  /** A search row goes out as it is, label included, with its strings cut. */
  ghost predicate SearchDescribes(r: SearchRow, dto: SearchDto, reps: seq<RepSummary>) {
    && dto.row == r.(preview := dto.row.preview, sourceName := dto.row.sourceName, language := dto.row.language)
    && CutTo(r.preview, 720, dto.row.preview)
    && NameSays(r.sourceName, dto.row.sourceName, 128)
    && NameSays(r.language, dto.row.language, 32)
    && SummariesSay(reps, dto.summaries)
  }

  lemma SearchDtoDescribes(r: SearchRow, summaries: Summaries)
    ensures SearchDescribes(r, ToSearchDto(r, summaries), RepsOf(summaries, r.id))
  {
    CutIs(r.preview, 720);
    NameIs(r.sourceName);
    SummariesAre(RepsOf(summaries, r.id));
    if r.language.Some? { CutIs(r.language.value, 32); }
  }

  lemma SearchDtosSay(rows: seq<SearchRow>, dtos: seq<SearchDto>, summaries: Summaries)
    requires SearchDtosFor(rows, dtos, summaries)
    ensures forall i :: 0 <= i < |dtos| ==> SearchDescribes(rows[i], dtos[i], RepsOf(summaries, rows[i].id))
  {
    forall i | 0 <= i < |dtos| ensures SearchDescribes(rows[i], dtos[i], RepsOf(summaries, rows[i].id)) {
      SearchDtoDescribes(rows[i], summaries);
    }
  }

  /** The first row is pushed unmeasured, but no row alone is ever over budget. */
  method SearchDtosWithinBudget(rows: seq<SearchRow>, summaries: Summaries) returns (dtos: seq<SearchDto>)
    ensures SearchDtosFor(rows, dtos, summaries) && (rows != [] ==> dtos != [])
    ensures StopsAtBudget(SearchCosts(rows, summaries), |dtos|)
    ensures forall i :: 0 <= i < |dtos| ==> SearchDescribes(rows[i], dtos[i], RepsOf(summaries, rows[i].id))
  {
    dtos := [];
    var used: nat := 0;
    ghost var costs := SearchCosts(rows, summaries);
    for i := 0 to |rows|
      invariant |dtos| == i
      invariant SearchDtosFor(rows, dtos, summaries)
      invariant used == Sum(costs[..i]) <= MAX_RESPONSE_TEXT_WIRE_BYTES
    {
      var rowCost := SearchCost(rows[i], summaries);
      SearchTurn(rows, summaries, i, used);
      if dtos != [] && Sat(used + rowCost) > MAX_RESPONSE_TEXT_WIRE_BYTES {
        SearchDtosSay(rows, dtos, summaries);
        return;
      }
      used := Sat(used + rowCost);
      SearchDtosAppend(rows, dtos, ToSearchDto(rows[i], summaries), summaries);
      dtos := dtos + [ToSearchDto(rows[i], summaries)];
    }
    assert costs[..|costs|] == costs;
    SearchDtosSay(rows, dtos, summaries);
  }
}
