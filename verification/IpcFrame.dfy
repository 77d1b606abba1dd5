/** The bytes a list or search response really occupies, against what its rows
  * were charged. A token is what the serializer prints for a value of a declared
  * type; only its width matters here.
  */
module IpcFrame {
  import opened Wrappers
  import opened Utf8
  import opened Json
  import opened Limits
  import opened Policy
  import opened Roles
  import opened IpcBudget

  const LABEL_MAX_CHARS: nat := 80
  const MAX_RESULT_LIMIT: nat := 200

  // --- Serialization --------------------------------------------------------------------

  function Lit(s: string): (r: Bytes)
    ensures |r| == |s|
  {
    seq(|s|, i requires 0 <= i < |s| => if s[i] as int < 0x80 then s[i] as int else 0x3F)
  }

  function OptStr(o: Option<string>): Bytes {
    if o.Some? then Str(o.value) else Lit("null")
  }

  function OptToken(o: Option<Bytes>): Bytes {
    if o.Some? then Quoted(o.value) else Lit("null")
  }

  function OptNum(o: Option<nat>): Bytes {
    if o.Some? then Digits(o.value) else Lit("null")
  }

  function Bool(b: bool): (r: Bytes)
    ensures |r| <= 5
  {
    if b then Lit("true") else Lit("false")
  }

  function SensitivityName(s: Sensitivity): (b: Bytes)
    ensures |b| <= 7
  {
    match s
    case Unknown => Lit("Unknown")
    case Public => Lit("Public")
    case Private => Lit("Private")
    case Secret => Lit("Secret")
    case Blocked => Lit("Blocked")
  }

  /** Items with commas between them. */
  function Listed(items: seq<Bytes>): Bytes {
    if items == [] then [] else if |items| == 1 then items[0] else items[0] + Lit(",") + Listed(items[1..])
  }

  function SummaryJson(s: RepSummary): Bytes {
    Lit("{\"mime_type\":") + Str(s.mimeType) + Lit(",\"role\":") + Quoted(Lit(RoleName(s.role)))
    + Lit(",\"byte_count\":") + Digits(s.byteCount) + Lit("}")
  }

  function SummaryItems(list: seq<RepSummary>): (r: seq<Bytes>)
    ensures |r| == |list|
  {
    seq(|list|, i requires 0 <= i < |list| => SummaryJson(list[i]))
  }

  function SummariesJson(list: seq<RepSummary>): Bytes {
    Lit("[") + Listed(SummaryItems(list)) + Lit("]")
  }

  function EntryHead(d: EntryDto): Bytes {
    Lit("{\"id\":") + Quoted(d.id) + Lit(",\"kind\":") + Quoted(d.kind) + Lit(",\"text\":") + OptStr(d.text)
    + Lit(",\"preview\":") + Str(d.preview)
  }

  function EntryTail(d: EntryDto): Bytes {
    Lit(",\"created_at\":") + Quoted(d.createdAt) + Lit(",\"updated_at\":") + Quoted(d.updatedAt)
    + Lit(",\"last_used_at\":") + OptToken(d.lastUsedAt) + Lit(",\"use_count\":") + Digits(d.useCount)
    + Lit(",\"pinned\":") + Bool(d.pinned) + Lit(",\"source_app_name\":") + OptStr(d.sourceName)
    + Lit(",\"sensitivity\":") + Quoted(SensitivityName(d.sensitivity))
  }

  function EntryJson(d: EntryDto): Bytes {
    EntryHead(d) + EntryTail(d) + Lit(",\"representation_summary\":") + SummariesJson(d.summaries) + Lit("}")
  }

  function EntryItems(dtos: seq<EntryDto>): (r: seq<Bytes>)
    ensures |r| == |dtos|
  {
    seq(|dtos|, i requires 0 <= i < |dtos| => EntryJson(dtos[i]))
  }

  function EntriesResponse(dtos: seq<EntryDto>): Bytes {
    Lit("{\"Entries\":[") + Listed(EntryItems(dtos)) + Lit("]}")
  }

  // --- Sizes of the parts --------------------------------------------------------------------

  function SumLen(items: seq<Bytes>): nat {
    if items == [] then 0 else |items[0]| + 1 + SumLen(items[1..])
  }

  lemma {:induction false} ListedLen(items: seq<Bytes>)
    ensures |Listed(items)| == if items == [] then 0 else SumLen(items) - 1
  {
    if |items| > 1 {
      ListedLen(items[1..]);
    } else if |items| == 1 {
      assert items[1..] == [];
    }
  }

  lemma {:induction false} SumFront(costs: seq<nat>)
    requires costs != []
    ensures Sum(costs) == costs[0] + Sum(costs[1..])
  {
    if |costs| > 1 {
      SumFront(costs[..|costs| - 1]);
      assert costs[..|costs| - 1][1..] == costs[1..][..|costs[1..]| - 1];
    } else {
      assert costs[..0] == [] && costs[1..] == [];
    }
  }

  /** Items each within their allowance, the comma included, are within the total. */
  lemma {:induction false} ListedWithin(items: seq<Bytes>, costs: seq<nat>)
    requires |items| == |costs| && forall i :: 0 <= i < |items| ==> |items[i]| + 1 <= costs[i]
    ensures SumLen(items) <= Sum(costs)
  {
    if items != [] {
      ListedWithin(items[1..], costs[1..]);
      SumFront(costs);
    }
  }

  /** Byte counts as the column type allows them (u64), or as storage does (below 10^9). */
  ghost predicate CountsInRange(reps: seq<RepSummary>, wide: bool) {
    forall i :: 0 <= i < |reps| ==> reps[i].byteCount < if wide then Pow10(20) else Pow10(9)
  }

  function Excess(wide: bool): nat {
    if wide then 11 else 0
  }

  lemma SummaryLen(s: RepSummary, wide: bool)
    requires s.byteCount < if wide then Pow10(20) else Pow10(9)
    ensures |SummaryJson(BoundedSummary(s))| + 1 <= SummaryCost(s) + Excess(wide)
  {
    DigitsLen(s.byteCount, if wide then 20 else 9);
    TruncatedLen(s.mimeType, MAX_DTO_MIME_BYTES);
  }

  function Plus(costs: seq<nat>, d: nat): (r: seq<nat>)
    ensures |r| == |costs| && forall i :: 0 <= i < |r| ==> r[i] == costs[i] + d
  {
    seq(|costs|, i requires 0 <= i < |costs| => costs[i] + d)
  }

  lemma {:induction false} SumPlus(costs: seq<nat>, wide: bool)
    ensures Sum(Plus(costs, Excess(wide))) == Sum(costs) + (if wide then 11 * |costs| else 0)
  {
    if costs != [] {
      SumPlus(costs[..|costs| - 1], wide);
      var d := Excess(wide);
      assert Plus(costs, d)[..|costs| - 1] == Plus(costs[..|costs| - 1], d);
    }
  }

  lemma SummariesLen(kept: seq<RepSummary>, wide: bool)
    requires CountsInRange(kept, wide)
    ensures SumLen(SummaryItems(BoundAll(kept))) <= SumSummaries(kept) + (if wide then 11 * |kept| else 0)
  {
    var costs := SummaryCosts(kept);
    var items := SummaryItems(BoundAll(kept));
    forall i | 0 <= i < |items| ensures |items[i]| + 1 <= Plus(costs, Excess(wide))[i] {
      BoundAllAt(kept, i);
      SummaryLen(kept[i], wide);
    }
    ListedWithin(items, Plus(costs, Excess(wide)));
    SumPlus(costs, wide);
  }

  lemma SummariesJsonLen(reps: seq<RepSummary>, wide: bool)
    requires CountsInRange(reps, wide)
    ensures |SummariesJson(SummariesWithinCaps(reps))| <= SumSummaries(Capped(reps)) + 2 + (if wide then 88 else 0)
  {
    SummariesLen(Capped(reps), wide);
    ListedLen(SummaryItems(BoundAll(Capped(reps))));
  }

  // --- List responses ---------------------------------------------------------------------

  /** The already formatted tokens at the widths their formats allow: a UUID, a kind name, RFC 3339 times, a u32. */
  ghost predicate TokensFit(id: Bytes, kind: Bytes, createdAt: Bytes, updatedAt: Bytes, lastUsedAt: Option<Bytes>, useCount: nat) {
    && |id| <= 36 && |kind| <= 8 && |createdAt| <= 35 && |updatedAt| <= 35
    && (lastUsedAt.Some? ==> |lastUsedAt.value| <= 35)
    && useCount < Pow10(10)
  }

  ghost predicate TokensOk(e: ListEntry) {
    TokensFit(e.id, e.kind, e.createdAt, e.updatedAt, e.lastUsedAt, e.useCount)
  }

  function Esc(s: string): nat {
    |Escape(Encode(s))|
  }

  function EscOpt(o: Option<string>): nat {
    if o.Some? then Esc(o.value) else 0
  }

  lemma AsciiEsc(t: string)
    requires |t| <= 9 && forall i :: 0 <= i < |t| ==> t[i] as int < 0x80
    ensures Esc(t) <= 54
  {
    EncodeAscii(t);
    EscapeBounds(Encode(t));
  }

  lemma PlaceholderLen(e: ListEntry)
    ensures Esc(BoundedPreview(SafePreview(e))) <= Esc(BoundedPreview(e.preview)) + 54
  {
    if e.sensitivity.Blocked? {
      var t := BoundedPreview(BLOCKED_PREVIEW_PLACEHOLDER);
      assert |BLOCKED_PREVIEW_PLACEHOLDER| == 9;
      assert forall i :: 0 <= i < 9 ==> BLOCKED_PREVIEW_PLACEHOLDER[i] as int < 0x80;
      TruncatedIsLongest(BLOCKED_PREVIEW_PLACEHOLDER, PREVIEW_MAX_CHARS * 4);
      AsciiEsc(t);
    }
  }

  lemma EntryTailLen(d: EntryDto)
    requires |d.createdAt| <= 35 && |d.updatedAt| <= 35 && (d.lastUsedAt.Some? ==> |d.lastUsedAt.value| <= 35)
    requires d.useCount < Pow10(10)
    ensures |EntryTail(d)| <= 240 + EscOpt(d.sourceName)
  {
    DigitsLen(d.useCount, 10);
  }

  function OptSize(o: Option<string>): nat {
    if o.Some? then Esc(o.value) + 2 else 4
  }

  lemma EntryHeadSize(d: EntryDto)
    ensures |EntryHead(d)| == 39 + |d.id| + |d.kind| + OptSize(d.text) + Esc(d.preview)
  {
  }

  lemma EntryTailSize(d: EntryDto)
    ensures |EntryTail(d)| == 101 + |Quoted(d.createdAt)| + |Quoted(d.updatedAt)| + |OptToken(d.lastUsedAt)|
      + |Digits(d.useCount)| + |Bool(d.pinned)| + OptSize(d.sourceName) + |Quoted(SensitivityName(d.sensitivity))|
  {
  }

  /** The exact size of a list row: every field is in it, quoted and escaped as its type asks. */
  lemma EntrySizeIs(d: EntryDto)
    ensures |EntryJson(d)| == 173 + |d.id| + |d.kind| + OptSize(d.text) + Esc(d.preview)
      + |d.createdAt| + |d.updatedAt| + |OptToken(d.lastUsedAt)| + |Digits(d.useCount)| + |Bool(d.pinned)|
      + OptSize(d.sourceName) + |SensitivityName(d.sensitivity)| + |SummariesJson(d.summaries)|
  {
    EntryHeadSize(d);
    EntryTailSize(d);
  }

  lemma EntryDtoLen(d: EntryDto)
    requires TokensFit(d.id, d.kind, d.createdAt, d.updatedAt, d.lastUsedAt, d.useCount)
    ensures |EntryJson(d)| <= 354 + EscOpt(d.text) + Esc(d.preview) + EscOpt(d.sourceName) + |SummariesJson(d.summaries)|
  {
    EntryTailLen(d);
  }

  lemma EntryJsonLen(e: ListEntry, includeText: bool, reps: seq<RepSummary>)
    requires TokensOk(e) && CountsInRange(reps, true)
    ensures |EntryJson(FromEntry(e, includeText, reps))| + 1
         <= 499 + (if includeText then EscOpt(e.plainText) else 0) + Esc(BoundedPreview(e.preview))
            + EscOpt(BoundedName(e.sourceName)) + SumSummaries(Capped(reps))
  {
    EntryDtoLen(FromEntry(e, includeText, reps));
    PlaceholderLen(e);
    SummariesJsonLen(reps, true);
  }

  lemma NameLen(name: Option<string>)
    ensures OptionLen(name, MAX_DTO_SOURCE_APP_NAME_BYTES) == EscOpt(BoundedName(name))
  {
    if name.Some? { TruncatedLen(name.value, MAX_DTO_SOURCE_APP_NAME_BYTES); }
  }

  /** Every row taken into the budget occupies no more than it was charged, its comma included. */
  lemma EntryRowWithinCharge(entries: seq<ListEntry>, i: nat, summaries: Summaries, includeSensitive: bool)
    requires i < |entries| && TokensOk(entries[i]) && CountsInRange(RepsOf(summaries, entries[i].id), true)
    requires Charges(entries, summaries, includeSensitive)[i] <= MAX_RESPONSE_TEXT_WIRE_BYTES
    ensures |EntryJson(DtoAt(entries, i, summaries, includeSensitive))| + 1 <= Charges(entries, summaries, includeSensitive)[i]
  {
    var e := entries[i];
    var charge := Charges(entries, summaries, includeSensitive)[i];
    var includeText := Included(e, includeSensitive) && !Withheld(entries, i, summaries, includeSensitive);
    assert charge == if Withheld(entries, i, summaries, includeSensitive) then MetadataLen(e, summaries)
                     else RowCost(e, summaries, includeSensitive);
    if includeText {
      IncludedCost(e, summaries, includeSensitive);
      RowWithin(e, true, summaries, charge);
    } else {
      RowWithin(e, false, summaries, charge);
    }
  }

  lemma RowWithin(e: ListEntry, includeText: bool, summaries: Summaries, charge: nat)
    requires TokensOk(e) && CountsInRange(RepsOf(summaries, e.id), true)
    requires charge == MetadataLen(e, summaries) + (if includeText then EscOpt(e.plainText) else 0)
    ensures |EntryJson(FromEntry(e, includeText, RepsOf(summaries, e.id)))| + 1 <= charge
  {
    EntryJsonLen(e, includeText, RepsOf(summaries, e.id));
    ChargeOf(e, summaries);
  }

  /** What a row's strings come to, against what is charged for them. */
  lemma ChargeOf(e: ListEntry, summaries: Summaries)
    ensures MetadataLen(e, summaries) == 512 + Esc(BoundedPreview(e.preview)) + EscOpt(BoundedName(e.sourceName))
                                         + SumSummaries(Capped(RepsOf(summaries, e.id)))
    ensures MetadataLen(e, summaries) <= IPC_ROW_OVERHEAD_BYTES
  {
    MetadataWithinAllowance(e.preview, e.sourceName, None, RepsOf(summaries, e.id));
    NameLen(e.sourceName);
  }

  lemma IncludedCost(e: ListEntry, summaries: Summaries, includeSensitive: bool)
    requires Included(e, includeSensitive) && RowCost(e, summaries, includeSensitive) <= MAX_RESPONSE_TEXT_WIRE_BYTES
    ensures RowCost(e, summaries, includeSensitive) == MetadataLen(e, summaries) + EscOpt(e.plainText)
  {
    MetadataFits(e, summaries);
  }

  lemma {:induction false} SumElement(costs: seq<nat>, i: nat)
    requires i < |costs|
    ensures costs[i] <= Sum(costs)
  {
    if i < |costs| - 1 { SumElement(costs[..|costs| - 1], i); }
  }

  /** Whatever the page, its list response fits one frame. */
  lemma EntriesResponseFits(entries: seq<ListEntry>, dtos: seq<EntryDto>, summaries: Summaries, includeSensitive: bool)
    requires DtosFor(entries, dtos, summaries, includeSensitive)
    requires StopsAtBudget(Charges(entries, summaries, includeSensitive), |dtos|)
    requires forall e :: e in entries ==> TokensOk(e) && CountsInRange(RepsOf(summaries, e.id), true)
    ensures |EntriesResponse(dtos)| <= MAX_IPC_BYTES
  {
    var charges := Charges(entries, summaries, includeSensitive)[..|dtos|];
    var items := EntryItems(dtos);
    forall i | 0 <= i < |items| ensures |items[i]| + 1 <= charges[i] {
      SumElement(charges, i);
      assert entries[i] in entries;
      EntryRowWithinCharge(entries, i, summaries, includeSensitive);
    }
    ListedWithin(items, charges);
    ListedLen(items);
  }
}
