/** The bytes a search response occupies. A row's user-given label and the digits of
  * its byte counts go out uncharged.
  */
module SearchFrame {
  import opened Wrappers
  import opened Utf8
  import opened Json
  import opened Limits
  import opened Policy
  import opened IpcBudget
  import opened IpcFrame

  function ReasonItems(reasons: seq<Bytes>): (r: seq<Bytes>)
    ensures |r| == |reasons|
  {
    seq(|reasons|, i requires 0 <= i < |reasons| => Quoted(reasons[i]))
  }

  function LabelField(o: Option<string>): Bytes {
    if o.Some? then Lit(",\"label\":") + Str(o.value) else []
  }

  function SearchHead(r: SearchRow): Bytes {
    Lit("{\"id\":") + Quoted(r.id) + Lit(",\"kind\":") + Quoted(r.kind) + Lit(",\"preview\":") + Str(r.preview)
    + Lit(",\"score\":") + r.score + Lit(",\"created_at\":") + Quoted(r.createdAt) + Lit(",\"pinned\":") + Bool(r.pinned)
  }

  function SearchMid(r: SearchRow): Bytes {
    Lit(",\"sensitivity\":") + Quoted(SensitivityName(r.sensitivity))
    + Lit(",\"rank_reasons\":[") + Listed(ReasonItems(r.rankReasons)) + Lit("]")
  }

  function SearchTail(r: SearchRow): Bytes {
    Lit(",\"source_app_name\":") + OptStr(r.sourceName) + Lit(",\"language\":") + OptStr(r.language)
    + Lit(",\"image_width\":") + OptNum(r.imageWidth) + Lit(",\"image_height\":") + OptNum(r.imageHeight)
  }

  function SearchJson(d: SearchDto): Bytes {
    SearchHead(d.row) + SearchMid(d.row) + SearchTail(d.row) + LabelField(d.row.userLabel)
    + Lit(",\"representation_summary\":") + SummariesJson(d.summaries) + Lit("}")
  }

  function SearchItems(dtos: seq<SearchDto>): (r: seq<Bytes>)
    ensures |r| == |dtos|
  {
    seq(|dtos|, i requires 0 <= i < |dtos| => SearchJson(dtos[i]))
  }

  function SearchResponse(dtos: seq<SearchDto>): Bytes {
    Lit("{\"Search\":{\"results\":[") + Listed(SearchItems(dtos)) + Lit("]}}")
  }

  // --- Sizes --------------------------------------------------------------------------------

  ghost predicate SearchTokensOk(r: SearchRow) {
    && |r.id| <= 36 && |r.kind| <= 8 && |r.score| <= 16 && |r.createdAt| <= 35
    && |r.rankReasons| <= 10 && (forall i :: 0 <= i < |r.rankReasons| ==> |r.rankReasons[i]| <= 14)
    && (r.imageWidth.Some? ==> r.imageWidth.value < Pow10(10))
    && (r.imageHeight.Some? ==> r.imageHeight.value < Pow10(10))
  }

  function LabelWire(o: Option<string>): nat {
    |LabelField(o)|
  }

  lemma ReasonsLen(reasons: seq<Bytes>)
    requires |reasons| <= 10 && forall i :: 0 <= i < |reasons| ==> |reasons[i]| <= 14
    ensures |Listed(ReasonItems(reasons))| <= 170
  {
    var items := ReasonItems(reasons);
    var costs: seq<nat> := seq(|items|, _ => 17);
    ListedWithin(items, costs);
    SumBound(costs, 17);
    ListedLen(items);
  }

  lemma OptNumLen(o: Option<nat>)
    requires o.Some? ==> o.value < Pow10(10)
    ensures |OptNum(o)| <= 10
  {
    if o.Some? { DigitsLen(o.value, 10); }
  }

  lemma SearchMidLen(r: SearchRow)
    requires |r.rankReasons| <= 10 && forall i :: 0 <= i < |r.rankReasons| ==> |r.rankReasons[i]| <= 14
    ensures |SearchMid(r)| <= 212
  {
    ReasonsLen(r.rankReasons);
  }

  lemma SearchTailLen(r: SearchRow)
    requires r.imageWidth.Some? ==> r.imageWidth.value < Pow10(10)
    requires r.imageHeight.Some? ==> r.imageHeight.value < Pow10(10)
    ensures |SearchTail(r)| <= 90 + EscOpt(r.sourceName) + EscOpt(r.language)
  {
    OptNumLen(r.imageWidth);
    OptNumLen(r.imageHeight);
  }

  lemma SearchDtoLen(d: SearchDto)
    requires SearchTokensOk(d.row)
    ensures |SearchJson(d)| <= 495 + Esc(d.row.preview) + EscOpt(d.row.sourceName) + EscOpt(d.row.language)
                               + LabelWire(d.row.userLabel) + |SummariesJson(d.summaries)|
  {
    SearchMidLen(d.row);
    SearchTailLen(d.row);
  }

  lemma LanguageLen(o: Option<string>)
    ensures OptionLen(o, MAX_DTO_LANGUAGE_BYTES)
         == EscOpt(if o.Some? then Some(Truncated(o.value, MAX_DTO_LANGUAGE_BYTES)) else None)
  {
    if o.Some? { TruncatedLen(o.value, MAX_DTO_LANGUAGE_BYTES); }
  }

  /** A search row occupies at most what it was charged plus its label; byte counts over nine digits
    * are not charged for, and add up to 88 bytes.
    */
  lemma SearchRowWithin(r: SearchRow, summaries: Summaries, wide: bool)
    requires SearchTokensOk(r) && CountsInRange(RepsOf(summaries, r.id), wide)
    ensures |SearchJson(ToSearchDto(r, summaries))| + 1 <= SearchCost(r, summaries) + LabelWire(r.userLabel) + Uncharged(wide)
  {
    var d := ToSearchDto(r, summaries);
    assert SearchTokensOk(d.row);
    SearchDtoLen(d);
    MetadataWithinAllowance(r.preview, r.sourceName, r.language, RepsOf(summaries, r.id));
    NameLen(r.sourceName);
    LanguageLen(r.language);
    SummariesJsonLen(RepsOf(summaries, r.id), wide);
  }

  function Uncharged(wide: bool): nat {
    if wide then 88 else 0
  }

  lemma {:induction false} SumAdd(a: seq<nat>, b: seq<nat>, both: seq<nat>)
    requires |a| == |b| == |both| && forall i :: 0 <= i < |a| ==> both[i] == a[i] + b[i]
    ensures Sum(both) == Sum(a) + Sum(b)
  {
    if a != [] {
      var n := |a| - 1;
      SumAdd(a[..n], b[..n], both[..n]);
    }
  }

  ghost predicate PageOk(rows: seq<SearchRow>, summaries: Summaries, wide: bool) {
    forall i :: 0 <= i < |rows| ==> SearchTokensOk(rows[i]) && CountsInRange(RepsOf(summaries, rows[i].id), wide)
  }

  /** What goes out uncharged: the labels, and the digits of wide byte counts. */
  function Extras(rows: seq<SearchRow>, wide: bool): (r: seq<nat>)
    ensures |r| == |rows|
  {
    seq(|rows|, i requires 0 <= i < |rows| => LabelWire(rows[i].userLabel) + Uncharged(wide))
  }

  function RowAllowances(rows: seq<SearchRow>, n: nat, summaries: Summaries, wide: bool): (r: seq<nat>)
    requires n <= |rows|
    ensures |r| == n
  {
    seq(n, i requires 0 <= i < n => SearchCosts(rows, summaries)[i] + Extras(rows, wide)[i])
  }

  lemma ItemWithin(rows: seq<SearchRow>, dtos: seq<SearchDto>, summaries: Summaries, wide: bool, i: nat)
    requires SearchDtosFor(rows, dtos, summaries) && PageOk(rows, summaries, wide) && i < |dtos|
    ensures |SearchItems(dtos)[i]| + 1 <= RowAllowances(rows, |dtos|, summaries, wide)[i]
  {
    assert dtos[i] == ToSearchDto(rows[i], summaries);
    assert SearchItems(dtos)[i] == SearchJson(dtos[i]);
    SearchRowWithin(rows[i], summaries, wide);
    assert SearchCosts(rows, summaries)[i] == SearchCost(rows[i], summaries);
    assert Extras(rows, wide)[i] == LabelWire(rows[i].userLabel) + Uncharged(wide);
  }

  lemma SearchRowsWithin(rows: seq<SearchRow>, dtos: seq<SearchDto>, summaries: Summaries, wide: bool)
    requires SearchDtosFor(rows, dtos, summaries) && PageOk(rows, summaries, wide)
    ensures SumLen(SearchItems(dtos)) <= Sum(SearchCosts(rows, summaries)[..|dtos|]) + Sum(Extras(rows, wide)[..|dtos|])
  {
    var n := |dtos|;
    var both := RowAllowances(rows, n, summaries, wide);
    forall i | 0 <= i < n ensures |SearchItems(dtos)[i]| + 1 <= both[i] { ItemWithin(rows, dtos, summaries, wide, i); }
    ListedWithin(SearchItems(dtos), both);
    AllowancesSplit(rows, n, summaries, wide);
  }

  lemma AllowancesSplit(rows: seq<SearchRow>, n: nat, summaries: Summaries, wide: bool)
    requires n <= |rows|
    ensures Sum(RowAllowances(rows, n, summaries, wide)) == Sum(SearchCosts(rows, summaries)[..n]) + Sum(Extras(rows, wide)[..n])
  {
    SumAdd(SearchCosts(rows, summaries)[..n], Extras(rows, wide)[..n], RowAllowances(rows, n, summaries, wide));
  }

  /** Any page the budget took fits one frame while what goes out uncharged stays within the envelope reserve. */
  lemma SearchResponseFits(rows: seq<SearchRow>, dtos: seq<SearchDto>, summaries: Summaries, wide: bool)
    requires SearchDtosFor(rows, dtos, summaries) && StopsAtBudget(SearchCosts(rows, summaries), |dtos|)
    requires PageOk(rows, summaries, wide)
    requires Sum(Extras(rows, wide)[..|dtos|]) + 25 <= IPC_ENVELOPE_RESERVE_BYTES
    ensures |SearchResponse(dtos)| <= MAX_IPC_BYTES
  {
    SearchRowsWithin(rows, dtos, summaries, wide);
    ListedLen(SearchItems(dtos));
  }
}
