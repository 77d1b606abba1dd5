/** The sensitivity classifier, at capture and again on the stored row.
  * The detectors, the regex engine and the app-rule matcher are parameters.
  */
module Policy {
  import opened Wrappers
  import opened Ordering
  import opened Utf8

  datatype Sensitivity = Unknown | Public | Private | Secret | Blocked

  datatype Reason =
    | PasswordManagerSource | ApiKeyPattern | CreditCardPattern | PrivateKeyPattern
    | OneTimePasswordPattern | UserRegex | SourceAppDenylist | Oversized

  datatype SourceApp = SourceApp(name: Option<string>, bundleId: Option<string>, executablePath: Option<string>)

  type AppRule = string

  datatype AppSettings = AppSettings(
    regexDenylist: seq<string>, appDenylist: seq<AppRule>, otpDetection: bool, maxEntrySizeBytes: nat)

  /** The matchers this model does not look inside. */
  datatype Detectors = Detectors(
    privateKey: string -> bool, apiKey: string -> bool, creditCard: string -> bool, probableOtp: string -> bool,
    compiles: string -> bool, matches: (string, string) -> bool,
    denies: (AppRule, SourceApp) -> bool, redact: (seq<string>, string) -> string)

  const MAX_USER_REGEX_COUNT: nat := 128

  // --- The classifier ------------------------------------------------------

  datatype Classifier = Classifier(settings: AppSettings)

  function TryNew(d: Detectors, settings: AppSettings): (r: Result<Classifier, string>)
    ensures r.Ok? ==> r.value.settings == settings
    ensures r.Ok? <==> |settings.regexDenylist| <= MAX_USER_REGEX_COUNT
                       && forall p :: p in settings.regexDenylist ==> d.compiles(p)
  {
    if |settings.regexDenylist| > MAX_USER_REGEX_COUNT then Err("regex_denylist has too many patterns")
    else if exists p :: p in settings.regexDenylist && !d.compiles(p) then Err("regex_denylist entry does not compile")
    else Ok(Classifier(settings))
  }

  /** Whether scanning `text` under `s` finds `reason`. */
  predicate TextShows(d: Detectors, s: AppSettings, text: string, reason: Reason) {
    match reason
    case PrivateKeyPattern => d.privateKey(text)
    case ApiKeyPattern => d.apiKey(text)
    case CreditCardPattern => d.creditCard(text)
    case OneTimePasswordPattern => s.otpDetection && d.probableOtp(text)
    case UserRegex => AnyRuleMatches(d, s.regexDenylist, text)
    case _ => false
  }

  predicate SourceDenied(d: Detectors, s: AppSettings, source: Option<SourceApp>) {
    source.Some? && exists rule :: rule in s.appDenylist && d.denies(rule, source.value)
  }

  function TotalBytes(texts: seq<string>): nat {
    if texts == [] then 0 else ByteLen(texts[0]) + TotalBytes(texts[1..])
  }

  /** Bytes charged to the entry-size ceiling: each distinct payload once. */
  function CountedBytes(texts: seq<string>): nat {
    TotalBytes(Canonical(LexLe, texts))
  }

  /** The reasons that hold of an entry, as a set: payload order and repeats play no part. */
  ghost predicate Holds(d: Detectors, s: AppSettings, scanned: seq<string>, counted: nat, source: Option<SourceApp>,
                        reason: Reason)
  {
    || (reason == Oversized && counted > s.maxEntrySizeBytes)
    || (reason == SourceAppDenylist && SourceDenied(d, s, source))
    || AnyShows(d, s, scanned, reason)
  }

  ghost function ReasonSet(d: Detectors, s: AppSettings, scanned: seq<string>, counted: nat, source: Option<SourceApp>)
    : set<Reason>
  {
    set reason: Reason | Holds(d, s, scanned, counted, source, reason)
  }

  ghost function Verdict(reasons: set<Reason>): Sensitivity {
    if SourceAppDenylist in reasons || Oversized in reasons || UserRegex in reasons then Blocked
    else if PrivateKeyPattern in reasons || ApiKeyPattern in reasons || CreditCardPattern in reasons
            || OneTimePasswordPattern in reasons then Secret
    else if reasons != {} then Private
    else Public
  }

  // What a verdict means, in terms of the texts and the source.

  /** The text holds what a built-in detector looks for; one-time passwords only while detection is on. */
  ghost predicate HoldsSecret(d: Detectors, s: AppSettings, text: string) {
    d.privateKey(text) || d.apiKey(text) || d.creditCard(text) || (s.otpDetection && d.probableOtp(text))
  }

  /** The user's own rules forbid it: a pattern, the source, or the size. */
  ghost predicate Forbidden(d: Detectors, s: AppSettings, scanned: seq<string>, counted: nat, source: Option<SourceApp>) {
    || counted > s.maxEntrySizeBytes
    || (source.Some? && exists rule :: rule in s.appDenylist && d.denies(rule, source.value))
    || (exists t, p :: t in scanned && p in s.regexDenylist && d.matches(p, t))
  }

  ghost predicate VerdictFits(d: Detectors, s: AppSettings, scanned: seq<string>, counted: nat, source: Option<SourceApp>,
                              verdict: Sensitivity)
  {
    var forbidden, secret := Forbidden(d, s, scanned, counted, source), exists t :: t in scanned && HoldsSecret(d, s, t);
    && (verdict == Blocked <==> forbidden)
    && (verdict == Secret <==> !forbidden && secret)
    && (verdict == Public <==> !forbidden && !secret)
  }

  lemma VerdictOf(d: Detectors, s: AppSettings, scanned: seq<string>, counted: nat, source: Option<SourceApp>)
    ensures VerdictFits(d, s, scanned, counted, source, Verdict(ReasonSet(d, s, scanned, counted, source)))
  {
    var reasons := ReasonSet(d, s, scanned, counted, source);
    assert UserRegex in reasons <==> exists t, p :: t in scanned && p in s.regexDenylist && d.matches(p, t) by {
      if t, p :| t in scanned && p in s.regexDenylist && d.matches(p, t) {
        assert TextShows(d, s, t, UserRegex);
      }
    }
    if t :| t in scanned && HoldsSecret(d, s, t) {
      assert TextShows(d, s, t, PrivateKeyPattern) || TextShows(d, s, t, ApiKeyPattern)
          || TextShows(d, s, t, CreditCardPattern) || TextShows(d, s, t, OneTimePasswordPattern);
    } else {
      forall r | r in reasons ensures r.UserRegex? || r.SourceAppDenylist? || r.Oversized? {
        if t :| t in scanned && TextShows(d, s, t, r) { assert !HoldsSecret(d, s, t); }
      }
    }
  }

  /** Whether some scanned text shows `reason`. */
  ghost predicate AnyShows(d: Detectors, s: AppSettings, texts: seq<string>, reason: Reason) {
    exists t :: t in texts && TextShows(d, s, t, reason)
  }

  function PushOnce(reason: Reason, reasons: seq<Reason>): (r: seq<Reason>)
    ensures forall x :: x in r <==> x in reasons || x == reason
    ensures Distinct(reasons) ==> Distinct(r)
  {
    if reason in reasons then reasons else reasons + [reason]
  }

  predicate AnyRuleMatches(d: Detectors, rules: seq<string>, text: string) {
    exists p :: p in rules && d.matches(p, text)
  }

  method ScanTextForPatterns(d: Detectors, c: Classifier, text: string, before: seq<Reason>)
    returns (reasons: seq<Reason>)
    ensures forall r :: r in reasons <==> r in before || TextShows(d, c.settings, text, r)
    ensures Distinct(before) ==> Distinct(reasons)
  {
    reasons := before;
    if d.privateKey(text) { reasons := PushOnce(PrivateKeyPattern, reasons); }
    if d.apiKey(text) { reasons := PushOnce(ApiKeyPattern, reasons); }
    if d.creditCard(text) { reasons := PushOnce(CreditCardPattern, reasons); }
    if c.settings.otpDetection && d.probableOtp(text) { reasons := PushOnce(OneTimePasswordPattern, reasons); }
    if AnyRuleMatches(d, c.settings.regexDenylist, text) { reasons := PushOnce(UserRegex, reasons); }
  }

  function SensitivityFromReasons(reasons: seq<Reason>): (r: Sensitivity)
    ensures r == Verdict(Elements(reasons))
  {
    if SourceAppDenylist in reasons || Oversized in reasons || UserRegex in reasons then Blocked
    else if PrivateKeyPattern in reasons || ApiKeyPattern in reasons || CreditCardPattern in reasons
            || OneTimePasswordPattern in reasons then Secret
    else if reasons != [] then
      assert reasons[0] in Elements(reasons);
      Private
    else Public
  }

  method ScanAll(d: Detectors, c: Classifier, texts: seq<string>, before: seq<Reason>) returns (reasons: seq<Reason>)
    ensures forall r :: r in reasons <==> r in before || AnyShows(d, c.settings, texts, r)
  {
    reasons := before;
    for i := 0 to |texts|
      invariant forall r :: r in reasons <==> r in before || AnyShows(d, c.settings, texts[..i], r)
    {
      reasons := ScanTextForPatterns(d, c, texts[i], reasons);
      assert texts[..i + 1] == texts[..i] + [texts[i]];
      forall r ensures AnyShows(d, c.settings, texts[..i + 1], r)
                 <==> AnyShows(d, c.settings, texts[..i], r) || TextShows(d, c.settings, texts[i], r) {
        assert AnyShows(d, c.settings, texts[..i] + [texts[i]], r) <==>
          AnyShows(d, c.settings, texts[..i], r) || TextShows(d, c.settings, texts[i], r);
      }
    }
    assert texts[..|texts|] == texts;
  }

  // --- Capture ---------------------------------------------------------------

  datatype Content =
    | PlainContent(text: Option<string>)
    | RichText(plainText: string, markup: Option<string>)
    | FileList(paths: seq<string>, displayText: string)
    | Image

  datatype Rep =
    | InlineText(mime: string, text: string)
    | FilePaths(mime: string, paths: seq<string>)
    | Blob(mime: string)

  datatype Entry = Entry(content: Content, reps: seq<Rep>, source: Option<SourceApp>)

  function PlainText(content: Content): Option<string> {
    match content
    case PlainContent(text) => text
    case RichText(plain, _) => Some(plain)
    case FileList(_, display) => Some(display)
    case Image => None
  }

  function Markup(content: Content): seq<string> {
    if content.RichText? && content.markup.Some? then [content.markup.value] else []
  }

  function OptionSeq(o: Option<string>): seq<string> {
    if o.Some? then [o.value] else []
  }

  function Join(paths: seq<string>): string {
    if paths == [] then ""
    else if |paths| == 1 then paths[0]
    else paths[0] + "\n" + Join(paths[1..])
  }

  function InlineTexts(reps: seq<Rep>): seq<string> {
    if reps == [] then []
    else (if reps[0].InlineText? then [reps[0].text] else []) + InlineTexts(reps[1..])
  }

  /** What a representation contributes to the capture-time scan. */
  function ScannedText(rep: Rep): seq<string> {
    match rep
    case InlineText(_, text) => [text]
    case FilePaths(_, paths) => [Join(paths)]
    case Blob(_) => []
  }

  function ScannedTexts(reps: seq<Rep>): seq<string> {
    if reps == [] then [] else ScannedText(reps[0]) + ScannedTexts(reps[1..])
  }

  function TextOrEmpty(content: Content): string {
    if PlainText(content).Some? then PlainText(content).value else ""
  }

  function CapturePayloads(e: Entry): seq<string> {
    [TextOrEmpty(e.content)] + Markup(e.content) + InlineTexts(e.reps)
  }

  ghost function CaptureReasons(d: Detectors, s: AppSettings, e: Entry): set<Reason> {
    ReasonSet(d, s, [TextOrEmpty(e.content)] + ScannedTexts(e.reps), CountedBytes(CapturePayloads(e)), e.source)
  }

  /** The verdict at capture fits every text the entry holds and the size of what is charged. */
  ghost predicate CaptureFits(d: Detectors, s: AppSettings, e: Entry, verdict: Sensitivity) {
    VerdictFits(d, s, [TextOrEmpty(e.content)] + ScannedTexts(e.reps), CountedBytes(CapturePayloads(e)), e.source, verdict)
  }

  lemma CaptureVerdict(d: Detectors, s: AppSettings, e: Entry)
    ensures CaptureFits(d, s, e, Verdict(CaptureReasons(d, s, e)))
  {
    VerdictOf(d, s, [TextOrEmpty(e.content)] + ScannedTexts(e.reps), CountedBytes(CapturePayloads(e)), e.source);
  }

  method SumLengths(texts: seq<string>) returns (total: nat)
    ensures total == TotalBytes(texts)
  {
    total := 0;
    var i := |texts|;
    while i > 0
      invariant 0 <= i <= |texts|
      invariant total == TotalBytes(texts[i..])
    {
      i := i - 1;
      assert texts[i..][1..] == texts[i + 1..];
      total := ByteLen(texts[i]) + total;
    }
  }

  method TextPayloads(e: Entry) returns (payloads: seq<string>)
    ensures payloads == CapturePayloads(e)
  {
    payloads := [TextOrEmpty(e.content)] + Markup(e.content);
    for i := 0 to |e.reps|
      invariant payloads == [TextOrEmpty(e.content)] + Markup(e.content) + InlineTexts(e.reps[..i])
    {
      InlineTextsStep(e.reps, i);
      if e.reps[i].InlineText? { payloads := payloads + [e.reps[i].text]; }
    }
    assert e.reps[..|e.reps|] == e.reps;
  }

  method Classify(d: Detectors, c: Classifier, e: Entry) returns (verdict: Sensitivity, reasons: seq<Reason>)
    ensures Elements(reasons) == CaptureReasons(d, c.settings, e) && Distinct(reasons)
    ensures verdict == Verdict(CaptureReasons(d, c.settings, e))
    ensures CaptureFits(d, c.settings, e, verdict)
  {
    reasons := [];
    var text := TextOrEmpty(e.content);
    var payloads := TextPayloads(e);
    var classifiedLen := SumLengths(Canonical(LexLe, payloads));
    if classifiedLen > c.settings.maxEntrySizeBytes { reasons := PushOnce(Oversized, reasons); }
    if SourceDenied(d, c.settings, e.source) { reasons := PushOnce(SourceAppDenylist, reasons); }
    ghost var head := reasons;
    reasons := ScanTextForPatterns(d, c, text, reasons);
    assert forall r :: AnyShows(d, c.settings, [text] + ScannedTexts([]), r) <==> TextShows(d, c.settings, text, r);
    for i := 0 to |e.reps|
      invariant Distinct(reasons)
      invariant forall r :: r in reasons <==>
        r in head || AnyShows(d, c.settings, [text] + ScannedTexts(e.reps[..i]), r)
    {
      ScannedTextsStep(e.reps, i);
      var found := ScannedText(e.reps[i]);
      ghost var seen := [text] + ScannedTexts(e.reps[..i]);
      assert [text] + ScannedTexts(e.reps[..i + 1]) == seen + found;
      if found != [] {
        assert found == [found[0]];
        forall r ensures AnyShows(d, c.settings, seen + found, r)
                   <==> AnyShows(d, c.settings, seen, r) || TextShows(d, c.settings, found[0], r) {
          assert AnyShows(d, c.settings, seen + [found[0]], r) <==>
            AnyShows(d, c.settings, seen, r) || TextShows(d, c.settings, found[0], r);
        }
        if found[0] != text {
          reasons := ScanTextForPatterns(d, c, found[0], reasons);
        } else {
          assert text in seen;
        }
      } else {
        assert seen + found == seen;
      }
    }
    assert e.reps[..|e.reps|] == e.reps;
    assert Elements(reasons) == CaptureReasons(d, c.settings, e);
    CaptureVerdict(d, c.settings, e);
    verdict := SensitivityFromReasons(reasons);
  }

  lemma {:induction false} InlineTextsStep(reps: seq<Rep>, i: nat)
    requires i < |reps|
    ensures InlineTexts(reps[..i + 1])
         == InlineTexts(reps[..i]) + if reps[i].InlineText? then [reps[i].text] else []
  {
    if i > 0 {
      assert reps[..i + 1][1..] == reps[1..][..i] && reps[..i][1..] == reps[1..][..i - 1];
      InlineTextsStep(reps[1..], i - 1);
    }
  }

  lemma {:induction false} ScannedTextsStep(reps: seq<Rep>, i: nat)
    requires i < |reps|
    ensures ScannedTexts(reps[..i + 1]) == ScannedTexts(reps[..i]) + ScannedText(reps[i])
  {
    if i > 0 {
      assert reps[..i + 1][1..] == reps[1..][..i] && reps[..i][1..] == reps[1..][..i - 1];
      ScannedTextsStep(reps[1..], i - 1);
    }
  }

  // --- Re-assessment -----------------------------------------------------------

  ghost function AssessReasons(d: Detectors, s: AppSettings, scanOnly: seq<string>, sized: seq<string>,
                               source: Option<SourceApp>): set<Reason>
  {
    ReasonSet(d, s, scanOnly + sized, CountedBytes(sized), source)
  }

  lemma AnyShowsSame(d: Detectors, s: AppSettings, a: seq<string>, b: seq<string>)
    requires Elements(a) == Elements(b)
    ensures forall r :: AnyShows(d, s, a, r) <==> AnyShows(d, s, b, r)
  {
    assert forall t :: t in a <==> t in Elements(a);
    assert forall t :: t in b <==> t in Elements(b);
  }

  method AssessSemanticTexts(d: Detectors, c: Classifier, scanOnly: seq<string>, sized: seq<string>,
                             source: Option<SourceApp>) returns (verdict: Sensitivity)
    ensures verdict == Verdict(AssessReasons(d, c.settings, scanOnly, sized, source))
    ensures VerdictFits(d, c.settings, scanOnly + sized, CountedBytes(sized), source, verdict)
  {
    var counted := Canonical(LexLe, sized);
    var reasons: seq<Reason> := [];
    var sizedLen := SumLengths(counted);
    if sizedLen > c.settings.maxEntrySizeBytes { reasons := PushOnce(Oversized, reasons); }
    if SourceDenied(d, c.settings, source) { reasons := PushOnce(SourceAppDenylist, reasons); }
    var scanned := Canonical(LexLe, scanOnly + sized);
    reasons := ScanAll(d, c, scanned, reasons);
    LexIsTotalOrder();
    CanonicalShape(LexLe, scanOnly + sized);
    AnyShowsSame(d, c.settings, scanned, scanOnly + sized);
    assert Elements(reasons) == AssessReasons(d, c.settings, scanOnly, sized, source);
    VerdictOf(d, c.settings, scanOnly + sized, CountedBytes(sized), source);
    verdict := SensitivityFromReasons(reasons);
  }

  function Rank(s: Sensitivity): nat {
    match s
    case Unknown => 0
    case Public => 1
    case Private => 2
    case Secret => 3
    case Blocked => 4
  }

  function MostRestrictive(a: Sensitivity, b: Sensitivity): (r: Sensitivity)
    ensures r == a || r == b
    ensures Rank(r) >= Rank(a) && Rank(r) >= Rank(b)
  {
    if Rank(b) > Rank(a) then b else a
  }

  type EntryId = nat

  datatype PendingEmbedding = PendingEmbedding(
    entryId: EntryId, text: string, sizedTexts: seq<string>, scanOnlyTexts: seq<string>, contentUnparseable: bool,
    contentHash: string, sensitivity: Sensitivity, source: Option<SourceApp>)

  datatype EmbeddingInput = EmbeddingInput(id: EntryId, text: string)

  /** The combined verdict on a stored row: its capture-time floor and the live re-assessment. */
  ghost function RowVerdict(d: Detectors, s: AppSettings, row: PendingEmbedding): Sensitivity {
    MostRestrictive(row.sensitivity,
                    Verdict(AssessReasons(d, s, [row.text] + row.scanOnlyTexts, row.sizedTexts, row.source)))
  }

  /** Whether the policy `s` lets the row's content reach the model. */
  ghost predicate Accepts(d: Detectors, s: AppSettings, row: PendingEmbedding) {
    !row.contentUnparseable && Rank(RowVerdict(d, s, row)) < Rank(Secret)
  }

  ghost function ShapedText(d: Detectors, s: AppSettings, row: PendingEmbedding): string {
    if RowVerdict(d, s, row) == Private then d.redact(s.regexDenylist, row.text) else row.text
  }

  ghost function Keep(keep: PendingEmbedding -> bool, rows: seq<PendingEmbedding>): (r: seq<PendingEmbedding>)
    ensures |r| <= |rows|
  {
    if rows == [] then [] else (if keep(rows[0]) then [rows[0]] else []) + Keep(keep, rows[1..])
  }

  lemma {:induction false} KeepStep(keep: PendingEmbedding -> bool, rows: seq<PendingEmbedding>, i: nat)
    requires i < |rows|
    ensures Keep(keep, rows[..i + 1]) == Keep(keep, rows[..i]) + if keep(rows[i]) then [rows[i]] else []
  {
    if i > 0 {
      assert rows[..i + 1][1..] == rows[1..][..i] && rows[..i][1..] == rows[1..][..i - 1];
      KeepStep(keep, rows[1..], i - 1);
    }
  }

  ghost function Accepting(d: Detectors, s: AppSettings): PendingEmbedding -> bool {
    row => Accepts(d, s, row)
  }

  ghost function Refusing(d: Detectors, s: AppSettings): PendingEmbedding -> bool {
    row => !Accepts(d, s, row)
  }

  function Tombstone(row: PendingEmbedding): (EntryId, string) {
    (row.entryId, row.contentHash)
  }

  /** What the model is handed for these rows. */
  ghost function InputsFor(d: Detectors, s: AppSettings, accepted: seq<PendingEmbedding>): (r: seq<EmbeddingInput>)
    ensures |r| == |accepted|
  {
    seq(|accepted|, i requires 0 <= i < |accepted| =>
      EmbeddingInput(accepted[i].entryId, ShapedText(d, s, accepted[i])))
  }

  /** A row accepted under `s`, from what is stored and what its texts and source show. */
  ghost predicate Admissible(d: Detectors, s: AppSettings, row: PendingEmbedding) {
    && !row.contentUnparseable
    && (row.sensitivity.Unknown? || row.sensitivity.Public? || row.sensitivity.Private?)
    && !Forbidden(d, s, [row.text] + row.scanOnlyTexts + row.sizedTexts, CountedBytes(row.sizedTexts), row.source)
    && forall t :: t in [row.text] + row.scanOnlyTexts + row.sizedTexts ==> !HoldsSecret(d, s, t)
  }

  lemma AcceptedIff(d: Detectors, s: AppSettings, row: PendingEmbedding)
    ensures Accepts(d, s, row) <==> Admissible(d, s, row)
    ensures Accepts(d, s, row) ==> (RowVerdict(d, s, row) == Private <==> row.sensitivity == Private)
  {
    VerdictOf(d, s, [row.text] + row.scanOnlyTexts + row.sizedTexts, CountedBytes(row.sizedTexts), row.source);
  }

  /** Every input is its own row's, and a row stored as private is handed over only as its redaction. */
  ghost predicate HandedOver(d: Detectors, s: AppSettings, accepted: seq<PendingEmbedding>, inputs: seq<EmbeddingInput>) {
    && |inputs| == |accepted|
    && forall i :: 0 <= i < |inputs| ==>
         && inputs[i].id == accepted[i].entryId
         && inputs[i].text == if accepted[i].sensitivity.Private? then d.redact(s.regexDenylist, accepted[i].text)
                              else accepted[i].text
  }

  lemma InputsAreHandedOver(d: Detectors, s: AppSettings, accepted: seq<PendingEmbedding>)
    requires forall row :: row in accepted ==> Accepts(d, s, row)
    ensures HandedOver(d, s, accepted, InputsFor(d, s, accepted))
  {
    forall i | 0 <= i < |accepted|
      ensures InputsFor(d, s, accepted)[i].text ==
        if accepted[i].sensitivity.Private? then d.redact(s.regexDenylist, accepted[i].text) else accepted[i].text
    {
      assert accepted[i] in accepted;
      AcceptedIff(d, s, accepted[i]);
    }
  }

  lemma {:induction false} KeptAreAccepted(d: Detectors, s: AppSettings, rows: seq<PendingEmbedding>)
    ensures forall row :: row in Keep(Accepting(d, s), rows) ==> Accepts(d, s, row)
  {
    if rows != [] {
      KeptAreAccepted(d, s, rows[1..]);
      assert Accepting(d, s)(rows[0]) <==> Accepts(d, s, rows[0]);
    }
  }

  lemma AcceptedAreAdmissible(d: Detectors, s: AppSettings, rows: seq<PendingEmbedding>)
    ensures var accepted := Keep(Accepting(d, s), rows);
      && HandedOver(d, s, accepted, InputsFor(d, s, accepted))
      && forall row :: row in accepted ==> Admissible(d, s, row)
  {
    var accepted := Keep(Accepting(d, s), rows);
    KeptAreAccepted(d, s, rows);
    InputsAreHandedOver(d, s, accepted);
    forall row | row in accepted ensures Admissible(d, s, row) { AcceptedIff(d, s, row); }
  }

  /** One turn of the partition loop: the input text to embed, or None to refuse. */
  method ShapeRow(d: Detectors, c: Classifier, entry: PendingEmbedding) returns (shaped: Option<string>)
    ensures shaped.Some? <==> Accepting(d, c.settings)(entry)
    ensures shaped.Some? ==> shaped.value == ShapedText(d, c.settings, entry)
    ensures Refusing(d, c.settings)(entry) <==> shaped.None?
  {
    if entry.contentUnparseable { return None; }
    var reassessed := AssessSemanticTexts(d, c, [entry.text] + entry.scanOnlyTexts, entry.sizedTexts, entry.source);
    match MostRestrictive(entry.sensitivity, reassessed) {
      case Secret => shaped := None;
      case Blocked => shaped := None;
      case Private => shaped := Some(d.redact(c.settings.regexDenylist, entry.text));
      case _ => shaped := Some(entry.text);
    }
  }

  ghost predicate TombstonesOf(kept: seq<PendingEmbedding>, refused: seq<(EntryId, string)>) {
    |refused| == |kept| && forall i :: 0 <= i < |refused| ==> refused[i] == Tombstone(kept[i])
  }

  /** The rows so far, split in order. */
  ghost predicate SplitSoFar(d: Detectors, s: AppSettings, rows: seq<PendingEmbedding>, accepted: seq<PendingEmbedding>,
                             inputs: seq<EmbeddingInput>, refused: seq<(EntryId, string)>)
  {
    && accepted == Keep(Accepting(d, s), rows)
    && inputs == InputsFor(d, s, accepted)
    && TombstonesOf(Keep(Refusing(d, s), rows), refused)
    && |refused| == |rows| - |accepted|
  }

  lemma InputsStep(d: Detectors, s: AppSettings, accepted: seq<PendingEmbedding>, entry: PendingEmbedding)
    ensures InputsFor(d, s, accepted + [entry])
         == InputsFor(d, s, accepted) + [EmbeddingInput(entry.entryId, ShapedText(d, s, entry))]
  {
  }

  /** One more row goes to its own side. */
  lemma SplitStep(d: Detectors, s: AppSettings, rows: seq<PendingEmbedding>, k: nat, accepted: seq<PendingEmbedding>,
                  inputs: seq<EmbeddingInput>, refused: seq<(EntryId, string)>)
    requires k < |rows| && SplitSoFar(d, s, rows[..k], accepted, inputs, refused)
    ensures Accepting(d, s)(rows[k]) ==>
      SplitSoFar(d, s, rows[..k + 1], accepted + [rows[k]],
                 inputs + [EmbeddingInput(rows[k].entryId, ShapedText(d, s, rows[k]))], refused)
    ensures Refusing(d, s)(rows[k]) ==>
      SplitSoFar(d, s, rows[..k + 1], accepted, inputs, refused + [Tombstone(rows[k])])
  {
    KeepStep(Accepting(d, s), rows, k);
    KeepStep(Refusing(d, s), rows, k);
    InputsStep(d, s, accepted, rows[k]);
  }

  method PartitionByCurrentPolicy(d: Detectors, c: Classifier, pending: seq<PendingEmbedding>)
    returns (accepted: seq<PendingEmbedding>, inputs: seq<EmbeddingInput>, refused: seq<(EntryId, string)>)
    ensures accepted == Keep(Accepting(d, c.settings), pending)
    ensures TombstonesOf(Keep(Refusing(d, c.settings), pending), refused) && |refused| == |pending| - |accepted|
    ensures inputs == InputsFor(d, c.settings, accepted) && HandedOver(d, c.settings, accepted, inputs)
    ensures forall row :: row in accepted ==> Admissible(d, c.settings, row)
  {
    accepted, inputs, refused := [], [], [];
    for k := 0 to |pending|
      invariant SplitSoFar(d, c.settings, pending[..k], accepted, inputs, refused)
    {
      var entry := pending[k];
      SplitStep(d, c.settings, pending, k, accepted, inputs, refused);
      var shaped := ShapeRow(d, c, entry);
      if shaped.Some? {
        accepted := accepted + [entry];
        inputs := inputs + [EmbeddingInput(entry.entryId, shaped.value)];
      } else {
        refused := refused + [Tombstone(entry)];
      }
    }
    assert pending[..|pending|] == pending;
    AcceptedAreAdmissible(d, c.settings, pending);
  }
}
