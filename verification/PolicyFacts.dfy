/** Laws of the classifier: what reaches the model, its fingerprint, and re-assessment
  * against capture.
  */
module PolicyFacts {
  import opened Wrappers
  import opened Ordering
  import opened Utf8
  import opened Chars
  import opened Policy

  // --- Monotonicity ------------------------------------------------------------

  /** `tight` has every rule `loose` has, detects at least as much, and admits no larger an entry. */
  ghost predicate Tighter(tight: AppSettings, loose: AppSettings) {
    && Elements(loose.regexDenylist) <= Elements(tight.regexDenylist)
    && Elements(loose.appDenylist) <= Elements(tight.appDenylist)
    && (loose.otpDetection ==> tight.otpDetection)
    && tight.maxEntrySizeBytes <= loose.maxEntrySizeBytes
  }

  lemma VerdictMonotone(a: set<Reason>, b: set<Reason>)
    requires a <= b
    ensures Rank(Verdict(a)) <= Rank(Verdict(b))
  {
  }

  lemma HoldsMonotone(d: Detectors, tight: AppSettings, loose: AppSettings, scanned: seq<string>, counted: nat,
                      source: Option<SourceApp>, r: Reason)
    requires Tighter(tight, loose) && Holds(d, loose, scanned, counted, source, r)
    ensures Holds(d, tight, scanned, counted, source, r)
  {
    if AnyShows(d, loose, scanned, r) {
      var t :| t in scanned && TextShows(d, loose, t, r);
      if r.UserRegex? {
        var p :| p in loose.regexDenylist && d.matches(p, t);
        assert p in Elements(loose.regexDenylist);
        assert p in tight.regexDenylist;
      }
      assert TextShows(d, tight, t, r);
    } else if r == SourceAppDenylist && SourceDenied(d, loose, source) {
      var rule :| rule in loose.appDenylist && d.denies(rule, source.value);
      assert rule in Elements(loose.appDenylist);
      assert rule in tight.appDenylist;
    }
  }

  lemma RowVerdictMonotone(d: Detectors, tight: AppSettings, loose: AppSettings, row: PendingEmbedding)
    requires Tighter(tight, loose)
    ensures Rank(RowVerdict(d, loose, row)) <= Rank(RowVerdict(d, tight, row))
  {
    var scan := [row.text] + row.scanOnlyTexts;
    var under := AssessReasons(d, loose, scan, row.sizedTexts, row.source);
    var over := AssessReasons(d, tight, scan, row.sizedTexts, row.source);
    forall r | r in under ensures r in over {
      HoldsMonotone(d, tight, loose, scan + row.sizedTexts, CountedBytes(row.sizedTexts), row.source, r);
    }
    VerdictMonotone(under, over);
  }

  /** Tightening the policy never moves a row from refused to accepted. */
  lemma TighteningNeverAdmits(d: Detectors, tight: AppSettings, loose: AppSettings, rows: seq<PendingEmbedding>)
    requires Tighter(tight, loose)
    ensures forall row :: row in Keep(Accepting(d, tight), rows) ==> row in Keep(Accepting(d, loose), rows)
  {
    forall row | row in Keep(Accepting(d, tight), rows) ensures row in Keep(Accepting(d, loose), rows) {
      KeepMember(Accepting(d, tight), rows, row);
      RowVerdictMonotone(d, tight, loose, row);
      KeepMember(Accepting(d, loose), rows, row);
    }
  }

  lemma {:induction false} KeepMember(keep: PendingEmbedding -> bool, rows: seq<PendingEmbedding>, row: PendingEmbedding)
    ensures row in Keep(keep, rows) <==> row in rows && keep(row)
  {
    if rows != [] {
      KeepMember(keep, rows[1..], row);
      assert rows == [rows[0]] + rows[1..];
    }
  }

  /** A choice and its opposite split a batch between them. */
  lemma {:induction false} KeepSplits(keep: PendingEmbedding -> bool, drop: PendingEmbedding -> bool, rows: seq<PendingEmbedding>)
    requires forall row :: row in rows ==> keep(row) != drop(row)
    ensures multiset(Keep(keep, rows)) + multiset(Keep(drop, rows)) == multiset(rows)
  {
    if rows != [] {
      assert rows == [rows[0]] + rows[1..];
      assert rows[0] in rows;
      KeepSplits(keep, drop, rows[1..]);
    }
  }

  /** Accepted and refused rows together are the batch, each row on one side. */
  lemma PartitionConserves(d: Detectors, s: AppSettings, rows: seq<PendingEmbedding>)
    ensures multiset(Keep(Accepting(d, s), rows)) + multiset(Keep(Refusing(d, s), rows)) == multiset(rows)
  {
    KeepSplits(Accepting(d, s), Refusing(d, s), rows);
  }

  /** Exactly the admissible rows reach the model: stored as private at most, from a source and of a
    * size that is allowed, with no text that shows a secret or matches a rule of the user's.
    */
  lemma OnlyAdmissibleRowsReachTheModel(d: Detectors, s: AppSettings, rows: seq<PendingEmbedding>, row: PendingEmbedding)
    ensures row in Keep(Accepting(d, s), rows) <==> row in rows && Admissible(d, s, row)
    ensures row in Keep(Refusing(d, s), rows) <==> row in rows && !Admissible(d, s, row)
  {
    KeepMember(Accepting(d, s), rows, row);
    KeepMember(Refusing(d, s), rows, row);
    AcceptedIff(d, s, row);
  }

  // --- What is read off an entry -------------------------------------------------

  ghost predicate ContentSays(content: Content, t: string) {
    || content == PlainContent(Some(t))
    || (content.RichText? && content.plainText == t)
    || (content.FileList? && content.displayText == t)
  }

  /** An entry's own text, "" where it has none. */
  ghost predicate OwnText(content: Content, t: string) {
    ContentSays(content, t) || (t == "" && (content.Image? || content == PlainContent(None)))
  }

  /** Capture scans the entry's own text, every inline text, and every path list joined by newlines. */
  lemma CapturedTexts(e: Entry, t: string)
    ensures t in [TextOrEmpty(e.content)] + ScannedTexts(e.reps) <==>
      || OwnText(e.content, t)
      || exists rep :: rep in e.reps && ((rep.InlineText? && rep.text == t) || (rep.FilePaths? && Join(rep.paths) == t))
  {
    ScannedAre(e.reps, t);
  }

  lemma {:induction false} ScannedAre(reps: seq<Rep>, t: string)
    ensures t in ScannedTexts(reps) <==>
      exists rep :: rep in reps && ((rep.InlineText? && rep.text == t) || (rep.FilePaths? && Join(rep.paths) == t))
  {
    if reps != [] {
      assert reps == [reps[0]] + reps[1..];
      assert reps[0] in reps;
      ScannedAre(reps[1..], t);
    }
  }

  /** The ceiling is charged for the entry's own text, its markup, and every inline text, but no path list. */
  lemma ChargedTexts(e: Entry, t: string)
    ensures t in CapturePayloads(e) <==>
      || OwnText(e.content, t)
      || (e.content.RichText? && e.content.markup == Some(t))
      || exists rep :: rep in e.reps && rep.InlineText? && rep.text == t
  {
    InlineAre(e.reps, t);
  }

  lemma {:induction false} InlineAre(reps: seq<Rep>, t: string)
    ensures t in InlineTexts(reps) <==> exists rep :: rep in reps && rep.InlineText? && rep.text == t
  {
    if reps != [] {
      assert reps == [reps[0]] + reps[1..];
      assert reps[0] in reps;
      InlineAre(reps[1..], t);
    }
  }

  lemma {:induction false} JoinSplits(a: seq<string>, b: seq<string>)
    ensures Join([]) == "" && (forall t :: Join([t]) == t)
    ensures a != [] && b != [] ==> Join(a + b) == Join(a) + "\n" + Join(b)
  {
    if a != [] && b != [] {
      assert (a + b)[1..] == a[1..] + b;
      if |a| > 1 {
        JoinSplits(a[1..], b);
      } else {
        assert a[1..] + b == b;
      }
    }
  }

  /** Each distinct payload is charged its UTF-8 length once. */
  lemma CountedOnce(payloads: seq<string>, once: seq<string>)
    requires Distinct(once) && Elements(once) == Elements(payloads)
    ensures CountedBytes(payloads) == TotalBytes(once)
  {
    LexIsTotalOrder();
    CanonicalShape(LexLe, payloads);
    var counted := Canonical(LexLe, payloads);
    forall t ensures t in counted <==> t in once {
      assert t in Elements(counted) <==> t in Elements(once);
    }
    TotalLe(counted, once);
    TotalLe(once, counted);
  }

  // --- The policy fingerprint ----------------------------------------------------

  datatype PolicyPayload = PolicyPayload(
    version: nat, regexDenylist: seq<string>, appDenylist: seq<string>, otpDetection: bool, maxEntrySizeBytes: nat)

  function Payload(s: AppSettings): PolicyPayload {
    PolicyPayload(1, Canonical(LexLe, s.regexDenylist), Canonical(LexLe, s.appDenylist),
                  s.otpDetection, s.maxEntrySizeBytes)
  }

  /** The settings that decide what reaches the model, up to rule order and repeats. */
  ghost predicate SamePolicy(a: AppSettings, b: AppSettings) {
    && Elements(a.regexDenylist) == Elements(b.regexDenylist)
    && Elements(a.appDenylist) == Elements(b.appDenylist)
    && a.otpDetection == b.otpDetection
    && a.maxEntrySizeBytes == b.maxEntrySizeBytes
  }

  lemma FingerprintIff(a: AppSettings, b: AppSettings)
    ensures Payload(a) == Payload(b) <==> SamePolicy(a, b)
  {
    LexIsTotalOrder();
    CanonicalIff(LexLe, a.regexDenylist, b.regexDenylist);
    CanonicalIff(LexLe, a.appDenylist, b.appDenylist);
  }

  /** Settings with one fingerprint accept and refuse exactly the same rows. */
  lemma FingerprintPinsVerdicts(d: Detectors, a: AppSettings, b: AppSettings, row: PendingEmbedding)
    requires Payload(a) == Payload(b)
    ensures RowVerdict(d, a, row) == RowVerdict(d, b, row)
    ensures Accepts(d, a, row) <==> Accepts(d, b, row)
  {
    FingerprintIff(a, b);
    RowVerdictMonotone(d, a, b, row);
    RowVerdictMonotone(d, b, a, row);
  }

  // --- Recovering the stored payloads ----------------------------------------------

  /** The JSON form a path list is stored in. */
  datatype PathCodec = PathCodec(encode: seq<string> -> string, decode: string -> seq<string>)

  ghost predicate CodecOk(c: PathCodec) {
    && (forall ps {:trigger c.encode(ps)} :: c.decode(c.encode(ps)) == ps)
    && (forall ps {:trigger c.encode(ps)} :: c.encode(ps) != "")
  }

  predicate IsUriList(mime: string) {
    AsciiLower(mime) == "text/uri-list"
  }

  datatype RepRow = RepRow(mime: string, text: Option<string>)

  function PersistRep(c: PathCodec, rep: Rep): RepRow {
    match rep
    case InlineText(mime, text) => RepRow(mime, Some(text))
    case FilePaths(mime, paths) => RepRow(mime, Some(c.encode(paths)))
    case Blob(mime) => RepRow(mime, None)
  }

  function PersistReps(c: PathCodec, reps: seq<Rep>): seq<RepRow> {
    if reps == [] then [] else [PersistRep(c, reps[0])] + PersistReps(c, reps[1..])
  }

  /** The rows an insert writes: the captured set, or a primary derived from the content. */
  function StoredRows(c: PathCodec, e: Entry): seq<RepRow> {
    if e.reps != [] then PersistReps(c, e.reps)
    else if PlainText(e.content).Some? then [RepRow("text/plain", PlainText(e.content))]
    else [RepRow("application/octet-stream", None)]
  }

  function SizedRows(rows: seq<RepRow>): seq<string> {
    if rows == [] then []
    else (if rows[0].text.Some? && !IsUriList(rows[0].mime) then [rows[0].text.value] else []) + SizedRows(rows[1..])
  }

  function ScanOnlyRows(c: PathCodec, rows: seq<RepRow>): seq<string> {
    if rows == [] then []
    else (if rows[0].text.Some? && IsUriList(rows[0].mime) then [Join(c.decode(rows[0].text.value))] else [])
         + ScanOnlyRows(c, rows[1..])
  }

  function StoredSized(c: PathCodec, e: Entry): seq<string> {
    OptionSeq(PlainText(e.content)) + Markup(e.content) + SizedRows(StoredRows(c, e))
  }

  /** Splits the stored texts into those charged to the ceiling and those only scanned. */
  method RecoverRawTexts(c: PathCodec, content: Option<Content>, rows: seq<RepRow>)
    returns (sized: seq<string>, scanOnly: seq<string>, unparseable: bool)
    ensures unparseable <==> content.None?
    ensures sized == (if content.Some? then OptionSeq(PlainText(content.value)) + Markup(content.value) else [])
                     + SizedRows(rows)
    ensures scanOnly == ScanOnlyRows(c, rows)
  {
    sized, scanOnly, unparseable := [], [], content.None?;
    if content.Some? { sized := OptionSeq(PlainText(content.value)) + Markup(content.value); }
    ghost var head := sized;
    for i := 0 to |rows|
      invariant sized == head + SizedRows(rows[..i])
      invariant scanOnly == ScanOnlyRows(c, rows[..i])
    {
      RowsStep(c, rows, i);
      if rows[i].text.Some? {
        if IsUriList(rows[i].mime) {
          scanOnly := scanOnly + [Join(c.decode(rows[i].text.value))];
        } else {
          sized := sized + [rows[i].text.value];
        }
      }
    }
    assert rows[..|rows|] == rows;
  }

  lemma {:induction false} RowsStep(c: PathCodec, rows: seq<RepRow>, i: nat)
    requires i < |rows|
    ensures SizedRows(rows[..i + 1]) == SizedRows(rows[..i])
         + if rows[i].text.Some? && !IsUriList(rows[i].mime) then [rows[i].text.value] else []
    ensures ScanOnlyRows(c, rows[..i + 1]) == ScanOnlyRows(c, rows[..i])
         + if rows[i].text.Some? && IsUriList(rows[i].mime) then [Join(c.decode(rows[i].text.value))] else []
  {
    if i > 0 {
      assert rows[..i + 1][1..] == rows[1..][..i] && rows[..i][1..] == rows[1..][..i - 1];
      RowsStep(c, rows[1..], i - 1);
    }
  }

  // --- Agreement with capture ---------------------------------------------------

  /** Captured text reps carry the canonical text types, never the path-list type. */
  ghost predicate TextMimesCanonical(reps: seq<Rep>) {
    forall rep :: rep in reps && rep.InlineText? ==> !IsUriList(rep.mime)
  }

  /** The path lists that storage will read back as plain text. */
  ghost predicate Mislabelled(rep: Rep) {
    rep.FilePaths? && !IsUriList(rep.mime)
  }

  lemma {:induction false} SizedRowsMembers(c: PathCodec, reps: seq<Rep>, t: string)
    requires TextMimesCanonical(reps)
    ensures t in SizedRows(PersistReps(c, reps)) <==>
      t in InlineTexts(reps) || exists rep :: rep in reps && Mislabelled(rep) && t == c.encode(rep.paths)
  {
    if reps != [] {
      SizedRowsMembers(c, reps[1..], t);
      assert reps == [reps[0]] + reps[1..];
      assert reps[0] in reps;
      if rep :| rep in reps && Mislabelled(rep) && t == c.encode(rep.paths) {
        assert rep == reps[0] || rep in reps[1..];
      }
      if rep :| rep in reps[1..] && Mislabelled(rep) && t == c.encode(rep.paths) {
        assert rep in reps;
      }
    }
  }

  lemma {:induction false} TotalWithout(b: seq<string>, j: nat)
    requires j < |b|
    ensures TotalBytes(b) == ByteLen(b[j]) + TotalBytes(b[..j] + b[j + 1..])
  {
    var rest := b[..j] + b[j + 1..];
    if j == 0 {
      assert rest == b[1..];
    } else {
      assert rest[0] == b[0] && rest[1..] == b[1..][..j - 1] + b[1..][j..];
      TotalWithout(b[1..], j - 1);
    }
  }

  lemma DistinctRest(b: seq<string>, j: nat)
    requires Distinct(b) && j < |b|
    ensures var rest := b[..j] + b[j + 1..]; Distinct(rest) && forall t :: t in b && t != b[j] ==> t in rest
  {
    var rest := b[..j] + b[j + 1..];
    forall i, k | 0 <= i < k < |rest| ensures rest[i] != rest[k] {
      assert rest[i] == b[if i < j then i else i + 1] && rest[k] == b[if k < j then k else k + 1];
    }
    forall t | t in b && t != b[j] ensures t in rest {
      var i :| 0 <= i < |b| && b[i] == t;
      assert rest[if i < j then i else i - 1] == t;
    }
  }

  /** A duplicate-free list whose non-empty texts all occur in another weighs no more. */
  lemma {:induction false} TotalLe(a: seq<string>, b: seq<string>)
    requires Distinct(a) && Distinct(b)
    requires forall t :: t in a && t != "" ==> t in b
    ensures TotalBytes(a) <= TotalBytes(b)
  {
    if a == [] {
    } else if a[0] == "" {
      TotalLe(a[1..], b);
    } else {
      assert a[0] in a;
      var j :| 0 <= j < |b| && b[j] == a[0];
      var rest := b[..j] + b[j + 1..];
      TotalWithout(b, j);
      DistinctRest(b, j);
      forall t | t in a[1..] && t != "" ensures t in rest { assert t in a && t != a[0]; }
      TotalLe(a[1..], rest);
    }
  }

  lemma CountedLe(a: seq<string>, b: seq<string>)
    requires forall t :: t in a && t != "" ==> t in b
    ensures CountedBytes(a) <= CountedBytes(b)
  {
    LexIsTotalOrder();
    CanonicalShape(LexLe, a);
    CanonicalShape(LexLe, b);
    forall t | t in Canonical(LexLe, a) && t != "" ensures t in Canonical(LexLe, b) {
      assert t in Elements(Canonical(LexLe, a));
      assert t in Elements(b);
      assert t in Elements(Canonical(LexLe, b));
    }
    TotalLe(Canonical(LexLe, a), Canonical(LexLe, b));
  }

  lemma CountedLt(a: seq<string>, b: seq<string>, extra: string)
    requires forall t :: t in a && t != "" ==> t in b
    requires extra in b && extra !in a && extra != ""
    ensures CountedBytes(a) < CountedBytes(b)
  {
    LexIsTotalOrder();
    CanonicalShape(LexLe, a);
    CanonicalShape(LexLe, b);
    var ca, cb := Canonical(LexLe, a), Canonical(LexLe, b);
    assert extra !in Elements(ca) && extra in Elements(cb);
    forall t | t in [extra] + ca && t != "" ensures t in cb {
      if t != extra {
        assert t in Elements(ca);
        assert t in Elements(b);
      }
      assert t in Elements(cb);
    }
    TotalLe([extra] + ca, cb);
    assert ([extra] + ca)[1..] == ca;
    assert ByteLen(extra) >= |extra| > 0;
  }

  lemma StoredSizedMembers(c: PathCodec, e: Entry, t: string)
    requires TextMimesCanonical(e.reps) && t != ""
    ensures t in StoredSized(c, e) <==>
      t in CapturePayloads(e) || exists rep :: rep in e.reps && Mislabelled(rep) && t == c.encode(rep.paths)
  {
    if e.reps != [] {
      SizedRowsMembers(c, e.reps, t);
    } else {
      assert !IsUriList("text/plain") by {
        assert AsciiLower("text/plain")[5] == 'p';
      }
      var rows := StoredRows(c, e);
      assert rows[1..] == [];
      assert SizedRows(rows) == OptionSeq(PlainText(e.content)) + SizedRows([]);
      assert InlineTexts(e.reps) == [];
    }
  }

  ghost predicate Oversizes(payloads: seq<string>, ceiling: nat) {
    CountedBytes(payloads) > ceiling
  }

  /** The size ceiling gives the stored row the verdict capture gave, at every ceiling,
    * exactly when each path list not labelled `text/uri-list` adds no text of its own.
    */
  lemma OversizedAgreesIff(c: PathCodec, e: Entry)
    requires CodecOk(c) && TextMimesCanonical(e.reps)
    ensures (forall ceiling: nat :: Oversizes(StoredSized(c, e), ceiling) <==> Oversizes(CapturePayloads(e), ceiling))
       <==> (forall rep :: rep in e.reps && Mislabelled(rep) ==> c.encode(rep.paths) in CapturePayloads(e))
  {
    var stored, captured := StoredSized(c, e), CapturePayloads(e);
    forall t | t in captured && t != "" ensures t in stored { StoredSizedMembers(c, e, t); }
    if rep :| rep in e.reps && Mislabelled(rep) && c.encode(rep.paths) !in captured {
      StoredSizedMembers(c, e, c.encode(rep.paths));
      CountedLt(captured, stored, c.encode(rep.paths));
      assert Oversizes(stored, CountedBytes(captured)) && !Oversizes(captured, CountedBytes(captured));
    } else {
      forall t | t in stored && t != "" ensures t in captured { StoredSizedMembers(c, e, t); }
      CountedLe(captured, stored);
      CountedLe(stored, captured);
    }
  }

  lemma {:induction false} CapturedTextStored(c: PathCodec, reps: seq<Rep>, t: string)
    requires CodecOk(c) && TextMimesCanonical(reps)
    requires forall rep :: rep in reps ==> !Mislabelled(rep)
    requires t in ScannedTexts(reps)
    ensures t in ScanOnlyRows(c, PersistReps(c, reps)) + SizedRows(PersistReps(c, reps))
  {
    assert reps == [reps[0]] + reps[1..];
    assert reps[0] in reps;
    if t !in ScannedText(reps[0]) {
      CapturedTextStored(c, reps[1..], t);
    }
  }

  /** Every text re-assessment scans of an unedited row. */
  function StoredTexts(c: PathCodec, e: Entry, normalized: string): seq<string> {
    [normalized] + ScanOnlyRows(c, StoredRows(c, e)) + StoredSized(c, e)
  }

  ghost function StoredReasons(d: Detectors, s: AppSettings, c: PathCodec, e: Entry, normalized: string): set<Reason> {
    AssessReasons(d, s, [normalized] + ScanOnlyRows(c, StoredRows(c, e)), StoredSized(c, e), e.source)
  }

  /** Re-assessing an unedited row under the capture-time settings calls it oversized exactly when
    * capture did. It loses a reason capture had exactly when the entry has no plain text, the empty
    * text shows the reason and no stored text does; where no reason can be lost that way it is at
    * least as restrictive as capture was.
    */
  lemma ReassessmentAgreesWithCapture(d: Detectors, s: AppSettings, c: PathCodec, e: Entry, normalized: string)
    requires CodecOk(c) && TextMimesCanonical(e.reps)
    requires forall rep :: rep in e.reps ==> !Mislabelled(rep)
    ensures var captured, stored := CaptureReasons(d, s, e), StoredReasons(d, s, c, e, normalized);
      && (Oversized in stored <==> Oversized in captured)
      && (forall r :: r in captured && r !in stored <==>
            PlainText(e.content).None? && TextShows(d, s, "", r) && !AnyShows(d, s, StoredTexts(c, e, normalized), r))
      && (PlainText(e.content).Some? || (forall r :: !TextShows(d, s, "", r)) ==>
            captured <= stored && Rank(Verdict(captured)) <= Rank(Verdict(stored)))
  {
    var captured, stored := CaptureReasons(d, s, e), StoredReasons(d, s, c, e, normalized);
    OversizedAgreesIff(c, e);
    assert Oversizes(StoredSized(c, e), s.maxEntrySizeBytes) <==> Oversizes(CapturePayloads(e), s.maxEntrySizeBytes);
    forall r ensures r in captured && r !in stored <==>
      PlainText(e.content).None? && TextShows(d, s, "", r) && !AnyShows(d, s, StoredTexts(c, e, normalized), r)
    {
      LostReasonIff(d, s, c, e, normalized, r);
    }
    if PlainText(e.content).Some? || forall r :: !TextShows(d, s, "", r) {
      NoneLost(captured, stored);
    }
  }

  lemma NoneLost(captured: set<Reason>, stored: set<Reason>)
    requires forall r :: !(r in captured && r !in stored)
    ensures captured <= stored && Rank(Verdict(captured)) <= Rank(Verdict(stored))
  {
    VerdictMonotone(captured, stored);
  }

  lemma LostReasonIff(d: Detectors, s: AppSettings, c: PathCodec, e: Entry, normalized: string, r: Reason)
    requires CodecOk(c) && TextMimesCanonical(e.reps)
    requires forall rep :: rep in e.reps ==> !Mislabelled(rep)
    requires Oversizes(StoredSized(c, e), s.maxEntrySizeBytes) <==> Oversizes(CapturePayloads(e), s.maxEntrySizeBytes)
    ensures r in CaptureReasons(d, s, e) && r !in StoredReasons(d, s, c, e, normalized) <==>
      PlainText(e.content).None? && TextShows(d, s, "", r) && !AnyShows(d, s, StoredTexts(c, e, normalized), r)
  {
    var texts := StoredTexts(c, e, normalized);
    var seen := [TextOrEmpty(e.content)] + ScannedTexts(e.reps);
    assert [normalized] + ScanOnlyRows(c, StoredRows(c, e)) + StoredSized(c, e) == texts;
    forall t | t in seen && (PlainText(e.content).Some? || t != "") ensures t in texts { ScannedTextIsStored(c, e, t); }
    if AnyShows(d, s, seen, r) && !AnyShows(d, s, texts, r) {
      var t :| t in seen && TextShows(d, s, t, r);
      assert t == "";
    }
    if PlainText(e.content).None? && TextShows(d, s, "", r) {
      assert "" in seen by { assert seen[0] == ""; }
      assert AnyShows(d, s, seen, r);
    }
  }

  lemma NoTextInBlobRow(c: PathCodec, row: RepRow)
    requires row.text.None?
    ensures ScanOnlyRows(c, [row]) == [] && SizedRows([row]) == []
  {
    assert [row][1..] == [];
  }

  /** It can happen: a user rule that matches the empty text blocks an image at capture, and lets the
    * row pass once its recognized text matches no rule.
    */
  lemma EmptyTextReasonIsLost(d: Detectors, s: AppSettings, c: PathCodec, rule: string, recognized: string)
    requires CodecOk(c) && rule in s.regexDenylist && d.matches(rule, "") && !AnyRuleMatches(d, s.regexDenylist, recognized)
    ensures var e := Entry(Image, [], None);
      && Verdict(CaptureReasons(d, s, e)) == Blocked
      && Verdict(StoredReasons(d, s, c, e, recognized)) != Blocked
  {
    var e := Entry(Image, [], None);
    assert TextShows(d, s, "", UserRegex);
    var rows := StoredRows(c, e);
    assert rows[1..] == [];
    NoTextInBlobRow(c, rows[0]);
    assert rows == [rows[0]];
    assert StoredTexts(c, e, recognized) == [recognized];
    ReassessmentAgreesWithCapture(d, s, c, e, recognized);
    assert UserRegex in CaptureReasons(d, s, e);
    assert StoredSized(c, e) == [] && Canonical(LexLe, []) == [];
    assert CountedBytes(StoredSized(c, e)) == 0;
  }

  lemma ScannedTextIsStored(c: PathCodec, e: Entry, t: string)
    requires CodecOk(c) && TextMimesCanonical(e.reps)
    requires forall rep :: rep in e.reps ==> !Mislabelled(rep)
    requires t in [TextOrEmpty(e.content)] + ScannedTexts(e.reps)
    requires PlainText(e.content).Some? || t != ""
    ensures t in ScanOnlyRows(c, StoredRows(c, e)) + StoredSized(c, e)
  {
    if t in ScannedTexts(e.reps) {
      CapturedTextStored(c, e.reps, t);
    }
  }
}
