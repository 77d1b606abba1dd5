/** Text recognized in images: how it is shaped, and the gate that keeps stored text
  * in step with the setting and the policy.
  */
module TextRecognition {
  import opened Wrappers
  import opened Chars
  import opened Policy

  // --- Shaping ----------------------------------------------------------------------------

  datatype RecognizedLine = RecognizedLine(text: string, bounds: nat)

  function Texts(lines: seq<RecognizedLine>): (r: seq<string>)
    ensures |r| == |lines|
  {
    seq(|lines|, i requires 0 <= i < |lines| => lines[i].text)
  }

  function SplitLines(s: string): (r: seq<string>)
    ensures |r| > 0
  {
    if s == [] then [[]]
    else
      var rest := SplitLines(s[1..]);
      if s[0] == '\n' then [[]] + rest else [[s[0]] + rest[0]] + rest[1..]
  }

  /** The redacted text over the recognized lines: line by line, blanks and leftovers dropped. */
  function Relined(lines: seq<RecognizedLine>, texts: seq<string>): (r: seq<RecognizedLine>)
    ensures |r| <= |lines| && |r| <= |texts|
  {
    if lines == [] || texts == [] then []
    else
      (if Trim(texts[0]) == "" then [] else [lines[0].(text := texts[0])]) + Relined(lines[1..], texts[1..])
  }

  function Raise(verdict: Sensitivity): Option<Sensitivity> {
    match verdict
    case Public => None
    case Unknown => None
    case Blocked => Some(Secret)
    case other => Some(other)
  }

  function ShapeRecognizedText(lines: seq<RecognizedLine>, classify: string -> Sensitivity, redact: string -> string)
    : (seq<RecognizedLine>, Option<Sensitivity>)
  {
    if lines == [] then (lines, None)
    else
      var text := Join(Texts(lines));
      var raised := Raise(classify(text));
      if raised.None? then (lines, None) else (Relined(lines, SplitLines(redact(text))), raised)
  }

  /** `shaped` is the redacted texts at `places`, each over the line at that place: every place
    * that has both a line and a text that is not blank, once and in order.
    */
  ghost predicate InPlace(lines: seq<RecognizedLine>, texts: seq<string>, places: seq<nat>, shaped: seq<RecognizedLine>) {
    && |places| == |shaped|
    && (forall k :: 0 <= k < |places| ==> places[k] < |lines| && places[k] < |texts|)
    && (forall j, k :: 0 <= j < k < |places| ==> places[j] < places[k])
    && (forall i :: i in places <==> 0 <= i < |lines| && i < |texts| && Trim(texts[i]) != "")
    && (forall k :: 0 <= k < |shaped| ==> shaped[k] == lines[places[k]].(text := texts[places[k]]))
  }

  /** The places from `k` up to `n` whose text is not blank. */
  function Places(texts: seq<string>, k: nat, n: nat): seq<nat>
    requires k <= n <= |texts|
    decreases n - k
  {
    if k == n then [] else (if Trim(texts[k]) == "" then [] else [k]) + Places(texts, k + 1, n)
  }

  lemma {:induction false} PlacesRise(texts: seq<string>, k: nat, n: nat)
    requires k <= n <= |texts|
    ensures forall i, j :: 0 <= i < j < |Places(texts, k, n)| ==> Places(texts, k, n)[i] < Places(texts, k, n)[j]
    ensures forall i :: i in Places(texts, k, n) <==> k <= i < n && Trim(texts[i]) != ""
    decreases n - k
  {
    if k < n {
      PlacesRise(texts, k + 1, n);
      var tail := Places(texts, k + 1, n);
      forall j | 0 <= j < |tail| ensures k < tail[j] { assert tail[j] in tail; }
    }
  }

  lemma {:induction false} RelinedAt(lines: seq<RecognizedLine>, texts: seq<string>, k: nat, n: nat)
    requires k <= n == if |lines| <= |texts| then |lines| else |texts|
    ensures |Relined(lines[k..], texts[k..])| == |Places(texts, k, n)|
    ensures forall i :: 0 <= i < |Places(texts, k, n)| ==>
      Places(texts, k, n)[i] < n
      && Relined(lines[k..], texts[k..])[i] == lines[Places(texts, k, n)[i]].(text := texts[Places(texts, k, n)[i]])
    decreases n - k
  {
    if k < n {
      RelinedAt(lines, texts, k + 1, n);
      assert lines[k..][1..] == lines[k + 1..] && texts[k..][1..] == texts[k + 1..];
    }
  }

  lemma RelinedInPlace(lines: seq<RecognizedLine>, texts: seq<string>) returns (places: seq<nat>)
    ensures InPlace(lines, texts, places, Relined(lines, texts))
  {
    var n := if |lines| <= |texts| then |lines| else |texts|;
    PlacesRise(texts, 0, n);
    RelinedAt(lines, texts, 0, n);
    assert lines[0..] == lines && texts[0..] == texts;
    places := Places(texts, 0, n);
  }

  /** Text that reads as private or worse is only ever passed on as its redaction: each line that
    * is not blank, once, in order and in the place of the line it stands for, with the image raised
    * to at most Secret. Other text is passed on as it was read.
    */
  lemma ShapedTextIsRedacted(lines: seq<RecognizedLine>, classify: string -> Sensitivity, redact: string -> string)
    returns (places: seq<nat>)
    ensures var (shaped, raised) := ShapeRecognizedText(lines, classify, redact);
      var text := Join(Texts(lines));
      && (raised.Some? <==> lines != [] && Rank(classify(text)) >= Rank(Private))
      && (raised.Some? ==> raised.value == if classify(text) == Private then Private else Secret)
      && (raised.None? ==> shaped == lines)
      && (raised.Some? ==> InPlace(lines, SplitLines(redact(text)), places, shaped))
  {
    places := RelinedInPlace(lines, SplitLines(redact(Join(Texts(lines)))));
  }

  lemma {:induction false} SplitHead(a: string, b: string)
    requires '\n' !in a
    ensures SplitLines(a + "\n" + b) == [a] + SplitLines(b)
    ensures SplitLines(a) == [a]
  {
    var s := a + "\n" + b;
    if a == [] {
      assert s[1..] == b;
    } else {
      assert a == [a[0]] + a[1..];
      assert s[1..] == a[1..] + "\n" + b;
      SplitHead(a[1..], b);
    }
  }

  lemma {:induction false} SplitUndoesJoin(texts: seq<string>)
    requires texts != [] && forall t :: t in texts ==> '\n' !in t
    ensures SplitLines(Join(texts)) == texts
  {
    assert texts[0] in texts;
    if |texts| == 1 {
      SplitHead(texts[0], "");
    } else {
      assert texts == [texts[0]] + texts[1..];
      SplitUndoesJoin(texts[1..]);
      SplitHead(texts[0], Join(texts[1..]));
    }
  }

  lemma {:induction false} RelinedSame(lines: seq<RecognizedLine>)
    requires forall i :: 0 <= i < |lines| ==> Trim(lines[i].text) != ""
    ensures Relined(lines, Texts(lines)) == lines
  {
    if lines != [] {
      RelinedSame(lines[1..]);
      assert Texts(lines)[1..] == Texts(lines[1..]);
      assert lines == [lines[0]] + lines[1..];
    }
  }

  /** A redaction that changes nothing drops nothing: every line keeps its own text and place. */
  lemma NothingRedactedNothingLost(lines: seq<RecognizedLine>, classify: string -> Sensitivity, redact: string -> string)
    requires lines != [] && redact(Join(Texts(lines))) == Join(Texts(lines))
    requires forall i :: 0 <= i < |lines| ==> Trim(lines[i].text) != "" && '\n' !in lines[i].text
    ensures ShapeRecognizedText(lines, classify, redact).0 == lines
  {
    SplitUndoesJoin(Texts(lines));
    RelinedSame(lines);
  }

  // --- The gate ---------------------------------------------------------------------------------

  type WorkerId = nat
  type PolicyId = string

  /** A stored recognition and the policy it was shaped under; a failed read holds no text. */
  datatype TextRow = TextRow(policy: PolicyId, hash: string, failed: bool)

  datatype StoredImage = StoredImage(hash: string, masked: bool)

  /** One recognition on its way to the store, shaped earlier under whatever policy it saw. */
  datatype Job = Job(id: EntryId, hash: string, policy: PolicyId, failed: bool, raises: bool, background: bool)

  datatype Phase =
    | Idle
    | Shaped(job: Job)
    | Reading(job: Job)                     // holds the gate shared; nothing checked yet
    | Checked(job: Job, store: bool)        // holds it shared; may store
    | ClearWanted(keep: Option<PolicyId>)
    | Clearing(keep: Option<PolicyId>)      // holds it alone

  /** A store call as the blocking pool runs it. */
  datatype Write = StoreText(job: Job) | MaskImage(job: Job) | ClearText(keep: Option<PolicyId>)

  /** `adrift` are the store calls whose caller was dropped while they ran: the gate is free again,
    * and they land whenever they land.
    */
  datatype State = State(
    on: bool, policy: PolicyId, images: map<EntryId, StoredImage>, rows: map<EntryId, TextRow>, workers: map<WorkerId, Phase>,
    adrift: multiset<Write>)

  datatype Action =
    | Settings(on: bool, policy: PolicyId)
    | Shape(w: WorkerId, job: Job)
    | EnterShared(w: WorkerId)
    | Check(w: WorkerId)
    | Finish(w: WorkerId, fails: bool)
    | WantClear(w: WorkerId, keep: Option<PolicyId>)
    | EnterAlone(w: WorkerId)
    | Clear(w: WorkerId, fails: bool)
    | Cancel(w: WorkerId)                   // dropped with no store call under way
    | Detach(w: WorkerId)                   // dropped in the middle of its store call
    | Land(x: Write, fails: bool)
    | PutImage(id: EntryId, image: StoredImage)
    | DropImage(id: EntryId)

  function PhaseOf(s: State, w: WorkerId): Phase {
    if w in s.workers then s.workers[w] else Idle
  }

  predicate Shared(p: Phase) {
    p.Reading? || p.Checked?
  }

  predicate NoneAlone(s: State) {
    forall w :: w in s.workers ==> !s.workers[w].Clearing?
  }

  predicate NoneInside(s: State) {
    forall w :: w in s.workers ==> !s.workers[w].Clearing? && !Shared(s.workers[w])
  }

  function To(s: State, w: WorkerId, p: Phase): State {
    s.(workers := s.workers[w := p])
  }

  /** The image is still there with the bytes that were read, and not masked. */
  predicate Readable(s: State, job: Job) {
    job.id in s.images && s.images[job.id].hash == job.hash && !s.images[job.id].masked
  }

  /** The store takes a recognition of a readable image, except a failed one over text already read
    * from the same bytes under the same policy.
    */
  predicate Records(s: State, job: Job) {
    && Readable(s, job)
    && !(job.failed && job.id in s.rows && s.rows[job.id] == TextRow(job.policy, job.hash, false))
  }

  function Recorded(s: State, job: Job): State {
    if !Records(s, job) then s
    else
      s.(rows := s.rows[job.id := TextRow(job.policy, job.hash, job.failed)],
         images := s.images[job.id := StoredImage(job.hash, job.raises)])
  }

  function Raised(s: State, job: Job): State {
    if !Readable(s, job) then s else s.(images := s.images[job.id := StoredImage(job.hash, true)])
  }

  function Kept(rows: map<EntryId, TextRow>, keep: Option<PolicyId>): map<EntryId, TextRow> {
    map id | id in rows && keep.Some? && rows[id].policy == keep.value :: rows[id]
  }

  /** A clear takes back everything, or everything but the text of the policy it keeps. */
  lemma ClearKeepsExactly(rows: map<EntryId, TextRow>, keep: Option<PolicyId>, id: EntryId)
    ensures id in Kept(rows, keep) <==> id in rows && keep == Some(rows[id].policy)
    ensures id in Kept(rows, keep) ==> Kept(rows, keep)[id] == rows[id]
  {
  }

  function Applied(s: State, x: Write): State {
    match x
    case StoreText(job) => Recorded(s, job)
    case MaskImage(job) => Raised(s, job)
    case ClearText(keep) => s.(rows := Kept(s.rows, keep))
  }

  /** The store call a worker inside the gate makes, if it makes one. */
  function CallOf(p: Phase): Option<Write> {
    match p
    case Checked(job, store) => if store then Some(StoreText(job)) else if job.raises then Some(MaskImage(job)) else None
    case Clearing(keep) => Some(ClearText(keep))
    case _ => None
  }

  function Step(s: State, a: Action): State {
    match a
    case Settings(on, policy) => s.(on := on, policy := policy)
    case Shape(w, job) => if PhaseOf(s, w).Idle? then To(s, w, Shaped(job)) else s
    case EnterShared(w) => if PhaseOf(s, w).Shaped? && NoneAlone(s) then To(s, w, Reading(PhaseOf(s, w).job)) else s
    case Check(w) =>
      if !PhaseOf(s, w).Reading? then s
      else
        var job := PhaseOf(s, w).job;
        var current := s.on && s.policy == job.policy;
        if job.background && !current then To(s, w, Idle) else To(s, w, Checked(job, current))
    case Finish(w, fails) =>
      if !PhaseOf(s, w).Checked? then s
      else
        var call := CallOf(PhaseOf(s, w));
        To(if fails || call.None? then s else Applied(s, call.value), w, Idle)
    case WantClear(w, keep) => if PhaseOf(s, w).Idle? then To(s, w, ClearWanted(keep)) else s
    case EnterAlone(w) => if PhaseOf(s, w).ClearWanted? && NoneInside(s) then To(s, w, Clearing(PhaseOf(s, w).keep)) else s
    case Clear(w, fails) =>
      if !PhaseOf(s, w).Clearing? then s
      else To(if fails then s else Applied(s, ClearText(PhaseOf(s, w).keep)), w, Idle)
    case Cancel(w) => To(s, w, Idle)
    case Detach(w) =>
      var call := CallOf(PhaseOf(s, w));
      if call.None? then s else To(s.(adrift := s.adrift + multiset{call.value}), w, Idle)
    case Land(x, fails) =>
      if x !in s.adrift then s
      else
        var t := s.(adrift := s.adrift - multiset{x});
        if fails then t else Applied(t, x)
    case PutImage(id, image) => s.(images := s.images[id := image])
    case DropImage(id) => s.(images := s.images - {id}, rows := s.rows - {id})
  }

  function Run(s: State, actions: seq<Action>): State {
    if actions == [] then s else Step(Run(s, actions[..|actions| - 1]), actions[|actions| - 1])
  }

  // --- What an undisturbed call does ------------------------------------------------------------

  /** A recognition nobody disturbs: text is stored exactly while the setting is on under its own policy
    * and the image still is the one that was read; an image shown private is masked, on request even then.
    */
  lemma UndisturbedRecognition(s: State, w: WorkerId, job: Job)
    requires PhaseOf(s, w).Idle? && NoneAlone(s)
    ensures var t := Step(Step(Step(Step(s, Shape(w, job)), EnterShared(w)), Check(w)), Finish(w, false));
      var current := s.on && s.policy == job.policy;
      var readable := job.id in s.images && s.images[job.id] == StoredImage(job.hash, false);
      var spared := job.failed && job.id in s.rows && s.rows[job.id] == TextRow(job.policy, job.hash, false);
      && PhaseOf(t, w).Idle? && t.adrift == s.adrift && t.on == s.on && t.policy == s.policy
      && t.rows == (if current && readable && !spared then s.rows[job.id := TextRow(job.policy, job.hash, job.failed)] else s.rows)
      && t.images == if readable && job.raises && (if current then !spared else !job.background)
                     then s.images[job.id := StoredImage(job.hash, true)] else s.images
  {
    UndisturbedCheck(s, w, job);
    var current := s.on && s.policy == job.policy;
    if !job.background || current {
      UndisturbedFinish(To(s, w, Checked(job, current)), w, job, current);
    }
  }

  lemma UndisturbedCheck(s: State, w: WorkerId, job: Job)
    requires PhaseOf(s, w).Idle? && NoneAlone(s)
    ensures var current := s.on && s.policy == job.policy;
      Step(Step(Step(s, Shape(w, job)), EnterShared(w)), Check(w)) ==
        if job.background && !current then To(s, w, Idle) else To(s, w, Checked(job, current))
  {
    assert s.workers[w := Shaped(job)][w := Reading(job)] == s.workers[w := Reading(job)];
    var current := s.on && s.policy == job.policy;
    assert s.workers[w := Reading(job)][w := Idle] == s.workers[w := Idle];
    assert s.workers[w := Reading(job)][w := Checked(job, current)] == s.workers[w := Checked(job, current)];
    assert Step(s, Shape(w, job)) == To(s, w, Shaped(job));
    assert Step(To(s, w, Shaped(job)), EnterShared(w)) == To(s, w, Reading(job));
  }

  lemma UndisturbedFinish(s: State, w: WorkerId, job: Job, store: bool)
    requires PhaseOf(s, w) == Checked(job, store)
    ensures var t := Step(s, Finish(w, false));
      var readable := job.id in s.images && s.images[job.id] == StoredImage(job.hash, false);
      var spared := job.failed && job.id in s.rows && s.rows[job.id] == TextRow(job.policy, job.hash, false);
      && t.workers == s.workers[w := Idle] && t.adrift == s.adrift && t.on == s.on && t.policy == s.policy
      && t.rows == (if store && readable && !spared then s.rows[job.id := TextRow(job.policy, job.hash, job.failed)] else s.rows)
      && t.images == if readable && job.raises && !(store && spared)
                     then s.images[job.id := StoredImage(job.hash, true)] else s.images
  {
  }

  /** A clear nobody disturbs keeps exactly the text of the policy it names. */
  lemma UndisturbedClear(s: State, w: WorkerId, keep: Option<PolicyId>, id: EntryId)
    requires PhaseOf(s, w).Idle? && NoneInside(s)
    ensures var t := Step(Step(Step(s, WantClear(w, keep)), EnterAlone(w)), Clear(w, false));
      && PhaseOf(t, w).Idle? && t.images == s.images
      && (id in t.rows <==> id in s.rows && keep == Some(s.rows[id].policy))
      && (id in t.rows ==> t.rows[id] == s.rows[id])
  {
    assert Step(s, WantClear(w, keep)) == To(s, w, ClearWanted(keep));
    assert s.workers[w := ClearWanted(keep)][w := Clearing(keep)] == s.workers[w := Clearing(keep)];
    assert Step(To(s, w, ClearWanted(keep)), EnterAlone(w)) == To(s, w, Clearing(keep));
  }

  /** A call whose holder is dropped does, when it lands, what it would have done. */
  lemma LandingDoesTheCall(s: State, w: WorkerId, fails: bool)
    requires CallOf(PhaseOf(s, w)).Some?
    ensures var call := CallOf(PhaseOf(s, w)).value;
      var landed := Step(Step(s, Detach(w)), Land(call, fails));
      var done := Step(s, if PhaseOf(s, w).Clearing? then Clear(w, fails) else Finish(w, fails));
      landed.rows == done.rows && landed.images == done.images && landed.workers == done.workers && landed.adrift == done.adrift
  {
    var call := CallOf(PhaseOf(s, w)).value;
    var idle := To(s, w, Idle);
    DetachIs(s, w);
    if !fails { AppliedAlike(idle, s, call); }
    DoneIs(s, w, fails);
  }

  /** A call looks at and changes the images and the text only. */
  lemma AppliedAlike(s: State, t: State, x: Write)
    requires s.rows == t.rows && s.images == t.images
    ensures Applied(s, x).rows == Applied(t, x).rows && Applied(s, x).images == Applied(t, x).images
    ensures Applied(s, x) == s.(rows := Applied(s, x).rows, images := Applied(s, x).images)
  {
  }

  lemma DetachIs(s: State, w: WorkerId)
    requires CallOf(PhaseOf(s, w)).Some?
    ensures var call := CallOf(PhaseOf(s, w)).value;
      forall fails :: Step(Step(s, Detach(w)), Land(call, fails)) == if fails then To(s, w, Idle) else Applied(To(s, w, Idle), call)
  {
    var call := CallOf(PhaseOf(s, w)).value;
    assert s.adrift + multiset{call} - multiset{call} == s.adrift;
  }

  lemma DoneIs(s: State, w: WorkerId, fails: bool)
    requires CallOf(PhaseOf(s, w)).Some?
    ensures Step(s, if PhaseOf(s, w).Clearing? then Clear(w, fails) else Finish(w, fails))
         == To(if fails then s else Applied(s, CallOf(PhaseOf(s, w)).value), w, Idle)
  {
  }

  /** An image goes with its text, and nothing else goes. */
  lemma ImageGoesWithItsText(s: State, id: EntryId)
    ensures Step(s, DropImage(id)) == s.(images := s.images - {id}, rows := s.rows - {id})
  {
  }

  ghost predicate Init(s: State) {
    s.workers == map[] && s.adrift == multiset{}
  }

  /** Whoever is inside alone is the only one inside. */
  ghost predicate GateOk(s: State) {
    forall v, w :: v in s.workers && w in s.workers && v != w && s.workers[v].Clearing? ==>
      !s.workers[w].Clearing? && !Shared(s.workers[w])
  }

  /** Moving one worker keeps the gate if it may be where it goes. */
  lemma GateMove(s: State, w: WorkerId, p: Phase)
    requires GateOk(s)
    requires p.Clearing? ==> NoneInside(s)
    requires Shared(p) ==> NoneAlone(s) || Shared(PhaseOf(s, w))
    ensures GateOk(To(s, w, p))
  {
  }

  lemma GateStep(s: State, a: Action)
    requires GateOk(s)
    ensures GateOk(Step(s, a))
  {
    match a {
      case EnterShared(w) => EnterKeepsGate(s, w);
      case Check(w) => CheckKeepsGate(s, w);
      case EnterAlone(w) => EnterKeepsGate(s, w);
      case Finish(w, fails) => LeaveKeepsGate(s, w, fails);
      case Clear(w, fails) => LeaveKeepsGate(s, w, fails);
      case Detach(w) => LeaveKeepsGate(s, w, false);
      case Cancel(w) => LeaveKeepsGate(s, w, false);
      case Shape(w, job) => GateMove(s, w, Shaped(job));
      case WantClear(w, keep) => GateMove(s, w, ClearWanted(keep));
      case _ =>
    }
  }

  lemma LeaveKeepsGate(s: State, w: WorkerId, fails: bool)
    requires GateOk(s)
    ensures GateOk(Step(s, Finish(w, fails))) && GateOk(Step(s, Clear(w, fails)))
    ensures GateOk(Step(s, Detach(w))) && GateOk(Step(s, Cancel(w)))
  {
    GateMove(s, w, Idle);
  }

  lemma EnterKeepsGate(s: State, w: WorkerId)
    requires GateOk(s)
    ensures GateOk(Step(s, EnterShared(w))) && GateOk(Step(s, EnterAlone(w)))
  {
    match PhaseOf(s, w) {
      case Shaped(job) => if NoneAlone(s) { GateMove(s, w, Reading(job)); }
      case ClearWanted(keep) => if NoneInside(s) { GateMove(s, w, Clearing(keep)); }
      case _ =>
    }
  }

  lemma CheckKeepsGate(s: State, w: WorkerId)
    requires GateOk(s)
    ensures GateOk(Step(s, Check(w)))
  {
    if PhaseOf(s, w).Reading? {
      var job := PhaseOf(s, w).job;
      GateMove(s, w, Idle);
      GateMove(s, w, Checked(job, s.on && s.policy == job.policy));
    }
  }

  lemma {:induction false} GateHolds(s: State, actions: seq<Action>)
    requires Init(s)
    ensures GateOk(Run(s, actions))
  {
    if actions != [] {
      GateHolds(s, actions[..|actions| - 1]);
      GateStep(Run(s, actions[..|actions| - 1]), actions[|actions| - 1]);
    }
  }

  // --- Off means empty ----------------------------------------------------------------------------

  /** The setting is off, nothing is stored, and no call that stores text is to come: neither from
    * inside the gate nor adrift.
    */
  ghost predicate Off(s: State) {
    && !s.on && s.rows == map[]
    && (forall w :: w in s.workers && s.workers[w].Checked? ==> !s.workers[w].store)
    && NoStoreAdrift(s)
  }

  ghost predicate NoStoreAdrift(s: State) {
    forall x :: x in s.adrift ==> !x.StoreText?
  }

  ghost predicate NeverTurnsOn(actions: seq<Action>) {
    forall i :: 0 <= i < |actions| && actions[i].Settings? ==> !actions[i].on
  }

  lemma OffMove(s: State, w: WorkerId, p: Phase)
    requires Off(s) && !(p.Checked? && p.store)
    ensures Off(To(s, w, p))
  {
  }

  lemma OffApplied(s: State, x: Write)
    requires Off(s) && !x.StoreText?
    ensures Off(Applied(s, x)) && Applied(s, x).workers == s.workers
  {
  }

  lemma OffCall(s: State, w: WorkerId)
    requires Off(s)
    ensures CallOf(PhaseOf(s, w)).Some? ==> !CallOf(PhaseOf(s, w)).value.StoreText?
  {
  }

  /** A worker inside the gate makes its call, or it fails. */
  lemma OffCalls(s: State, w: WorkerId, fails: bool)
    requires Off(s)
    ensures Off(Step(s, Finish(w, fails))) && Off(Step(s, Clear(w, fails)))
  {
    var call := CallOf(PhaseOf(s, w));
    OffCall(s, w);
    OffMove(s, w, Idle);
    if call.Some? {
      OffApplied(s, call.value);
      OffMove(Applied(s, call.value), w, Idle);
    }
  }

  lemma OffDetach(s: State, w: WorkerId)
    requires Off(s)
    ensures Off(Step(s, Detach(w)))
  {
    OffCall(s, w);
    if CallOf(PhaseOf(s, w)).Some? {
      var t := s.(adrift := s.adrift + multiset{CallOf(PhaseOf(s, w)).value});
      assert Off(t);
      OffMove(t, w, Idle);
    }
  }

  lemma OffLand(s: State, x: Write, fails: bool)
    requires Off(s)
    ensures Off(Step(s, Land(x, fails)))
  {
    if x in s.adrift {
      var t := s.(adrift := s.adrift - multiset{x});
      assert Off(t);
      OffApplied(t, x);
    }
  }

  lemma OffStep(s: State, a: Action)
    requires Off(s) && (a.Settings? ==> !a.on)
    ensures Off(Step(s, a))
  {
    match a {
      case Shape(w, job) => OffMove(s, w, Shaped(job));
      case EnterShared(w) => if PhaseOf(s, w).Shaped? { OffMove(s, w, Reading(PhaseOf(s, w).job)); }
      case Check(w) =>
        OffMove(s, w, Idle);
        if PhaseOf(s, w).Reading? { OffMove(s, w, Checked(PhaseOf(s, w).job, false)); }
      case Finish(w, fails) => OffCalls(s, w, fails);
      case WantClear(w, keep) => OffMove(s, w, ClearWanted(keep));
      case EnterAlone(w) => if PhaseOf(s, w).ClearWanted? { OffMove(s, w, Clearing(PhaseOf(s, w).keep)); }
      case Clear(w, fails) => OffCalls(s, w, fails);
      case Cancel(w) => OffMove(s, w, Idle);
      case Detach(w) => OffDetach(s, w);
      case Land(x, fails) => OffLand(s, x, fails);
      case _ =>
    }
  }

  lemma {:induction false} OffStays(s: State, later: seq<Action>)
    requires Off(s) && NeverTurnsOn(later)
    ensures Off(Run(s, later))
  {
    if later != [] {
      OffStays(s, later[..|later| - 1]);
      OffStep(Run(s, later[..|later| - 1]), later[|later| - 1]);
    }
  }

  lemma {:induction false} RunConcat(s: State, a: seq<Action>, b: seq<Action>)
    ensures Run(s, a + b) == Run(Run(s, a), b)
    decreases |b|
  {
    if b == [] {
      assert a + b == a;
    } else {
      RunConcat(s, a, b[..|b| - 1]);
      assert (a + b)[..|a + b| - 1] == a + b[..|b| - 1];
    }
  }

  /** Put the image back as it was read, and let the call land. */
  function LandingRun(job: Job): seq<Action> {
    [PutImage(job.id, StoredImage(job.hash, false)), Land(StoreText(job), false)]
  }

  lemma LandingStores(s: State, job: Job)
    requires StoreText(job) in s.adrift && job.id !in s.rows
    ensures job.id in Run(s, LandingRun(job)).rows && Run(s, LandingRun(job)).rows[job.id].policy == job.policy
  {
    var put := PutImage(job.id, StoredImage(job.hash, false));
    var run := LandingRun(job);
    assert run[..1] == [put] && run[..1][..0] == [];
    assert Run(s, run[..1]) == Step(s, put);
    LandingRecords(Step(s, put), job);
  }

  lemma LandingRecords(s: State, job: Job)
    requires StoreText(job) in s.adrift && job.id in s.images && s.images[job.id] == StoredImage(job.hash, false)
    requires job.id in s.rows ==> s.rows[job.id].policy != job.policy
    ensures job.id in Step(s, Land(StoreText(job), false)).rows
    ensures Step(s, Land(StoreText(job), false)).rows[job.id].policy == job.policy
  {
    assert Records(s, job);
  }

  /** Nothing will be stored again while the setting stays off. */
  ghost predicate FinalWhileOff(s: State) {
    forall later :: NeverTurnsOn(later) ==> Run(s, later).rows == map[]
  }

  /** A whole clear with the setting off is final, whatever recognitions are under way, exactly
    * when no call that stores text is adrift as it runs.
    */
  lemma ClearIsFinalIff(s: State, before: seq<Action>, w: WorkerId)
    requires Init(s)
    requires var at := Run(s, before); !at.on && PhaseOf(at, w) == Clearing(None)
    ensures FinalWhileOff(Run(s, before + [Clear(w, false)])) <==> NoStoreAdrift(Run(s, before))
  {
    var at := Run(s, before);
    GateHolds(s, before);
    assert (before + [Clear(w, false)])[..|before|] == before;
    var after := Step(at, Clear(w, false));
    assert Run(s, before + [Clear(w, false)]) == after && after.rows == map[] && after.adrift == at.adrift;
    if NoStoreAdrift(at) {
      assert Off(after);
      forall later | NeverTurnsOn(later) ensures Run(after, later).rows == map[] { OffStays(after, later); }
    } else {
      var x :| x in at.adrift && x.StoreText?;
      LandingStores(after, x.job);
      assert NeverTurnsOn(LandingRun(x.job));
    }
  }

  /** So without a dropped caller: once a clear has gone through with the setting off, no recognized
    * text is stored again until the setting is turned on.
    */
  lemma ClearedOffStaysEmpty(s: State, before: seq<Action>, w: WorkerId, later: seq<Action>)
    requires Init(s) && NeverTurnsOn(later)
    requires var at := Run(s, before); !at.on && PhaseOf(at, w) == Clearing(None) && NoStoreAdrift(at)
    ensures Run(s, before + [Clear(w, false)] + later).rows == map[]
  {
    ClearIsFinalIff(s, before, w);
    RunConcat(s, before + [Clear(w, false)], later);
  }

  /** A read image, a panic that drops the indexer in the middle of its store call, the setting
    * turned off, and the clear of the indexer that takes its place.
    */
  function DroppedRun(job: Job): seq<Action> {
    [Shape(1, job), EnterShared(1), Check(1), Detach(1), Settings(false, job.policy), WantClear(2, None), EnterAlone(2)]
  }

  function DroppedStart(job: Job): State {
    State(true, job.policy, map[job.id := StoredImage(job.hash, false)], map[], map[], multiset{})
  }

  /** A run is where its steps lead, one by one. */
  lemma {:induction false} RunThrough(states: seq<State>, run: seq<Action>)
    requires |states| == |run| + 1 && forall i :: 0 <= i < |run| ==> states[i + 1] == Step(states[i], run[i])
    ensures Run(states[0], run) == states[|run|]
  {
    if run != [] {
      RunThrough(states[..|run|], run[..|run| - 1]);
    }
  }

  /** The states that run goes through. */
  function DroppedStates(job: Job): seq<State> {
    var s := DroppedStart(job);
    var adrift := multiset{StoreText(job)};
    [s, s.(workers := map[1 := Shaped(job)]), s.(workers := map[1 := Reading(job)]), s.(workers := map[1 := Checked(job, true)]),
     s.(workers := map[1 := Idle], adrift := adrift), s.(on := false, workers := map[1 := Idle], adrift := adrift),
     s.(on := false, workers := map[1 := Idle, 2 := ClearWanted(None)], adrift := adrift),
     s.(on := false, workers := map[1 := Idle, 2 := Clearing(None)], adrift := adrift)]
  }

  lemma DroppedFirst(job: Job, i: nat)
    requires i < 2
    ensures DroppedStates(job)[i + 1] == Step(DroppedStates(job)[i], DroppedRun(job)[i])
  {
    if i == 0 {} else {}
  }

  lemma DroppedNext(job: Job, i: nat)
    requires job.background && 2 <= i < 4
    ensures DroppedStates(job)[i + 1] == Step(DroppedStates(job)[i], DroppedRun(job)[i])
  {
    if i == 2 {} else {}
  }

  lemma DroppedThen(job: Job, i: nat)
    requires 4 <= i < 7
    ensures DroppedStates(job)[i + 1] == Step(DroppedStates(job)[i], DroppedRun(job)[i])
  {
    if i == 4 {} else if i == 5 {} else {}
  }

  /** The promise fails as written: from a clean start with the setting on, that run reaches the
    * clear with a store call adrift, and the text is stored after the clear.
    */
  lemma DroppedIndexerLeavesText(job: Job)
    requires job.background
    ensures Init(DroppedStart(job))
    ensures var at := Run(DroppedStart(job), DroppedRun(job));
      && !at.on && PhaseOf(at, 2) == Clearing(None)
      && !NoStoreAdrift(at)
      && job.id in Step(Step(at, Clear(2, false)), Land(StoreText(job), false)).rows
  {
    var states, run := DroppedStates(job), DroppedRun(job);
    forall i | 0 <= i < |run| ensures states[i + 1] == Step(states[i], run[i]) {
      if i < 2 { DroppedFirst(job, i); } else if i < 4 { DroppedNext(job, i); } else { DroppedThen(job, i); }
    }
    RunThrough(states, run);
    LandsAfterClear(states[7], job);
  }

  lemma LandsAfterClear(at: State, job: Job)
    requires PhaseOf(at, 2) == Clearing(None) && StoreText(job) in at.adrift
    requires job.id in at.images && at.images[job.id] == StoredImage(job.hash, false)
    ensures job.id in Step(Step(at, Clear(2, false)), Land(StoreText(job), false)).rows
  {
    assert Records(Step(at, Clear(2, false)), job);
  }

  // --- One policy's text ------------------------------------------------------------------------------

  /** Everything stored, and everything about to be, carries the current policy. */
  ghost predicate Uniform(s: State) {
    && (forall id :: id in s.rows ==> s.rows[id].policy == s.policy)
    && (forall w :: w in s.workers && s.workers[w].Checked? && s.workers[w].store ==> s.workers[w].job.policy == s.policy)
    && AdriftUnder(s, s.policy)
  }

  /** Every call adrift that stores text was shaped under `policy`. */
  ghost predicate AdriftUnder(s: State, policy: PolicyId) {
    forall x :: x in s.adrift && x.StoreText? ==> x.job.policy == policy
  }

  ghost predicate KeepsPolicy(actions: seq<Action>, policy: PolicyId) {
    forall i :: 0 <= i < |actions| && actions[i].Settings? ==> actions[i].policy == policy
  }

  lemma UniformMove(s: State, w: WorkerId, p: Phase)
    requires Uniform(s) && (p.Checked? && p.store ==> p.job.policy == s.policy)
    ensures Uniform(To(s, w, p))
  {
  }

  /** A store call of this policy, or one that stores nothing, leaves only this policy's text. */
  lemma UniformApplied(s: State, x: Write)
    requires Uniform(s) && (x.StoreText? ==> x.job.policy == s.policy)
    ensures Uniform(Applied(s, x)) && Applied(s, x).workers == s.workers && Applied(s, x).policy == s.policy
  {
  }

  lemma UniformCalls(s: State, w: WorkerId, fails: bool)
    requires Uniform(s)
    ensures Uniform(Step(s, Finish(w, fails))) && Uniform(Step(s, Clear(w, fails)))
  {
    var call := CallOf(PhaseOf(s, w));
    UniformMove(s, w, Idle);
    if call.Some? {
      UniformApplied(s, call.value);
      UniformMove(Applied(s, call.value), w, Idle);
    }
  }

  lemma UniformDetach(s: State, w: WorkerId)
    requires Uniform(s)
    ensures Uniform(Step(s, Detach(w)))
  {
    if CallOf(PhaseOf(s, w)).Some? {
      var t := s.(adrift := s.adrift + multiset{CallOf(PhaseOf(s, w)).value});
      assert Uniform(t);
      UniformMove(t, w, Idle);
    }
  }

  lemma UniformLand(s: State, x: Write, fails: bool)
    requires Uniform(s)
    ensures Uniform(Step(s, Land(x, fails)))
  {
    if x in s.adrift {
      var t := s.(adrift := s.adrift - multiset{x});
      assert Uniform(t);
      UniformApplied(t, x);
    }
  }

  lemma StepPolicy(s: State, a: Action)
    ensures Step(s, a).policy == if a.Settings? then a.policy else s.policy
  {
  }

  lemma UniformStep(s: State, a: Action)
    requires Uniform(s) && (a.Settings? ==> a.policy == s.policy)
    ensures Uniform(Step(s, a)) && Step(s, a).policy == s.policy
  {
    StepPolicy(s, a);
    match a {
      case Shape(w, job) => UniformMove(s, w, Shaped(job));
      case EnterShared(w) => if PhaseOf(s, w).Shaped? { UniformMove(s, w, Reading(PhaseOf(s, w).job)); }
      case Check(w) =>
        UniformMove(s, w, Idle);
        if PhaseOf(s, w).Reading? {
          var job := PhaseOf(s, w).job;
          UniformMove(s, w, Checked(job, s.on && s.policy == job.policy));
        }
      case Finish(w, fails) => UniformCalls(s, w, fails);
      case WantClear(w, keep) => UniformMove(s, w, ClearWanted(keep));
      case EnterAlone(w) => if PhaseOf(s, w).ClearWanted? { UniformMove(s, w, Clearing(PhaseOf(s, w).keep)); }
      case Clear(w, fails) => UniformCalls(s, w, fails);
      case Cancel(w) => UniformMove(s, w, Idle);
      case Detach(w) => UniformDetach(s, w);
      case Land(x, fails) => UniformLand(s, x, fails);
      case _ =>
    }
  }

  lemma {:induction false} UniformStays(s: State, later: seq<Action>)
    requires Uniform(s) && KeepsPolicy(later, s.policy)
    ensures Uniform(Run(s, later)) && Run(s, later).policy == s.policy
  {
    if later != [] {
      UniformStays(s, later[..|later| - 1]);
      UniformStep(Run(s, later[..|later| - 1]), later[|later| - 1]);
    }
  }

  /** All text that is ever stored while the policy stays carries it. */
  ghost predicate OnePolicyFrom(s: State, policy: PolicyId) {
    forall later, id :: KeepsPolicy(later, policy) && id in Run(s, later).rows ==> Run(s, later).rows[id].policy == policy
  }

  /** After a clear that keeps the current policy's text, all stored text carries that policy for as
    * long as the policy stays, exactly when every storing call adrift as it runs was shaped under it.
    */
  lemma ClearedTextIsOfOnePolicyIff(s: State, before: seq<Action>, w: WorkerId)
    requires Init(s)
    requires var at := Run(s, before); PhaseOf(at, w) == Clearing(Some(at.policy))
    ensures OnePolicyFrom(Run(s, before + [Clear(w, false)]), Run(s, before).policy)
       <==> AdriftUnder(Run(s, before), Run(s, before).policy)
  {
    var at := Run(s, before);
    GateHolds(s, before);
    assert (before + [Clear(w, false)])[..|before|] == before;
    var after := Step(at, Clear(w, false));
    if AdriftUnder(at, at.policy) {
      assert Uniform(after);
      forall later, id | KeepsPolicy(later, at.policy) && id in Run(after, later).rows
        ensures Run(after, later).rows[id].policy == at.policy
      {
        UniformStays(after, later);
      }
    } else {
      var x :| x in at.adrift && x.StoreText? && x.job.policy != at.policy;
      ForeignLanding(after, x.job);
    }
  }

  /** A call of another policy, landing on the image it read, stores its own policy's text. */
  lemma ForeignLanding(s: State, job: Job)
    requires StoreText(job) in s.adrift && job.policy != s.policy
    requires forall id :: id in s.rows ==> s.rows[id].policy == s.policy
    ensures !OnePolicyFrom(s, s.policy)
  {
    var put := PutImage(job.id, StoredImage(job.hash, false));
    var run := LandingRun(job);
    assert run[..1] == [put] && run[..1][..0] == [];
    assert Run(s, run[..1]) == Step(s, put);
    LandingRecords(Step(s, put), job);
    assert KeepsPolicy(run, s.policy) && job.id in Run(s, run).rows && Run(s, run).rows[job.id].policy == job.policy;
  }

  lemma ClearedTextIsOfOnePolicy(s: State, before: seq<Action>, w: WorkerId, later: seq<Action>, id: EntryId)
    requires Init(s)
    requires var at := Run(s, before);
      PhaseOf(at, w) == Clearing(Some(at.policy)) && AdriftUnder(at, at.policy) && KeepsPolicy(later, at.policy)
    requires id in Run(s, before + [Clear(w, false)] + later).rows
    ensures Run(s, before + [Clear(w, false)] + later).rows[id].policy == Run(s, before).policy
  {
    ClearedTextIsOfOnePolicyIff(s, before, w);
    RunConcat(s, before + [Clear(w, false)], later);
  }

  // --- A masked image is never written ------------------------------------------------------------------

  /** No step stores text for an image that is masked, and only a new or dropped image is unmasked. */
  lemma MaskedImagesAreLeftAlone(s: State, a: Action, id: EntryId)
    requires id in s.images && s.images[id].masked
    requires !(a.PutImage? && a.id == id) && !(a.DropImage? && a.id == id)
    ensures var t := Step(s, a);
      && id in t.images && t.images[id].masked
      && (id in t.rows ==> id in s.rows && t.rows[id] == s.rows[id])
  {
    match a {
      case Finish(w, _) => if CallOf(PhaseOf(s, w)).Some? { MaskedApplied(s, CallOf(PhaseOf(s, w)).value, id); }
      case Clear(w, _) => MaskedApplied(s, ClearText(if PhaseOf(s, w).Clearing? then PhaseOf(s, w).keep else None), id);
      case Land(x, _) => MaskedApplied(s.(adrift := s.adrift - multiset{x}), x, id);
      case _ =>
    }
  }

  lemma MaskedApplied(s: State, x: Write, id: EntryId)
    requires id in s.images && s.images[id].masked
    ensures var t := Applied(s, x);
      && id in t.images && t.images[id].masked
      && (id in t.rows ==> id in s.rows && t.rows[id] == s.rows[id])
  {
  }

  // --- The same writes as methods, each run inside its gate ------------------------------------------------

  class TextIndex {
    var s: State

    constructor (s: State)
      ensures this.s == s
    {
      this.s := s;
    }

    predicate StillCurrent(policy: PolicyId)
      reads this
    {
      s.on && s.policy == policy
    }

    /** On request: the text is stored only while the setting is on under its own policy, but an
      * image that shows private content is masked either way.
      */
    method StoreExtractedText(job: Job, fails: bool) returns (r: Result<bool, string>)
      requires !job.failed
      modifies this
      ensures r.Err? ==> s == old(s)
      ensures r.Ok? ==> s == if old(s).on && old(s).policy == job.policy then Recorded(old(s), job)
                             else if job.raises then Raised(old(s), job) else old(s)
      ensures r.Ok? ==> (r.value <==> job.raises && Readable(old(s), job))
      ensures r == Ok(true) ==> s.images[job.id].masked
    {
      var storeText := StillCurrent(job.policy);
      if fails && (storeText || job.raises) { return Err("storage"); }
      if storeText {
        var recorded := Records(s, job);
        s := Recorded(s, job);
        return Ok(recorded && job.raises);
      }
      if job.raises {
        var changed := Readable(s, job);
        s := Raised(s, job);
        return Ok(changed);
      }
      r := Ok(false);
    }

    /** In the background: nothing is written once the setting or the policy has moved. */
    method RecordIndexedText(job: Job, fails: bool) returns (goOn: bool)
      modifies this
      ensures goOn <==> old(s).on && old(s).policy == job.policy && !fails
      ensures s == if goOn then Recorded(old(s), job) else old(s)
    {
      if !StillCurrent(job.policy) { return false; }
      if fails { return false; }
      s := Recorded(s, job);
      goOn := true;
    }

    /** Skips the store call when it can tell there is nothing to clear; the effect is the same. */
    method ClearTextRecognition(keep: Option<PolicyId>, probeFails: bool, fails: bool)
      modifies this
      ensures s == old(s).(rows := s.rows)
      ensures s.rows == Kept(old(s).rows, keep) || (fails && s.rows == old(s).rows)
      ensures !fails && keep.None? ==> s.rows == map[]
    {
      var any := probeFails || s.rows != map[];
      if keep.None? && !any { return; }
      if !fails { s := s.(rows := Kept(s.rows, keep)); }
    }
  }
}
