/** Clear-on-quit: the marker protocol, across sessions and crashes. */
module ClearOnQuit {
  import opened Wrappers

  type EntryId = nat

  /** The pin bit of every stored entry. */
  type History = map<EntryId, bool>

  function Purged(h: History): (r: History)
    ensures r.Keys <= h.Keys && forall id :: id in r <==> id in h && h[id]
  {
    map id | id in h && h[id] :: true
  }

  /** Whether the marker file is there, as the file system reports it. */
  datatype Probe = Present(here: bool) | ProbeError

  datatype PurgeEnd = PurgeOk | PurgeFailed(committed: bool)

  function AfterPurge(h: History, end: PurgeEnd): History {
    if end.PurgeOk? || end.committed then Purged(h) else h
  }

  // --- The two host calls ------------------------------------------------------------

  class Host {
    var entries: History
    var marker: bool

    constructor (entries: History, marker: bool)
      ensures this.entries == entries && this.marker == marker
    {
      this.entries, this.marker := entries, marker;
    }

    /** An unreadable marker counts as pending. */
    method IsPending(probeFails: bool) returns (pending: bool)
      ensures pending == (probeFails || marker)
    {
      pending := probeFails || marker;
    }

    /** Run on open, under the instance lock. Success means nothing is left pending; after a
      * failure the caller must not serve, and a marker that was there still is.
      */
    method FinishPending(probeFails: bool, purge: PurgeEnd, removeFails: bool) returns (r: Result<bool, string>)
      modifies this
      ensures r.Ok? ==> !marker && (if r.value then entries == Purged(old(entries)) else entries == old(entries))
      ensures r.Ok? ==> r.value == (probeFails || old(marker))
      ensures r.Err? ==> marker == old(marker) && (entries == old(entries) || entries == Purged(old(entries)))
      ensures probeFails || old(marker) ==>
        entries == if purge.PurgeOk? || purge.committed then Purged(old(entries)) else old(entries)
      ensures r.Err? <==> (probeFails || old(marker)) && (purge.PurgeFailed? || removeFails)
    {
      var pending := IsPending(probeFails);
      if !pending { return Ok(false); }
      entries := AfterPurge(entries, purge);
      if purge.PurgeFailed? { return Err("the history to clear on quit is still present"); }
      if removeFails { return Err("the marker could not be removed"); }
      marker := false;
      r := Ok(true);
    }

    /** Run on quit. Whatever goes wrong after the marker is written, either nothing unpinned is
      * left or the marker is; without a marker the purge is at least waited for.
      */
    method ClearHistory(enabled: bool, markFails: bool, timesOut: bool, purge: PurgeEnd, removeFails: bool)
      returns (was: bool)
      modifies this
      ensures was == enabled
      ensures !enabled ==> entries == old(entries) && marker == old(marker)
      ensures enabled ==> entries == if purge.PurgeOk? || purge.committed then Purged(old(entries)) else old(entries)
      ensures enabled && !markFails ==> marker || entries == Purged(old(entries))
      ensures enabled && !markFails ==> (!marker <==> !timesOut && purge.PurgeOk? && !removeFails)
      ensures enabled && markFails ==> marker == old(marker) && (purge.PurgeOk? ==> entries == Purged(old(entries)))
    {
      if !enabled { return false; }
      if markFails {
        entries := AfterPurge(entries, purge);
        return true;
      }
      marker := true;
      var end := if timesOut then PurgeFailed(purge.PurgeOk? || purge.committed) else purge;
      entries := AfterPurge(entries, end);
      if end.PurgeOk? && !removeFails { marker := false; }
      was := true;
    }
  }

  // --- Sessions, one step at a time ------------------------------------------------------

  /** A quit writes the marker, purges what is not pinned and removes the marker; an open that
    * finds the marker finishes the purge before it serves or records anything. Any step may fail,
    * time out or be the last one before a crash.
    */
  datatype Phase =
    | Closed
    | Opened                 // the instance lock is held; the marker has not been looked at
    | Resuming               // pending: the purge comes first
    | Unmarking              // purged on open; the marker goes next
    | Serving
    | Quitting               // the setting is on; the marker goes first
    | PurgingUnmarked        // the marker could not be written
    | Purging(bounded: bool)
    | Abandoned              // timed out: the purge may still land until the process goes
    | QuitUnmarking

  /** Entries are named by the moment they were recorded. `owed` is every entry that was
    * unpinned when some quit left its marker.
    */
  datatype State = State(entries: History, marker: bool, phase: Phase, clock: nat, openedAt: nat, setting: bool, owed: set<EntryId>)

  datatype Action =
    | Open
    | LookForMarker(probe: Probe)
    | PurgeStep(end: PurgeEnd)
    | RemoveMarker(fails: bool)
    | Record(pinned: bool)
    | SetPinned(id: EntryId, pinned: bool)
    | Delete(id: EntryId)
    | SetSetting(on: bool)
    | Quit
    | WriteMarker(fails: bool, created: bool, bounded: bool)
    | TimeOut
    | LatePurge                        // the abandoned purge lands
    | Exit
    | Crash(landed: bool)              // `landed`: a purge in flight had already committed

  function Unpinned(h: History): set<EntryId> {
    set id | id in h && !h[id]
  }

  predicate PurgeInFlight(p: Phase) {
    p.Resuming? || p.PurgingUnmarked? || p.Purging? || p.Abandoned?
  }

  function Marked(s: State): State {
    s.(marker := true, owed := s.owed + Unpinned(s.entries))
  }

  function Move(s: State, a: Action): State {
    match (a, s.phase)
    case (Open, Closed) => s.(phase := Opened, openedAt := s.clock)
    case (LookForMarker(ProbeError), Opened) => s.(phase := Resuming)
    case (LookForMarker(Present(here)), Opened) =>
      if here != s.marker then s else if here then s.(phase := Resuming) else s.(phase := Serving)
    case (PurgeStep(end), Resuming) =>
      s.(entries := AfterPurge(s.entries, end), phase := if end.PurgeOk? then Unmarking else Closed)
    case (RemoveMarker(fails), Unmarking) => if fails then s.(phase := Closed) else s.(marker := false, phase := Serving)
    case (Record(pinned), Serving) => s.(entries := s.entries[s.clock := pinned])
    case (SetPinned(id, pinned), Serving) => if id in s.entries then s.(entries := s.entries[id := pinned]) else s
    case (Delete(id), Serving) => s.(entries := s.entries - {id})
    case (SetSetting(on), Serving) => s.(setting := on)
    case (Quit, Serving) => s.(phase := if s.setting then Quitting else Closed)
    case (WriteMarker(fails, created, bounded), Quitting) =>
      if fails then (if created then Marked(s) else s).(phase := PurgingUnmarked)
      else Marked(s).(phase := Purging(bounded))
    case (PurgeStep(end), PurgingUnmarked) => s.(entries := AfterPurge(s.entries, end), phase := Closed)
    case (PurgeStep(end), Purging(_)) =>
      s.(entries := AfterPurge(s.entries, end), phase := if end.PurgeOk? then QuitUnmarking else Closed)
    case (TimeOut, Purging(bounded)) => if bounded then s.(phase := Abandoned) else s
    case (LatePurge, Abandoned) => s.(entries := Purged(s.entries))
    case (RemoveMarker(fails), QuitUnmarking) => s.(marker := s.marker && fails, phase := Closed)
    case (Exit, Abandoned) => s.(phase := Closed)
    case (Crash(landed), _) =>
      s.(phase := Closed, entries := if landed && PurgeInFlight(s.phase) then Purged(s.entries) else s.entries)
    case _ => s
  }

  function Step(s: State, a: Action): State {
    Move(s, a).(clock := s.clock + 1)
  }

  function Run(s: State, actions: seq<Action>): State {
    if actions == [] then s else Step(Run(s, actions[..|actions| - 1]), actions[|actions| - 1])
  }

  /** A quit in which nothing fails leaves exactly the pinned entries and no marker; with the setting off
    * it leaves everything as it is.
    */
  lemma CleanQuit(s: State, bounded: bool, id: EntryId)
    requires s.phase.Serving?
    ensures var t := Step(Step(Step(Step(s, Quit), WriteMarker(false, true, bounded)), PurgeStep(PurgeOk)), RemoveMarker(false));
      && t.phase.Closed?
      && (s.setting ==> !t.marker && (id in t.entries <==> id in s.entries && s.entries[id]) && (id in t.entries ==> t.entries[id]))
      && (!s.setting ==> t.entries == s.entries && t.marker == s.marker)
  {
  }

  /** An open serves what it finds, after finishing the purge an earlier quit left to it; a marker it cannot
    * look for counts as there.
    */
  lemma CleanOpen(s: State, id: EntryId)
    requires s.phase.Closed?
    ensures var found := Step(Step(s, Open), LookForMarker(Present(s.marker)));
      var t := if s.marker then Step(Step(found, PurgeStep(PurgeOk)), RemoveMarker(false)) else found;
      && t.phase.Serving? && !t.marker
      && (if s.marker then id in t.entries <==> id in s.entries && s.entries[id] else t.entries == s.entries)
    ensures var blind := Step(Step(s, Open), LookForMarker(ProbeError));
      blind.phase.Resuming? && blind.entries == s.entries && blind.marker == s.marker
  {
  }

  /** While history is shown it can be edited, one entry at a time, and so can the setting. */
  lemma ServingEdits(s: State, id: EntryId, pinned: bool, on: bool)
    requires s.phase.Serving?
    ensures var now := s.(clock := s.clock + 1);
      && Step(s, Record(pinned)) == now.(entries := s.entries[s.clock := pinned])
      && Step(s, SetPinned(id, pinned)) == (if id in s.entries then now.(entries := s.entries[id := pinned]) else now)
      && Step(s, Delete(id)) == now.(entries := s.entries - {id})
      && Step(s, SetSetting(on)) == now.(setting := on)
  {
  }

  /** A bounded quit stops waiting for its purge, which may still land until the process goes; the marker
    * stays. An unbounded one waits.
    */
  lemma TimedOutQuit(s: State)
    requires s.phase.Purging?
    ensures var now := s.(clock := s.clock + 1); var t := Step(s, TimeOut);
      && t == (if s.phase.bounded then now.(phase := Abandoned) else now)
      && (s.phase.bounded ==>
            && Step(t, LatePurge) == t.(entries := Purged(s.entries), clock := t.clock + 1)
            && Step(t, Exit) == t.(phase := Closed, clock := t.clock + 1))
  {
  }

  /** A crash ends the session wherever it is; of the history only a purge that had landed is seen. */
  lemma CrashEnds(s: State, landed: bool)
    ensures Step(s, Crash(landed)) == s.(phase := Closed, clock := s.clock + 1, entries :=
      if landed && (s.phase.Resuming? || s.phase.PurgingUnmarked? || s.phase.Purging? || s.phase.Abandoned?)
      then Purged(s.entries) else s.entries)
  {
  }

  /** A first start: a store nobody owns, and no marker beside it. */
  ghost predicate Init(s: State) {
    && s.phase.Closed? && !s.marker && s.owed == {} && s.openedAt <= s.clock
    && forall id :: id in s.entries ==> id < s.clock
  }

  // --- The invariant ------------------------------------------------------------------------

  predicate BeforeServing(p: Phase) {
    p.Opened? || p.Resuming? || p.Unmarking?
  }

  /** The phases in which history is shown and recorded. */
  predicate Live(p: Phase) {
    p.Serving? || p.Quitting?
  }

  /** No entry is left that some marked quit should have cleared. */
  ghost predicate NothingOwed(s: State) {
    forall id :: id in s.owed ==> id !in s.entries
  }

  ghost predicate Inv(s: State) {
    && s.openedAt <= s.clock
    && (forall id :: id in s.entries || id in s.owed ==> id < s.clock)
    && (forall id :: id in s.owed && id in s.entries ==> !s.entries[id])
    && (Live(s.phase) ==> !s.marker && NothingOwed(s))
    && (!s.marker || s.phase.Unmarking? || s.phase.QuitUnmarking? ==> NothingOwed(s))
    && (s.phase.Purging? || s.phase.Abandoned? || s.phase.QuitUnmarking? ==> s.marker)
    && (s.marker ==> Unpinned(s.entries) <= s.owed)
    && (BeforeServing(s.phase) ==> forall id :: id in s.entries ==> id < s.openedAt)
  }

  /** A purge keeps the invariant wherever a phase allows one, and leaves nothing owed. */
  lemma PurgeKeepsInv(s: State)
    requires Inv(s)
    ensures Inv(s.(entries := Purged(s.entries))) && NothingOwed(s.(entries := Purged(s.entries)))
  {
    forall id | id in s.owed ensures id !in Purged(s.entries) {}
  }

  lemma OpeningKeepsInv(s: State, a: Action)
    requires Inv(s) && (s.phase.Closed? || BeforeServing(s.phase)) && !a.Crash?
    ensures Inv(Step(s, a))
  {
    match s.phase {
      case Closed =>
      case Resuming => ResumingKeepsInv(s, a);
      case _ => LookingKeepsInv(s, a);
    }
  }

  lemma ResumingKeepsInv(s: State, a: Action)
    requires Inv(s) && s.phase.Resuming? && !a.Crash?
    ensures Inv(Step(s, a))
  {
    PurgeKeepsInv(s);
  }

  lemma LookingKeepsInv(s: State, a: Action)
    requires Inv(s) && (s.phase.Opened? || s.phase.Unmarking?) && !a.Crash?
    ensures Inv(Step(s, a))
  {
  }

  lemma ServingKeepsInv(s: State, a: Action)
    requires Inv(s) && s.phase.Serving? && !a.Crash?
    ensures Inv(Step(s, a))
  {
  }

  lemma QuittingKeepsInv(s: State, a: Action)
    requires Inv(s) && (s.phase.Quitting? || s.phase.PurgingUnmarked?) && !a.Crash?
    ensures Inv(Step(s, a))
  {
    PurgeKeepsInv(s);
  }

  lemma MarkedQuitKeepsInv(s: State, a: Action)
    requires Inv(s) && (s.phase.Purging? || s.phase.Abandoned? || s.phase.QuitUnmarking?) && !a.Crash?
    ensures Inv(Step(s, a))
  {
    PurgeKeepsInv(s);
  }

  lemma CrashKeepsInv(s: State, landed: bool)
    requires Inv(s)
    ensures Inv(Step(s, Crash(landed)))
  {
    PurgeKeepsInv(s);
  }

  lemma StepKeepsInv(s: State, a: Action)
    requires Inv(s)
    ensures Inv(Step(s, a))
  {
    if a.Crash? {
      CrashKeepsInv(s, a.landed);
    } else {
      match s.phase {
        case Serving => ServingKeepsInv(s, a);
        case Quitting => QuittingKeepsInv(s, a);
        case PurgingUnmarked => QuittingKeepsInv(s, a);
        case Purging(_) => MarkedQuitKeepsInv(s, a);
        case Abandoned => MarkedQuitKeepsInv(s, a);
        case QuitUnmarking => MarkedQuitKeepsInv(s, a);
        case _ => OpeningKeepsInv(s, a);
      }
    }
  }

  lemma {:induction false} RunKeepsInv(s: State, actions: seq<Action>)
    requires Init(s)
    ensures Inv(Run(s, actions))
  {
    if actions != [] {
      RunKeepsInv(s, actions[..|actions| - 1]);
      StepKeepsInv(Run(s, actions[..|actions| - 1]), actions[|actions| - 1]);
    }
  }

  lemma {:induction false} OwedOnlyGrows(s: State, actions: seq<Action>, more: seq<Action>)
    ensures Run(s, actions).owed <= Run(s, actions + more).owed
    decreases |more|
  {
    if more == [] {
      assert actions + more == actions;
    } else {
      OwedOnlyGrows(s, actions, more[..|more| - 1]);
      assert (actions + more)[..|actions + more| - 1] == actions + more[..|more| - 1];
    }
  }

  /** Once a quit has left its marker, nothing unpinned at that quit is ever served again:
    * not in the next session, not in any later one, whatever fails in between.
    */
  lemma ClearedHistoryIsNeverServed(s: State, before: seq<Action>, quit: Action, later: seq<Action>, id: EntryId)
    requires Init(s) && quit.WriteMarker? && (quit.fails ==> quit.created)
    requires Run(s, before).phase.Quitting?
    requires id in Run(s, before).entries && !Run(s, before).entries[id]
    requires Live(Run(s, before + [quit] + later).phase)
    ensures id !in Run(s, before + [quit] + later).entries
  {
    assert (before + [quit])[..|before|] == before;
    assert id in Run(s, before + [quit]).owed;
    OwedOnlyGrows(s, before + [quit], later);
    RunKeepsInv(s, before + [quit] + later);
    var now := Run(s, before + [quit] + later);
    assert id in now.owed;
  }

  /** A resumed purge deletes only what was recorded before the open that runs it; and when the
    * marker really is there, only what was unpinned at a quit that left it.
    */
  lemma ResumedPurgeSparesNewHistory(s: State, actions: seq<Action>, end: PurgeEnd, id: EntryId)
    requires Init(s) && Run(s, actions).phase.Resuming?
    requires var now := Run(s, actions); id in now.entries && id !in Step(now, PurgeStep(end)).entries
    ensures var now := Run(s, actions);
      id < now.openedAt && !now.entries[id] && (now.marker ==> id in now.owed)
  {
    RunKeepsInv(s, actions);
  }

  /** A session that gets as far as serving has nothing pending: it finished the purge, or found
    * no marker to finish.
    */
  lemma ServingMeansNothingPending(s: State, actions: seq<Action>)
    requires Init(s) && Live(Run(s, actions).phase)
    ensures var now := Run(s, actions); !now.marker && NothingOwed(now)
  {
    RunKeepsInv(s, actions);
  }

  /** The step by which a purge reaches the store. */
  predicate PurgeLands(s: State, a: Action) {
    match a
    case PurgeStep(end) =>
      (s.phase.Resuming? || s.phase.PurgingUnmarked? || s.phase.Purging?) && (end.PurgeOk? || end.committed)
    case LatePurge => s.phase.Abandoned?
    case Crash(landed) => landed && PurgeInFlight(s.phase)
    case _ => false
  }

  ghost predicate NoPurgeLands(s: State, actions: seq<Action>) {
    forall i :: 0 <= i < |actions| ==> !PurgeLands(Run(s, actions[..i]), actions[i])
  }

  /** Nobody sees or edits the history while the actions run. */
  ghost predicate Unattended(s: State, actions: seq<Action>) {
    forall i :: 0 <= i < |actions| ==> !Live(Run(s, actions[..i]).phase)
  }

  lemma UnattendedStep(s: State, a: Action, id: EntryId)
    requires !Live(s.phase) && (id in s.entries ==> !s.entries[id])
    ensures var t := Step(s, a);
      && (id in t.entries <==> id in s.entries && !PurgeLands(s, a))
      && (id in t.entries ==> !t.entries[id])
  {
  }

  /** Without a marker the guarantee is only as good as the purge itself: whatever happens after a
    * quit whose marker could not be written, crashes and failures included, until history is next
    * shown, what was unpinned at that quit is still there exactly when no purge has landed.
    */
  lemma {:induction false} UnmarkedQuitServesIff(s: State, later: seq<Action>, id: EntryId)
    requires s.phase.PurgingUnmarked? && id in s.entries && !s.entries[id] && Unattended(s, later)
    ensures id in Run(s, later).entries <==> NoPurgeLands(s, later)
    ensures id in Run(s, later).entries ==> !Run(s, later).entries[id]
  {
    if later != [] {
      var before := later[..|later| - 1];
      forall i | 0 <= i < |before| ensures before[..i] == later[..i] {}
      forall i | 0 <= i < |before| ensures !Live(Run(s, before[..i]).phase) { assert !Live(Run(s, later[..i]).phase); }
      UnmarkedQuitServesIff(s, before, id);
      assert !Live(Run(s, later[..|before|]).phase);
      UnattendedStep(Run(s, before), later[|before|], id);
      LandsEarlier(s, later);
    }
  }

  lemma LandsEarlier(s: State, later: seq<Action>)
    requires later != []
    ensures var before := later[..|later| - 1];
      NoPurgeLands(s, later) <==> NoPurgeLands(s, before) && !PurgeLands(Run(s, before), later[|before|])
  {
    var before := later[..|later| - 1];
    forall i | 0 <= i < |before| ensures before[..i] == later[..i] {}
    if NoPurgeLands(s, before) && !PurgeLands(Run(s, before), later[|before|]) {
      forall i | 0 <= i < |later| ensures !PurgeLands(Run(s, later[..i]), later[i]) {
        if i < |before| { assert !PurgeLands(Run(s, before[..i]), before[i]); }
      }
    }
    if NoPurgeLands(s, later) {
      forall i | 0 <= i < |before| ensures !PurgeLands(Run(s, before[..i]), before[i]) {
        assert !PurgeLands(Run(s, later[..i]), later[i]);
      }
      assert !PurgeLands(Run(s, later[..|before|]), later[|before|]);
    }
  }

  /** And it can be served: the purge fails, and the next session finds no marker. */
  lemma UnmarkedQuitCanServe(s: State, id: EntryId)
    requires Inv(s) && s.phase.Quitting? && id in s.entries && !s.entries[id]
    ensures var closed := Step(Step(s, WriteMarker(true, false, false)), PurgeStep(PurgeFailed(false)));
      var next := Step(Step(closed, Open), LookForMarker(Present(false)));
      next.phase.Serving? && id in next.entries
  {
  }

  /** The promise is about what was unpinned at the quit: an entry pinned then stays, and may be
    * unpinned and served in the next session.
    */
  lemma PinnedAtQuitMayBeServedUnpinned(s: State, id: EntryId)
    requires Inv(s) && s.phase.Quitting? && id in s.entries && s.entries[id]
    ensures var quit := Step(Step(Step(s, WriteMarker(false, true, false)), PurgeStep(PurgeOk)), RemoveMarker(false));
      var next := Step(Step(Step(quit, Open), LookForMarker(Present(false))), SetPinned(id, false));
      next.phase.Serving? && id in next.entries && !next.entries[id]
  {
  }
}
