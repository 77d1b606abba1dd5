/** The corpus mutators as the cache sees them: which of their exits leave a
  * committed write whose invalidate never comes.
  */
module Mutators {
  import opened Wrappers
  import opened Ordering
  import opened SearchCache
  import opened CacheCoherence

  /** Who committed: one of the retention limits, or a mutator with only one kind of write. */
  datatype Writer = ByCount | ByAge | BySize | Single

  datatype CacheOp = CommitOp(who: Writer) | InvalidateOp

  /** No commit in the trace is left without a later invalidate. */
  ghost predicate Settled(trace: seq<CacheOp>) {
    forall i :: 0 <= i < |trace| && trace[i].CommitOp? ==> exists j :: i < j < |trace| && trace[j].InvalidateOp?
  }

  // --- Traces inside the interleaved system ------------------------------------------

  /** What mutator `m` itself did in a run. */
  ghost function OpsOf(m: MutatorId, actions: seq<Action>): seq<CacheOp> {
    if actions == [] then []
    else OpsOf(m, actions[..|actions| - 1]) + OpOf(m, actions[|actions| - 1])
  }

  ghost function OpOf(m: MutatorId, a: Action): seq<CacheOp> {
    if a.Commit? && a.m == m then [CommitOp(Single)]
    else if a.InvalidateBy? && a.m == m then [InvalidateOp]
    else []
  }

  ghost predicate HasPending(s: System, m: MutatorId) {
    exists c :: c in s.pending && s.pending[c] == m
  }

  lemma SettledAppend(trace: seq<CacheOp>, op: CacheOp)
    ensures Settled(trace + [op]) <==> op.InvalidateOp?
  {
    var after := trace + [op];
    assert after[|trace|] == op;
  }

  lemma {:induction false} PendingVersions(q: Query, s: System, actions: seq<Action>)
    requires Init(s)
    ensures forall c :: c in Run(q, s, actions).pending ==> c <= Run(q, s, actions).version
  {
    if actions != [] {
      PendingVersions(q, s, actions[..|actions| - 1]);
    }
  }

  lemma PendingStep(q: Query, s: System, a: Action, m: MutatorId)
    requires forall c :: c in s.pending ==> c <= s.version
    ensures HasPending(Step(q, s, a), m) <==> if OpOf(m, a) == [] then HasPending(s, m) else OpOf(m, a) == [CommitOp(Single)]
  {
    var t := Step(q, s, a);
    if a.Commit? {
      assert t.pending[s.version + 1] == a.m;
      if c :| c in s.pending && s.pending[c] == m { assert t.pending[c] == m; }
    } else if a.InvalidateBy? && a.m != m {
      if c :| c in s.pending && s.pending[c] == m { assert t.pending[c] == m; }
    } else if !a.InvalidateBy? {
      assert t.pending == s.pending;
    }
  }

  /** However its steps interleave with everyone else's, a mutator leaves no pending
    * write exactly when its own trace is settled.
    */
  lemma {:induction false} SettledIffNothingPending(q: Query, s: System, actions: seq<Action>, m: MutatorId)
    requires Init(s)
    ensures HasPending(Run(q, s, actions), m) <==> !Settled(OpsOf(m, actions))
  {
    if actions != [] {
      var before, last := actions[..|actions| - 1], actions[|actions| - 1];
      SettledIffNothingPending(q, s, before, m);
      PendingVersions(q, s, before);
      PendingStep(q, Run(q, s, before), last, m);
      if OpOf(m, last) != [] {
        SettledAppend(OpsOf(m, before), OpOf(m, last)[0]);
      } else {
        assert OpsOf(m, actions) == OpsOf(m, before);
      }
    }
  }

  // --- The maintenance sweep -----------------------------------------------------------

  /** How one store call went: rounds it committed (each removing rows) and whether it then failed. */
  datatype Sweep = Sweep(rounds: nat, removed: nat, failed: bool)

  ghost predicate SweepOk(s: Sweep) {
    s.rounds == 0 <==> s.removed == 0
  }

  datatype MaintenanceSettings = MaintenanceSettings(ageWindowSet: bool, ageWindowValid: bool, totalBytesSet: bool)

  /** What the store answers during one run, in call order. */
  datatype StoreAnswers = StoreAnswers(byCount: Sweep, byAge: Sweep, bySize: Sweep, purged: Sweep, vacuumFails: bool)

  datatype MaintenanceReport = MaintenanceReport(
    deletedByAge: nat, deletedByCount: nat, deletedBySize: nat, purgedDeleted: nat, vacuumed: bool)

  const VACUUM_DELETION_THRESHOLD: nat := 256

  function Total(r: MaintenanceReport): nat {
    r.deletedByAge + r.deletedByCount + r.deletedBySize + r.purgedDeleted
  }

  /** No retention limit that is set fails. */
  predicate SweepsGo(settings: MaintenanceSettings, answers: StoreAnswers) {
    && !answers.byCount.failed
    && (settings.ageWindowSet ==> settings.ageWindowValid && !answers.byAge.failed)
    && (settings.totalBytesSet ==> !answers.bySize.failed)
  }

  /** Some step before the deferred rewrite failed. */
  predicate FailedBeforeVacuum(settings: MaintenanceSettings, answers: StoreAnswers) {
    !SweepsGo(settings, answers) || answers.purged.failed
  }

  lemma WhatStopsARun(settings: MaintenanceSettings, a: StoreAnswers)
    ensures !SweepsGo(settings, a) <==>
      a.byCount.failed || (settings.ageWindowSet && (!settings.ageWindowValid || a.byAge.failed)) || (settings.totalBytesSet && a.bySize.failed)
    ensures FailedBeforeVacuum(settings, a) <==> !SweepsGo(settings, a) || a.purged.failed
  {
  }

  function Commits(who: Writer, n: nat): seq<CacheOp> {
    seq(n, _ => CommitOp(who))
  }

  /** What one delete step does to the cache: its commits, and the invalidate that follows them. */
  function StepTrace(who: Writer, sweep: Sweep): seq<CacheOp> {
    Commits(who, sweep.rounds) + if sweep.failed || sweep.removed == 0 then [] else [InvalidateOp]
  }

  /** The trace after the delete steps of a run, up to the first that fails. */
  function Swept(trace: seq<CacheOp>, settings: MaintenanceSettings, a: StoreAnswers): seq<CacheOp> {
    var counted := trace + StepTrace(ByCount, a.byCount);
    if a.byCount.failed || (settings.ageWindowSet && !settings.ageWindowValid) then counted
    else
      var aged := if settings.ageWindowSet then counted + StepTrace(ByAge, a.byAge) else counted;
      if (settings.ageWindowSet && a.byAge.failed) || !settings.totalBytesSet then aged else aged + StepTrace(BySize, a.bySize)
  }

  /** One step: as many commits of its own as it had rounds, and the invalidate exactly if it removed rows. */
  lemma StepIs(who: Writer, sweep: Sweep)
    ensures var ops := StepTrace(who, sweep);
      && |ops| == sweep.rounds + (if !sweep.failed && sweep.removed > 0 then 1 else 0)
      && (forall i :: 0 <= i < sweep.rounds ==> ops[i] == CommitOp(who))
      && (|ops| > sweep.rounds ==> ops[sweep.rounds] == InvalidateOp)
  {
  }

  /** The limits in the order they run: the count always, the age window if it is set and valid, the
    * size if it is set, each unless one before it failed.
    */
  lemma SweptInOrder(trace: seq<CacheOp>, settings: MaintenanceSettings, a: StoreAnswers)
    ensures var ages := !a.byCount.failed && settings.ageWindowSet && settings.ageWindowValid;
      var sizes := !a.byCount.failed && settings.totalBytesSet
                   && (settings.ageWindowSet ==> settings.ageWindowValid && !a.byAge.failed);
      Swept(trace, settings, a) ==
        trace + StepTrace(ByCount, a.byCount) + (if ages then StepTrace(ByAge, a.byAge) else [])
        + (if sizes then StepTrace(BySize, a.bySize) else [])
  {
  }

  /** A step that succeeds leaves no commit behind when the next one starts. */
  lemma StepSettles(trace: seq<CacheOp>, who: Writer, sweep: Sweep)
    requires SweepOk(sweep) && Settled(trace)
    ensures !sweep.failed ==> Settled(trace + StepTrace(who, sweep))
  {
    if sweep.removed > 0 && !sweep.failed {
      assert trace + StepTrace(who, sweep) == trace + Commits(who, sweep.rounds) + [InvalidateOp];
      SettledAppend(trace + Commits(who, sweep.rounds), InvalidateOp);
    } else if !sweep.failed {
      assert trace + StepTrace(who, sweep) == trace;
    }
  }

  class MaintenanceService {
    var vacuumPending: bool
    ghost var trace: seq<CacheOp>

    constructor ()
      ensures !vacuumPending && trace == []
    {
      vacuumPending, trace := false, [];
    }

    method InvalidateCache()
      modifies this`trace
      ensures trace == old(trace) + [InvalidateOp]
    {
      trace := trace + [InvalidateOp];
    }

    /** A batched store delete: every round committed before a failure stays committed. */
    method Delete(who: Writer, sweep: Sweep) returns (r: Result<nat, string>)
      modifies this`trace
      ensures r == if sweep.failed then Err("storage") else Ok(sweep.removed)
      ensures trace == old(trace) + Commits(who, sweep.rounds)
    {
      trace := trace + Commits(who, sweep.rounds);
      r := if sweep.failed then Err("storage") else Ok(sweep.removed);
    }

    /** A delete step and, if it removed rows, the invalidate that must follow it. */
    method DeleteStep(who: Writer, sweep: Sweep) returns (r: Result<nat, string>)
      requires SweepOk(sweep)
      modifies this`trace
      ensures r == if sweep.failed then Err("storage") else Ok(sweep.removed)
      ensures trace == old(trace) + StepTrace(who, sweep)
    {
      r := Delete(who, sweep);
      if r.Ok? && r.value > 0 { InvalidateCache(); }
      assert trace == old(trace) + StepTrace(who, sweep);
    }

    /** The three retention limits in turn; the first failure ends them. */
    method RetentionSweeps(settings: MaintenanceSettings, answers: StoreAnswers) returns (r: Result<(nat, nat, nat), string>)
      requires SweepOk(answers.byCount) && SweepOk(answers.byAge) && SweepOk(answers.bySize)
      requires Settled(trace)
      modifies this`trace
      ensures trace == Swept(old(trace), settings, answers)
      ensures r.Ok? ==> Settled(trace)
      ensures r.Ok? <==> SweepsGo(settings, answers)
      ensures r.Ok? ==> r.value == (answers.byCount.removed, if settings.ageWindowSet then answers.byAge.removed else 0,
                                    if settings.totalBytesSet then answers.bySize.removed else 0)
    {
      StepSettles(trace, ByCount, answers.byCount);
      var byCount := DeleteStep(ByCount, answers.byCount);
      if byCount.Err? { return Err(byCount.error); }
      var byAge := Ok(0);
      if settings.ageWindowSet {
        if !settings.ageWindowValid { return Err("invalid retention window"); }
        StepSettles(trace, ByAge, answers.byAge);
        byAge := DeleteStep(ByAge, answers.byAge);
      }
      if byAge.Err? { return Err(byAge.error); }
      var bySize := Ok(0);
      if settings.totalBytesSet {
        StepSettles(trace, BySize, answers.bySize);
        bySize := DeleteStep(BySize, answers.bySize);
      }
      if bySize.Err? { return Err(bySize.error); }
      r := Ok((byCount.value, byAge.value, bySize.value));
    }

    method RunInner(settings: MaintenanceSettings, answers: StoreAnswers)
      returns (r: Result<MaintenanceReport, string>)
      requires SweepOk(answers.byCount) && SweepOk(answers.byAge) && SweepOk(answers.bySize)
      requires Settled(trace)
      modifies this
      ensures trace == Swept(old(trace), settings, answers)
      ensures r.Ok? ==> Settled(trace)
      ensures r.Ok? <==> SweepsGo(settings, answers) && !answers.purged.failed && (old(vacuumPending) ==> !answers.vacuumFails)
      ensures r.Ok? ==> r.value.vacuumed == old(vacuumPending)
      ensures r.Ok? ==> r.value.deletedByCount == answers.byCount.removed && r.value.purgedDeleted == answers.purged.removed
      ensures r.Ok? ==> r.value.deletedByAge == if settings.ageWindowSet then answers.byAge.removed else 0
      ensures r.Ok? ==> r.value.deletedBySize == if settings.totalBytesSet then answers.bySize.removed else 0
      ensures r.Ok? ==> (vacuumPending <==> Total(r.value) >= VACUUM_DELETION_THRESHOLD)
      // A failed rewrite drops the armed flag, and this sweep's own deletions do not re-arm it.
      ensures r.Err? ==> (vacuumPending <==> (old(vacuumPending) && FailedBeforeVacuum(settings, answers)))
    {
      var deleted := RetentionSweeps(settings, answers);
      if deleted.Err? { return Err(deleted.error); }
      var (byCount, byAge, bySize) := deleted.value;
      // Tombstoned rows are in no live query, so this delete is no write the cache could miss.
      if answers.purged.failed { return Err("storage"); }
      var armed := vacuumPending;
      vacuumPending := false;
      if armed && answers.vacuumFails { return Err("storage"); }
      var report := MaintenanceReport(byAge, byCount, bySize, answers.purged.removed, armed);
      if Total(report) >= VACUUM_DELETION_THRESHOLD { vacuumPending := true; }
      r := Ok(report);
    }

    /** Every exit of a run, on success and on each early error, leaves nothing pending. */
    method Run(settings: MaintenanceSettings, answers: StoreAnswers) returns (r: Result<MaintenanceReport, string>)
      requires SweepOk(answers.byCount) && SweepOk(answers.byAge) && SweepOk(answers.bySize)
      requires Settled(trace)
      modifies this
      ensures trace == Swept(old(trace) + [InvalidateOp], settings, answers) + [InvalidateOp]
      ensures Settled(trace)
    {
      ghost var before := trace;
      InvalidateCache();
      SettledAppend(before, InvalidateOp);
      r := RunInner(settings, answers);
      before := trace;
      InvalidateCache();
      SettledAppend(before, InvalidateOp);
    }
  }

  // --- Mutators that can leave a write behind --------------------------------------------

  /** Naming an entry: two commits, one closing invalidate, and an early return between them. */
  method SetEntryLabel(labelOk: bool, pin: bool, pinOk: bool) returns (r: Result<(), string>, trace: seq<CacheOp>)
    ensures r.Ok? <==> labelOk && (pin ==> pinOk)
    ensures Settled(trace) <==> !(labelOk && pin && !pinOk)
    ensures trace == [InvalidateOp] + Commits(Single, if !labelOk then 0 else if pin && pinOk then 2 else 1)
                     + if r.Ok? then [InvalidateOp] else []
  {
    SettledAppend([], InvalidateOp);
    trace := [InvalidateOp];
    if !labelOk { return Err("label"), trace; }
    trace := trace + [CommitOp(Single)];
    SettledAppend([InvalidateOp], CommitOp(Single));
    if pin {
      if !pinOk { return Err("pin"), trace; }
      trace := trace + [CommitOp(Single)];
    }
    SettledAppend(trace, InvalidateOp);
    trace := trace + [InvalidateOp];
    r := Ok(());
  }

  datatype Round = Rebuilt | Done | Failed | ShutDown

  /** The one-shot gram rebuild: batches commit, and only a drained backlog reaches the invalidate. */
  method RunNgramRebuild(rounds: seq<Round>) returns (trace: seq<CacheOp>, drained: bool)
    requires rounds != [] && !rounds[|rounds| - 1].Rebuilt?
    ensures drained <==> exists i :: 0 <= i < |rounds| && rounds[i].Done? && forall j :: 0 <= j < i ==> rounds[j].Rebuilt?
    ensures Settled(trace) <==> drained || !rounds[0].Rebuilt?
    ensures exists k :: 0 <= k < |rounds| && !rounds[k].Rebuilt? && (forall j :: 0 <= j < k ==> rounds[j].Rebuilt?)
                        && trace == Commits(Single, k) + if drained then [InvalidateOp] else []
  {
    trace, drained := [], false;
    var i := 0;
    while rounds[i].Rebuilt?
      invariant 0 <= i < |rounds|
      invariant forall j :: 0 <= j < i ==> rounds[j].Rebuilt?
      invariant trace == Commits(Single, i)
      decreases |rounds| - i
    {
      trace := trace + [CommitOp(Single)];
      i := i + 1;
    }
    if rounds[i].Done? {
      SettledAppend(trace, InvalidateOp);
      trace, drained := trace + [InvalidateOp], true;
    } else if i > 0 {
      assert trace == Commits(Single, i - 1) + [CommitOp(Single)];
      SettledAppend(Commits(Single, i - 1), CommitOp(Single));
    }
  }

  /** A search that starts after the opening invalidate, and finishes before the commit. */
  lemma SearchFillsCache(q: Query, s: System, key: CacheKey)
    requires Init(s)
    ensures var begun := Step(q, s, InvalidateBy(0));
      var asked := Step(q, begun, LookUp(1, key));
      var rows := q(s.corpus, key);
      var read := Step(q, asked, ReadRows(1, rows));
      var filled := Step(q, read, PutRows(1));
      && asked.readers == map[1 := Reader(key, 1, 1, 0, None)]
      && read.readers == map[1 := Reader(key, 1, 1, 0, Some(rows))]
      && InTime(read, PutRows(1))
      && filled.cache == Cache(s.cache.capacity, [(key, Stamped(rows, 0))], 1)
      && filled.corpus == s.corpus && !filled.poisoned
  {
  }

  /** The run the unsettled exit allows: rows cached between the opening invalidate and the
    * commit are served after the mutator has returned, with no invalidate left to come.
    */
  lemma UnsettledExitServesStaleRows(q: Query, s: System, key: CacheKey, corpus: Corpus)
    requires Init(s) && q(corpus, key) != q(s.corpus, key)
    ensures var actions := StaleRun(q, s, key, corpus);
      && RunInTime(q, s, actions)
      && OpsOf(0, actions) == [InvalidateOp, CommitOp(Single)]
      && Served(Run(q, s, actions), key) == Hit(Stamped(q(s.corpus, key), 0))
      && Run(q, s, actions).corpus == corpus
  {
    var a := StaleRun(q, s, key, corpus);
    SearchFillsCache(q, s, key);
    RunFive(q, s, a);
    OpsFive(0, a);
    StaleRunInTime(q, s, key, corpus);
  }

  lemma StaleRunInTime(q: Query, s: System, key: CacheKey, corpus: Corpus)
    requires Init(s)
    ensures RunInTime(q, s, StaleRun(q, s, key, corpus))
  {
    var a := StaleRun(q, s, key, corpus);
    SearchFillsCache(q, s, key);
    RunFive(q, s, a);
    forall i | 0 <= i < |a| ensures InTime(Run(q, s, a[..i]), a[i]) {
      if i == 3 { assert a[3] == PutRows(1); } else { assert !a[i].PutRows?; }
    }
  }

  ghost function StaleRun(q: Query, s: System, key: CacheKey, corpus: Corpus): seq<Action> {
    [InvalidateBy(0), LookUp(1, key), ReadRows(1, q(s.corpus, key)), PutRows(1), Commit(0, corpus)]
  }

  lemma RunStep(q: Query, s: System, actions: seq<Action>, i: nat)
    requires i < |actions|
    ensures Run(q, s, actions[..i + 1]) == Step(q, Run(q, s, actions[..i]), actions[i])
  {
    assert actions[..i + 1][..i] == actions[..i];
  }

  lemma RunFive(q: Query, s: System, a: seq<Action>)
    requires |a| == 5
    ensures Run(q, s, a[..3]) == Step(q, Step(q, Step(q, s, a[0]), a[1]), a[2])
    ensures Run(q, s, a) == Step(q, Step(q, Run(q, s, a[..3]), a[3]), a[4])
  {
    RunStep(q, s, a, 0);
    RunStep(q, s, a, 1);
    RunStep(q, s, a, 2);
    RunStep(q, s, a, 3);
    RunStep(q, s, a, 4);
    assert a[..0] == [] && a[..5] == a;
  }

  lemma OpsFive(m: MutatorId, a: seq<Action>)
    requires |a| == 5
    ensures OpsOf(m, a) == OpOf(m, a[0]) + OpOf(m, a[1]) + OpOf(m, a[2]) + OpOf(m, a[3]) + OpOf(m, a[4])
  {
    OpsTwo(m, a);
    OpsStep(m, a, 2);
    OpsStep(m, a, 3);
    OpsStep(m, a, 4);
    assert a[..5] == a;
  }

  lemma OpsTwo(m: MutatorId, a: seq<Action>)
    requires |a| >= 2
    ensures OpsOf(m, a[..2]) == OpOf(m, a[0]) + OpOf(m, a[1])
  {
    OpsStep(m, a, 0);
    OpsStep(m, a, 1);
    assert a[..0] == [];
  }

  lemma OpsStep(m: MutatorId, a: seq<Action>, i: nat)
    requires i < |a|
    ensures OpsOf(m, a[..i + 1]) == OpsOf(m, a[..i]) + OpOf(m, a[i])
  {
    assert a[..i + 1][..i] == a[..i];
  }
}
