# A verified model of nagori's small protocols

Nagori is a clipboard-history daemon. This project models the parts of it where
correctness is an argument rather than a lookup, and proves them in Dafny: the
semantic index and the privacy policy it is built under, the search cache, the
clear-on-quit marker, the wire budget and framing, the representation set and
its hash, the HTML stripper, the image-text gate, the AI permit registry, and
streaming and chunking.

`dafny verify dfyconfig.toml` checks everything.

## How it is laid out

| files | what they hold |
|---|---|
| `SemanticStore`, `SemanticProtocol`, `SemanticChanges`, `RebuildRequests` | the store's transactions, the interleaved workers, the policy barrier, what each transaction changes and leaves alone, and the rebuild flag |
| `SemanticText` | when a ranked vector was made from the text its entry still holds |
| `SemanticPairing`, `SemanticPass`, `SemanticIndexer` | pairing replies with rows, draining the backlog, and the worker's methods |
| `Policy`, `PolicyFacts` | the classifier, its fingerprint, and re-assessment against capture |
| `SearchCache`, `LruRefinement`, `CacheCoherence`, `Mutators` | the cache, the LRU map it refines, readers and mutators, and who leaves a write behind |
| `ClearOnQuit` | sessions, the marker and every failure between them |
| `Json`, `Limits`, `IpcBudget`, `IpcFrame`, `SearchFrame`, `SearchPage`, `Framing`, `JsonValues` | escaping, caps, budgets, response bytes, which pages fit a frame, the frame reader, and a reader for the values inside |
| `Roles`, `Representations`, `SetHash` | the stored set and its injective buffer |
| `HtmlScan`, `HtmlStrip`, `HtmlText`, `HtmlReferences` | byte scanners against a character tokenizer, the finished text, and character references |
| `TextRecognition`, `AiRegistry`, `Stream`, `Chunking` | the gate, the permits, the event pump, the greedy cut |
| `Wrappers`, `Ordering`, `Utf8`, `Chars` | options and results, stable sort and dedup, UTF-8, character classes |

A concurrent part is a state machine: a `Step` function over actions, a `Run`
over any sequence of them, and lemmas about every run. Awaits, crashes, timeouts
and failed writes are actions of their own, so "at any moment" means between any
two steps. Where the source updates an object in place there is also a class
whose methods are proved against the functions the machine steps with.

## What does not hold as written

The code is modelled as it is. Where a promise of its comments or of its design
fails, the project proves when it holds and shows a case where it does not:

* Naming an entry returns early when the pin fails after the label has
  committed, and the gram rebuild returns without its invalidate on an error or
  a shutdown; either can leave stale rows cached (`Mutators.SetEntryLabel`,
  `Mutators.RunNgramRebuild`, `Mutators.UnsettledExitServesStaleRows`).
* A failed vacuum drops the deferred flag for good
  (`Mutators.MaintenanceService.RunInner`).
* A wrapped epoch accepts a stale put after exactly a multiple of 2^64
  invalidations (`CacheCoherence.WrapAcceptsStalePut`).
* Labels are not charged to the search budget. A page whose MIME strings need no
  escaping always fits one frame; one within every cap, hostile MIME strings
  included, need not (`SearchPage.PagesFitIff`, `SearchPage.PlainMimesFit`,
  `SearchPage.LabelsBreachTheFrame`).
* A gate holder that is dropped releases the gate while its store call still
  runs, and the call still lands. Switching image text off is final exactly when
  no such call is adrift as the clear runs (`TextRecognition.ClearIsFinalIff`,
  `TextRecognition.DroppedIndexerLeavesText`), and the same holds of clearing
  another policy's text (`TextRecognition.ClearedTextIsOfOnePolicyIff`).
* A rebuild request is safe with one background worker. The supervisor starts
  another while a dropped worker's last upsert may still run, which the model
  counts as a second worker: the rebuild then honours the request exactly when no
  batch embedded before it is under way (`RebuildRequests.RebuildHonoursIff`,
  `RebuildRequests.TwoWorkersLoseARequest`).
* A pass whose rebuild is refused returns without touching the state, so the
  Ready of an earlier pass stands over an index a settings save has erased
  (`SemanticIndexer.SemanticWorker.SemanticIndexPass`,
  `SemanticIndexer.SaveStrandsStalePass`).
* Taking recognized text back keeps the image's vector, which goes on ranking by
  the erased text (`SemanticText.TakenBackTextStillRanks`).
* A path list under another MIME than `text/uri-list` is charged as text on
  re-assessment (`PolicyFacts.OversizedAgreesIff`), and a reason shown only by
  the empty text of an entry without plain text is lost by it
  (`PolicyFacts.EmptyTextReasonIsLost`).
* The set hash does not encode the kind of a payload (`SetHash.KindIsNotEncoded`).
* Clear-on-quit covers what was unpinned at the quit
  (`ClearOnQuit.PinnedAtQuitMayBeServedUnpinned`), and only a quit whose marker
  was written (`ClearOnQuit.UnmarkedQuitServesIff`,
  `ClearOnQuit.UnmarkedQuitCanServe`).

## Parameters

Detectors, the regex engine, redaction, UTF-8 decoding of clipboard bytes, image
signatures, the JSON form of a path list, and digests are function parameters.
Where a result needs a fact about one of them it says so in a `requires`, and
only about the values in play: the digest tells two named settings apart
(`SemanticStore.DigestTells`), payload digests are 64 bytes wide
(`SetHash.DigestsOk`) and collide for no two payloads of one kind among those
hashed (`SetHash.NoCollision`), and a path list decodes to what was encoded
(`PolicyFacts.CodecOk`). Stored vectors and refusals carry the settings, row and
time they came from, which the source does not store.

## Model

| member | source | states |
|---|---|---|
| `SemanticProtocol.PolicyBarrier` | crates/nagori-daemon/src/semantic_index.rs:689-701 | over every interleaving of saves, rebuilds, refusals, upserts, purges, corpus and recognition writes and aborts, with workers holding arbitrarily stale settings: present metadata and every stored decision carry the fingerprint of the settings in force, and where the digest tells those settings apart they accept the row behind every stored vector and refuse the row behind every refusal |
| `SemanticProtocol.QueriesRankOnePolicy` | crates/nagori-daemon/src/semantic_index.rs:228-233 | in every reachable store a query pinned to any settings, however stale, ranks only while its fingerprint is the one in force, only vectors whose rows its own policy accepts, and only for bodies (by content hash) their entries still hold; the digest need only tell the pin, the settings in force and the vector's own settings apart |
| `SemanticProtocol.RunKeepsInv` | crates/nagori-daemon/src/semantic_index.rs:614-621 | the store's barrier and each worker's batch invariant hold after every run from a store that keeps the barrier |
| `SemanticStore.BarrierMeansCommittedHash` | crates/nagori-storage/src/sqlite/settings.rs:115-128 | under the barrier every stored decision was made under the fingerprint of the settings in force, and unreadable settings go with an empty index: nothing is assumed of the digest |
| `SemanticStore.BarrierMeansCommittedPolicy` | crates/nagori-storage/src/sqlite/settings.rs:115-128 | where the digest tells the two settings apart, the settings in force themselves accept a stored vector's row and refuse a stored refusal's |
| `SemanticStore.PinnedQueryRanksOnePolicy` | crates/nagori-storage/src/sqlite/semantic.rs:737-808 | a pinned ranking row was shaped under the pinned policy, which is the committed one |
| `SemanticChanges.StoredVectorRanks` | crates/nagori-storage/src/sqlite/semantic.rs:737-808 | a stored vector ranks, for a query of its width under its own fingerprint, exactly while its entry is neither deleted, secret, blocked nor refused under its hash |
| `SemanticStore.ChangingSaveRestores` | crates/nagori-storage/src/sqlite/settings.rs:70-105 | from any store, even one that breaks the barrier, a save with another fingerprint (or over an unreadable row) restores it and leaves the index empty |
| `SemanticStore.SavedKeeps` | crates/nagori-storage/src/sqlite/settings.rs:33-67 | a settings save keeps the barrier (`SemanticChanges.SaveLeaves` says what else it keeps) |
| `SemanticChanges.SaveLeaves` | crates/nagori-storage/src/sqlite/settings.rs:90-105 | a save leaves the corpus alone, and metadata, vectors and refusals too exactly while its fingerprint is the committed one; otherwise nothing of the index is left |
| `SemanticChanges.KeepingSavesEraseNothing` | crates/nagori-storage/src/sqlite/settings.rs:90-96 | over every run of saves that keep the fingerprint in force nothing changes but the settings, which become the last ones saved |
| `SemanticChanges.DecisionStands` | crates/nagori-storage/src/sqlite/semantic.rs:480-557 | over every run: a stored vector or refusal stands, and the metadata with it, until a step that erases the index or decides that entry again |
| `SemanticChanges.ErasingStepErases` | crates/nagori-storage/src/sqlite/semantic.rs:319-384 | those steps do erase it: a purge and a changing save all of it, a rebuild all but the new metadata |
| `SemanticChanges.BacklogIsWhatWaits` | crates/nagori-storage/src/sqlite/semantic.rs:651-658 | the backlog is exactly the live, readable entries with text that have neither a vector nor a refusal for the body they hold, none twice |
| `SemanticChanges.InsertedComesFirst` | crates/nagori-storage/src/sqlite/semantic.rs:624-627 | a captured entry comes in front of the backlog and nothing else moves |
| `SemanticStore.RebuildKeeps` | crates/nagori-storage/src/sqlite/semantic.rs:319-384 | a rebuild commits exactly when the committed fingerprint is the one it carries, and keeps the barrier |
| `SemanticChanges.RebuiltServes` | crates/nagori-core/src/model/semantic.rs:58-64 | an index rebuilt for one model and policy serves another exactly when model, revision, dimension and fingerprint are the same |
| `SemanticStore.GuardedUpsertKeeps` | crates/nagori-storage/src/sqlite/semantic.rs:480-557 | a guarded upsert shaped under any settings keeps the barrier, by its guard and its content-hash condition alone |
| `SemanticStore.GuardedExcludeKeeps` | crates/nagori-storage/src/sqlite/semantic.rs:392-458 | a guarded refusal batch keeps the barrier and only ever removes vectors |
| `SemanticStore.ReplacedKeeps` | crates/nagori-storage/src/sqlite/label.rs:92-169 | a live row's new body takes its vector with it and leaves every other row and vector alone; any other replacement changes nothing; the barrier is kept |
| `SemanticChanges.ReplacedWaitsAgain` | crates/nagori-storage/src/sqlite/label.rs:92-169 | a new body makes its entry wait again, unless it is refused under that very hash, and touches no other entry |
| `SemanticStore.HardDeletedKeeps` | crates/nagori-storage/src/sqlite/schema.rs:451-458 | a hard delete cascades to the vector and the refusal and keeps the barrier |
| `SemanticChanges.HardDeletedIsGone` | crates/nagori-storage/src/sqlite/schema.rs:451-458 | a hard delete takes the entry, its vector and its refusal, and nothing of any other |
| `SemanticChanges.HardDeletedLeavesTheRest` | crates/nagori-storage/src/sqlite/schema.rs:451-458 | the rest of the backlog keeps its order |
| `SemanticChanges.SoftDeletedIsHidden` | crates/nagori-storage/src/sqlite/semantic.rs:651-658 | a soft-deleted entry neither waits nor ranks; its row stays |
| `SemanticStore.TextRecordedKeeps` | crates/nagori-storage/src/sqlite/ocr.rs:148-225 | recording recognized text, which changes an entry's text and sensitivity but not its hash or its vector, keeps the barrier |
| `SemanticChanges.RecordedTextLands` | crates/nagori-storage/src/sqlite/ocr.rs:148-225 | recognized text lands exactly on a live, readable image that still has the bytes it was read from, may raise it, never lowers it, and touches nothing else |
| `SemanticStore.TextClearedKeeps` | crates/nagori-storage/src/sqlite/ocr.rs:290-350 | taking recognized text back keeps the barrier |
| `SemanticChanges.TextIsTakenBack` | crates/nagori-storage/src/sqlite/ocr.rs:290-350 | taking text back empties the text of the named entries and touches nothing else |
| `SemanticStore.Pending` | crates/nagori-storage/src/sqlite/semantic.rs:624-735 | a fetch is the newest part of the backlog: all of it, or exactly as many rows as the limit clamped to 1..200 |
| `SemanticText.RankedTextHolds` | crates/nagori-daemon/src/semantic_index.rs:173-297 | over every interleaving in which no recognition is recorded for an entry or taken back from it, a vector that ranks the entry was made from the text it holds |
| `SemanticText.TakenBackTextStillRanks` | crates/nagori-storage/src/sqlite/ocr.rs:290-350 | taking recognized text back leaves the image's vector ranking as before; the text behind it is then the entry's only if there was none |
| `SemanticText.RecordedTextRanksIff` | crates/nagori-storage/src/sqlite/ocr.rs:148-225 | a recognition recorded for a ranked image takes it out of the ranking exactly when it raises the image to Secret; otherwise the ranked text is still the entry's exactly when it is the text recorded |
| `RebuildRequests.RebuildRequestsAreNotLost` | crates/nagori-daemon/src/semantic_index.rs:143-148 | with one background worker: whenever the flag reads clear every stored vector was embedded after the latest request, wherever the request fell between the worker's steps |
| `RebuildRequests.RebuildHonoursIff` | crates/nagori-daemon/src/semantic_index.rs:622-646 | with any number of workers, a dropped one's running upsert among them: after a rebuild has committed, no vector older than the request is stored until the next request, exactly when no storable batch embedded before the request was under way at the commit |
| `RebuildRequests.TwoWorkersLoseARequest` | crates/nagori-daemon/src/semantic_index.rs:622-646 | a concrete run in which one is: a second worker serves the request and clears the flag, and the first then stores its older batch |
| `RebuildRequests.RunKeepsFlagInv` | crates/nagori-daemon/src/semantic_index.rs:622-646 | the flag invariant behind it, over every run of one worker |
| `SemanticPairing.PairVectors` | crates/nagori-daemon/src/semantic_index.rs:742-799 | a reply batch is taken exactly when the count, ids, repeats and widths check out, and each item pairs a reply's vector with the content hash of the row that has its id |
| `SemanticPairing.PairingIsBijection` | crates/nagori-daemon/src/semantic_index.rs:807-808 | a taken batch is a bijection with the requested rows, whatever order the backend answered in, and the rows had no id twice: by pigeonhole, with no assumption on the rows |
| `SemanticPairing.Pigeonhole` | crates/nagori-daemon/src/semantic_index.rs:807-808 | as many replies as rows, each naming a row, none repeated: they name every row |
| `SemanticIndexer.SemanticWorker.EmbedAndStore` | crates/nagori-daemon/src/semantic_index.rs:702-825 | exactly when the model is asked, and for exactly the accepted rows, a private one as its redaction only; exactly when a batch is stored; each row is then refused with its tombstone or embedded with the vector the model returned under its own id to those inputs, and nothing else changes; a batch not stored changes at most its refusals |
| `SemanticIndexer.DecidedMeans` | crates/nagori-daemon/src/semantic_index.rs:702-825 | what a stored batch leaves of each of its rows: the vector returned under the row's own id for an admissible one, a tombstone and no vector for any other, each for the body that was fetched |
| `SemanticIndexer.WhatStopsABatch` | crates/nagori-daemon/src/semantic_index.rs:702-825 | a batch is stored exactly unless a write fails, the policy has moved, the pass is cancelled or stale, or the model's answer cannot be paired; it is tried again later exactly when the model says so |
| `SemanticIndexer.SemanticWorker.DrainBacklog` | crates/nagori-daemon/src/semantic_index.rs:435-511 | on a fixed corpus at most ceil(n/16) batches are stored, each takes up to 16 rows off the backlog, and ready means none is left; if nothing goes wrong, ceil(n/16) turns and one more end ready |
| `SemanticIndexer.SemanticWorker.SemanticIndexPass` | crates/nagori-daemon/src/semantic_index.rs:389-512 | from any state: the state reads Ready over work left undone exactly when it was Ready on entry and the pass has its rebuild refused because the committed settings have another fingerprint, and then nothing at all has changed; otherwise Ready means no backlog, the live index identity and no rebuild request. A pass in which nothing goes wrong does end Ready. At most ceil(n/16) batches are stored, none without the live identity |
| `SemanticIndexer.SaveStrandsStalePass` | crates/nagori-daemon/src/semantic_index.rs:420-432 | a save under another policy puts a pass that still holds the old settings in that position: the index is erased, every embeddable row waits again, and the rebuild is refused |
| `SemanticIndexer.UpToDateMeans` | crates/nagori-daemon/src/semantic_index.rs:622-646 | what up to date means, entry by entry and field by field of the metadata, and when a rebuild is refused |
| `SemanticIndexer.SemanticWorker.ReconcileSemanticMetadata` | crates/nagori-daemon/src/semantic_index.rs:622-646 | when it succeeds; on success the index carries the live identity and a requested rebuild has erased everything; on failure neither the store nor the flag moves; a conflict is returned exactly when a rebuild is due and the committed settings have another fingerprint; a matching index is left alone |
| `SemanticIndexer.SemanticWorker.PurgeIncompatibleIndex` | crates/nagori-daemon/src/semantic_index.rs:514-567 | clean means no metadata of another version or policy is left; a matching index is never purged, another always is unless a call fails; failures change nothing |
| `SemanticIndexer.SemanticWorker.RecordPolicyRefusals` | crates/nagori-daemon/src/semantic_index.rs:655-677 | refusals commit as one guarded transaction or not at all |
| `SemanticIndexer.SemanticSearchResults` | crates/nagori-daemon/src/semantic_index.rs:173-297 | which queries answer, and that an answer is the nearest rankable entries that pass the query's filters, up to the clamped limit |
| `SemanticIndexer.AnsweredMeans` | crates/nagori-daemon/src/semantic_index.rs:173-297 | a query is answered exactly from an index of its own model, build and policy, and when its text has a vector |
| `SemanticIndexer.NearestComeFirst` | crates/nagori-storage/src/sqlite/semantic.rs:737-808 | for any distance the ranking statement sorts by: answers come nearest first, an entry left out is no nearer than any returned, and none is left out below the limit |
| `SemanticIndexer.BatchDecides` | crates/nagori-daemon/src/semantic_index.rs:702-825 | refusals and embeddings together decide exactly the fetched rows |
| `SemanticIndexer.DecidedDrains` | crates/nagori-storage/src/sqlite/semantic.rs:651-656 | a decided batch is exactly what leaves the backlog, in order |
| `SemanticPass.PrefixDrained` | crates/nagori-storage/src/sqlite/semantic.rs:657-670 | deciding the first n outstanding rows leaves the rest of the backlog unchanged and in order |
| `Policy.Classify` | crates/nagori-core/src/policy.rs:133-216 | the reasons, none twice, are those that hold of the clip's set of texts; it is Blocked exactly when it is over the size, its source is denied or a user pattern matches one of its texts, else Secret exactly when a text holds a private key, an API key, a card number or (detection on) a one-time password, else Public |
| `Policy.AssessSemanticTexts` | crates/nagori-core/src/policy.rs:257-285 | the same of the scanned and the sized texts on re-assessment: Blocked, Secret or Public, told from the texts, the source and the size alone |
| `Policy.VerdictOf` | crates/nagori-core/src/policy.rs:484-520 | the verdict table, stated on what the detectors say of the texts |
| `Policy.AcceptedIff` | crates/nagori-daemon/src/semantic_index.rs:856-909 | a row is accepted exactly when its body was recovered, it was stored as Unknown, Public or Private, nothing forbids it and no text of it holds a secret; the combined verdict is Private exactly when the stored one is |
| `PolicyFacts.OnlyAdmissibleRowsReachTheModel` | crates/nagori-daemon/src/semantic_index.rs:856-909 | the accepted rows of a batch are exactly its admissible ones, the refused exactly the others |
| `Policy.ScanTextForPatterns` | crates/nagori-core/src/policy.rs:308-335 | a scan adds exactly the reasons the text shows |
| `PolicyFacts.CapturedTexts` | crates/nagori-core/src/policy.rs:178-206 | capture scans exactly the entry's own text, every inline text, and every path list joined by newlines |
| `PolicyFacts.ChargedTexts` | crates/nagori-core/src/policy.rs:139-161 | the size is charged for exactly the entry's own text, its markup and every inline text, and for no path list |
| `PolicyFacts.CountedOnce` | crates/nagori-core/src/policy.rs:156-161 | each distinct payload is charged its UTF-8 length once |
| `PolicyFacts.VerdictMonotone` | crates/nagori-core/src/policy.rs:484-520 | more reasons never make a less restrictive verdict |
| `Policy.MostRestrictive` | crates/nagori-daemon/src/semantic_index.rs:917-928 | the combined verdict is one of the two and ranks at least as high as each |
| `Policy.PartitionByCurrentPolicy` | crates/nagori-daemon/src/semantic_index.rs:856-909 | accepted rows are the admissible ones in order; each input is its own row's, the redaction exactly for a row stored as Private and the row's own text otherwise; the refused tombstones are the rest in order |
| `PolicyFacts.PartitionConserves` | crates/nagori-daemon/src/semantic_index.rs:836-855 | accepted and refused rows together are the batch, as multisets |
| `PolicyFacts.TighteningNeverAdmits` | crates/nagori-daemon/src/semantic_index.rs:911-928 | more rules, more detection or a smaller ceiling never moves a row from refused to accepted |
| `PolicyFacts.FingerprintIff` | crates/nagori-core/src/settings.rs:812-846 | two settings share a fingerprint payload exactly when their rule lists agree as sets and the other two fields agree |
| `PolicyFacts.FingerprintPinsVerdicts` | crates/nagori-core/src/settings.rs:812-846 | settings with one fingerprint give every row the same verdict |
| `PolicyFacts.RecoverRawTexts` | crates/nagori-storage/src/sqlite/semantic.rs:133-189 | the stored texts split into those charged to the ceiling and those only scanned; an unreadable body is flagged |
| `PolicyFacts.OversizedAgreesIff` | crates/nagori-storage/src/sqlite/semantic.rs:133-189 | the stored row and the capture get the same oversize verdict at every ceiling exactly when no path list outside `text/uri-list` adds a text of its own |
| `PolicyFacts.ReassessmentAgreesWithCapture` | crates/nagori-daemon/src/semantic_index.rs:836-855 | under unchanged settings re-assessment is oversized exactly when capture was; it loses a reason of capture exactly when the entry has no plain text, the empty text shows the reason and no stored text does; and where no reason can be lost that way it is at least as restrictive as capture |
| `PolicyFacts.EmptyTextReasonIsLost` | crates/nagori-daemon/src/semantic_index.rs:836-855 | a user rule matching the empty text blocks an image at capture and lets the row pass once its recognized text matches no rule |
| `SearchCache.SameKeyIff` | crates/nagori-daemon/src/search_cache.rs:36-61 | two queries share a key exactly when their other fields agree and their kinds lists agree as sets |
| `SearchCache.RecentSearchCache.Get` | crates/nagori-daemon/src/search_cache.rs:110-122 | a hit returns the stored value and moves its entry to the recent end |
| `SearchCache.RecentSearchCache.Put` | crates/nagori-daemon/src/search_cache.rs:131-147 | an insert replaces, or evicts the oldest when full, and lands at the recent end |
| `SearchCache.RecentSearchCache.PutIfEpoch` | crates/nagori-daemon/src/search_cache.rs:148-155 | a put is accepted exactly when the epoch still stands |
| `SearchCache.RecentSearchCache.Invalidate` | crates/nagori-daemon/src/search_cache.rs:156-164 | an invalidate empties the cache and bumps the wrapping epoch |
| `SearchCache.SharedSearchCache.LockOrRecover` | crates/nagori-daemon/src/search_cache.rs:207-217 | taking a poisoned lock forces an invalidation every time |
| `LruRefinement.VectorRefinesLru` | crates/nagori-daemon/src/search_cache.rs:94-163 | over every sequence of gets and puts the vector answers as a timestamped LRU map does, with distinct keys, within capacity, ordered exactly by last use |
| `LruRefinement.GetRefines` | crates/nagori-daemon/src/search_cache.rs:110-122 | moving the hit to the end is restamping its slot |
| `LruRefinement.PutRefines` | crates/nagori-daemon/src/search_cache.rs:131-147 | a put replaces the slot, or evicts the least recently used one when full |
| `CacheCoherence.HitsAreCoherent` | crates/nagori-daemon/src/search_cache.rs:118-163 | with any readers and mutators, every hit in a reachable state saw every commit whose invalidate has run, so with none pending it is the query's answer on the current corpus; fewer than 2^64 invalidations may separate a lookup from its put |
| `CacheCoherence.RunKeepsInv` | crates/nagori-daemon/src/search_cache.rs:118-163 | the invariant behind it, after every timely run |
| `CacheCoherence.PoisonedNeverHits` | crates/nagori-daemon/src/search_cache.rs:200-217 | once a holder has panicked no lookup is answered from the cache |
| `CacheCoherence.PoisonIsForever` | crates/nagori-daemon/src/search_cache.rs:200-217 | a poisoned mutex stays poisoned through every run |
| `CacheCoherence.SearchEnds` | crates/nagori-daemon/src/search_cache.rs:118-163 | a put or an abandon ends its own search and no other |
| `CacheCoherence.EpochMatchIff` | crates/nagori-daemon/src/search_cache.rs:148-163 | wrapped epochs are equal exactly when the invalidation counts differ by a multiple of 2^64 |
| `CacheCoherence.WrapAcceptsStalePut` | crates/nagori-daemon/src/search_cache.rs:152-157 | a stale put is accepted exactly after a multiple of 2^64 invalidations: the comment that a wrap is harmless does not hold |
| `Mutators.SettledIffNothingPending` | crates/nagori-daemon/src/search_cache.rs:118-163 | however its steps interleave, a mutator leaves no pending write exactly when its own trace ends every commit with an invalidate |
| `Mutators.MaintenanceService.Run` | crates/nagori-daemon/src/maintenance.rs:73-88 | the exact trace of commits and invalidates of a run; every exit, each early error included, leaves no pending write |
| `Mutators.MaintenanceService.RunInner` | crates/nagori-daemon/src/maintenance.rs:89-191 | the exact trace, each deleting step followed by its invalidate; which answers make a run succeed, and that a successful one leaves no pending write by itself; what it reports; what happens to the deferred-vacuum flag: a failed vacuum drops it and does not re-arm it |
| `Mutators.StepSettles` | crates/nagori-daemon/src/maintenance.rs:90-95 | a delete step that succeeds leaves no commit pending when the next one starts |
| `Mutators.SweptInOrder` | crates/nagori-daemon/src/maintenance.rs:89-191 | a maintenance run's commits are those of the count, the age window and the size, in that order, each limit that is set unless one before it failed |
| `Mutators.SetEntryLabel` | crates/nagori-daemon/src/runtime/entries.rs:93-102 | naming an entry leaves a pending write exactly when the label commits and the pin then fails |
| `Mutators.RunNgramRebuild` | crates/nagori-daemon/src/runtime/search.rs:110-152 | the gram rebuild leaves a pending write exactly when a batch has committed and it does not drain |
| `Mutators.UnsettledExitServesStaleRows` | crates/nagori-daemon/src/runtime/entries.rs:93-102 | a run such an exit allows: rows cached before the commit are served after the mutator returned |
| `ClearOnQuit.ClearedHistoryIsNeverServed` | crates/nagori-daemon/src/clear_on_quit.rs:1-20 | over any number of sessions, with a crash, timeout or failure at any step: once a quit has left its marker, nothing unpinned at that quit is in the store while any later session serves |
| `ClearOnQuit.ResumedPurgeSparesNewHistory` | crates/nagori-daemon/src/clear_on_quit.rs:98-131 | a resumed purge deletes only entries recorded before the open that runs it, and with the marker really present only entries unpinned at a marked quit |
| `ClearOnQuit.ServingMeansNothingPending` | crates/nagori-daemon/src/clear_on_quit.rs:108-131 | a session that serves has no marker and owes no deletion |
| `ClearOnQuit.CleanQuit` | crates/nagori-daemon/src/clear_on_quit.rs:133-197 | a quit in which nothing fails leaves exactly the pinned entries and no marker; with the setting off it changes nothing |
| `ClearOnQuit.CleanOpen` | crates/nagori-daemon/src/clear_on_quit.rs:98-131 | an open serves what it finds, after the purge an earlier quit left to it |
| `ClearOnQuit.UnmarkedQuitServesIff` | crates/nagori-daemon/src/clear_on_quit.rs:167-176 | after a quit whose marker could not be written, over every run until history is next shown, crashes and failures included: what was unpinned at that quit is still there exactly when no purge has landed |
| `ClearOnQuit.UnmarkedQuitCanServe` | crates/nagori-daemon/src/clear_on_quit.rs:167-176 | and it can be served: the purge fails and the next session finds no marker |
| `ClearOnQuit.PinnedAtQuitMayBeServedUnpinned` | crates/nagori-daemon/src/clear_on_quit.rs:133-150 | an entry pinned at the quit is kept and may be unpinned and served later |
| `ClearOnQuit.RunKeepsInv` | crates/nagori-daemon/src/clear_on_quit.rs:108-197 | the marker invariant after every run |
| `ClearOnQuit.Host.FinishPending` | crates/nagori-daemon/src/clear_on_quit.rs:108-131 | success leaves nothing pending; failure keeps the marker; when it fails |
| `ClearOnQuit.Host.ClearHistory` | crates/nagori-daemon/src/clear_on_quit.rs:151-197 | after a written marker either the history is cleared or the marker stands; the marker goes exactly on a timely, successful purge and removal |
| `ClearOnQuit.PurgeKeepsInv` | crates/nagori-storage/src/sqlite/maintenance.rs:196-208 | a purge keeps the marker invariant in every phase and leaves no deletion owed |
| `Json.JsonEscapedLen` | crates/nagori-core/src/limits.rs:243-253 | the saturating fold is the length of the real escape of every string, capped at the word size |
| `Json.BytewiseIsCharwise` | crates/nagori-core/src/limits.rs:235-253 | escaping the UTF-8 bytes one by one is escaping the characters as section 7 of RFC 8259 asks |
| `Json.EscapedWhenNeeded` | crates/nagori-core/src/limits.rs:235-253 | a character stands for itself exactly unless it is a quotation mark, a reverse solidus or a control |
| `Json.EscapeReadsBack` | crates/nagori-core/src/limits.rs:235-253 | an escaped string ends at its own closing quote and reads back as what was written, whatever follows |
| `Json.EscapeHasNoControls` | crates/nagori-core/src/limits.rs:235-253 | an escape holds no control byte |
| `Json.EscapeCost` | crates/nagori-core/src/limits.rs:246-250 | the cost table is the escape's length byte by byte |
| `Limits.TruncateOnCharBoundary` | crates/nagori-core/src/limits.rs:190-199 | the walk back ends at the longest prefix of whole characters within the cap |
| `Limits.TruncatedIsLongest` | crates/nagori-core/src/limits.rs:186-199 | that prefix fits and no longer prefix does |
| `Limits.PlainTextAtTheRawCeilingFits` | crates/nagori-core/src/limits.rs:222-233 | text at the raw ceiling that needs no escape is never refused by the wire ceiling |
| `Limits.AdmittedIff` | crates/nagori-core/src/limits.rs:170-220 | text is admitted exactly when it fits one response beside the most metadata a row can have |
| `IpcBudget.EntryDtosWithinBudget` | crates/nagori-daemon/src/ipc_handler.rs:397-447 | a list response is the first rows in order; their charges fit the budget and one more row would not. A row's text goes out, unchanged, exactly when the caller may see it (Public, Unknown, or sensitive text asked for) and the row is not a first one over budget alone; a Blocked row shows the placeholder; every other field is the entry's, cut to its cap |
| `IpcBudget.SearchDtosWithinBudget` | crates/nagori-daemon/src/ipc_handler.rs:516-545 | the same budget for search rows, none of which is ever over it alone; every field is the row's, its strings cut to their caps and its label whole |
| `IpcBudget.ChargedAsSent` | crates/nagori-daemon/src/ipc_handler.rs:404-412 | what a row is charged for its text is what goes out: the escaped text, or nothing |
| `IpcBudget.MetadataWithinAllowance` | crates/nagori-core/src/limits.rs:170-184 | no row's metadata is charged more than the fixed allowance, and nothing saturates |
| `IpcBudget.AdmittedTextIsNeverWithheld` | crates/nagori-core/src/limits.rs:205-220 | text that passes admission is never withheld for size, whatever the row's metadata |
| `IpcBudget.TakenPrefixIsLongest` | crates/nagori-daemon/src/ipc_handler.rs:375-396 | when no row alone is over budget a prefix fits exactly when it is no longer than the one taken |
| `IpcFrame.EntriesResponseFits` | crates/nagori-daemon/src/ipc_handler.rs:375-396 | the bytes of every list response fit one frame: proved on the serialized response, for any field values of the declared types and widths |
| `IpcFrame.EntryRowWithinCharge` | crates/nagori-daemon/src/ipc_handler.rs:449-504 | a list row's JSON with its comma is no longer than its charge, the blocked-preview placeholder included |
| `IpcFrame.EntrySizeIs` | crates/nagori-daemon/src/ipc_handler.rs:375-396 | the exact size of a list row, every field counted |
| `SearchFrame.SearchResponseFits` | crates/nagori-daemon/src/ipc_handler.rs:506-545 | any page the budget takes fits one frame while what goes out uncharged (labels, and byte counts past nine digits) stays within the envelope reserve |
| `SearchFrame.SearchRowWithin` | crates/nagori-ipc/src/protocol.rs:537-562 | a search row's JSON is no longer than its charge plus its label, plus 88 bytes where byte counts pass nine digits |
| `SearchPage.PagesFitIff` | crates/nagori-daemon/src/ipc_handler.rs:506-545 | of pages of up to 200 rows with 180-character previews, labels of at most k characters and MIME strings escaping to at most m bytes, all that the budget takes fit one frame exactly when 8m + 6k is at most 2099 (so with 80-character labels, when m is at most 202) |
| `SearchPage.PlainMimesFit` | crates/nagori-ipc/src/protocol.rs:530-558 | so every page whose MIME strings need no escaping fits, whatever its labels and counts |
| `SearchPage.LabelsBreachTheFrame` | crates/nagori-ipc/src/protocol.rs:530-558 | a page within every cap of the source (180-character previews, 80-character labels, 64-byte MIME strings, small counts), all of it taken, whose response is over the frame |
| `Framing.ReadLineBounded` | crates/nagori-ipc/src/framing.rs:42-88 | for every way of cutting the stream into reads the result is the frame of the stream, and the buffer never exceeds the cap |
| `Framing.CutArrives` | crates/nagori-ipc/src/framing.rs:42-88 | whatever the cut, the chunks arrive joined |
| `Framing.FrameReadsBack` | crates/nagori-ipc/src/framing.rs:30-41 | a payload without control bytes is read back unchanged exactly when it is within the cap, whatever follows it |
| `Framing.JsonCrossesTheWire` | crates/nagori-ipc/src/client.rs:193-230 | any JSON value the writer admits is the payload the reader gets |
| `JsonValues.ValueReadsBack` | crates/nagori-ipc/src/client.rs:193-230 | every JSON value of the writer is read back whole by a reader for RFC 8259, whatever follows it |
| `JsonValues.SerializeDetermines` | crates/nagori-ipc/src/client.rs:193-230 | so different values are never serialized alike |
| `JsonValues.ValueCrossesTheWire` | crates/nagori-ipc/src/client.rs:193-230 | a value within the cap arrives, however the stream is cut: the frame read holds that value and nothing else |
| `Framing.SerializeClean` | crates/nagori-ipc/src/client.rs:198-218 | serialized JSON holds no control byte, so no newline |
| `Framing.LineEndIsFirstNewline` | crates/nagori-ipc/src/framing.rs:75-81 | the frame ends at the first newline |
| `Representations.PrimaryIsRichest` | crates/nagori-core/src/factory.rs:218-275 | every non-empty normalized list has a primary, the first payload of the richest kind present, and the content is built from that payload; a fallback is announced exactly for a markup primary with a plain sibling; the text panic is never reached |
| `Representations.BuildStoredSet` | crates/nagori-core/src/factory.rs:361-394 | the stored set is the primary, the fallback, then the rest in snapshot order, with ordinals counting up and saturating |
| `Representations.PrimaryThenPlain` | crates/nagori-core/src/factory.rs:361-394 | the stored order with a fallback: the primary, the first plain text, then the others as the snapshot had them |
| `Representations.PrimaryThenRest` | crates/nagori-core/src/factory.rs:361-394 | and without one: the primary, then the others |
| `Representations.StoredRowIs` | crates/nagori-core/src/factory.rs:361-394 | each stored row's number, role, MIME string and payload |
| `Representations.StoredOrderConserves` | crates/nagori-core/src/factory.rs:354-394 | no payload is lost or doubled |
| `Representations.OrdinalsAreDistinct` | crates/nagori-core/src/factory.rs:377-392 | up to 2^32 payloads the ordinals are strictly increasing and roles never step back |
| `Representations.NormalizeRepresentations` | crates/nagori-core/src/factory.rs:124-216 | every payload that qualifies is kept, once, in snapshot order, and its kind can be read off its MIME string |
| `Representations.KeptWhen` | crates/nagori-core/src/factory.rs:136-205 | which payloads qualify: text that is not blank, an image whose bytes match an allowed type, a path list that is not empty; and what is kept of them |
| `Representations.TextIsFiledByName` | crates/nagori-core/src/factory.rs:485-507 | each of the seven text names, in any case and with any parameters, is filed under its canonical name |
| `Representations.OtherNamesAreNoText` | crates/nagori-core/src/factory.rs:491-507 | any other name is no text |
| `Representations.LeftAt` | crates/nagori-core/src/factory.rs:124-135 | a kept payload stands behind exactly those kept before it |
| `SetHash.LineReadsBack` | crates/nagori-core/src/factory.rs:426-441 | a line is recovered in front of anything, with bars, newlines and digits in its MIME |
| `SetHash.BufferReadsBack` | crates/nagori-core/src/factory.rs:443-479 | a parser recovers the list of role, ordinal, MIME and payload hash from every buffer |
| `SetHash.BufferDeterminesLines` | crates/nagori-core/src/factory.rs:443-479 | two sets share a buffer exactly when their sorted lines agree |
| `SetHash.BufferDeterminesSet` | crates/nagori-core/src/factory.rs:436-441 | for normalized sets whose own payloads do not collide: the same buffer exactly when the same representations |
| `SetHash.StoredSetsShareBufferIff` | crates/nagori-core/src/factory.rs:354-479 | two stored sets share a buffer exactly when they are the same rows in the same order, and then they were built from the same payloads in the same order; only a digest collision among their own payloads can break it |
| `SetHash.BufferIgnoresOrder` | crates/nagori-core/src/factory.rs:443-451 | reordering a set with distinct keys leaves the buffer unchanged |
| `SetHash.StoredSetHashIgnoresOrder` | crates/nagori-core/src/factory.rs:443-451 | so the buffer of a stored set does not depend on the order it is handed over in |
| `SetHash.KindIsNotEncoded` | crates/nagori-core/src/factory.rs:457-467 | the data kind is not in the buffer: it is injective only because normalization ties the kind to the MIME |
| `SetHash.ComputeSetBuffer` | crates/nagori-core/src/factory.rs:443-478 | the loop builds the buffer of the sorted set |
| `HtmlStrip.StripTags` | crates/nagori-core/src/factory.rs:541-579 | the byte walk keeps exactly the text a character tokenizer keeps outside tags (quotes respected) and script or style bodies; it ends, and every slice it takes is on character boundaries |
| `HtmlScan.ScanToTagEnd` | crates/nagori-core/src/factory.rs:630-650 | the tag scan is the recursive one |
| `HtmlScan.FindRawTextClose` | crates/nagori-core/src/factory.rs:655-677 | the close-tag search is the recursive one |
| `HtmlScan.TagBytesAreChars` | crates/nagori-core/src/factory.rs:626-650 | the byte tag scan ends where the character scan does, on every string |
| `HtmlScan.RawBytesAreChars` | crates/nagori-core/src/factory.rs:652-677 | so does the close-tag search |
| `HtmlText.DecodeHtmlEntities` | crates/nagori-core/src/factory.rs:679-710 | the loop is the recursive decoder, whose results `HtmlReferences` pins reference by reference |
| `HtmlReferences.DecimalReference` | crates/nagori-core/src/factory.rs:714-733 | a decimal reference, leading zeros and a plus sign allowed, becomes its character exactly when it names one and ends within twelve characters; a surrogate or a larger number stays as written |
| `HtmlReferences.HexReference` | crates/nagori-core/src/factory.rs:714-733 | the same for hexadecimal references, with either x and digits of either case |
| `HtmlReferences.NamedReference` | crates/nagori-core/src/factory.rs:714-733 | exactly six names are read, each as its character; any other stays as written |
| `HtmlReferences.MalformedStays` | crates/nagori-core/src/factory.rs:714-733 | a number sign without a well-formed number stays as written |
| `HtmlText.StrippedIsPresentable` | crates/nagori-core/src/factory.rs:580-624 | the finished text has no control, bidirectional or zero-width character and only single interior spaces |
| `HtmlText.UnsafeAreListed` | crates/nagori-core/src/factory.rs:598-626 | which characters are removed, by code point |
| `HtmlText.QuotedTextComesBack` | crates/nagori-core/src/factory.rs:533-540 | any text quoted into markup is recovered, up to unsafe characters and the width of its gaps |
| `HtmlReferences.WrittenTextComesBack` | crates/nagori-core/src/factory.rs:541-595 | however each character of a text is written, plainly, by name, in decimal or in hexadecimal, the whole pipeline recovers the text, up to unsafe characters and gap width |
| `HtmlText.WordsOfSpaced` | crates/nagori-core/src/factory.rs:588-594 | splitting undoes joining, so compaction is idempotent |
| `HtmlText.StripHtml` | crates/nagori-core/src/factory.rs:541-595 | the whole pipeline |
| `Utf8.BoundaryIff` | crates/nagori-core/src/factory.rs:571-577 | the byte test for a boundary (section 3 of RFC 3629) holds exactly where a prefix of characters ends |
| `TextRecognition.ClearedOffStaysEmpty` | crates/nagori-daemon/src/text_recognition.rs:244-264 | over every interleaving: once a clear has gone through with the setting off and no storing call adrift, nothing is stored until the setting is turned on |
| `TextRecognition.ClearIsFinalIff` | crates/nagori-daemon/src/text_recognition.rs:244-264 | and that is the exact condition: a clear with the setting off is final, whatever recognitions are under way, exactly when no store call of a dropped gate holder is still running |
| `TextRecognition.DroppedIndexerLeavesText` | crates/nagori-storage/src/sqlite/mod.rs:127-136 | from a clean start: an indexer dropped inside its store call lets the respawned one clear with the setting off, and its text lands afterwards |
| `TextRecognition.ClearedTextIsOfOnePolicy` | crates/nagori-daemon/src/text_recognition.rs:266-358 | after a clear keeping the current policy's text, with every storing call adrift shaped under it, all stored text carries that policy while it stays |
| `TextRecognition.ClearedTextIsOfOnePolicyIff` | crates/nagori-daemon/src/text_recognition.rs:266-358 | and that too is the exact condition |
| `TextRecognition.UndisturbedRecognition` | crates/nagori-daemon/src/text_recognition.rs:169-209 | a recognition nobody disturbs stores its text exactly while the setting is on under its own policy and the image is still the one read, and masks an image shown private, on request even when the text is not stored |
| `TextRecognition.UndisturbedClear` | crates/nagori-daemon/src/text_recognition.rs:244-264 | a clear nobody disturbs keeps exactly the text of the policy it names |
| `TextRecognition.LandingDoesTheCall` | crates/nagori-storage/src/sqlite/mod.rs:127-136 | a dropped holder's call does, when it lands, what it would have done |
| `TextRecognition.GateHolds` | crates/nagori-daemon/src/text_recognition.rs:166-209 | a clear is never inside the gate together with anyone else |
| `TextRecognition.MaskedImagesAreLeftAlone` | crates/nagori-storage/src/sqlite/ocr.rs:117-127 | no step stores text for a masked image or unmasks it |
| `TextRecognition.ShapedTextIsRedacted` | crates/nagori-daemon/src/text_recognition.rs:56-96 | text that reads as private or worse is passed on only as its redaction: each line that is not blank, once, in order and in the place of the line it stands for, with the image raised to Private or Secret exactly as it reads; other text is passed on as it was read |
| `TextRecognition.NothingRedactedNothingLost` | crates/nagori-daemon/src/text_recognition.rs:84-94 | a redaction that changes nothing drops no line |
| `TextRecognition.TextIndex.StoreExtractedText` | crates/nagori-daemon/src/text_recognition.rs:169-209 | stored only while the setting is on under the shaping policy, masked either way; what it answers |
| `TextRecognition.TextIndex.RecordIndexedText` | crates/nagori-daemon/src/text_recognition.rs:317-358 | nothing is written once the setting or policy has moved |
| `TextRecognition.TextIndex.ClearTextRecognition` | crates/nagori-daemon/src/text_recognition.rs:244-256 | the shortcut for an empty index has the effect of the full clear |
| `AiRegistry.PermitsAreConserved` | crates/nagori-daemon/src/ai_registry.rs:84-207 | over every run each permit is in exactly one place: free, attached to one request, or in one hand; reused ids and refused attaches included |
| `AiRegistry.CapacityIsConstant` | crates/nagori-daemon/src/ai_registry.rs:45-67 | per backend, free plus attached plus in-hand permits equal the capacity |
| `AiRegistry.AttachNeverRacesReap` | crates/nagori-daemon/src/ai_registry.rs:132-162 | an attach succeeds exactly on a handle a sweep at that instant would leave, and survives that sweep |
| `AiRegistry.ReapedTokensAreCancelled` | crates/nagori-daemon/src/ai_registry.rs:186-207 | a sweep takes exactly the expired handles and cancels their tokens |
| `AiRegistry.PermitsComeBack` | crates/nagori-daemon/src/ai_registry.rs:28-36 | with sweeps at most 60 s apart no permit stays attached past its deadline plus 65 s |
| `AiRegistry.SweptFromGraceOn` | crates/nagori-daemon/src/ai_registry.rs:186-207 | a sweep takes a handle, its permit and its token exactly from five seconds after the deadline, and leaves it whole before |
| `AiRegistry.AiRequestRegistry.Register` | crates/nagori-daemon/src/ai_registry.rs:120-130 | a reused id replaces its handle and frees the old permit |
| `AiRegistry.AiRequestRegistry.AttachPermit` | crates/nagori-daemon/src/ai_registry.rs:148-162 | success exactly when the handle is present and not expired; otherwise the permit is handed back and nothing changes |
| `AiRegistry.AiRequestRegistry.Remove` | crates/nagori-daemon/src/ai_registry.rs:164-167 | dropping a handle frees its permit |
| `AiRegistry.AiRequestRegistry.Cancel` | crates/nagori-daemon/src/ai_registry.rs:169-178 | cancels a tracked request's token and reports whether it was tracked |
| `AiRegistry.AiRequestRegistry.ReapExpired` | crates/nagori-daemon/src/ai_registry.rs:186-207 | the loop is the sweep: which handles go, which permits come back, which tokens are cancelled, and the count |
| `Stream.ReplayFollowsPump` | crates/nagori-ai-apple/src/pump.rs:35-52 | for every sequence of snapshots, replaying the events gives the latest snapshot, numbered 0, 1, 2, … with no gap |
| `Stream.DiffSnapshot` | crates/nagori-ai-apple/src/delta.rs:45-58 | unchanged, append or replace by the prefix relation, the appended tail cut on a character boundary |
| `Stream.DiffIs` | crates/nagori-ai-apple/src/delta.rs:45-58 | nothing to do exactly for the same text, a tail exactly for a proper extension, otherwise the new text whole |
| `Stream.CommonPrefixLen` | crates/nagori-ai-apple/src/delta.rs:24-33 | the byte length of the longest common prefix of characters, in both strings |
| `Stream.SnapshotPump.Push` | crates/nagori-ai-apple/src/pump.rs:38-52 | a number is used up exactly when an event goes out, and the pump then holds the snapshot |
| `Stream.TerminalCarriesReplay` | crates/nagori-ai-apple/src/pump.rs:60-70 | the terminal event carries what the events before it have already put together, so replaying it changes nothing, and it uses up no number |
| `Stream.SpawnSimulated` | crates/nagori-ai-apple/src/stream.rs:73-102 | for every pattern of cancel polls and every moment the receiver goes, the events delivered are the produced ones cut there |
| `Stream.ProducedEndsOnce` | crates/nagori-ai-apple/src/stream.rs:73-102 | a receiver that stays gets one terminal event, last, whose text is the replayed buffer and a prefix of the input; Done exactly when no poll saw the flag, with the whole input |
| `Chunking.ChunkEstimatedTokens` | crates/nagori-ai-apple/src/embed.rs:202-222 | the loop computes the greedy cut of the considered characters |
| `Chunking.ConsideredText` | crates/nagori-ai-apple/src/embed.rs:202-222 | the chunks are the first `total_cap` characters of the text, or all of it |
| `Chunking.ChunksFitTheModel` | crates/nagori-core/src/model/ai/engine.rs:425-460 | every chunk is within the model's cap with wide characters as tokens and others as half, so also by the dispatch guard's estimate |
| `Chunking.ChunksAreFull` | crates/nagori-ai-apple/src/embed.rs:202-222 | and none is cut short: the first character of the next would put it over the cap |
| `Chunking.GreedyCoversWithinCap` | crates/nagori-ai-apple/src/embed.rs:188-201 | the chunks concatenate to the considered characters, none is empty and none is over the cap |
| `Chunking.GreedyIsMinimal` | crates/nagori-ai-apple/src/embed.rs:188-201 | no other cut within the cap uses fewer chunks |

## Left out

- SQLite, SQL text, ranking distances, WAL scrubbing and file locking: transactions are atomic steps with the conditions their statements check.
- The fetch of pending rows is one snapshot; the source reads representation rows in a second statement, and a torn read is then refused by the content-hash condition of the write.
- `semantic_set_meta` and the unguarded upsert and exclude calls, which only the repository's own tests use.
- RebuildRequests.RebuildRequestsAreNotLost: requires a single worker, because with two it is false; a worker respawned while a dropped one's upsert still runs is a second one, and `RebuildRequests.RebuildHonoursIff` is the exact condition then.
- SearchFrame.SearchResponseFits: takes what goes out uncharged as a condition, because the source charges neither labels nor long byte counts; `SearchPage.PagesFitIff` says which caps make it hold. The list response needs no such condition.
- PolicyFacts.ReassessmentAgreesWithCapture: assumes path lists labelled `text/uri-list`, the condition `PolicyFacts.OversizedAgreesIff` shows to be exact for the size verdict.
- Mutators.MaintenanceService.Run: covers every return; a run dropped or panicking between a commit and its invalidate leaves what `Mutators.SettledIffNothingPending` says of its trace.
- CacheCoherence.HitsAreCoherent: assumes fewer than 2^64 invalidations between a lookup and its put, because the epoch wraps.
- AiRegistry.PermitsComeBack: assumes the watchdog sweeps at least every 60 s; its scheduling is not modelled.
- Json.EscapeReadsBack: the reader understands the escapes the writer emits, not surrogate pairs or wider `\u` escapes.
- `apply_secret_handling`, the built-in detectors, Luhn, NFKC and lowercasing, image decoding, vector pooling and floating point.
- The rest of the request dispatcher, health and doctor reports, settings range checks, the Swift bridge, and the desktop and command-line front ends.
- The backoff schedule between transient embedding failures, permit waits and query timeouts: a failed or late call is one outcome among others.
- Audit-log and thumbnail upkeep inside the maintenance run, which touches no cached query.
