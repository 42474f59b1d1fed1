# bucketvcs: verified model of its storage protocols and codecs

bucketvcs keeps Git repositories in an object store. This project models the
parts of it where a mistake loses or misreports data, and proves what they
promise:

- **Garbage collection** (`Gc*.dfy`): marks and sweeps that run beside pushes.
  `GcSafety` interleaves single storage steps of any number of commits, marks
  and sweeps and gives the exact condition under which no referenced object can
  be lost. `GcMark` and `GcSweep` are the two phases as imperative code.
  `GcHistory` follows one key through any chain of marks, sweeps and prunes.
- **Commit graph** (`Generations.dfy`, `CommitGraph*.dfy`): the memoised search
  for generation numbers, the binary writer, the two readers and the round trip.
- **Audit log** (`AuditPage.dfy`, `AuditView.dfy`, `AuditDecode.dfy`): backward
  pagination under four budgets, what its pages show, and the line decoder that
  sees a stream in fragments.
- **Replica lease and client** (`Lease.dfy`, `LeaseProtocol.dfy`,
  `LeaseTiming.dfy`, `ReplicaClient.dfy`): compare-and-swap loops over one
  object, as code against an interfering store whose calls are events of a
  protocol of many instances, and that protocol against a clock.
- **Build-trigger deliveries** (`DeliveryQueue.dfy`, `DeliveryRuns.dfy`,
  `DeliveryDeadlines.dfy`): the statements run against the delivery table, whole
  runs of them, and runs against a clock.
- **Tenant stores** (`StoreResolver.dfy`): the cache of opened stores under
  concurrent Resolve and Invalidate calls.
- **Text codecs** (`DiffParser.dfy`, `DiffRoundTrip.dfy`, `TreePrinter.dfy`):
  the unified-diff parser, patches as git prints them, and the printed form of
  tree objects.

`ObjectStore.dfy` is the store all of this uses: conditional writes and deletes
with versions that are never reused, other clients at work between any two
calls, calls that fail, and calls that take effect although their reply is
lost. Its ghost fields keep the client's own effects, its failed calls and every
instant of the contents, so that contracts can speak of what happened during a
call.
`Order`, `Sorting`, `Binary` and `Wrappers` are supporting modules.

Hash functions, JSON decoding, decompression, clocks and the outcome of a
delivery are parameters. Times are integers.

Places where the code and its own documentation differ; the model follows the
code:

- The store interface documents a version mismatch for a conditional write to
  an absent key; callers also handle a not-found error. Both replies occur.
- `TookOver` is documented to describe the last successful Acquire. The code
  never resets it, so an Acquire that creates the lease keeps an earlier value
  (`Lease.Lease.Acquire`).
- `Page` documents its cursor as the oldest object of the page. When the day
  budget runs out it is a mark above a day that has no object of that name
  (`AuditPage.Page`, `StopsRight`).
- The layout comment of the commit graph format describes records without a
  generation. Written files have version 2, with a generation after the id; the
  readers accept both.
- The diff parser documents that a missing new path falls back to the old one.
  That is skipped when the file limit is reached
  (`DiffRoundTrip.CutShowsOtherPaths`).
- The diff parser documents that a path with " b/" in it can be split wrongly
  only for binary changes. It is for deleted text files too
  (`DiffRoundTrip.MarkShowsOther`). It does not mention the tab that git puts
  after a name with a space (`DiffRoundTrip.SpaceShowsTab`).

Properties that do not hold as one might expect, the lemma that says exactly
when they hold, and an instance that shows the failure:

- garbage collection keeps every referenced object:
  `GcSafety.IntactIffRetentionDominates`; `GcSafety.ShortRetentionLosesData`,
  `GcSafety.RewrittenKeyInheritsFirstSeen`,
  `GcSafety.RewriteLosesData`
- ref names survive the commit graph: `CommitGraphBuild.TipsSurviveIffNulFree`;
  `CommitGraphBuild.NulIsCut`
- following audit cursors loses nothing: `AuditPage.NoPageLosesIff`,
  `AuditPage.FollowCursors`, `AuditPage.RemainingAtDayIff`;
  `AuditPage.SomeClockLoses`, `AuditPage.FollowingLoses`,
  `AuditPage.LosesObject`
- one instance replicates at a time: `LeaseTiming.ExclusiveIffTtlDominates`,
  which builds the failing run, and `LeaseProtocol.SecondRunnerIff`
- finished deliveries are final: `DeliveryDeadlines.FinalIffThresholdDominates`
  and `DeliveryDeadlines.ReopenedIff`, which build the failing runs
- one opening per tenant at a time: `StoreResolver.StaysSingleIffCached`,
  `StoreResolver.InvalidationIsHarmlessIff`;
  `StoreResolver.InvalidateAllowsSecondOpening`
- a diff shows the right paths: `DiffRoundTrip.NewPathShownIff`;
  `DiffRoundTrip.SpaceShowsTab`, `DiffRoundTrip.MarkShowsOther`
- a cut diff shows a prefix of the files: `DiffRoundTrip.CutPathsArePrefixIff`;
  `DiffRoundTrip.CutShowsOtherPaths`
- the printed text determines the tree: `TreePrinter.SameTextIff`;
  `TreePrinter.PaddedModesCollide`

## Model

| member | source | states |
|---|---|---|
| GcSafety.IntactIffRetentionDominates | internal/gc/sweep.go:41-145 | Over all interleavings of commits, marks and sweeps, in every repository: no reachable state has lost a referenced object if and only if keys are written once and the pinned retention exceeds the commit delay plus the listing time. |
| GcSafety.NoReferencedKeyIsLost | internal/gc/sweep.go:54-145 | In every run of a safe deployment each referenced key is stored, and no enabled delete names a key that the manifest references at that moment. |
| GcSafety.StepKeepsInv | internal/gc/mark.go:40-173 | Every single step of a commit, mark, sweep or prune keeps the invariant that condemned keys are too old for any commit still to come. |
| GcSafety.ReadRootCondemnsDeadKeys | internal/gc/sweep.go:54-75 | After a sweep has read the root afresh, every key it will delete is unreferenced now and can never be committed again. |
| GcSafety.ShortRetentionLosesData | internal/gc/mark.go:40-133 | If the delay and the listing time reach the retention, every repository has a run that lists a canonical pack, commits it in time and deletes it. |
| GcSafety.RewrittenKeyInheritsFirstSeen | internal/gc/mark.go:94-133 | A pack that was marked, swept, written again and marked once more stands in the second mark as first seen before it was written. |
| GcSafety.RewriteLosesData | internal/gc/mark.go:94-133 | If keys may be written again, every repository has a run in which such a pack is committed and then deleted by a sweep of the second mark. |
| GcHistory.StoredUntilDue | internal/gc/mark.go:75-173 | Across any chain of pushes, marks, sweeps and prunes a key of any of the five categories that nothing claims keeps its first-seen time while stored, and is stored exactly until the first unobstructed sweep at or after first-seen plus the pinned retention that finds it unreferenced; for a transaction record that sweep must be of an armed mark, and for a commit marker it must find no record. |
| GcHistory.StepKeepsFirstSeen | internal/gc/sweep.go:134-145 | One step keeps the first-seen time and removes the key if and only if it is a sweep at which the key is due. |
| GcHistory.FirstMarkStartsTheClock | internal/gc/mark.go:117-173 | The first mark that finds a key gives it that mark's start time. |
| GcHistory.MarkTracks | internal/gc/mark.go:75-173 | Every mark that finds a key of any category records it with its carried first-seen time. |
| GcHistory.DiscoveriesAreFindings | internal/gc/discover.go:19-133 | What the four discoveries return is exactly what the history says a mark finds: the stored, unreferenced packs, indexes and bundles, the records of transactions without a marker, and the markers of transactions without a record. |
| GcHistory.MarkIsPhase | internal/gc/mark.go:28-177 | Running the mark over the listings of a repository is a mark phase of its history: it succeeds and puts exactly its record in front of the earlier ones, with the requested retention or a week, and armed exactly if the one before was or a commit marker is stored. |
| GcHistory.ArmedIff | internal/gc/mark.go:75-79 | Over any run the newest mark is armed if and only if it was before, or some mark since was taken while a commit marker was stored, whatever is pruned. |
| GcHistory.FiledOnce | internal/gc/discover.go:19-46 | No key belongs to two of the listed categories, so category lists never overlap. |
| GcHistory.TxKeys | internal/gc/discover.go:63-109 | The keys listed as records and as markers are exactly the record and marker keys of transactions. |
| GcModel.Carry | internal/gc/mark.go:117-173 | A candidate keeps its key, and is either new as of now or an entry of the previous mark in the same category. |
| GcModel.Lookup | internal/gc/mark.go:94-115 | Finds an entry if and only if the key is listed, and then one with that key. |
| GcMark.BuildLiveSet | internal/gc/liveset.go:26-84 | Collects exactly the keys the manifest references; fails exactly on an unreadable body. |
| GcMark.PackKeys | internal/gc/liveset.go:46-56 | Exactly the non-empty pack, index and bitmap keys of the pack entries. |
| GcMark.BundleKeys | internal/gc/liveset.go:70-77 | Exactly the non-empty bundle and sidecar keys. |
| GcMark.ListExcludingLive | internal/gc/discover.go:113-133 | Over any division into pages, every listed key that is not live, in listing order; fails exactly when a listing call fails. |
| GcMark.DiscoverTxRecords | internal/gc/discover.go:63-109 | The orphan records and the orphan markers, each once and in ascending order, and whether any marker exists; fails exactly when a listing call fails. |
| GcMark.IndexByKey | internal/gc/mark.go:94-115 | The table agrees with looking a key up in the list, a repeated key keeping its last entry. |
| GcMark.CarryForward | internal/gc/mark.go:117-173 | Each discovered key becomes a candidate with its carried first-seen time, in order. |
| GcMark.RunMark | internal/gc/mark.go:28-177 | The whole mark: candidates are exactly the unreferenced packs, indexes and bundles and the orphan records and markers, with carried times and sticky flag; fails exactly if reading the root, the previous mark or a listing fails or the body does not parse. |
| GcMark.PruneMarks | internal/gc/prune.go:23-51 | Whatever the store answers, only mark records beyond the newest `keep`, or ten, are removed; if it succeeds, each of those was absent or replaced at some instant of the call; it fails exactly if the records cannot be listed, and then touches nothing, or a store call fails. |
| GcMark.PruneOne | internal/gc/prune.go:34-48 | One old record is removed at most; success means it was absent or replaced at some instant. |
| GcSweep.EveryCandidateIsAccountedForOnce | internal/gc/sweep.go:81-118 | The deleted, skipped and error lists together are, as a multiset, exactly the candidates. |
| GcSweep.RealSweepIsWithinDryRun | internal/gc/sweep.go:147-223 | On the same root and clock, the keys a real sweep deletes are a subsequence of those the dry run announces, whatever the store answers. |
| GcSweep.OnlyCondemnedKeysAreRemoved | internal/gc/sweep.go:134-223 | A key leaves the bucket only in a real sweep, if it is an unreferenced candidate whose retention has passed. |
| GcSweep.ReportedDeletesHappened | internal/gc/sweep.go:147-223 | A key reported as deleted was removed by this sweep. |
| GcSweep.SparedCandidates | internal/gc/sweep.go:134-158 | A candidate that the fresh root names is skipped as revived and a young one as waiting; with an unarmed mark no removal comes from a transaction record, and one past retention is skipped as disarmed. |
| GcSweep.SweptCandidates | internal/gc/sweep.go:160-223 | Any other candidate is announced by a dry run, and by a real sweep reported as deleted, missing, changed or failed as the store answered. |
| GcSweep.MarkerLookups | internal/gc/sweep.go:103-118 | A marker whose record is back is skipped as revived, one whose record is in doubt is an error. |
| GcSweep.NamedKeysStay | internal/gc/liveset.go:26-84 | No removal is of a key that any field of the fresh root names, nor of the root manifest or the current transaction. |
| GcSweep.WorkIsTheMark | internal/gc/sweep.go:81-118 | The candidates are taken category by category, in the order of the mark. |
| GcSweep.HeadingIff | internal/gc/sweep.go:89-98 | A report lists an index under the deltas exactly if its key has the delta directory in it. |
| GcSweep.RemovedMarkersHadNoRecord | internal/gc/sweep.go:101-118 | An orphan marker is removed only if its transaction record was absent at an instant of the sweep. |
| GcSweep.ApplyDecision | internal/gc/sweep.go:147-223 | The candidate's fate is recorded as its classification and the store's answer demand, with at most one removal, of that key; the store is asked exactly about a candidate to be deleted, and a key skipped as missing or changed was absent or replaced at an instant of the call; a dry run does not touch the store. |
| GcSweep.SweepOne | internal/gc/sweep.go:81-118 | The same with the orphan-marker look-up before it: a marker is skipped as revived only if its record was present at an instant of the call, and goes on only if it was absent at one. |
| GcSweep.SweepAll | internal/gc/sweep.go:81-118 | Record and removals after the loop are those of the outcome specification for answers that the bucket's own history bears out. |
| GcSweep.RunSweep | internal/gc/sweep.go:41-122 | The whole sweep fails, touching nothing, exactly if the root cannot be read or parsed; otherwise it produces the specified outcome for what the store answered, each answer borne out by the contents of the bucket during the call, with one error for each failed store call; a dry run leaves the store unchanged. |
| ObjectStore.Bucket.Interfere | internal/storage/objectstore.go:14-66 | Other clients may change anything, but an object with an old version is the old object. |
| ObjectStore.Bucket.PutIfAbsent | internal/storage/objectstore.go:54-56 | A write happens only if the key was absent just before it, and gets a fresh version; a failed call wrote at most once. |
| ObjectStore.Bucket.PutIfVersionMatches | internal/storage/objectstore.go:58-61 | A write happens only if the expected version was stored just before it; a mismatch writes nothing. |
| ObjectStore.Bucket.DeleteIfVersionMatches | internal/storage/objectstore.go:63-66 | A removal happens only if the expected version was stored just before it. |
| ReplicaClient.PutUnconditional | internal/authreplica/client.go:197-224 | Against arbitrary interference success is exactly one write of the bytes at the key, the retry limit comes after eight rounds and means nothing was written, an error means at most one write and is returned exactly if a call failed. |
| ReplicaClient.DeleteKey | internal/authreplica/client.go:239-257 | Success means the key was absent at some instant of the call; at most one removal, of that key, and none at the retry limit, which comes after eight rounds; an error is returned exactly if a call failed. |
| Generations.ComputeGenerations | internal/commitgraph/build.go:58-101 | Ends on every commit list, gives every commit a 32-bit number, and on every acyclic list of fewer than 2^32 commits the length of the longest parent chain. |
| Generations.Search.Compute | internal/commitgraph/build.go:68-95 | The memoised recursion ends on every graph and agrees with any solution of the numbering equation. |
| Generations.Search.Best | internal/commitgraph/build.go:86-91 | The largest number among the parents. |
| Generations.LongestAboveParents | internal/commitgraph/build.go:52-57 | A generation is strictly above each parent's. |
| Generations.ChainsAreShort | internal/commitgraph/build.go:52-57 | No chain of an acyclic commit list is longer than the list. |
| Generations.LongestIsOneAboveBest | internal/commitgraph/build.go:58-101 | The longest chain length is one above the largest over the parents. |
| Generations.Solution | internal/commitgraph/build.go:58-101 | On an acyclic list below 2^32 commits the longest chain lengths solve the wrapped 32-bit equation, so there is no wrap-around. |
| CommitGraph.ReadIffEncoded | internal/commitgraph/read.go:268-318 | In both format versions a buffer is read as given records ending at a given offset if and only if it starts with their encoding. |
| CommitGraph.RecordAtIsEncoded | internal/commitgraph/read.go:268-318 | A decoded record encodes to the bytes it was read from. |
| CommitGraph.EncodedRecordIsRead | internal/commitgraph/build.go:220-228 | An encoded record is decoded as it was. |
| CommitGraph.RecordLayout | internal/commitgraph/read.go:268-318 | The bytes of a record, place by place: id, in version 2 the generation with its least significant byte first, number of parents and their ids. |
| CommitGraph.ParentsOf | internal/commitgraph/read.go:332-335 | Present exactly for recorded ids, and then that record's parents. |
| CommitGraphRead.OpenFromStore | internal/commitgraph/read.go:48-160 | Accepts exactly the loadable files and represents their records and tips. |
| CommitGraphRead.Open | internal/commitgraph/read.go:218-265 | Accepts exactly the readable files and indexes all their records. |
| CommitGraphRead.HeaderLayout | internal/commitgraph/read.go:48-72 | A header is accepted if and only if the file ends with the digest of all before it, starts with the magic and a known version, and holds its big-endian counts within bounds. |
| CommitGraphRead.LoadableIff | internal/commitgraph/read.go:107-160 | The store reader accepts at most 1 GiB, ids strictly ascending, every parent and every tip among the commits and every tip named, and nothing else. |
| CommitGraphRead.ReadableIff | internal/commitgraph/read.go:218-265 | The other reader asks for distinct ids and known parents instead. |
| CommitGraphRead.LoadableIsReadable | internal/commitgraph/read.go:218-265 | Everything the store reader accepts, the in-memory reader accepts. |
| CommitGraphRead.ReadBoth | internal/commitgraph/read.go:48-374 | Opening any bytes with both readers: whatever the store reader accepts the other accepts, and for every id the binary search and the table give the same presence and parents. |
| CommitGraphRead.ReadersAgree | internal/commitgraph/read.go:332-335 | For every file the store reader accepts, the table holds exactly the recorded parents. |
| CommitGraphRead.ScanCommits | internal/commitgraph/read.go:162-197 | Succeeds exactly on complete records in strictly ascending order, and finds where each starts. |
| CommitGraphRead.ParseRecordBytes | internal/commitgraph/read.go:268-318 | Succeeds exactly on complete records with distinct ids, and indexes them. |
| CommitGraphRead.ReadTips | internal/commitgraph/read.go:107-117 | Reads exactly the tips that the tip section and string table describe, or fails. |
| CommitGraphRead.TipLayout | internal/commitgraph/read.go:107-117 | A tip is a big-endian offset and an id, and its name runs from there to the next NUL. |
| CommitGraphRead.ParentsKnown | internal/commitgraph/read.go:133-152 | True exactly when no parent dangles. |
| CommitGraphRead.RecordsFit | internal/commitgraph/read.go:73-87 | The capacity test on the commit count never rejects a file that parses. |
| CommitGraphRead.SearchOid | internal/commitgraph/read.go:347-351 | The binary search over variable-length records finds the first id not below the wanted one. |
| CommitGraphRead.Parents | internal/commitgraph/read.go:347-374 | Returns exactly the recorded parents, or nothing for an unknown id. |
| CommitGraphBuild.RoundTrip | internal/commitgraph/build.go:137-238 | Up to 1 GiB a built file loads, with the commits in id order, their generations and ordered parents, and the sorted tips with names cut at the first NUL. |
| CommitGraphBuild.TipsSurviveIffNulFree | internal/commitgraph/build.go:187-218 | The reader gets the written tips back, sorted, if and only if no ref name contains a NUL. |
| CommitGraphBuild.TipsComeBackInOrder | internal/commitgraph/build.go:176-185 | For names without a NUL the tips read from a built file are a permutation of the input, by name and under one name by id; the records are a permutation of the commits. |
| CommitGraphBuild.NulIsCut | internal/commitgraph/read.go:199-208 | A file with a ref name that contains a NUL is written and read, and the name comes back cut. |
| CommitGraphBuild.BuildIsCanonical | internal/commitgraph/build.go:137-238 | Any permutation of commits and tips gives the same bytes or the same refusal. |
| CommitGraphBuild.BuildSucceedsIff | internal/commitgraph/build.go:138-174 | Refuses exactly repeated commits, more than 255 parents, unknown tips and dangling parents. |
| CommitGraphBuild.RefusedIff | internal/commitgraph/build.go:138-174 | The same in terms of the commits and tips: a repeated id, more than 255 parents, a tip or a parent that is no commit. |
| CommitGraphBuild.AssembledIsRead | internal/commitgraph/build.go:200-238 | The assembled sections are found by the reader where they were written. |
| CommitGraphBuild.Build | internal/commitgraph/build.go:137-238 | The loops produce the specified bytes. |
| CommitGraphBuild.BuildNumbered | internal/commitgraph/build.go:21-101 | The stored generations of an acyclic list are the longest chain lengths, with everything else unchanged. |
| CommitGraphBuild.BuildStrings | internal/commitgraph/build.go:187-198 | The string table with one entry for each distinct ref name. |
| CommitGraphBuild.StringsAreFound | internal/commitgraph/build.go:187-198 | Below 4 GiB exactly the tip names have offsets, and each name stands at its offset. |
| CommitGraphBuild.TableIsNames | internal/commitgraph/build.go:187-198 | The string table is the distinct ref names, each once and followed by a NUL. |
| CommitGraphBuild.NamesAscend | internal/commitgraph/build.go:176-198 | For sorted tips the names in the table strictly ascend. |
| AuditPage.FollowCursors | internal/auditlog/reader.go:205-338 | Following cursors to the end terminates, whichever limits end the pages, whatever each read returns and whatever stray keys follow the partitions; each page is the page from the cursor before it; and the objects of the pages are exactly the remaining ones of the range, in order, if and only if no page starts where its day budget ends above a day with a name that reaches "~", otherwise some object is in no page; so nothing is lost if no name does. |
| AuditPage.NoPageLosesIff | internal/auditlog/reader.go:262-274 | For every store: no filter, clock, limits and reads make a first page lose objects if and only if every shipped name sorts below "~". |
| AuditPage.SomeClockLoses | internal/auditlog/reader.go:262-274 | For every store with such a name the first page at that clock loses objects, whatever the reads return. |
| AuditPage.FollowingLoses | internal/auditlog/reader.go:205-338 | For every store with a name that reaches "~", a hundred days after it and under limits that never fill, an object of the range is in none of the pages that following the cursors gives. |
| AuditPage.PagesShowEveryEvent | internal/auditlog/reader.go:301-346 | If reading an object gives the same on every page, the events of such pages are together, as a multiset, exactly the matching events of their objects. |
| AuditView.PageShows | internal/auditlog/filter.go:23-44 | A page shows, newest first, exactly the decoded events of its objects that agree with every non-empty field of the filter and lie within its bounds, each as often as it was read. |
| AuditView.EmptyFilterShowsAll | internal/auditlog/filter.go:8-10 | An empty filter shows every event that was read. |
| AuditView.PagesShow | internal/auditlog/reader.go:301-346 | The same over all the pages that following the cursors gives. |
| AuditPage.RangeIsCovered | internal/auditlog/reader.go:205-250 | Those are, strictly descending, exactly the shipped objects up to the start day and not before the since day. |
| AuditView.RemainingIs | internal/auditlog/reader.go:215-250 | What is left from a cursor are the shipped objects below it, or up to the day of the clock, not after the day that follows until and not before the day of since. |
| AuditPage.Page | internal/auditlog/reader.go:205-346 | A page takes a prefix of what remains; what its cursor leaves is the rest if and only if the inputs do not exhaust the day budget above a name that reaches "~"; its limits and cursor are exact; events are those of the taken objects, newest first, equal times in reading order; it fails exactly if the listing that finds the oldest day or that of a day the walk reaches fails, the first key is foreign or the cursor is. |
| AuditPage.PageIsDetermined | internal/auditlog/reader.go:205-346 | That description of a page fits only one page, with its events in one order, and one list of objects for each store, filter, clock, cursor, limits and reads. |
| AuditPage.SortIsNewestFirst | internal/auditlog/reader.go:341-346 | The sort is newest first and keeps the order of events of the same time. |
| AuditPage.WalkBack | internal/auditlog/reader.go:267-337 | The walk lists at most 100 days, takes a prefix of what remains, and its cursor leaves the rest unless it is a day mark that leaves a name out. |
| AuditPage.MarkIffOutOfDays | internal/auditlog/reader.go:268-274 | The cursor is a day mark if and only if the floor is out of reach and all that is in reach does not fill the page. |
| AuditView.PageStops | internal/auditlog/reader.go:267-337 | A page stops at the first object that reaches one of its limits, 20 objects by default; it continues at that object, or at the mark "~" a hundred days down if none was reached. |
| AuditPage.FillPage | internal/auditlog/reader.go:262-338 | The part of a page after its checks, with the same guarantees. |
| AuditPage.Walker.Take | internal/auditlog/reader.go:284-311 | A failed read counts the object as consumed and adds nothing. |
| AuditPage.Walker.TakeOne | internal/auditlog/reader.go:284-325 | Says exactly whether the object filled the page. |
| AuditPage.Walker.TakeDay | internal/auditlog/reader.go:280-327 | Takes the day's objects older than the cursor, up to the one that fills the page. |
| AuditPage.OldestDay | internal/auditlog/reader.go:122-153 | The day of the first key that is not a folder marker, over any page size; an error if that key is foreign or the listing fails. |
| AuditView.OldestIs | internal/auditlog/reader.go:122-153 | The oldest object is the first listed key that is no folder marker, dated or not. |
| AuditPage.ListDay | internal/auditlog/reader.go:157-178 | The day's shipped keys newest first, over any page size; fails exactly when the listing does. |
| AuditPage.RemainingAtKey | internal/auditlog/reader.go:280-337 | Resuming at an object's key leaves exactly what came after it. |
| AuditPage.RemainingAtDayIff | internal/auditlog/reader.go:268-274 | Resuming at the mark above an unlisted day leaves everything that remains if and only if every name on that day sorts below "~"; otherwise strictly less. |
| AuditPage.LosesObject | internal/auditlog/reader.go:268-274 | For a store with one object named "~x", a hundred days old, the page from the start and the page from its cursor are both empty, whatever the limits. |
| AuditPage.DayKeysOrdered | internal/auditlog/reader.go:157-178 | A day's keys are strictly descending and exactly the shipped keys of that day. |
| AuditDecode.DecodeGz | internal/auditlog/decode.go:26-97 | For every way the stream is cut, events and skipped count are those of splitting on newlines; fails, with no events, exactly on a read error or an object over 64 MiB. |
| AuditDecode.Decoder.Append | internal/auditlog/decode.go:67-81 | A fragment extends the current line as if it had arrived in one piece. |
| AuditDecode.Decoder.Flush | internal/auditlog/decode.go:45-65 | The finished line is decoded, counted as skipped or ignored as the plain splitting would. |
| AuditDecode.SplitIsExact | internal/auditlog/decode.go:46-97 | The splitting loses no byte and leaves no newline in a line. |
| AuditDecode.EveryObjectCanBeRead | internal/auditlog/decode.go:67-97 | Every object within the limit can be read to its end, so the result of DecodeGz is never about nothing. |
| AuditDecode.SkippedIsCounted | internal/auditlog/decode.go:45-65 | The skipped count is the number of lines over 4 MiB or malformed, blank lines apart. |
| AuditDecode.EventsAreDecoded | internal/auditlog/decode.go:45-65 | The events are, in order, what the remaining lines decode to without a trailing carriage return, and every line that decodes gives one. |
| Lease.Lease.Acquire | internal/authreplica/lease.go:97-150 | Success is one write whose version it holds; any write fills an empty place or replaces a document expired at the time that its attempt read from the clock; a held lease is not touched; its store calls account for every instant of the call and are protocol events, with the clock's times, that take it from its first attempt to running or idle; it fails exactly if a store call failed or the lease it read does not parse. |
| Lease.Lease.Create | internal/authreplica/lease.go:103-110 | Writes only into an empty place; it is the protocol's create. |
| Lease.Lease.TakeOver | internal/authreplica/lease.go:136-147 | Writes only over the very document that was read, and notes its holder; it is the protocol's takeover. |
| Lease.Lease.Renew | internal/authreplica/lease.go:154-168 | Writes only over the version it held; losing the lease changes nothing; it is the protocol's heartbeat at that time, stops the instance exactly when the lease is lost, and fails exactly if the store call failed. |
| Lease.Lease.Release | internal/authreplica/lease.go:171-177 | Removes only the version it held; losing the lease is not an error; it is the protocol's close, and fails exactly if the store call failed. |
| Lease.SameAmongOthers | internal/authreplica/lease.go:97-177 | An event moves the lease and its instance among any other instances as it moves them alone, and no other instance. |
| LeaseProtocol.AtMostOneHolder | internal/authreplica/lease.go:97-177 | In every run of any number of instances, with refused calls and lost replies, at most one holds the stored version, and the document names it. |
| LeaseProtocol.EveryChangeIsJustified | internal/authreplica/lease.go:97-177 | Every change creates an absent lease, replaces an expired document, or is made by the holder; a stale Renew or Release changes nothing. |
| LeaseProtocol.AcquireSteps | internal/authreplica/lease.go:97-150 | What acquiring achieves: an absent lease is created, an expired one still stored is taken over, both make the instance run if the reply arrives; nothing else writes, and a fourth attempt that finds the lease gone is the last. |
| LeaseProtocol.HolderSteps | internal/authreplica/runner.go:159-252 | The heartbeat of the holder renews the document and keeps it running, that of any other instance stops it; closing removes the lease of the holder and of nobody else. |
| LeaseProtocol.StaleForever | internal/authreplica/lease.go:154-177 | A lost version stays lost until the instance acquires again. |
| LeaseProtocol.LostReplyStopsHolder | internal/authreplica/runner.go:159-192 | After a renewal whose reply was lost the next heartbeat stops the instance although the document is its own. |
| LeaseProtocol.SecondRunnerIff | internal/authreplica/runner.go:159-252 | As long as no takeover displaced an instance that still replicates, at most one replicates, and the next step makes it two if and only if it is such a takeover and its reply arrives. |
| LeaseTiming.ExclusiveIffTtlDominates | internal/authreplica/runner.go:159-192 | Over all timed runs, in which a document is stamped first and stored later: two instances never replicate at once if and only if the time to live exceeds the longest time that an instance replicates after the stamp of its last stored document, plus the clock skew. |
| DeliveryQueue.Table.ClaimSerialized | internal/buildtrigger/worker.go:210-254 | Claims a legal batch as of the first clock read: due pending rows of active triggers, the earliest due, each once, as many as fit; returned in due order and stamped with the second. |
| DeliveryQueue.Table.ClaimSkipLocked | internal/buildtrigger/worker.go:259-294 | Claims a legal batch among the rows nobody has locked, returned in any order: the same abstract step. |
| DeliveryQueue.Table.Select | internal/buildtrigger/worker.go:210-235 | The selection is a legal batch in due order. |
| DeliveryQueue.FirstOnesAreLegal | internal/buildtrigger/worker.go:210-294 | The first rows of any due-time order form a legal batch. |
| DeliveryQueue.AnyOrderIsLegal | internal/buildtrigger/worker.go:259-294 | A legal batch is one in whatever order the database returns it. |
| DeliveryQueue.Table.RecordResult | internal/buildtrigger/worker.go:343-420 | Delivered, dead-lettered or rescheduled as outcome and attempts demand, by id and without looking at the status; the backoff index is always in range. What that means for a row is `DeliveryRuns.RowAfter`. |
| DeliveryQueue.Table.Replay | internal/buildtrigger/delivery.go:128-157 | A row that is not in flight becomes pending and due now with its attempts kept; otherwise the error says why. |
| DeliveryRuns.AttemptsAreBounded | internal/buildtrigger/worker.go:343-420 | In every run where reclaimed attempts never report, attempts equal claims and never exceed the schedule length plus one plus reclaims plus replays. |
| DeliveryRuns.OneAttemptPerRow | internal/buildtrigger/worker.go:210-294 | In such runs each in-flight row has at most one outstanding attempt, counting from 1. |
| DeliveryRuns.LastReportIsFinal | internal/buildtrigger/worker.go:365-395 | The report of the last attempt in the budget delivers or dead-letters the row. |
| DeliveryRuns.TerminalUntilReplayed | internal/buildtrigger/delivery.go:122-157 | In such runs delivered and dead-lettered rows change only by replay. |
| DeliveryRuns.FinishedRowReopensIff | internal/buildtrigger/worker.go:343-420 | In every run whatsoever a finished row becomes pending exactly by a replay or by the report of a plain failure with attempts left, and a report for a finished row exists only if the row was reclaimed before. |
| DeliveryRuns.WhyFinished | internal/buildtrigger/worker.go:343-395 | In every run a row is delivered only because a report of success made it so, and dead-lettered only because its trigger was gone, a failure was permanent or its attempt count was above the schedule length; and nothing reported on it or replayed it since. |
| DeliveryRuns.FinishesIff | internal/buildtrigger/worker.go:343-395 | A step makes a row delivered exactly by a report of success, and dead-lettered exactly by the orphan sweep, a permanent failure or a failure above the schedule length; a finished row stays so exactly until a report or a replay. |
| DeliveryRuns.RowAfter | internal/buildtrigger/worker.go:210-420 | What each step does to a row, field by field. |
| DeliveryDeadlines.PromptIffThresholdDominates | internal/buildtrigger/reclaim.go:11-33 | Over all timed runs: a reclaimed attempt never reports back if and only if the reclaim threshold is at least the longest time from a claim to its report. |
| DeliveryDeadlines.FinalIffThresholdDominates | internal/buildtrigger/reclaim.go:11-33 | Over all timed runs: finished rows change only by replay under exactly that condition. |
| DeliveryDeadlines.ReopenedIff | internal/buildtrigger/worker.go:366-409 | Over all timed runs: finished rows become pending only by replay if and only if that condition holds or the backoff schedule is empty. |
| DeliveryDeadlines.TimedRunIsRun | internal/buildtrigger/worker.go:71-166 | Every timed run is a run of the queue, and under that condition one in which reclaimed attempts never report, so the results on such runs apply. |
| DeliveryRuns.ClaimsOnlyActive | internal/buildtrigger/worker.go:210-294 | A claim changes only pending, due rows of active triggers. |
| StoreResolver.ServedWithinTtl | internal/byob/resolver.go:57-97 | In every interleaving a store from the cache is the tenant's own and served within the time to live of its opener's clock read. |
| StoreResolver.LookupIff | internal/byob/resolver.go:57-82 | In every reachable state a lookup takes a cached store within its opener's time to live and changes nothing else, waits for an entry in flight, and starts an opening exactly if nothing is cached or what is cached has expired. |
| StoreResolver.ServedUntilDropped | internal/byob/resolver.go:57-126 | Once a tenant's store is cached, every lookup of the tenant gets that same store without an opening until an invalidation, a failed opening of the tenant or a lookup at or after its expiry. |
| StoreResolver.OpenerIff | internal/byob/resolver.go:82-93 | An opener that succeeds leaves an entry to serve for the time to live and the cache as it is; one that fails drops whatever the cache holds for its tenant. |
| StoreResolver.CloserIff | internal/byob/resolver.go:94-96 | Then its channel is closed for the first time, and its caller gets the store exactly if the opening succeeded. |
| StoreResolver.WaiterIff | internal/byob/resolver.go:66-75 | A waiting call looks again with a fresh clock once the channel is closed, a cancelled one returns nothing, and an invalidation only empties the tenant's place. |
| StoreResolver.ChannelsCloseOnce | internal/byob/resolver.go:57-97 | Each in-flight channel is closed at most once, and is closed exactly when its opener is done. |
| StoreResolver.InvalidateIsHonoured | internal/byob/resolver.go:122-126 | A Resolve that begins after Invalidate returned never yields a store whose opening began before. |
| StoreResolver.SingleFlight | internal/byob/resolver.go:57-97 | At most one opening per tenant is in progress in every run whose invalidations of the tenant all find no opening of it in progress. |
| StoreResolver.StaysSingleIffCached | internal/byob/resolver.go:57-126 | In every reachable state: openings of a tenant stay single however the run goes on without invalidating it, if and only if each opening in progress is the cached entry. |
| StoreResolver.InvalidationIsHarmlessIff | internal/byob/resolver.go:122-126 | An invalidation keeps openings single if and only if it finds no opening of the tenant in progress. |
| StoreResolver.InvalidateAllowsSecondOpening | internal/byob/resolver.go:99-126 | For every tenant and time to live there is a run with a single invalidation in which two openings overlap. |
| StoreResolver.StoreForTenant | internal/byob/policy.go:36-48 | Fails exactly on a failure other than a missing binding; a resolved store is never replaced by the operator's. |
| DiffParser.KeptFilesArePrefix | internal/gitbrowse/commit.go:49-57 | For a patch cut at any byte, the files kept after dropping the last one are a prefix of the whole patch's files, before missing paths are filled in. |
| DiffParser.KeptPathsArePrefixIff | internal/gitbrowse/commit.go:217-226 | With paths filled in the same holds if and only if not (the whole patch has more than 300 file headers, the cut one has not, and a kept file lacks its new path). |
| DiffParser.TruncatedIff | internal/gitbrowse/commit.go:135-141 | The parse is marked truncated if and only if more than 300 lines start with the file header mark. |
| DiffParser.FilesAreConsistent | internal/gitbrowse/commit.go:111-226 | At most 300 files; a file is too large exactly from 3000 changed lines on and then has no hunks; any other file's totals count its hunk lines. |
| DiffParser.TruncationSpreads | internal/gitbrowse/commit.go:135-141 | A prefix that hits the file limit is parsed exactly like the whole patch. |
| DiffParser.ParseUnifiedDiff | internal/gitbrowse/commit.go:111-226 | The line loop computes the specified parse, including the early return. |
| DiffParser.Parser.Take | internal/gitbrowse/commit.go:133-216 | One line changes the parser state as specified and says whether the limit ends the parse. |
| DiffParser.Parser.Content | internal/gitbrowse/commit.go:191-214 | A content line is counted, and kept unless the file is or becomes too large. |
| DiffParser.ShownFiles | internal/gitbrowse/commit.go:49-57 | A capped patch loses its last file and is marked truncated. |
| DiffParser.SplitJoined | internal/gitbrowse/commit.go:112-112 | Splitting undoes joining of lines. |
| DiffParser.PrefixLines | internal/gitbrowse/commit.go:112-112 | A prefix of a text has the same lines up to one that is cut short. |
| DiffRoundTrip.RoundTrip | internal/gitbrowse/commit.go:111-226 | Parsing a patch as git prints it, after any preamble lines such as the commit id of a root commit, for any list of changes with plain or quoted names, mode, index and similarity lines, shows each change once, in order, with its status, totals and hunks and the paths stated below, up to the two limits; hunk content that looks like a header is still content. |
| DiffRoundTrip.ParseShows | internal/gitbrowse/commit.go:133-226 | Up to 300 files the parse shows every change, with its old path where the new one is missing; beyond that the first 300, marked as truncated. |
| DiffRoundTrip.ShownIs | internal/gitbrowse/commit.go:142-214 | What is shown for a change: the letter of its kind, the binary flag, the numbers of added and deleted lines, and below 3000 of them its hunks with their content lines. |
| DiffRoundTrip.NewPathShownIff | internal/gitbrowse/commit.go:142-183 | The new path is shown as it is if and only if the name is not quoted and has no space where a path line names it, or no " b/" where only the file header does; a quoted name is never shown as it is. |
| DiffRoundTrip.OldPathShownIff | internal/gitbrowse/commit.go:162-178 | The old path is shown as it is if and only if no path line names it or it has no space. |
| DiffRoundTrip.SpaceShowsTab | internal/gitbrowse/commit.go:179-183 | The parse of the patch of a changed text file named with a space shows a tab after the name. |
| DiffRoundTrip.MarkShowsOther | internal/gitbrowse/commit.go:142-155 | The parse of the patch of a deleted text file named with a " b/" shows another name. |
| DiffRoundTrip.NeedsPathIff | internal/gitbrowse/commit.go:217-226 | Exactly the deletion of a text file with a quoted name that the header does not give away needs its old path as new path. |
| DiffRoundTrip.CutPathsArePrefixIff | internal/gitbrowse/commit.go:49-57 | For a patch as git prints it, cut at any byte: the kept files with their paths are a prefix of the whole patch's if and only if that has at most 300 files, or the cut one more than 300 headers, or no kept change is such a deletion. |
| DiffRoundTrip.StepIsContent | internal/gitbrowse/commit.go:158-191 | Inside hunks a line with a content mark is content whatever follows the mark. |
| DiffRoundTrip.CutShowsOtherPaths | internal/gitbrowse/commit.go:138-141 | A patch of 301 files that begins with the deletion of a file named by a double quote, cut after two files, shows a path that the whole patch shows empty. |
| TreePrinter.UnquoteQuote | internal/diffharness/catobject.go:148-191 | Quoting has a left inverse on all byte strings. |
| TreePrinter.QuotePrintable | internal/diffharness/catobject.go:148-191 | A quoted name has no control byte and no byte above ASCII. |
| TreePrinter.QuotePath | internal/diffharness/catobject.go:148-191 | The buffer loop computes the specified quoting. |
| TreePrinter.TextDeterminesTree | internal/diffharness/catobject.go:105-145 | The printed text of every well-formed tree parses back to its names, ids and padded modes, and without the padding to the same tree if and only if no mode starts with a zero. |
| TreePrinter.SameTextIff | internal/diffharness/catobject.go:105-145 | Two well-formed trees print the same text if and only if their entries agree on names, ids and padded modes. |
| TreePrinter.PaddedModesCollide | internal/diffharness/catobject.go:124-138 | A tree mode written with five or six digits is printed alike. |
| TreePrinter.ParsesIffEncoded | internal/diffharness/catobject.go:105-145 | A tree object parses as given entries if and only if it is their encoding. |
| TreePrinter.PrettyPrintsEntries | internal/diffharness/catobject.go:105-145 | Printing succeeds exactly on well-formed tree objects, with one line per entry. |
| TreePrinter.PrettyTree | internal/diffharness/catobject.go:105-145 | The loop over the data computes the specified text and success. |
| TreePrinter.TypeIff | internal/diffharness/catobject.go:125-135 | A mode prints as tree in its two spellings, as commit for a gitlink and as blob otherwise. |
| TreePrinter.LineIs | internal/diffharness/catobject.go:136-143 | The fields of a printed line and what separates them. |
| TreePrinter.PaddedIs | internal/diffharness/catobject.go:136-139 | A mode is filled up with zeros on the left to six characters. |
| TreePrinter.HexIs | internal/diffharness/catobject.go:140-140 | An id is two lower-case hexadecimal digits per byte. |
| TreePrinter.QuotedIff | internal/diffharness/catobject.go:148-158 | A name is quoted if and only if it has a control or non-ASCII byte, a double quote or a backslash. |
| TreePrinter.EscapeIs | internal/diffharness/catobject.go:159-191 | The escape of each byte: a letter, three octal digits, or the byte itself. |

## Left out

- The command line, the HTTP and SSH gateways, hooks, the Git subprocesses and the exporter: plumbing around the modelled parts.
- SQL engines, Litestream, the AWS, Azure and HTTP deliverers: their statements and outcomes are atomic steps with arbitrary results.
- SHA-256, gzip, JSON and ULID: parameters. `CommitGraphBuild.RoundTrip` needs only that a digest has 32 bytes.
- Calendar arithmetic: a day is an integer, and names compare within a day. `AuditPage` takes a fixed listing in which dated keys ascend; a store that changes between pages is not modelled.
- Phase sequencing of a whole collection run (dry run, mark only, sweep only): the histories allow marks, sweeps and prunes in any order, which covers every sequence. Collection over several repositories is a loop over this.
- The contents of transaction records, and whether a record gained a marker after it was marked: a sweep of an old mark does not look again, so nothing is claimed about it.
- Log lines, metrics, audit events and error texts.
- Sizes of Go integers other than the 32-bit generation, the 32-bit tip and string offsets and the commit count, which are written out.
- Parsing of parent lines in commit objects, listing of replica files and the reset of a replica: simple loops.
- Matching of pushes to triggers in Enqueue: only the row it inserts is modelled.
- The rest of the commit page: commit metadata and message.
- ObjectStore.Bucket.PutIfVersionMatches: versions are never reused, as on S3, GCS and Azure; a backend whose version is a content hash could accept a write after the same bytes were restored.
- GcHistory.StoredUntilDue: a mark or a sweep is one atomic step here, and a sweep whose delete of the key failed or conflicted does not count as one at which it is due; interleaved steps are the subject of GcSafety.
- GcHistory.StepKeepsFirstSeen: the step of a whole mark or sweep, as above.
- GcSafety.NoReferencedKeyIsLost: every mark counts as armed here, which only allows more runs.
- DeliveryQueue.Table.RecordResult: jitter is any integer, and error text and status code are not stored.
- StoreResolver.ServedWithinTtl: the cache is a state machine over its critical sections, not a class, because its calls interleave; opening a store and decrypting credentials have arbitrary outcomes.
- LeaseTiming.ExclusiveIffTtlDominates: clocks run ahead of real time by at most the skew and never behind; a clock that lags is one that the others are ahead of. Every write, be it a create, a takeover or a heartbeat, is stored within the gap of its stamp.
- Lease.Lease.Acquire: each call of one instance is a protocol event; that the calls of several Lease objects on one bucket interleave into one protocol run is not stated as a theorem, because a bucket object is one client's view.
- DiffParser.KeptPathsArePrefixIff: for arbitrary text the last alternative reads the parsed files; DiffRoundTrip.CutPathsArePrefixIff states it on the changes of a patch as git prints it.
- DeliveryDeadlines.PromptIffThresholdDominates: all nodes read one clock, and the time from claim to report includes the wait for a free worker.
- LeaseProtocol.AtMostOneHolder: bytes that do not parse are written by no instance here; the Lease class meets them as a lease whose reading fails.
- DiffRoundTrip.RoundTrip: how git escapes a special name is not modelled, only that it puts the escaped name in quotes; merge diffs, which git prints differently, are not printed.
