# PayCLI: a verified model of its stateful cores

PayCLI is a command-line client for Payload CMS. This project models the parts of it
whose correctness depends on order, on interleaving or on exact matching, and proves
what its comments and documentation say about them. Every file is one module.

| file | what it models |
|---|---|
| `CacheLayout.dfy`, `Publication.dfy` | the discovery cache of one scope: lock-free readers against writers that publish shards first and the index last, `Touch` and the operator-failure memo, which write back an index they have read, and a rename of the whole directory; every read, lock, file write and rename is one step, any process may stop between two steps |
| `ScopeLock.dfy` | `acquireLock` and `release`: a one-token channel per path and process, and `flock` |
| `Singleflight.dfy` | `Session.Do` |
| `Revalidation.dfy` | the staleness ladder of one session and the confirmations it makes |
| `Census.dfy` | the block census file: locked read-modify-write by any number of processes |
| `Generation.dfy` | generation stamps (ULIDs) |
| `Patch.dfy`, `Restore.dfy` | the save semantics of a document as (live row, newest version), capture of a backup, the body a restore sends, one-step and two-step restores |
| `IdMatch.dfy`, `Trace.dfy`, `WriteLifecycle.dfy` | pairing of requested ids with returned documents, and a write from its confirmation to its last audit record |
| `Json.dfy`, `Paths.dfy`, `EchoDiff.dfy`, `EchoRules.dfy`, `Required.dfy`, `DeepMerge.dfy` | printed JSON paths, the echo-diff and its rules in plain values, required-path reporting, in-place merge and assignment on a heap of maps |
| `AuditLog.dfy` | the rotating audit log and the reader over it |
| `EditDistance.dfy` | the two-row edit distance behind "did you mean" |
| `Wrappers.dfy` | `Option` |

Where the program works step by step (the session, the rotating logger, the invocation
with its trace, the heap of maps, row arrays, bit walks) the model does too: classes,
methods and loops whose contracts tie the new state to a function of the old one. The
protocols with several processes are state machines, and their properties are stated of
every run.

## What turned out not to hold as stated

Each of these is proved with a concrete input or run, next to the exact condition or the
intended order that does hold.

- **`Touch` and the operator-failure memo can move the index back.** Both read it before
  they take the lock; the memo then hands `WriteSet` the old generation and no shards.
  `LateRewriteRegresses` builds the run for either, whatever the other does;
  `LateRewriteKeepsHitIff` says when an entity survives it; `IndexLastWithReread` proves the
  property when both read again under the lock. Hits are never torn either way
  (`NoTornRead`).
- **A confirmation is honest only while the memoised topology agrees with the manifest**
  (`HonestIffAligned`, over whole runs `HonestRunsIff`). Of the revalidations only a refresh
  with a new fingerprint breaks that, and of the manifests only that of the fingerprint
  repairs it (`OnlyRefreshMisaligns`, `StaleManifestConfirmed`); recording a manifest or a
  topology with another value breaks it too, and recording the manifest's own topology, or
  none, repairs it (`RecordedIff`).
- **"Keep the last good census rather than replace it with a failure" is checked against
  the copy that was loaded**, not against the file the merge reads again under the lock.
  `FailureReplacesGoodIff` says step by step when a good entity is replaced, failed reads
  under the lock included; `GoodReadLostToFailure` is a run.
- **`Tail` with rotated files reads `.1`, `.2`, … `.G`, live**, because the loop prepends
  while it counts down. It agrees with append order exactly when the live file alone has N
  matches or at most one rotated file has any (`ShippedAgreesIff`).
- **A restore keeps a page published exactly when a condition on the backup holds**
  (`NeverUnpublishesIff`). A backup without `_status` over a pending draft unpublishes, and
  so can `--draft` when the schema does not say whether the collection has drafts, because
  the flag is then dropped (`StatuslessBackupUnpublishes`, `UnknownDraftsUnpublish`).
- **A failed read under the census lock is taken for a missing file**, and the merge then
  writes a stale copy over what other processes stored (`FailedRereadLoses`). Nothing is
  lost exactly in the runs in which every merge after such a failure carries all the file
  held (`NothingLostIff`); without such failures nothing is ever lost (`NoLostUpdates`).
- **An id form that the index cannot pair gets its own key**, hence a second backup of the
  same document, without its published state (`UnpairableHasItsOwnKey`, `BackUpTwoForms`).
  A document has one backup exactly when the forms asked for share a key (`OneBackupIff`):
  all forms of a number do, different texts never do.
- **A body key that is empty or holds a dot or an opening bracket need not read back**: a
  dotted key echoed unchanged is reported unless the steps it is read as lead to the same
  value, a list under a key with a bracket is reported when it grows, and the loss of a
  value under an empty root key is not reported at all (`DottedNameIsMisread`,
  `BracketedNameIsMisread`, `EmptyNameIsMissed`). Exactly clean names are accounted for
  (`RoundTripIff`, `AccountsIffClean`); for any one body, `AddedKeysSilentIff` says when an
  echo that only adds keys is silent.
- **Skipping step 1 of a two-step restore can change the outcome**, in the newest version
  (`SkippingCanDiffer`) and, although both bodies send the same keys, in the live row
  (`SameKeysCanDiffer`). It changes nothing exactly when the newest version and the live row
  agree on every key a body does not send and merge alike on every key it does
  (`SkipChangesNothingIff`), so for every restore that skips there are newest versions for
  which it matters (`SkipCanAlwaysDiffer`). The newest version alone is the same, whatever
  it was, exactly when the draft's body decides everything the published one does
  (`SkipKeepsNewestIff`, by `OverwritesIff`).
- **After a deep merge the two trees share the maps inside the source's lists**, and only
  those (`SharedExactly`).
- **`WriteSet` checks the generation of the manifest, not of the shards.** A set it accepts
  can be published without ever tearing a read if and only if no shard it can write carries
  a well-formed generation other than the set's own (`StampingIff`); any other set tears the
  read of a run that `UnstampedShardTears` builds.

## Model

| member | source | states |
|---|---|---|
| Publication.NoTornRead | internal/cache/store.go:222-255 | over every interleaving, with or without mutual exclusion, memos and touches included, a shard accepted through a held manifest is the one that manifest's own run handed over |
| Publication.HitsAgreeOverTime | internal/cache/store.go:222-255 | shards accepted through one manifest at two moments belong to one run, and the same entity gives the same shard or a miss |
| Publication.ProvenanceRun | internal/cache/store.go:531-620 | every manifest, and every shard an index could accept, on disk or held by a process comes from a run that handed it over, after any steps |
| Publication.IndexLast | internal/cache/store.go:555-613 | with an exclusive lock, no rename-away, and touches and memos of the current index, every entity of the published index is a hit or its shard is a later unpublished writer's |
| Publication.IndexLastWithReread | internal/cache/store.go:625-660 | the same without a condition on touches and memos, when both read again under the lock |
| Publication.PublicationHits | internal/cache/store.go:590-613 | the moment WriteSet writes the index, every entity it names is a hit with its own shard |
| Publication.SoloWriteSet | internal/cache/store.go:531-620 | an undisturbed WriteSet of a discovery run, complete or not, leaves exactly the old shards overlaid by its set, its index, and a free lock |
| Publication.SoloRewrite | internal/cli/opmemo.go:92-118 | an undisturbed memo, and likewise a touch, leaves every shard and every read as they were, its edited index, and a free lock |
| Publication.WriteBackIs | internal/cache/store.go:640-658 | a write of Touch changes the index it read in confirmed_at alone, one of the memo in its record alone |
| Publication.SoloTouch | internal/cache/store.go:622-660 | an undisturbed Touch sets confirmed_at and changes nothing else in the directory |
| Publication.SoloMemo | internal/cli/opmemo.go:92-118 | an undisturbed memo sets its record and changes nothing else in the directory |
| Publication.AbortFrees | internal/cache/store.go:552-553 | a process that dies or fails in its critical section leaves the lock free and the directory as it is |
| CacheLayout.ServedIff | internal/cache/store.go:222-255 | a shard is served if and only if the index names its file and generation, recorded digest and slug agree |
| CacheLayout.NameStaysInside | internal/cache/scope.go:82-110 | a valid shard name has no separator, drive or parent step behind the fields directory |
| CacheLayout.NamesApart | internal/cache/scope.go:67-80 | entities with valid slugs share a shard name exactly when they are the same entity |
| Publication.RereadingKeepsCurrent | internal/cache/store.go:625-660 | a Touch and a memo that read again always write back the index that is published |
| Publication.LateRewriteKeepsHitIff | internal/cache/store.go:625-660 | in any state a run reaches, an entity that hits is still a hit after the shipped Touch or memo if and only if the run it read is still the published one, or that run backed the entity under another file name and the file still carries that run's generation |
| Publication.LateRewriteRegresses | internal/cli/opmemo.go:92-118 | a run in which the shipped memo, or the shipped Touch, puts an older index back, and a published entity becomes a miss with no writer under way |
| Publication.LateRewriteIsTheCase | internal/cache/store.go:630-651 | that run reaches, just before the late write, a state LateRewriteKeepsHitIff is about |
| Publication.StampingIff | internal/cache/store.go:531-555 | a set that WriteSet accepts never leads to a torn read if and only if none of its writable shards carries a well-formed generation other than its own |
| Publication.UnstampedShardTears | internal/cache/store.go:531-571 | for any other set, a run in which a reader accepts its foreign shard through that generation's index |
| ScopeLock.Exclusive | internal/cache/store.go:705-744 | two threads never hold the lock together where flock works, and never two of one process even where it does not |
| ScopeLock.TokenReturned | internal/cache/store.go:705-757 | a path's channel holds a token exactly while one thread of the process is between taking and returning it, on every exit |
| ScopeLock.ReleaseTwice | internal/cache/store.go:746-757 | releasing again, at once or after others have run, changes nothing |
| ScopeLock.GrantedIff | internal/cache/store.go:727-742 | a thread at the file gets the lock if and only if there is no flock or nobody has it, and tries again otherwise |
| ScopeLock.Acquires | internal/cache/store.go:705-757 | after any run a thread with nobody in its way acquires, and its release puts nobody in anyone's way |
| ScopeLock.HandsOver | internal/cache/store.go:727-757 | a thread waiting at the file of a holder has the lock after the holder's release |
| ScopeLock.LeavingFrees | internal/cache/store.go:715-757 | every way out of the section frees the channel and the file |
| Singleflight.AtMostOneInFlight | internal/cache/store.go:1145-1176 | no key has two executions in flight |
| Singleflight.OncePerKey | internal/cache/store.go:1145-1176 | without a panic fn runs exactly once for every key Do was ever called for, and never for another |
| Singleflight.RunsAgainOnlyAfterPanic | internal/cache/store.go:1145-1176 | in general the executions of a key exceed the removals of its flight, which only a panic causes, by at most one |
| Singleflight.OneResult | internal/cache/store.go:1145-1176 | without a panic all callers of a key get one result |
| Singleflight.ResultIsFn | internal/cache/store.go:1145-1176 | in every run what Do returned is what fn ended with for that key, with shared=false the caller's own fn |
| Singleflight.ResultArrives | internal/cache/store.go:1158-1176 | fn's outcome is what its caller returns and what every waiter wakes up with |
| Singleflight.PanicArrives | internal/cache/store.go:1158-1176 | a panic reaches the waiters as an error, its caller does not return, and the key is free again |
| Singleflight.OneUnshared | internal/cache/store.go:1145-1176 | exactly one caller of a key gets shared=false |
| Singleflight.WaiterReleased | internal/cache/store.go:1158-1170 | a waiter can wake now, or after its owner's wg.Done, or its owner is still inside fn; panics included |
| Singleflight.RemovesOwnFlight | internal/cache/store.go:1158-1176 | after a panic the owner removes its own flight, and the key cannot start before that |
| Revalidation.Session.RevalidateRead | internal/cache/store.go:1183-1187 | the outcome is the ladder's on the cached fingerprint, and the session changes as that outcome says |
| Revalidation.Session.RevalidateWrite | internal/cache/store.go:1197-1219 | the same for a write: an equal, known fingerprint confirms, every other answer asks for a refresh |
| Revalidation.Session.ApplyRevalidation | internal/cache/store.go:1231-1246 | memo and touch exactly as the outcome asks and the session allows |
| Revalidation.ReadIff | internal/cache/ttl.go:173-221 | a read is confirmed by the cached fingerprint alone, refreshed by any other answer, and else served stale with a warning |
| Revalidation.WriteIff | internal/cache/store.go:1189-1219 | a write that cannot be confirmed is refreshed, however its probe ended |
| Revalidation.HonestIffAligned | internal/cache/store.go:1221-1246 | no probe can cause a dishonest confirmation if and only if memo and manifest agree |
| Revalidation.HonestRunsIff | internal/cache/store.go:955-1010 | a sequence of calls confirms honestly whatever the server answers if and only if memo and manifest agree at each of its revalidations whatever it answers |
| Revalidation.DisciplinedIsHonest | internal/cache/store.go:955-1010 | from a settled session, a run that writes the manifest of every new fingerprint before it reads or writes again keeps them in agreement and confirms honestly throughout |
| Revalidation.FreshSessionIsHonest | internal/cache/store.go:955-1010 | so does every such run of a new session |
| Revalidation.OnlyRefreshMisaligns | internal/cache/ttl.go:173-221 | which revalidations break the agreement, and which manifests restore it |
| Revalidation.RecordedIff | internal/cache/store.go:955-1010 | which manifest or topology, recorded by the caller, leaves memo and manifest agreeing |
| Revalidation.StaleManifestConfirmed | internal/cache/store.go:955-959 | a session that confirms and touches a manifest just found stale |
| Revalidation.TouchesAreConfirmations | internal/cache/store.go:1231-1246 | touches are exactly the confirmations of a session that persists |
| Census.MergeBuiltCensus | internal/cli/blocks_census.go:356-372 | the merge is the file's census with this run's entities put in unless the file's is newer |
| Census.MergeNewestWins | internal/cli/blocks_census.go:356-372 | after a merge no entity is gone or older, and each is the file's or this run's |
| Census.MergeExact | internal/cli/blocks_census.go:356-372 | entity by entity, which of the two the merged census holds |
| Census.FoldKeepsHeaders | internal/cli/blocks_census.go:1107-1132 | folding written documents in keeps every entity and its built_at |
| Census.FoldExact | internal/cli/blocks_census.go:1107-1132 | the last document written into a good entity of the last seven days is its overlay; every other entity is as it was |
| Census.FreshExact | internal/cli/blocks_census.go:322-340 | a run's fresh reads are exactly those of its reads that its census holds |
| Census.SoloSession | internal/cli/blocks_census.go:322-345 | an undisturbed build leaves the merge of its fresh reads into the file, and a free lock |
| Census.SoloFold | internal/cli/blocks_census.go:1107-1132 | an undisturbed fold leaves the folded census, and nothing where there was none to decode |
| Census.NoLostUpdates | internal/cache/census.go:76-115 | from any file, between any two moments of any interleaving whose reads under the lock succeed, no entity leaves the disk and no built_at decreases |
| Census.NothingLostIff | internal/cache/census.go:92-95 | with failed reads under the lock too, nothing is ever lost if and only if every merge written after one carries everything the file held |
| Census.FailedRereadLoses | internal/cache/census.go:92-95 | a run in which such a failure writes a stale copy over another process's entity |
| Census.OwnReadsPersist | internal/cli/blocks_census.go:322-345 | a process's own reads, or newer ones, are on disk when its write is done, whether or not the file could be read |
| Census.FailureReplacesGoodIff | internal/cli/blocks_census.go:274-287 | in any state a run reaches, a step replaces a good entity on disk by a failure exactly when it writes a merge that read the file and holds a failed read of its own that is not older, or one that could not read the file and has the failure in its copy |
| Census.GoodReadLostToFailure | internal/cli/blocks_census.go:274-287 | a run in which that happens |
| Generation.EncodeULID | internal/cache/generation.go:98-112 | the result is a well-formed generation and the base-32 numeral of the 16 bytes |
| Generation.BitWalk | internal/cache/generation.go:98-106 | the walked bits are two zeros and the bytes' binary numeral |
| Generation.NewGeneration | internal/cache/generation.go:40-62 | the result is minted from the clamped clock and the random bytes, or from the fallback |
| Generation.ValidGeneration | internal/cache/generation.go:65-80 | accepts exactly 26 Crockford digits, the first at most 7 |
| Generation.GenerationTime | internal/cache/generation.go:83-92 | the time part of a well-formed generation, an error otherwise |
| Generation.TimeRoundTrip | internal/cache/generation.go:83-92 | the minted millisecond comes back modulo 2^48, so exactly the times below 2^48 survive |
| Generation.StringOrder | internal/cache/generation.go:18-20 | bytewise order of generations is the order of their 128-bit values |
| Generation.EarlierSortsFirst | internal/cache/generation.go:18-20 | an earlier millisecond sorts first, whatever the random bits |
| Generation.EncodingInjective | internal/cache/generation.go:98-112 | distinct bytes never share a generation |
| Generation.EncodingUnique | internal/cache/generation.go:98-112 | a value has one generation |
| Patch.SaveStoresBody | internal/docdiff/patch.go:33-50 | after a save every sent key but id is stored as sent and every other key is as it was |
| Patch.MergeCarries | internal/docdiff/patch.go:58-103 | at any depth the merged value carries everything that was sent, rows in order |
| Patch.RowsMeet | internal/docdiff/patch.go:84-131 | a row sent with the id of a stored one, text or number, keeps the fields it does not send |
| Patch.RowsPass | internal/docdiff/patch.go:84-131 | a row with an id of its own keeps nothing of what was stored |
| Patch.CarriedLeaf | internal/docdiff/patch.go:58-103 | every scalar sent, unless it lies in a row that is stripped, is found in the stored value at the path it was sent under, rows moved up by those stripped before them |
| Patch.CleanStaysInPlace | internal/docdiff/patch.go:74-90 | where row arrays hold only rows nothing is stripped and nothing moves |
| Patch.Overwrites | internal/docdiff/patch.go:58-131 | saving w and then v leaves what v alone leaves, whenever v decides everything w does |
| Patch.OverwritesIff | internal/docdiff/patch.go:58-131 | it does so whatever was stored if and only if v decides everything w does: object by object, unless w can turn one into rich text, and row by row, matched by id and block type wherever the rows stand |
| Patch.SaveOverwrites | internal/docdiff/patch.go:33-50 | the same of whole documents |
| Patch.SaveOverwritesIff | internal/docdiff/patch.go:33-50 | and so is that |
| Patch.SavedAlikeIff | internal/docdiff/patch.go:33-50 | two documents become the same by a save if and only if they agree on every key not sent and merge alike on every key sent |
| Restore.DropMasked | internal/cli/backups.go:489-511 | the value without its masked parts, and exactly their paths |
| Restore.UnmaskExact | internal/cli/backups.go:489-511 | a path is gone if and only if it was masked, and what is left is where it was |
| Restore.RestoreBodyOf | internal/cli/backups.go:445-485 | the body a restore sends and exactly the paths it says it does not restore |
| Restore.SentIff | internal/cli/backups.go:445-485 | a field is sent if and only if the server does not set it, the schema does not forbid it and it is not masked |
| Restore.Accounted | internal/cli/backups.go:445-485 | every captured value is sent, reported as not restored, or in a field the server owns |
| Restore.Prepare | internal/cli/backups.go:668-703 | the requests of a restore, with their bodies and modes, from the backup and the document as it is |
| Restore.RoundTrip | internal/cli/backups.go:752-782 | after capture and any saves, whatever was known of drafts at the capture, a default restore makes the newest version hold every captured value sent; the live row is that version after a plain save, as it was under a draft, or holds the captured published state |
| Restore.RecreateRoundTrip | internal/cli/backups.go:907-926 | a document that is gone is created with every captured value sent in its newest version, and with a captured published state live under its draft |
| Restore.LeafRestored | internal/cli/backups.go:752-782 | in a restored document every scalar sent has its captured value, at the path it was captured from but for rows moved up by stripped ones |
| Restore.PublishGoesLive | internal/cli/backups.go:558-566 | with --publish the restored document goes live as it is saved |
| Restore.DraftLeavesLive | internal/cli/backups.go:558-564 | with --draft the live row stays and the backup becomes the newest version |
| Restore.DraftStaysDraft | internal/cli/backups.go:569-573 | without a flag a draft is saved as one, with a warning exactly over a live page |
| Restore.SkippingIsSafe | internal/cli/backups.go:691-703 | skipping step 1 leaves the published state live either way, though not always the same live row, and the same newest version when the draft's body decides everything the published one does |
| Restore.SkipChangesNothingIff | internal/cli/backups.go:691-703 | the skip changes nothing if and only if the newest version and the live row agree outside each body and merge alike with it, which is known before anything is sent; for the live row the published body alone counts |
| Restore.SkipCanAlwaysDiffer | internal/cli/backups.go:691-703 | for every restore and live row that allow the skip there is a newest version for which the live rows differ |
| Restore.SkipKeepsNewestIff | internal/cli/backups.go:691-703 | over a live row that lets step 1 be skipped, the newest version is the one both steps would leave, whatever it was, if and only if the draft's body decides everything the published one does |
| Restore.SameKeysCanDiffer | internal/cli/backups.go:691-703 | a skipped restore whose two bodies send the same keys and that ends with another live row than both steps |
| Restore.SkippingCanDiffer | internal/cli/backups.go:691-703 | a restore whose step 1 is skipped and that ends with another value than both steps would leave |
| Restore.PreviewIsOutcome | internal/cli/backups.go:823-837 | what the dry run of a two-step restore shows is what the requests leave |
| Restore.NeverUnpublishesIff | internal/cli/backups.go:558-575 | a published document is published after every request of a restore if and only if a condition checkable before it holds |
| Restore.NeverUnpublishes | internal/cli/backups.go:544-575 | with drafts on, a flag or a backup that carries a status never unpublishes |
| Restore.StatuslessBackupUnpublishes | internal/cli/backups.go:558-575 | the plain save of a backup without a status over a pending draft unpublishes |
| Restore.UnknownDraftsUnpublish | internal/cli/backups.go:559-561 | with drafts unknown, --draft is dropped and the restore unpublishes |
| IdMatch.CanonicalIsStable | internal/cli/idmatch.go:90-96 | the canonical decimal of an id is its own canonical decimal |
| IdMatch.CanonicalIffSameNumber | internal/cli/idmatch.go:90-96 | two ids share it exactly when they are the same number |
| IdMatch.SpaceAfter | internal/cli/idmatch.go:88-96 | white space behind an id does not matter |
| IdMatch.SpaceBefore | internal/cli/idmatch.go:88-96 | nor does white space before it |
| IdMatch.ZeroBefore | internal/cli/idmatch.go:88-96 | nor do leading zeros |
| IdMatch.DocsById.Add | internal/cli/idmatch.go:54-62 | the entry, and the number that leads to it, and nothing else |
| IdMatch.LookupIsAddressed | internal/cli/idmatch.go:66-77 | a pair holds the document the server addresses with the id, under a key that is the decimal of a number id and the id as sent otherwise |
| IdMatch.KeyIsPrintedIff | internal/cli/idmatch.go:27-37 | that key is the id the server prints if and only if the id is pairable |
| IdMatch.AddedIsFound | internal/cli/idmatch.go:54-77 | a document just added is found under every pairable form of its id |
| IdMatch.TextIdsAreExact | internal/cli/idmatch.go:39-44 | with string ids only the exact string is found |
| IdMatch.UnpairableHasItsOwnKey | internal/cli/backup.go:324-330 | an unpairable form is indexed beside the printed id |
| Trace.RequestDiscipline | internal/cli/create.go:1215-1256 | every request was confirmed, its targets accounted for and its own pre-record written before it, and has one post-record, after it |
| Trace.OneBackupEach | internal/cli/backup.go:264-273 | a document has at most one backup when the forms of its id that were asked for share a key, however many requests there were |
| Trace.OneBackupIff | internal/cli/backup.go:264-273 | once every form asked for is answered, that is the case if and only if they share a key |
| Trace.NumbersShareAKey | internal/cli/idmatch.go:31-35 | with number ids all forms do |
| Trace.TextsShareNoKey | internal/cli/idmatch.go:23-25 | with text ids only equal forms do |
| Trace.BackupIsPreImage | internal/cli/backup.go:258-371 | before the first request for a document exactly the state that request meets is in a file, under the key of the id the request names; with the published state under a draft if and only if that id is pairable |
| WriteLifecycle.Invocation.BackupDocs | internal/cli/backup.go:258-371 | on success every targeted document has a file under the key of each id asked for, or was reported missing by the server; it succeeds when every read and file does, and stores nothing that was not asked for |
| WriteLifecycle.BackUpTwoForms | internal/cli/backup.go:297-331 | with text ids, a form the server accepts and prints differently, backed up beside the printed one, gives two files, the one under the form sent without the published state |
| WriteLifecycle.BackUpHexTwice | internal/cli/idmatch.go:23-37 | a concrete run of that, with hexadecimal ids in two cases |
| WriteLifecycle.Invocation.ReadMissing | internal/cli/backup.go:297-331 | afterwards an id the index cannot find is one the server does not have |
| WriteLifecycle.Invocation.PublishedRows | internal/cli/backup.go:487-523 | the live rows kept are those of indexed documents with a draft over a published row |
| WriteLifecycle.Invocation.StoreOne | internal/cli/backup.go:338-366 | one chunk entry is stored, found stored already or reported missing |
| WriteLifecycle.Invocation.PreWrite | internal/cli/create.go:1215-1223 | the backup, then the pre-record, or nothing is sent |
| WriteLifecycle.Invocation.PostWrite | internal/cli/create.go:1226-1242 | one post-record, after which every request has its own |
| WriteLifecycle.Invocation.Confirm | internal/safety/confirm.go:85-128 | confirmed exactly when the level, the flags or the answer allow it |
| WriteLifecycle.ConfirmsIff | internal/safety/confirm.go:85-128 | a write goes on if and only if it needs no confirmation, is a dry run, or a yes is given or assumed |
| WriteLifecycle.Invocation.RunCreateOne | internal/cli/create.go:1471-1534 | confirmed, and with nothing failing, it creates the document of the body sent; a dry run sends and backs up nothing; a refusal leaves nothing; the trace stays lawful and settled |
| WriteLifecycle.Invocation.EmitDryRun | internal/cli/create.go:1554-1601 | one post-record at most, and no other change |
| WriteLifecycle.Invocation.RestoreDocBackup | internal/cli/backups.go:622-807 | confirmed, and with nothing failing, every request of the restore is sent and accepted; in any case the document goes through the accepted prefix, no other document changes, an unconfirmed restore sends nothing, a dry run leaves one post-record at most, and the trace stays lawful and settled |
| WriteLifecycle.Invocation.RecreateDocBackup | internal/cli/backups.go:898-1031 | confirmed, and with nothing failing, the document is created and its draft saved; in any case the new document is what the accepted requests make of the backup, nothing else changes, an unconfirmed one sends nothing, a dry run leaves one post-record, and the trace stays lawful and settled |
| WriteLifecycle.PrepareRecreate | internal/cli/backups.go:907-926 | the create and the draft on top of it, from the flags, the status and the published state of the backup |
| Paths.ScanPath | internal/cli/create.go:952-980 | the loop computes SplitPath |
| Paths.RoundTrip | internal/cli/create.go:952-995 | splitting a printed path gives the path back, for names that print cleanly |
| Paths.RoundTripIff | internal/cli/create.go:952-995 | for any set of names, every path over them reads back if and only if every name is non-empty and free of dots and opening brackets |
| Paths.JoinInjective | internal/cli/create.go:982-995 | distinct clean paths print differently |
| Paths.LookupPath | internal/cli/create.go:912-933 | looks up the steps of the split path |
| Paths.FirstMissingPrefix | internal/cli/create.go:937-945 | the first printed prefix that leads nowhere, for any path |
| Paths.FirstMissingClean | internal/cli/create.go:937-945 | on a printed clean path it prints the shortest missing prefix |
| Paths.FirstMissingExact | internal/cli/create.go:935-945 | of a missing path exactly the proper prefixes of that answer are there |
| Paths.AtOrBelowIsPrefix | internal/cli/create.go:653-660 | the textual prefix test on printed paths is the prefix relation on paths |
| Paths.PrintedPath | internal/cli/create.go:982-995 | keys are joined by dots and indices stand in brackets |
| EchoDiff.CollectLeaves | internal/cli/create.go:784-815 | every leaf outside a reordered list is collected under its printed path, with a value that prints so |
| EchoDiff.VisitedExact | internal/cli/create.go:784-815 | the walk visits exactly the scalars outside every reordered list |
| EchoDiff.StringifiedPaths | internal/cli/create.go:729-762 | exactly the containers that came back as JSON text |
| EchoDiff.EchoDiff | internal/cli/create.go:630-720 | for every body, the report is the verdicts on the collected leaves and the values stored as text |
| EchoDiff.CleanReport | internal/cli/create.go:630-720 | every scalar leaf is in exactly one class and the report lists exactly the dropped and the changed ones, with prefix, sent and returned values |
| EchoDiff.AccountsIffClean | internal/cli/create.go:952-995 | for any set of names, the report accounts for every body over them if and only if they all print cleanly |
| EchoDiff.SilentMeansStored | internal/cli/create.go:626-720 | without a warning every scalar of a clean body is in the echo, in a list that came back with the same items in some order, or exempt by rule |
| EchoDiff.PermutedIsQuiet | internal/cli/create.go:815-853 | what lies in a permuted list is never reported |
| EchoRules.OneLeafReport | internal/cli/create.go:662-690 | the whole report on a body of one leaf: dropped with its shortest missing prefix, normalized with both values, or silent |
| EchoRules.LeftOutIsDropped | internal/cli/create.go:670-674 | a field the server left out is reported as dropped |
| EchoRules.ChangeIsNormalized | internal/cli/create.go:675-680 | a field that came back with another value is reported with both |
| EchoRules.ChangedItemIsNormalized | internal/cli/create.go:815-853 | so is a list item that did |
| EchoRules.TextIff | internal/cli/create.go:729-745 | what counts as stored as text: a container with content whose echo is a string that opens one behind white space |
| EchoRules.TextIsReported | internal/cli/create.go:653-700 | an object that came back as its JSON text is reported as that, and nothing below it as lost or changed |
| EchoRules.SkippedIff | internal/cli/create.go:855-905 | exactly four root fields, the ids of rows, ignored paths and locale maps are skipped |
| EchoDiff.AddedKeysAreSilent | internal/cli/create.go:784-853 | an echo of a clean body that only adds keys yields no warning |
| EchoDiff.AddedKeysSilentIff | internal/cli/create.go:630-720 | for any body, an echo that only adds keys yields no warning, whichever order objects are walked in, if and only if the printed name of every examined leaf reads back its own value |
| EchoDiff.DottedNameIsMisread | internal/cli/create.go:952-980 | a body with one dotted key, echoed unchanged, is reported |
| EchoDiff.BracketedNameIsMisread | internal/cli/create.go:960-975 | a list under a key with a bracket, echoed with one more row, is reported |
| EchoDiff.EmptyNameIsMissed | internal/cli/create.go:808-813 | the loss of a value under an empty root key is not reported |
| Required.MissingRequired | internal/cli/create.go:1065-1103 | appends the printed unfilled instances below the current value |
| Required.MissingExact | internal/cli/create.go:1065-1103 | a path is found if and only if it is an instance of the required path in the document and its value is absent or empty |
| Required.MissingDistinct | internal/cli/create.go:1065-1103 | no instance is found twice |
| Required.LinesDistinct | internal/cli/create.go:1041-1061 | for clean names no line is printed twice |
| Required.ReportExact | internal/cli/create.go:1041-1061 | the strings reported are the printed unfilled instances and no others |
| Required.AllReported | internal/cli/create.go:1041-1061 | over all required paths, the strings reported are exactly the printed unfilled instances |
| Required.EmptyArrayIsVacuous | internal/cli/create.go:1041-1051 | nothing is reported below an empty array |
| DeepMerge.DeepMerge | internal/cli/create.go:323-337 | dst becomes the merge, src keeps its value, and no map still written through dst belongs to src |
| DeepMerge.SharedExactly | internal/cli/create.go:323-337 | trees that shared no map share, after the merge, exactly the maps inside the lists of src |
| DeepMerge.MergedInside | internal/cli/create.go:335 | the maps inside the merge's lists are all of those inside src's, and some of dst's |
| DeepMerge.MergeLaw | internal/cli/create.go:319-337 | at any path the merge holds src's value where src decides it and dst's otherwise |
| DeepMerge.MergeTwice | internal/cli/create.go:319-337 | merging the same source again changes nothing |
| DeepMerge.SetPath | internal/cli/create.go:343-366 | the assignment of the value at the path |
| DeepMerge.AssignedHere | internal/cli/create.go:339-366 | the path then holds the value, or its merge with the object it met |
| DeepMerge.AssignedElsewhere | internal/cli/create.go:339-366 | incomparable paths are untouched |
| AuditLog.RotationKeepsHistory | internal/audit/rotate.go:36-53 | whatever prefix of a rotation has run, the files oldest to newest are a contiguous end of what they held, short of the oldest file only |
| AuditLog.Logger.Rotate | internal/audit/rotate.go:38-53 | the files after the operations that ran, and the history invariant |
| AuditLog.Logger.RotateIfNeeded | internal/audit/rotate.go:22-34 | rotates exactly when the line does not fit |
| AuditLog.Logger.Write | internal/audit/audit.go:217-238 | the new files exactly; afterwards the live file is within the limit or holds one record, and the files are a contiguous end of the history |
| AuditLog.Tail | internal/audit/audit.go:338-369 | the last N matches of the files in the shipped order |
| AuditLog.MeantTailIsHistoryTail | internal/audit/audit.go:335-348 | read oldest first, those are the last N matches of everything ever appended, or all that are left |
| AuditLog.ShippedAgreesIff | internal/audit/audit.go:342-348 | the shipped order agrees if and only if the live file has N matches or at most one rotated file has any |
| AuditLog.HistoryApart | internal/audit/rotate.go:36-53 | records that differ across the history are in different files |
| EditDistance.Levenshtein | internal/apierr/diagnose.go:170-195 | the two-row loop computes the recurrence's distance |
| EditDistance.Exact | internal/apierr/diagnose.go:170-195 | that is the minimum cost over all edit scripts |
| EditDistance.ZeroIffEqual | internal/apierr/diagnose.go:170-195 | zero exactly for equal strings |
| EditDistance.Symmetric | internal/apierr/diagnose.go:170-195 | symmetric |
| EditDistance.Triangle | internal/apierr/diagnose.go:170-195 | satisfies the triangle inequality |
| EditDistance.Bounds | internal/apierr/diagnose.go:170-195 | between the length difference and the longer length |

## Left out

- Cache: the GraphQL blobs of a set, the auth-resolution file, warnings and age checks of a read; a garbage-collection sweep appears only as the rename of a scope directory, its age decisions and counters do not.
- Locks: the no-flock fallback appears only as exclusion that may be lost; timeouts are a step that gives up.
- Singleflight: `runtime.Goexit` inside fn, and an fn that itself calls `Do`: a thread inside fn makes no other call, so two owners that wait for each other are outside the model.
- Revalidation: the probe's goroutine and time budget are the probe's answer; outcomes are modelled, warnings are not.
- Revalidation.DisciplinedIsHonest: a contract that suffices; it also refuses a manifest and its topology recorded together, which is honest. The exact one is `Revalidation.HonestRunsIff`. `Revalidation.FreshSessionIsHonest` inherits it.
- Census: how an entity is built and what an overlay of documents changes inside it, apart from `built_at`, which it keeps.
- Redaction of a backup when it is written is any function that keeps `_status`; `dropMasked` and `restoreBodyOf` work on a private decoded copy, so they are modelled on values, not on shared maps.
- Saves follow the program's own model of them in `internal/docdiff/patch.go`, without named leaf paths.
- Backups of globals, and the collection and locale parts of a backup's key: one collection and one locale are modelled.
- `pay update`, `delete` and the other write commands: they use the same pre, send and post as the two modelled commands.
- A post-record that cannot be written is a warning in the program; the model counts the attempt.
- Trace.OneBackupEach: requires that the forms of the id that were asked for share a key, because otherwise the program keeps several (`Trace.OneBackupIff`).
- Creates: defaults and hooks of the server, and an id of the caller's own choosing; a create stores its body, under an id the server picks.
- EchoDiff.CleanReport: for bodies whose keys are non-empty and free of `.` and `[`, which are exactly the names it holds for (`EchoDiff.AccountsIffClean`); `EchoDiff.EchoDiff` holds for every body.
- Patch.OverwritesIff: requires that in no row array of the earlier save a row that can turn into rich text (`CanTurn`) shares its id with a later row; `Patch.Overwrites` needs nothing of the kind. `Patch.SaveOverwritesIff` and `Restore.SkipKeepsNewestIff` inherit it.
- Restore.Prepare: `skipPub` is equality of the live row and the patched one, where the program's diff also ignores timestamps, equal numbers written differently, and null against absent.
- EchoDiff.SilentMeansStored: for clean bodies, as `EchoDiff.CleanReport`; so is `EchoDiff.AddedKeysAreSilent`, for which `EchoDiff.AddedKeysSilentIff` covers all bodies.
- The memo's record is one opaque part of the manifest: that of two memos one may overwrite the other's record is not stated.
- Discovery mints a new generation for every run: that two runs could draw the same one is not modelled.
- Required.MissingRequired: names in a required path are non-empty, as schema field names are.
- EchoDiff: white space before JSON text is ASCII and Latin-1 only; the order of a warning's paths and its wording.
- DeepMerge: a body is a tree, so the two maps merged start with disjoint sets of writable maps; `DeepMerge.SetPath` is one call for each round of the source's loop.
- AuditLog: one rotating process; unparseable lines, partial writes and the fields a match compares.
- AuditLog.ShippedAgreesIff: requires that no record is in two rotated files, which `AuditLog.HistoryApart` gives for a history of distinct records.
- Command plumbing, envelopes, help texts, error classification, block selectors, Markdown conversion, backup file names and TOML editing: they would add only easy members.
