# The context store, verified

A Dafny model of a governed, versioned context store that several agents and people share through a local daemon, with proofs of what it promises. Packs belong to a scope (global, project, task) and hold entries. Every write is a transaction that records a numbered revision; agents propose through `commit_work` and the source import, and a review policy, locks and archived packs decide whether a proposal is applied, held for review or refused. Clients reach the store through a socket, resend, and spool what they cannot deliver.

## How the project is laid out

- `Prelude`, `Text`, `JsonTree`, `JsonText`, `Model`: options and results; the string operations of the standard library that the code leans on (trimming, searching, code-point order); JSON values with their canonical form and their compact text; the records, requests and results.
- `Database`, `Operations`, `SourceImport`, `Bundles`: the tables, the writes a transaction is made of, and every public operation as a function from tables to tables or to an error. They are the specification.
- `Store`: the same store as a class whose fields are the tables. Its methods write the tables step by step, in the order in which the code does, loop where it loops and roll back where it rolls back; each is proved to do exactly what the specification says.
- `Histories`, `Invariant`, `Growth`, `Writes`, `Governance`, `Runs`: the invariant of the tables, how they may change, and that every operation keeps the one and respects the other, over runs of any operations by any clients.
- `HashLaws`, `Fingerprints`: what content hashes and preview fingerprints tell apart.
- `Stamps`, `Reviews`, `RunLaws`, `Reverts`, `Effects`, `Replays`, `Secrets`, `ImportLaws`, `ImportLog`, `ImportPromises`, `Convergence`: the theorems about the store.
- `Requests`, `Trails`, `Commits`, `Previews`, `Restores`, `Successes`, `Failures`: what each operation comes to, said of the request and the tables alone: exactly when it succeeds, what it leaves behind field by field, what it records, what it answers, and with which error it fails.
- `Compose`, `Search`, `RoundTrip`, `Exporting`, `Asked`: reading the store, and bundles; `Asked` says what a request is answered with.
- `Markdown`, `MarkdownLaws`, `MarkdownCodec`, `MarkdownHeadings`, `MarkdownRoundTrip`, `MarkdownBundles`: printer and parser of the Markdown bundle.
- `Framing`: the bounded frame reader and the daemon's loop over a connection.
- `Delivery`, `Protocol`, `SharedNames`, `Progress`, `Client`: delivery of commits as an asynchronous protocol, what happens when spool files share a name, what comes of calls that nothing disturbs, and the client as it is programmed.

A run is any sequence of operations (`Runs.Op`), so every theorem about runs holds for every interleaving of clients: each public operation is one transaction under one lock.

## Modelling decisions

- SHA-256 is taken as injective: a preview fingerprint or candidate request id is the value it is computed from, and a content hash is the sequence fed to the hasher. The finished digest of the value, which has a fixed length, is one symbol of that sequence. Request ids chosen by clients and the ids minted by the source import never coincide.
- Fresh ids come from a counter. Times are left out; where the code orders rows by time (reviews, runs), tables keep the order of insertion or the order is a parameter.
- The credential scanner is an arbitrary predicate on what it is shown; it is part of the database value. Hashes minted by the import are hidden from it, because hexadecimal text is not credential-shaped.
- The source parser is given: an import starts from its list of candidates, whose provenance never carries a request id.
- The JSON library is a parameter of the Markdown bundle, with the laws in `MarkdownLaws.Lawful`; the compact printer with a parser that inverts it obeys them (`MarkdownCodec.CompactCodecIsLawful`). Objects of the library list their keys in order, so a preview is its own canonical form (`Fingerprints.FingerprintIsPreview`).
- A spool file is named after the time, to the millisecond, and the sanitised request id (`Protocol.SpoolName`). Names may repeat.

## What turned out false, and what holds instead

- "The last snapshot of an entry shows its row" holds up to the status (`Reverts.LastSnapshotIsRow`): reverting to a deleted revision, or importing a deleted entry, records an active snapshot and flips the row afterwards. In every reachable state the snapshot shows the status too if and only if the row is active or the last revision was recorded by a delete (`Reverts.ReachableShowsStatus`); after a revert, if and only if the revision gone back to was active (`Reverts.RevertShowsStatus`); after the import of an entry, if and only if the entry came active (`Reverts.ImportShowsStatus`). Two default reverts therefore bring content back always, and the status exactly under the condition on the row (`Reverts.TwoRevertsRestore`).
- "Equal content hash means equal content" is false: fields are hashed trimmed and without separators, and the lock is not hashed. Two hashes are equal exactly if the texts before the value digest, the digests, and the texts behind it are (`HashLaws.HashTells`). Between two entries under one key, equal hash means equal content whenever kinds, titles and tags agree in number and lengths, the locks agree, and no hashed field has white space around it (`HashLaws.HashMeansContent`); none of these conditions can be spared (`HashLaws.NoConditionSpared`). The other direction always holds (`Model.SameContentSameHash`, `Search.ExactDuplicateIsHashDuplicate`).
- "Importing an exported Markdown bundle gives the entries back" is false in general. It holds if and only if there is an entry at all, no heading or description holds the begin marker, and every entry survives: normalised scope, header text without `-->`, rendered value without white space around it and without end marker (`MarkdownRoundTrip.MarkdownRoundTrip`, and of a store's own bundle `MarkdownBundles.StoreComesBack`).
- "A request that was spooled is on disk or committed" is false when file names are shared by requests of different ids: names carry the sanitised id, so `a/b` and `a_b` share theirs within one millisecond. It holds whenever no name is used for two ids (`Protocol.AnswersHold`, `Protocol.SpoolFilesKept`), in particular for ids that differ once sanitised (`Protocol.ApartIdsSuffice`), as ids of letters, digits, hyphens and underscores do (`Protocol.PlainIdsAreApart`); and for any two ids that share a name there is a run that loses a request (`SharedNames.SharedNameLosesRequest`).
- Frame reading is independent of chunking as to its answer (`Framing.ChunkReader.ReadBoundedLine`), and as to its position exactly if the frame exceeds the limit by one byte at most (`Framing.StopFixedIff`, `Framing.StopsDiffer`). The daemon closes the connection after a frame that is too long, so its responses do not depend on it (`Framing.HandleClient`).
- "A held proposal leaves no trace but its review" is false: an ordinary commit creates an absent pack exactly if the scanner passes the proposal, although the item may end up held; a source import creates it exactly if the candidate is applied (`Replays.ProposalCreatesPack`, `Replays.AbsentPackFate`, `Replays.HeldYetCreated`).
- "A pending result names a pending review" is false of a replayed result: the review is pending still exactly if no step has approved or rejected it since (`Replays.ReplayNamesReview`).
- "Everything stored was shown to the scanner" holds of every row and every record in every reachable store (`Secrets.NoCredentialStored`), except that the record of an imported review names an importer whom the scanner may not have been shown (`Secrets.ImporterIsRecorded`).
- Reviews are not safe from bundle imports that list them, which may reopen a settled one (`Replays.BundleReopensReview`); theorems about a review's history ask that no imported bundle lists its id. `Effects.CreatedPack` shows that a lock reason can be stored without a lock, which bundles then drop (`RoundTrip.BundleRoundTrip`).

## Model

| member | source | states |
|---|---|---|
| `Runs.StepSound` | crates/context-core/src/store.rs:98-956 | every operation keeps the whole invariant (unique ids, references, numbered histories, current hashes, exact index) and lets tables only grow or advance by revision |
| `Stamps.ReachableIsValid` | crates/context-core/src/store.rs:1310-1565 | every state a fresh store can reach by any run satisfies the invariant |
| `Stamps.EntryStamp` | crates/context-core/src/store.rs:1671-1787 | over any run an entry keeps its id, its recorded revisions are exactly 1..current, and the same revision is the identical row |
| `Stamps.EntryIdAndRevisionIdentify` | crates/context-core/src/store.rs:1754-1785 | the same entry id and revision in two states of a run means the same key and the identical row |
| `Stamps.PackStamp` | crates/context-core/src/store.rs:1583-1653 | the same for packs |
| `Stamps.PolicyStamp` | crates/context-core/src/store.rs:98-138 | the same for the review policy |
| `Stamps.HistoryOnlyGrows` | crates/context-core/src/store.rs:2544-2576 | the history of a pack, an entry or the policy is only appended to, even across bundle imports |
| `Stamps.RevisionsAppendOnly` | crates/context-core/src/store.rs:2544-2576 | without bundle imports the whole revision table is append-only |
| `Stamps.CommitLogPermanent` | crates/context-core/src/store.rs:1972-2044 | a logged request keeps its result for ever |
| `Histories.MaxOfNumbered` | crates/context-core/src/store.rs:2555-2559 | MAX + 1 numbers the next revision with the length of the history plus one |
| `Histories.FindInNumbered` | crates/context-core/src/store.rs:407-414 | looking up a revision number finds exactly that revision of that entity |
| `Histories.HistoryPut` | crates/context-core/src/store.rs:2458-2481 | the upsert of a review's revision leaves the histories of packs, entries and policy alone |
| `Writes.ApplyEntrySound` | crates/context-core/src/store.rs:1671-1787 | a write of an entry writes exactly that entry, active, under the next revision, at most creating its pack with default governance |
| `Writes.DeleteRowSound` | crates/context-core/src/store.rs:348-384 | a delete changes status, provenance and revision of one row only |
| `Writes.SetPolicySound` | crates/context-core/src/store.rs:98-138 | setting the policy it has changes nothing; otherwise mode, metadata, author and the next revision are stored |
| `Writes.InsertReviewSound` | crates/context-core/src/store.rs:2323-2381 | a new review is appended, pending, showing proposal, existing entry and reason |
| `Writes.UpdateReviewSound` | crates/context-core/src/store.rs:2383-2417 | a transition replaces one pending review in place, keeps its cause, and touches nothing but reviews and revisions |
| `Governance.DecideRespectsGovernance` | crates/context-core/src/store.rs:2093-2249 | a proposal is applied exactly if mode, scope, locks, pack status and the entry allow it and it is no duplicate |
| `Governance.CommitWorkSound` | crates/context-core/src/store.rs:1972-2044 | a commit stays within what agents may change and logs its result under its id |
| `Governance.ApplyImportSound` | crates/context-core/src/store.rs:769-906 | so does the source import |
| `RunLaws.AgentsRespectGovernance` | crates/context-core/src/store.rs:2047-2261 | over any run of agent steps: Strict changes no entry, Balanced no active entry, and no mode changes global, locked or lock-protected entries, existing packs or the policy |
| `RunLaws.ArchivedPackFrozen` | crates/context-core/src/store.rs:2578-2609 | over any run without bundle import and without its unarchiving, an archived pack keeps its row and all its entries, and gains none |
| `RunLaws.UnarchiveChangesStatusOnly` | crates/context-core/src/store.rs:2589-2609 | the only update an archived pack takes changes its status and revision alone (and drops a reason without lock) |
| `Effects.ItemTellsTruth` | crates/context-core/src/store.rs:2047-2261 | what a commit item reports is so: applied was written where allowed, held waits under the reported id, duplicate and refused touched nothing |
| `Replays.ProposalCreatesPack` | crates/context-core/src/store.rs:2079-2092 | a commit creates an absent pack exactly if the scanner passes the proposal, and fails if it refuses the pack; an import creates it exactly if the candidate is applied |
| `Replays.AbsentPackFate` | crates/context-core/src/store.rs:2079-2261 | a proposal for an absent pack is held in Strict mode and in the global scope, and applied otherwise; the pack is there with default governance in either case |
| `Replays.HeldYetCreated` | crates/context-core/src/store.rs:2079-2092 | a global proposal to a fresh store is held, and its pack is created |
| `Replays.ReplayNamesReview` | crates/context-core/src/store.rs:1977-1985 | a committed request is answered alike at any later time, and a review it calls pending is so exactly if no step has settled it since |
| `Replays.PendingIffNotSettled` | crates/context-core/src/store.rs:583-712 | over any run whose bundle imports do not list it, a pending review is pending at the end exactly if no step approved or rejected it |
| `Replays.BundleReopensReview` | crates/context-core/src/store.rs:2428-2481 | a bundle import that lists a settled review makes it pending again, in place |
| `Effects.ResendIsIdempotent` | crates/context-core/src/store.rs:1977-1985 | sending a committed request again gives the same result and the same tables |
| `Effects.PutWrites` | crates/context-core/src/store.rs:256-286 | a put writes exactly the entry given, into an active pack, with the caller's provenance as fallback |
| `Effects.DeleteHides` | crates/context-core/src/store.rs:330-384 | a delete keeps everything of the entry but status and provenance, and leaves no document of it |
| `Effects.PackUpdateIsPartial` | crates/context-core/src/store.rs:175-244 | fields given are taken over, others stay, identity and other packs are untouched, the revision goes up by one |
| `Effects.CreatedPack` | crates/context-core/src/store.rs:140-173 | a pack is created under a new key only, active, with the fields given, at revision 1 |
| `Requests.FreshStore` | crates/context-core/src/store.rs:1471-1565 | a fresh store holds nothing but the Balanced policy, recorded as created at revision 1 |
| `Requests.ScopeRead` | crates/context-core/src/model.rs:31-46 | a scope is read with its id trimmed, the global one under its only id, and refused exactly if an id that is needed is blank |
| `Requests.PutSucceeds` | crates/context-core/src/store.rs:256-286 | a put succeeds exactly if scope, names and actor are given, the entry is valid, its pack is absent or open, and the scanner passes what it stores |
| `Requests.PutStores` | crates/context-core/src/store.rs:1671-1787 | the entry of the key then shows the request field by field, active, at the next revision or at 1, and nothing else changes |
| `Requests.DeleteSucceeds` | crates/context-core/src/store.rs:330-384 | a delete succeeds exactly if the selector is complete, the entry exists, its pack is open, and the scanner passes the record of it |
| `Requests.DeleteStores` | crates/context-core/src/store.rs:348-384 | the entry keeps every field but status, provenance and revision number; nothing else changes |
| `Requests.RevertSucceeds` | crates/context-core/src/store.rs:386-454 | a revert succeeds exactly if the selector names an entry, the number (by default the one before the current) is in 1..current, the pack takes writes, and the scanner passes the content gone back to |
| `Requests.RevertStores` | crates/context-core/src/store.rs:402-454 | the entry then shows title, kind, value, tags, metadata, lock and status of that snapshot, under a provenance that names the number, at the next revision |
| `Requests.CreateSucceeds` | crates/context-core/src/store.rs:140-173 | a pack is created exactly if scope, name and actor are given, the key is free and the scanner passes it |
| `Requests.CreateStores` | crates/context-core/src/store.rs:1583-1653 | the new pack shows the request field by field, active, at revision 1, and no other pack changes |
| `Requests.UpdateSucceeds` | crates/context-core/src/store.rs:175-244 | a pack is updated exactly if it exists, is not archived unless the update only unarchives it, and the scanner passes the fields it will have |
| `Requests.UpdateStores` | crates/context-core/src/store.rs:175-244 | the pack shows the fields given and keeps the others; without a lock it has no reason; the revision goes up by one |
| `Requests.PolicySucceeds` | crates/context-core/src/store.rs:98-138 | setting the policy succeeds exactly if the actor is given and the scanner passes it, and the record where there is a change |
| `Requests.RunSucceeds` | crates/context-core/src/store.rs:2493-2541 | a run is found or recorded exactly if its source and its own id are not blank and the scanner passes a new one |
| `Requests.WaitingIsFound` | crates/context-core/src/store.rs:583-600 | a decision finds its review exactly if the actor is given and the review of the id waits |
| `Requests.RejectSucceeds` | crates/context-core/src/store.rs:627-645 | a waiting review is rejected exactly if the actor is given and the scanner passes the settled review and its transition |
| `Requests.RejectStores` | crates/context-core/src/store.rs:627-645 | it keeps everything but state, note and number, and no other review and no other table changes |
| `Requests.ApproveSucceeds` | crates/context-core/src/store.rs:583-625 | a waiting review is approved exactly if the pack takes the proposed entry and the scanner passes what that stores |
| `Requests.ApproveStores` | crates/context-core/src/store.rs:583-625 | the entry then shows the proposal field by field, under its own provenance or one that names the review, and the review is approved with the note |
| `Requests.EditTakesOver` | crates/context-core/src/store.rs:2263-2287 | after an edit the proposal shows each field given and keeps each other, with key and provenance; the review waits as before about the same |
| `Requests.EditAndApproveStores` | crates/context-core/src/store.rs:664-712 | the entry that an edit-and-approve writes shows each field given and the proposal's own otherwise, and so does the approved review |
| `Trails.PutTrail` | crates/context-core/src/store.rs:2544-2576 | a put is recorded as creation or update of the entry as it is then, behind the creation of its pack where that was absent |
| `Trails.DeleteTrail` | crates/context-core/src/store.rs:348-384 | a delete is recorded as such, of the entry as it is deleted |
| `Trails.RevertTrail` | crates/context-core/src/store.rs:433-450 | a revert is recorded as an update under its own provenance, active even where the row is deleted afterwards |
| `Trails.CreateTrail` | crates/context-core/src/store.rs:1583-1653 | the creation of a pack is recorded with the pack as it is |
| `Trails.UpdateTrail` | crates/context-core/src/store.rs:223-240 | so is its update |
| `Trails.PolicyTrail` | crates/context-core/src/store.rs:98-138 | a change of the policy is recorded with the policy as it is; setting the policy there is leaves no trail |
| `Trails.RejectTrail` | crates/context-core/src/store.rs:2383-2417 | a rejection is recorded by who did it, on the request that raised the review |
| `Trails.EditTrail` | crates/context-core/src/store.rs:2383-2417 | so is an edit |
| `Trails.ApproveTrail` | crates/context-core/src/store.rs:583-625 | an approval records the entry on the request that raised the review and on the proposal's run, and then the review as approved |
| `Trails.EditAndApproveTrail` | crates/context-core/src/store.rs:664-712 | so does an edit-and-approve |
| `Trails.ProposalTrail` | crates/context-core/src/store.rs:2047-2261 | an applied proposal leaves the trail of its entry on request and run of the commit, a held one that of the review it raises |
| `Trails.ImportPackTrail` | crates/context-core/src/store.rs:1159-1274 | an imported pack is recorded once, as new or as updated |
| `Trails.ImportReviewTrail` | crates/context-core/src/store.rs:2462-2481 | an imported review is recorded in the place of its revision of that number, or else behind all others, which stay |
| `Commits.CommitStatusTells` | crates/context-core/src/store.rs:3057-3074 | the status of a commit says "applied" exactly if every item is applied or a duplicate, "pending" exactly if every item is held, "rejected" exactly if every item is refused, and "partial" otherwise; there is an item for each proposal |
| `Commits.LoggedStatusTells` | crates/context-core/src/store.rs:1972-2044 | the same of every logged answer of every reachable store |
| `Commits.DuplicateIsThere` | crates/context-core/src/store.rs:2107-2119 | a proposal is a duplicate exactly if an active entry agrees with it: in Strict mode and for the source import in every field, otherwise in the text of the hashed fields |
| `Commits.ProposalMeets` | crates/context-core/src/store.rs:2047-2261 | the item of a proposal for every combination of scanner, pack status, scope, locks, mode, active entry and duplicate |
| `Commits.CommitAnswers` | crates/context-core/src/store.rs:1972-2044 | a new commit answers its proposals in their order, each from the tables the ones before it left, each item telling what happened; it records its run before them and the answer behind them |
| `Commits.RunEnsured` | crates/context-core/src/store.rs:2493-2541 | a run is found under its id or else recorded as given, under a new id where none is given, and no other run changes |
| `Previews.PreviewTells` | crates/context-core/src/store.rs:1789-1931 | a preview is given exactly if what an import needs is there; it shows destination, policy, each candidate with what stands in its place and how they compare, all warnings, and whether it may be applied |
| `Previews.ReportTells` | crates/context-core/src/store.rs:845-906 | the report counts the items by what became of them, and lists the entries and reviews they name |
| `Previews.ImportNames` | crates/context-core/src/store.rs:790-843 | an applied item names the entry of its key, a held one a review that waits with exactly this proposal, a duplicate the entry there is |
| `Restores.ImportOverwrites` | crates/context-core/src/store.rs:908-956 | importing a bundle into any store makes each pack, entry, run and review as the last of its rows says, under the id it had, fills in packs that only entries name, and changes nothing else |
| `Successes.CommitSucceeds` | crates/context-core/src/store.rs:1972-2044 | with nothing for the scanner to find, a commit succeeds exactly if it is complete and either its id is logged or its run and every proposal are valid |
| `Successes.ImportSucceeds` | crates/context-core/src/store.rs:769-906 | and a source import exactly if it is complete, the fingerprint expected is the preview's, the pack is not archived and no key is given twice |
| `Successes.BundleSucceeds` | crates/context-core/src/store.rs:908-956 | and a bundle import exactly if the actor is given and every row is complete |
| `Secrets.NoCredentialStored` | crates/context-core/src/secret.rs:66-212 | over any run of operations, every pack, entry, review, run, policy, logged answer and record of the history is one that the scanner was shown in full and found nothing in, but for the importer of a review |
| `Secrets.FlaggedIsNowhere` | crates/context-core/src/secret.rs:157-178 | an entry text that the scanner flags wherever it is shown is in no reachable store and in no history |
| `Secrets.ImporterIsRecorded` | crates/context-core/src/store.rs:2462-2481 | an imported review that the scanner passes is recorded under its importer, whatever the scanner says of them |
| `Failures.ScannerSees` | crates/context-core/src/secret.rs:157-178 | the scanner is shown every field of an entry write and of its provenance, and the ids that clients choose |
| `Failures.ScannerSeesCommit` | crates/context-core/src/secret.rs:133-151 | of a commit it is shown request id, actor, run, and where each proposal goes and what it is called |
| `Failures.SecretCommitFails` | crates/context-core/src/store.rs:1972-1985 | a commit whose metadata holds a credential fails for it, even if its id is logged |
| `Failures.PutFails` | crates/context-core/src/store.rs:256-286 | the error of a failing put: invalid first, then the credential, then the archived pack, then the credential in what is recorded |
| `Failures.DeleteFails` | crates/context-core/src/store.rs:330-384 | the error of a failing delete: invalid, not found, archived, credential, in this order |
| `Failures.CreateFails` | crates/context-core/src/store.rs:140-173 | the error of a failing creation: invalid, credential, conflict |
| `Failures.UpdateFails` | crates/context-core/src/store.rs:175-244 | the error of a failing update: invalid, not found, archived, credential |
| `Failures.DecisionFails` | crates/context-core/src/store.rs:583-712 | all four decisions on a review fail alike: as invalid without actor, not found, and as invalid for a settled review |
| `Failures.ApplyFails` | crates/context-core/src/store.rs:769-790 | a fingerprint that differs is reported before it is asked whether the import may be applied |
| `Failures.PreviewFails` | crates/context-core/src/store.rs:1789-1931 | a preview fails as invalid or for a credential, and without actor, scope, pack name or candidates always as invalid |
| `Failures.HoldStores` | crates/context-core/src/store.rs:2290-2321 | a held candidate of a source import goes to the oldest review that waits on the same case and changes nothing; every other held proposal raises a new review, which shows all it is about |
| `Reverts.TargetIsSnapshot` | crates/context-core/src/store.rs:402-424 | a revert finds its target exactly if the number lies in 1..current, and the snapshot is of the same entry |
| `Reverts.RevertRestores` | crates/context-core/src/store.rs:386-454 | a revert to k restores content, lock and status of snapshot k on the same row under the next revision, and changes nothing else |
| `Reverts.LastSnapshotIsRow` | crates/context-core/src/store.rs:1754-1780 | the last snapshot shows the row up to status and number |
| `Reverts.TwoRevertsRestore` | crates/context-core/src/store.rs:402-454 | two default reverts restore the content; the status exactly if the row was active or deleted by a delete |
| `Reverts.LastSnapshotShowsStatus` | crates/context-core/src/store.rs:348-384 | the last snapshot shows the row's status exactly if the row is active or a delete took the snapshot |
| `Reverts.ReachableShowsStatus` | crates/context-core/src/store.rs:1754-1780 | the same, and that it shows everything else, in every state a fresh store can reach |
| `Reverts.RevertShowsStatus` | crates/context-core/src/store.rs:433-450 | after a revert the last snapshot is active and the row has the status gone back to, so they agree exactly if that was active |
| `Reverts.ImportShowsStatus` | crates/context-core/src/store.rs:926-945 | after the import of an entry the last snapshot is active and the row has the status it came with, so they agree exactly if it came active |
| `Reviews.SettledForever` | crates/context-core/src/store.rs:583-645 | approved and rejected are terminal, unless a bundle import lists the review |
| `Reviews.CauseForever` | crates/context-core/src/store.rs:2383-2417 | a review stays about the same entry for the same reason, unless a bundle import lists it |
| `Reviews.ApprovalWritesProposal` | crates/context-core/src/store.rs:583-625 | an approval writes exactly the proposed entry, into an active pack, and nothing else |
| `Reviews.EditedApprovalWrites` | crates/context-core/src/store.rs:664-712 | an edit-and-approve writes exactly the edited proposal, whose fields `Requests.EditAndApproveStores` gives one by one |
| `Reviews.RejectWritesNothing` | crates/context-core/src/store.rs:627-645 | a rejection changes no entry, pack or document |
| `Reviews.EditWritesNothing` | crates/context-core/src/store.rs:647-662 | nor does an edit |
| `Reviews.ApprovedAtMostOnce` | crates/context-core/src/store.rs:583-712 | over any run whose bundle imports do not list it, a review causes at most one write |
| `Reviews.EditAndApproveIsEditThenApprove` | crates/context-core/src/store.rs:664-712 | the atomic step reaches the packs, entries, documents and ids of edit followed by approve, up to fallback provenance |
| `Reviews.EditAndApproveSucceedsTogether` | crates/context-core/src/store.rs:664-712 | the one step, and likewise the two, succeed exactly if the edited review can be approved and the scanner passes the records they show it; with a silent scanner, exactly together |
| `ImportLaws.FreshCandidates` | crates/context-core/src/store.rs:790-843 | applied in sequence, each candidate meets the fate its preview foretold, although the first write may create the pack |
| `ImportPromises.PreviewPredictsApply` | crates/context-core/src/store.rs:769-906 | disposition and reason of every item follow from the preview state; duplicate exactly if the preview said so; none refused; counts add up |
| `ImportPromises.OrderDoesNotMatter` | crates/context-core/src/store.rs:790-843 | an entry gets the same disposition and reason wherever it stands among the candidates, and whatever the others are |
| `ImportPromises.ApplyWritesForetold` | crates/context-core/src/store.rs:790-843 | an entry that an apply changed is one foretold to be applied, and shows its candidate |
| `ImportPromises.AppliedNeverRecomputed` | crates/context-core/src/store.rs:2963-2981 | after a candidate was applied, no later preview of any run can compute its request id again |
| `ImportPromises.LoggedIsNotApplied` | crates/context-core/src/store.rs:1983-1985 | the log never answers a candidate with a cached applied result |
| `ImportPromises.NoLostUpdate` | crates/context-core/src/store.rs:778-784 | an apply whose fingerprint matches an earlier preview finds candidates' entries, destination pack and mode unchanged since |
| `ImportPromises.AtMostOneApplied` | crates/context-core/src/store.rs:769-790 | of two clients that previewed the same state and share a key, the second apply fails once the first has applied the key |
| `ImportLog.ReachableIsHealthy` | crates/context-core/src/store.rs:1972-2044 | in every state a fresh store can reach the log is as the promises of the import ask for |
| `ImportLog.RunHealthy` | crates/context-core/src/store.rs:1972-2044 | over every run the log's import entries hold the fate foreseen as long as the entry is at the revision previewed, and never an applied one then |
| `ImportLog.ImportOutcome` | crates/context-core/src/store.rs:769-906 | an apply either answers wholly from the log and changes nothing, or processes every candidate afresh |
| `Convergence.ImportConverges` | crates/context-core/src/store.rs:2290-2321 | a second apply succeeds, applies nothing, and changes no entry, pack, review, revision, document or id |
| `Search.DerivedDataNeverDrifts` | crates/context-core/src/store.rs:2815-2842 | in every reachable state an active entry has exactly one, current document, a deleted one none, and the stored hash is current |
| `Search.ExactDuplicateIsHashDuplicate` | crates/context-core/src/store.rs:2107-2119 | an exact duplicate is a duplicate by hash in every mode |
| `Search.SearchEqualsScan` | crates/context-core/src/store.rs:506-541 | the index finds each matching entry once, and exactly what a scan of active entries in active packs of the scopes finds |
| `Search.AnswersAreComposed` | crates/context-core/src/store.rs:506-541 | whatever ranking and limit, search answers are among the entries that composing the same scopes includes |
| `Search.ArchivedSectionComesBack` | crates/context-core/src/store.rs:456-504 | archive, any run, unarchive: the pack's composed section is what it was |
| `Compose.ComposePartitions` | crates/context-core/src/store.rs:2844-2885 | included entries and exclusions are disjoint and together exactly the entries of the scopes |
| `Compose.ComposeAccounts` | crates/context-core/src/store.rs:2844-2885 | the answer lists each excluded entry once, ascending, with its reason, and its two counts add up to the entries of the scopes |
| `Compose.ComposeFlattens` | crates/context-core/src/store.rs:456-486 | sections are distinct and flatten back to the included rows, each once, ascending by scope kind, scope id, pack and key |
| `Compose.GroupedByPack` | crates/context-core/src/store.rs:473-486 | for any rows, grouping makes one section per pack, holding exactly its rows in order |
| `Compose.SectionUnchanged` | crates/context-core/src/store.rs:456-486 | a pack's section depends on that pack's entries and status alone |
| `Compose.Group` | crates/context-core/src/store.rs:472-486 | the find-or-append loop computes the grouping |
| `Asked.ComposeTells` | crates/context-core/src/store.rs:456-504 | composing succeeds exactly if no id given is blank; sections list, pack by pack and in order, the active rows of the scopes asked for in open packs (or all), exclusions the others with their reason, and both are counted |
| `Asked.KeyOrder` | crates/context-core/src/store.rs:2844-2885 | rows go by global, project, task, then by scope id, pack name and key, in code-point order |
| `Asked.IndexTells` | crates/context-core/src/store.rs:2815-2842 | in every reachable state the document of an active entry shows key, title, body and tags as they are now |
| `Asked.SearchTells` | crates/context-core/src/store.rs:506-541 | searching succeeds exactly if query and ids given are not blank; the answer holds no entry twice, only matching active entries of open packs in the scopes asked for, and all of them up to the limit |
| `Asked.ExportTells` | crates/context-core/src/store.rs:714-734 | an export succeeds exactly if no scope or id given is blank; it lists each once and in order the entries of the packs asked for, deleted ones only if wanted, these packs, and if wanted their reviews and the runs |
| `RoundTrip.BundleRoundTrip` | crates/context-core/src/store.rs:908-956 | importing rows exported from a valid store into an empty one fails only on credentials and reproduces exactly those packs, entries, reviews and runs |
| `RoundTrip.WholeStoreRoundTrip` | crates/context-core/src/store.rs:908-956 | if nothing was left out, the result is the same store, up to ids, revision numbers and reasons without a lock |
| `Exporting.ExportIsExport` | crates/context-core/src/store.rs:714-734 | whatever is asked for, an export lists rows of the store, none twice, with every entry its pack |
| `Exporting.EverythingComesBack` | crates/context-core/src/store.rs:714-734 | exporting everything and importing it into an empty store gives the same store |
| `Exporting.ListExportReviews` | crates/context-core/src/store.rs:1029-1037 | the loop lists the reviews in the scopes and pack asked for, in order |
| `Exporting.ListExportRuns` | crates/context-core/src/store.rs:1039-1047 | the loop lists the matching runs, or fails as the first bad scope does |
| `Store.ContextStore.constructor` | crates/context-core/src/store.rs:64-88 | a new store holds the balanced policy at revision 1 and nothing else |
| `Store.ContextStore.RecordRevisionTx` | crates/context-core/src/store.rs:2544-2576 | does what the specification function of recording a revision says |
| `Store.ContextStore.EnsurePackTx` | crates/context-core/src/store.rs:1583-1653 | finds or inserts the pack as specified |
| `Store.ContextStore.DeleteDocsTx` | crates/context-core/src/store.rs:2836-2842 | the documents of one entry are removed, the others stay in order |
| `Store.ContextStore.UpsertDocTx` | crates/context-core/src/store.rs:2815-2834 | old documents are replaced by the current one, or by none for a deleted entry |
| `Store.ContextStore.ContentHashOf` | crates/context-core/src/model.rs:391-408 | the hasher is fed the trimmed fields, value digest, tags and metadata, in order |
| `Store.ContextStore.ApplyEntryTx` | crates/context-core/src/store.rs:1671-1787 | checks and writes as specified |
| `Store.ContextStore.PutEntry` | crates/context-core/src/store.rs:256-286 | result and tables as specified; on an error the tables are as before |
| `Store.ContextStore.DeleteEntry` | crates/context-core/src/store.rs:330-384 | the same for deleting |
| `Store.ContextStore.RevertEntry` | crates/context-core/src/store.rs:386-454 | the same for reverting |
| `Store.ContextStore.SetPolicy` | crates/context-core/src/store.rs:98-138 | the same for the policy |
| `Store.ContextStore.CreatePack` | crates/context-core/src/store.rs:140-173 | the same for creating a pack |
| `Store.ContextStore.UpdatePack` | crates/context-core/src/store.rs:175-244 | the same for updating a pack |
| `Store.ContextStore.FindPendingTx` | crates/context-core/src/store.rs:2666-2699 | finds the oldest pending review of the same proposal over the same entry for the same reason |
| `Store.ContextStore.InsertOrReuseReviewTx` | crates/context-core/src/store.rs:2290-2321 | reuses such a review for an exact candidate, and inserts one otherwise |
| `Store.ContextStore.ApproveReview` | crates/context-core/src/store.rs:583-625 | as specified, all or nothing |
| `Store.ContextStore.RejectReview` | crates/context-core/src/store.rs:627-645 | as specified, all or nothing |
| `Store.ContextStore.EditFieldsOf` | crates/context-core/src/store.rs:2263-2287 | overwrites the fields given, one by one, and checks the result |
| `Store.ContextStore.EditReview` | crates/context-core/src/store.rs:647-662 | as specified, all or nothing |
| `Store.ContextStore.EditAndApproveReview` | crates/context-core/src/store.rs:664-712 | as specified, all or nothing |
| `Store.ContextStore.CreateRun` | crates/context-core/src/store.rs:2493-2541 | finds or inserts the run as specified |
| `Store.ContextStore.GovernTx` | crates/context-core/src/store.rs:2093-2260 | the sequence of checks reaches the specified verdict and carries it out |
| `Store.ContextStore.CommitProposalTx` | crates/context-core/src/store.rs:2047-2261 | one proposal as specified |
| `Store.ContextStore.SummarizeItems` | crates/context-core/src/store.rs:3057-3074 | the loop computes the status from which dispositions occur |
| `Store.ContextStore.CommitWork` | crates/context-core/src/store.rs:551-565 | the whole commit as specified, all or nothing |
| `Store.ContextStore.CommitWorkTx` | crates/context-core/src/store.rs:1972-2044 | log lookup, run, proposals in order and log entry as specified |
| `Store.ContextStore.DuplicateKeys` | crates/context-core/src/store.rs:1881-1892 | the loop collects exactly the keys that a later candidate repeats |
| `Store.ContextStore.BuildImportPreview` | crates/context-core/src/store.rs:1805-1931 | the preview as specified, without writing |
| `Store.ContextStore.ApplySourceImport` | crates/context-core/src/store.rs:769-906 | preview, comparison and sequential apply as specified, all or nothing |
| `Store.ContextStore.ImportPackTx` | crates/context-core/src/store.rs:1159-1274 | inserts or overwrites the pack as specified |
| `Store.ContextStore.ImportReviewTx` | crates/context-core/src/store.rs:2419-2483 | upserts the review and the revision of its number as specified |
| `Store.ContextStore.ImportBundle` | crates/context-core/src/store.rs:908-956 | packs, entries, runs and reviews in one transaction, all or nothing |
| `Store.ContextStore.ComposeFilters` | crates/context-core/src/store.rs:3086-3106 | the scopes asked for, or the first bad one |
| `Store.ContextStore.ListExclusions` | crates/context-core/src/store.rs:2844-2885 | the loop lists the excluded rows with their reasons |
| `Store.ContextStore.ComposeContext` | crates/context-core/src/store.rs:456-504 | filters, rows, sections, exclusions and counts as specified |
| `JsonTree.CanonicalIffSameMeaning` | crates/context-core/src/store.rs:1953-1970 | two JSON values have the same canonical form exactly if they mean the same, key order aside; canonicalising is idempotent |
| `JsonTree.CanonicalizeKeepsMeaning` | crates/context-core/src/store.rs:1953-1970 | canonicalising keeps every key and value |
| `Model.NormalizeSettles` | crates/context-core/src/model.rs:31-46 | normalising a scope settles it, and fails exactly for a blank id outside the global scope |
| `Model.SameContentSameHash` | crates/context-core/src/model.rs:391-408 | entries that agree exactly hash alike |
| `JsonText.PrintSplit` | crates/context-core/src/model.rs:136-139 | compact JSON text is read in one way only: it determines the value, and what follows it |
| `JsonText.PrintSample` | crates/context-core/src/model.rs:136-139 | the compact text of a nested value, character by character |
| `HashLaws.HashTells` | crates/context-core/src/model.rs:391-408 | hashes are equal exactly if the trimmed key, kind and title make the same text, the value digests are equal, and the trimmed tags and metadata make the same text |
| `HashLaws.HashMeansContent` | crates/context-core/src/model.rs:391-408 | for entries under one key with kinds, titles and tags of the same lengths, the same lock and no surrounding white space, equal hash means equal content and the other way round |
| `HashLaws.SpelledHashMeansContent` | crates/context-core/src/model.rs:391-408 | the same of the very text that is hashed, digits of the value digest and all, if titles are of one length too |
| `HashLaws.SpelledDigestsCollide` | crates/context-core/src/model.rs:391-408 | where they are not, a title and a tag that spell out digests make entries with different values hash alike |
| `HashLaws.NoConditionSpared` | crates/context-core/src/model.rs:391-408 | for each of those conditions, and under every key, two valid entries meet all the others and hash alike, but differ |
| `HashLaws.EqualHashIsNotSameContent` | crates/context-core/src/model.rs:391-408 | for every key and body there are two entries that hash alike and differ in kind and title |
| `HashLaws.HashDuplicateIsExact` | crates/context-core/src/store.rs:2107-2119 | for comparable entries, the duplicate check by hash and the one by content come to the same |
| `Fingerprints.FingerprintIgnoresKeyOrder` | crates/context-core/src/store.rs:1933-1970 | two previews have the same fingerprint exactly if actor and content agree, the order of object keys aside |
| `Fingerprints.FingerprintIsPreview` | crates/context-core/src/store.rs:1933-1970 | where objects list their keys in order, canonicalising changes nothing: the preview itself is compared |
| `Markdown.Export` | crates/context-core/src/markdown.rs:11-54 | the nested loops write the specified text |
| `Markdown.Import` | crates/context-core/src/markdown.rs:56-199 | the loop over the rest of the text reads the specified packs and entries, or fails with the specified error |
| `MarkdownLaws.HeaderRead` | crates/context-core/src/markdown.rs:82-183 | reading back a header restores every durable field |
| `MarkdownLaws.FenceComesOff` | crates/context-core/src/markdown.rs:123-135 | the code fence of a JSON value comes off again |
| `MarkdownLaws.CutShort` | crates/context-core/src/markdown.rs:70-74 | a value that contains the end marker is never read back |
| `MarkdownRoundTrip.EntryReadBack` | crates/context-core/src/markdown.rs:61-75 | behind any quiet text an exported entry and what follows are read back exactly if the entry survives |
| `MarkdownCodec.CompactCodecIsLawful` | crates/context-core/src/markdown.rs:37-45 | the laws asked of the JSON library are met by the compact printer and a parser that inverts it |
| `MarkdownHeadings.ReadsAtLeast` | crates/context-core/src/markdown.rs:60-75 | whatever stands between and before the exported entries, a successful import reads at least as many entries |
| `MarkdownHeadings.HeadingsQuiet` | crates/context-core/src/markdown.rs:60-75 | if an import yields exactly the exported entries, no begin marker stood in any heading or description |
| `MarkdownRoundTrip.MarkdownRoundTrip` | crates/context-core/src/markdown.rs:11-199 | import undoes export if and only if there is an entry, no heading or description holds the begin marker, and every entry survives |
| `MarkdownRoundTrip.MarkedDescriptionBreaks` | crates/context-core/src/markdown.rs:19-22 | a begin marker as description makes the export unreadable |
| `MarkdownBundles.ExportDealsOut` | crates/context-core/src/markdown.rs:11-54 | the text has one heading for each pack, under it the entries of its scope and name and no others, and each entry as often as it is given |
| `MarkdownBundles.ImportedPacks` | crates/context-core/src/markdown.rs:56-80 | whatever is imported, the packs are distinct and exactly the scope and name pairs of the entries, of which there is one at least |
| `MarkdownBundles.BundleComesBack` | crates/context-core/src/markdown.rs:11-199 | for distinct packs that include every entry's: under the conditions of the round trip each entry comes back exactly once with exactly their packs; entries in the order of the packs come back in it, if and only if the conditions hold |
| `MarkdownBundles.StoreComesBack` | crates/context-core/src/store.rs:740-758 | a store's own Markdown bundle gives its entries back, in order and field by field, if and only if those conditions hold |
| `MarkdownBundles.ExportSample` | crates/context-core/src/markdown.rs:11-54 | the text of a pack with description and one entry, character by character |
| `MarkdownBundles.HeaderDefaults` | crates/context-core/src/markdown.rs:82-183 | of what a header may lack only the scope is needed; the defaults of the rest |
| `Framing.ChunkReader.FillBuf` | crates/contextd/src/main.rs:165 | shows the unread part of the stream, and nothing only at its end |
| `Framing.ChunkReader.ReadBoundedLine` | crates/contextd/src/main.rs:158-204 | the answer depends on the stream alone; reading stops right behind the newline, and of a frame too long where the chunks say; never more than the limit is accumulated |
| `Framing.StopFixedIff` | crates/contextd/src/main.rs:158-204 | every chunking makes the reader stop right behind the frame exactly if the frame exceeds the limit by one byte at most |
| `Framing.StopsDiffer` | crates/contextd/src/main.rs:158-204 | of a longer frame, one chunk is consumed to its end and single bytes only one behind the limit |
| `Framing.FramesAreLines` | crates/context-client/src/lib.rs:509-555 | reading repeatedly splits the stream into its lines, losing nothing |
| `Framing.HandleClient` | crates/contextd/src/main.rs:130-156 | store and responses are those of the frames of the stream, however chunked |
| `Framing.OneResponseEach` | crates/contextd/src/main.rs:134-155 | every frame that is not blank gets exactly one response, in order, up to the first unsound one |
| `Framing.ReadTells` | crates/contextd/src/main.rs:158-204 | a read answers "end" exactly at the end, "too long" exactly if no newline is among as many bytes as the limit and there are more, and else the text up to the newline or the end |
| `Framing.LineSample` | crates/contextd/src/main.rs:158-204 | a line ends behind its line feed, not at a carriage return and not at the limit |
| `Framing.ErrorCodes` | crates/contextd/src/main.rs:134-155 | a frame that cannot be read is answered with -32600, a text that is no request with -32700, which leaves the store as it is |
| `Delivery.ExactlyOnceEffect` | crates/context-core/src/store.rs:1972-2044 | any run equals the run with each request id once, at its first success; each committed id is committed by exactly one operation |
| `Protocol.DeliveredExactlyOnce` | crates/context-client/src/lib.rs:302-320 | the same for every interleaving of sends, lost replies, resends, late and repeated executions, spooling and retries |
| `Protocol.AnswersHold` | crates/context-client/src/lib.rs:165-183 | as long as no name is used for two ids: a call told "committed" has its result in the log; one told "spooled" has its request on disk or in the log |
| `Protocol.SpoolFilesKept` | crates/context-client/src/lib.rs:375-417 | as long as no name is used for two ids: from any moment to any later one a spooled request stays where it lies until its id is in the log, and other files are left alone |
| `Protocol.NamesTell` | crates/context-client/src/lib.rs:482-490 | two names of stamps of one length are equal exactly if the stamps and the sanitised ids are; plain ids are told apart |
| `Protocol.ApartIdsSuffice` | crates/context-client/src/lib.rs:482-490 | with ids that differ once sanitised and stamps of one length no name is used for two ids, whatever was spooled under such names before or lies under names that do not clash |
| `Protocol.PlainIdsAreApart` | crates/context-client/src/lib.rs:482-490 | ids of letters, digits, hyphens and underscores differ once sanitised |
| `SharedNames.SharedNameLosesRequest` | crates/context-client/src/lib.rs:375-417 | for any two requests whose ids share a name there is a run after which the second, told to be spooled, is neither on disk nor in the log |
| `Protocol.NextOk` | crates/context-client/src/lib.rs:165-417 | every step keeps the protocol invariant, given that a spooling step uses a name of its request's id |
| `Protocol.SanitisedIsPlain` | crates/context-client/src/lib.rs:482-490 | a sanitised id is plain and as long as the id, keeps its plain characters, and is the id exactly if that is plain |
| `Progress.AttemptAnswers` | crates/context-client/src/lib.rs:322-373 | an attempt that nothing disturbs ends with the daemon's answer, the request executed |
| `Progress.CallIsTold` | crates/context-client/src/lib.rs:165-168 | a fresh call that succeeds is told the result |
| `Progress.LostIsSpooled` | crates/context-client/src/lib.rs:165-183 | a fresh call that failed by Transport, Spawn or Timeout ends with the spool alone, which keeps the request unless it holds a credential, the name is taken or the disk fails |
| `Progress.OtherFaultsEnd` | crates/context-client/src/lib.rs:181-183 | every other fault ends the call as it is; a retried file is kept exactly for a failing transport |
| `Progress.BrokenIsRetried` | crates/context-client/src/lib.rs:302-320 | a first attempt whose transport fails is followed by a second after the daemon's start, where that is allowed |
| `Progress.RetryDelivers` | crates/context-client/src/lib.rs:393-417 | an undisturbed retry of a request that the daemon takes ends with the file gone and the request executed |
| `Client.ContextClient.Transact` | crates/context-client/src/lib.rs:322-373 | one attempt for every course of the connection: no connection or no reply is a lost transport, a line too long and an unreadable reply are faults of their own, a refusal is one the daemon gave; a reply means that the request is in the log with that result, whatever others do meanwhile |
| `Client.ContextClient.SendValue` | crates/context-client/src/lib.rs:302-320 | for every course of the call: it ends with its first attempt unless the transport fails and autostart is on, then with what keeps the daemon from starting, or with the second attempt |
| `Client.ContextClient.EnsureDaemon` | crates/context-client/src/lib.rs:281-294 | finds the daemon there, or starts it if that is allowed, with the fault of each step that fails |
| `Client.ContextClient.SpoolRequest` | crates/context-client/src/lib.rs:375-391 | for every state of the disk: a request with a credential is refused, a taken name and a failing disk are errors, and otherwise the file is created with the request in it |
| `Client.ContextClient.CommitWork` | crates/context-client/src/lib.rs:165-183 | a reply is committed and logged; Transport, Spawn and Timeout lead to the spool, where the request lies under its name unless it holds a credential, the name is taken or the disk fails; any other fault is passed on; no other file is touched |
| `Client.ContextClient.RetrySingle` | crates/context-client/src/lib.rs:393-417 | for every file and course: a reply removes the file, a failing transport keeps it, all else is an error; it is reported gone only with the id of its name in the log, and no request is lost |
| `Client.ContextClient.ListSpool` | crates/context-client/src/lib.rs:251-254 | the listing holds every name of the directory once, in order |
| `Client.ContextClient.RetrySpool` | crates/context-client/src/lib.rs:246-279 | while others do the same, it gives up if the directory cannot be read or a listed file vanishes; otherwise every regular file listed is attempted once, delivered and retained add up, the errors name exactly the files that are not regular or failed otherwise than by the transport, and what it removed is in the log |
| `Client.SpoolNamesAreTried` | crates/context-client/src/lib.rs:246-258 | the name of a spooled request is one that the retry looks at |

## Left out

- SQLite itself, migrations, indexes and SQL quoting: tables are maps and sequences, queries are functions on them.
- Times, and with them the order of imported reviews among older ones and of runs in an export.
- The secret patterns, the source parser, tokenising, ranking and snippets of the full-text index, the rendered Markdown of a composed context and its token estimate.
- Locks and threads below the level of one operation; export reads packs and entries under separate locks, and is one step here.
- JsonText.PrintSplit: numbers in JSON are integers of any size; floating-point numbers, and the library's limits on the size of integers and on nesting depth, are not part of this model.
- MarkdownLaws.Lawful: asks that every value is parsed back, whatever its size and nesting; the library refuses to read back what is nested more deeply than its limit.
- Errors of sockets and files other than those named in `Protocol.Fault`; read errors of the frame reader.
- Daemon start-up, paths, permissions, the remaining read-only methods of the store, and the command-line, MCP and desktop front ends.
- `import_data` checks the actor, chooses between JSON and Markdown and then imports the bundle; its check is made by the bundle import here, and the formats are modelled by themselves.
- The request that the code stores beside a logged answer, with its texts blanked out.
- Search.AnswersAreComposed: the order of the hits is arbitrary, so the limit may cut any of them.
- Store.ContextStore.ContentHashOf: a value digest is one symbol, which no field spells; what changes where titles and tags spell out the 64 digits is shown beside it (`HashLaws.SpelledHashMeansContent`, `HashLaws.SpelledDigestsCollide`).
- Store.ContextStore.ImportReviewTx: stores the scope normalised, as every read of the row shows it; the stored text matters to the search for a pending review alone, which here may find an imported review whose scope id had white space around it.
- Store.ContextStore.ComposeContext: the rendered text and its size are not modelled, and the two queries are set comprehensions over the tables.
- Client.ContextClient.ListSpool: directory entries that cannot be read are skipped by the code and do not occur here.
