/** No credential is ever stored: whatever a reachable store holds, the scanner was shown and found nothing in. */
module Secrets {
  import opened Prelude
  import opened JsonTree
  import opened Model
  import opened Database
  import opened Operations
  import opened SourceImport
  import opened Bundles
  import opened Invariant
  import opened Growth
  import opened Runs
  import Text

  // ---------- what the scanner has passed ----------

  // An entry: all that it says, and where it lies.
  ghost predicate EntryPassed(scan: Scanner, e: EntryRecord) {
    exists w: Write :: !scan(w) && w.EntryWrite? && w.scope == e.scope && w.packName == e.packName &&
                       w.entry.content == InputOf(e).(provenance := None)
  }

  ghost predicate ProvenancePassed(scan: Scanner, p: Provenance) {
    exists w: Write :: !scan(w) && w.RevisionMetadata? && w.provenance == ShowProvenance(p)
  }

  ghost predicate PackPassed(scan: Scanner, p: PackRecord) {
    exists actor: string :: !scan(PackWrite(p.scope, p.name, actor, p.description, p.metadata, p.lockReason))
  }

  // A review, up to the spelling of its scope and its number.
  ghost predicate ReviewPassed(scan: Scanner, r: ReviewItem) {
    exists raw: ReviewItem :: !scan(ReviewWrite(raw)) && r == raw.(scope := r.scope, revisionNo := r.revisionNo)
  }

  ghost predicate RunPassed(scan: Scanner, r: RunRecord) {
    exists id: Option<RunId> :: !scan(RunWrite(RunInput(id, r.projectScopeId, r.taskScopeId, r.source, r.metadata)))
  }

  // The policy that a fresh store starts with holds nothing of anybody's.
  predicate PolicyPassed(scan: Scanner, p: ReviewPolicy) {
    (p.mode.Balanced? && p.metadata == Object([]) && p.updatedBy == "system") || !scan(PolicyWrite(p.mode, p.metadata, p.updatedBy))
  }

  ghost predicate SnapshotPassed(scan: Scanner, s: Snapshot) {
    match s
    case PackSnapshot(p) => PackPassed(scan, p)
    case EntrySnapshot(e) => EntryPassed(scan, e)
    case ReviewSnapshot(r) => ReviewPassed(scan, r)
    case PolicySnapshot(p) => PolicyPassed(scan, p)
  }

  // What is recorded beside a snapshot. A fresh store's first record is its own, and of an imported review only the
  // review is shown.
  predicate MetadataPassed(scan: Scanner, r: Revision) {
    !scan(RevisionMetadata(ShowProvenance(r.provenance), Shown(r.requestId), r.runId)) ||
    (r.entity.PolicyEntity? && r.provenance == SystemProvenance("system", "migration_v5")) ||
    (r.entity.ReviewEntity? && r.provenance == SystemProvenance(r.provenance.actor, "review_import"))
  }

  ghost predicate RevisionPassed(scan: Scanner, r: Revision) {
    SnapshotPassed(scan, r.snapshot) && MetadataPassed(scan, r)
  }

  // The item of a commit's answer names what the proposal named.
  predicate Names(item: CommitItem, p: ShownProposal) {
    item.packName == p.packName && item.entryKey == p.key && Normalize(p.scope) == Ok(item.scope)
  }

  // A logged answer names nothing that the scanner was not shown before the commit.
  ghost predicate LogPassed(scan: Scanner, id: RequestId, r: CommitResult) {
    exists w: Write :: !scan(w) && w.CommitMetadata? && w.requestId == Shown(Some(id)) && |w.proposals| == |r.items| &&
                       forall i | 0 <= i < |r.items| :: Names(r.items[i], w.proposals[i])
  }

  ghost predicate RowPassed(scan: Scanner, e: EntryRecord) {
    EntryPassed(scan, e) && ProvenancePassed(scan, e.provenance)
  }

  // Every row of every table, every record of the history, and every logged answer.
  ghost predicate Clean(db: DB) {
    (forall k | k in db.packs :: PackPassed(db.scan, db.packs[k])) &&
    (forall k | k in db.entries :: RowPassed(db.scan, db.entries[k].record)) &&
    (forall i | 0 <= i < |db.reviews| :: ReviewPassed(db.scan, db.reviews[i])) &&
    (forall id | id in db.runs :: RunPassed(db.scan, db.runs[id])) &&
    (forall i | 0 <= i < |db.revisions| :: RevisionPassed(db.scan, db.revisions[i])) &&
    (forall id | id in db.commits :: LogPassed(db.scan, id, db.commits[id])) &&
    PolicyPassed(db.scan, db.policy)
  }

  // A transaction leaves a clean store, and the scanner as it is.
  ghost predicate Cleans<T(!new)>(db: DB, t: Tx<T>) {
    t.Done? ==> Clean(t.db) && t.db.scan == db.scan
  }

  // ---------- the writes of a transaction ----------

  lemma RecordCleans(db: DB, entity: EntityType, id: Id, action: string, s: Snapshot, p: Provenance, requestId: Option<RequestId>,
                     runId: Option<RunId>)
    requires Clean(db) && SnapshotPassed(db.scan, s)
    ensures var t := RecordRevision(db, entity, id, action, s, p, requestId, runId);
            Cleans(db, t) && (t.Done? ==> t.db == db.(revisions := t.db.revisions) && ProvenancePassed(db.scan, p))
  {
    hide MaxRevision, RevisionPassed, SnapshotPassed, PackPassed, RowPassed, ReviewPassed, RunPassed, PolicyPassed, LogPassed;
    if !db.scan(RevisionMetadata(ShowProvenance(p), Shown(requestId), runId)) {
      assert ProvenancePassed(db.scan, p);
      RecordPassed(db.scan, Revision(entity, id, MaxRevision(db.revisions, entity, id) + 1, action, s, p, requestId, runId));
    }
  }

  lemma RecordPassed(scan: Scanner, r: Revision)
    requires SnapshotPassed(scan, r.snapshot) && !scan(RevisionMetadata(ShowProvenance(r.provenance), Shown(r.requestId), r.runId))
    ensures RevisionPassed(scan, r)
  {
    hide SnapshotPassed;
  }

  // A pack as the scanner is shown it, under whatever number and status.
  lemma PackKept(scan: Scanner, p: PackRecord, actor: string)
    requires !scan(PackWrite(p.scope, p.name, actor, p.description, p.metadata, p.lockReason))
    ensures forall q: PackRecord | q.scope == p.scope && q.name == p.name && q.description == p.description && q.metadata == p.metadata &&
                                   q.lockReason == p.lockReason :: PackPassed(scan, q)
  {
  }

  lemma PackStored(db: DB, key: PackKey, p: PackRecord)
    requires Clean(db) && PackPassed(db.scan, p)
    ensures Clean(db.(packs := db.packs[key := p]))
  {
    hide PackPassed, RowPassed, ReviewPassed, RunPassed, RevisionPassed, PolicyPassed, LogPassed;
  }

  lemma InsertPackCleans(db: DB, key: PackKey, actor: string, description: Option<string>, metadata: Json, status: PackStatus, locked: bool,
                         lockReason: Option<string>, action: string, source: string)
    requires Clean(db) && !db.scan(PackWrite(key.scope, key.name, actor, description, metadata, lockReason))
    ensures Cleans(db, InsertPack(db, key, actor, description, metadata, status, locked, lockReason, action, source))
  {
    hide Clean, RecordRevision, PackPassed;
    var record := PackRecord(db.nextId, key.scope, key.name, description, metadata, status, locked, lockReason, 0);
    PackKept(db.scan, record, actor);
    NextIdCleans(db, db.nextId + 1);
    RecordCleans(db.(nextId := db.nextId + 1), PackEntity, record.id, action, PackSnapshot(record), SystemProvenance(actor, source), None, None);
    var t := RecordRevision(db.(nextId := db.nextId + 1), PackEntity, record.id, action, PackSnapshot(record),
                            SystemProvenance(actor, source), None, None);
    if t.Done? { PackStored(t.db, key, record.(revisionNo := t.value)); }
  }

  lemma NextIdCleans(db: DB, nextId: Id)
    requires Clean(db)
    ensures Clean(db.(nextId := nextId))
  {
    hide PackPassed, RowPassed, ReviewPassed, RunPassed, RevisionPassed, PolicyPassed, LogPassed;
  }

  lemma ReplacePackCleans(db: DB, key: PackKey, record: PackRecord, actor: string, action: string, source: string)
    requires Clean(db) && !db.scan(PackWrite(record.scope, record.name, actor, record.description, record.metadata, record.lockReason))
    ensures Cleans(db, ReplacePack(db, key, record, actor, action, source))
  {
    hide Clean, RecordRevision, PackPassed;
    PackKept(db.scan, record, actor);
    RecordCleans(db, PackEntity, record.id, action, PackSnapshot(record), SystemProvenance(actor, source), None, None);
    var t := RecordRevision(db, PackEntity, record.id, action, PackSnapshot(record), SystemProvenance(actor, source), None, None);
    if t.Done? { PackStored(t.db, key, record.(revisionNo := t.value)); }
  }

  lemma EnsurePackCleans(db: DB, key: PackKey, actor: string, description: Option<string>, metadata: Json, locked: bool, lockReason: Option<string>)
    requires Clean(db)
    ensures Cleans(db, EnsurePack(db, key, actor, description, metadata, locked, lockReason))
  {
    hide Clean, InsertPack, Text.Blank;
    if !db.scan(PackWrite(key.scope, key.name, actor, description, metadata, lockReason)) {
      InsertPackCleans(db, key, actor, description, metadata, Open, locked, lockReason, "create", "pack_create");
    }
  }

  lemma EntryStored(db: DB, key: EntryKey, row: EntryRow, fts: seq<Doc>)
    requires Clean(db) && RowPassed(db.scan, row.record)
    ensures Clean(db.(entries := db.entries[key := row], fts := fts))
  {
    hide PackPassed, RowPassed, ReviewPassed, RunPassed, RevisionPassed, PolicyPassed, LogPassed;
  }

  // An entry as the scanner is shown it, under whatever id, number, status and provenance.
  ghost predicate AllPassed(scan: Scanner, pack: PackKey, e: EntryInput) {
    forall r: EntryRecord | r.scope == pack.scope && r.packName == pack.name && InputOf(r).(provenance := None) == e.(provenance := None) ::
      EntryPassed(scan, r)
  }

  lemma EntryKept(scan: Scanner, key: EntryKey, actor: string, e: EntryInput, p: Provenance, requestId: Option<RequestId>, runId: Option<RunId>)
    requires !scan(ShownEntryWrite(key, actor, e, p, requestId, runId))
    ensures AllPassed(scan, key.pack, e)
  {
    var w := ShownEntryWrite(key, actor, e, p, requestId, runId);
    assert w.entry.content == e.(provenance := None);
  }

  lemma WriteEntryCleans(db: DB, key: EntryKey, packId: Id, e: EntryInput, p: Provenance, requestId: Option<RequestId>, runId: Option<RunId>)
    requires Clean(db) && AllPassed(db.scan, key.pack, e)
    ensures Cleans(db, WriteEntry(db, key, packId, e, p, requestId, runId))
  {
    hide Clean, RecordRevision, EntryPassed, ProvenancePassed, ContentHash, UpsertDoc;
    var record, db0 := WrittenRecord(db, key, e, p), if key in db.entries then db else db.(nextId := db.nextId + 1);
    var action := if key in db.entries then "update" else "create";
    NextIdCleans(db, db.nextId + 1);
    RecordCleans(db0, EntryEntity, record.id, action, EntrySnapshot(record), p, requestId, runId);
    var t := RecordRevision(db0, EntryEntity, record.id, action, EntrySnapshot(record), p, requestId, runId);
    if t.Done? {
      var stored := record.(revisionNo := t.value);
      var row := EntryRow(stored, if key in db.entries then db.entries[key].packId else packId, ContentHash(e));
      EntryStored(t.db, key, row, UpsertDoc(t.db.fts, stored));
    }
  }

  lemma ApplyCleans(db: DB, pack: PackKey, e: EntryInput, actor: string, p: Provenance, requestId: Option<RequestId>, runId: Option<RunId>,
                    allowArchived: bool)
    requires Clean(db)
    ensures Cleans(db, ApplyEntry(db, pack, e, actor, p, requestId, runId, allowArchived))
  {
    hide Clean, EnsureDefaultPack, WriteEntry, EntryPassed, InputValid, Text.Blank;
    var key := EntryKey(pack, e.key);
    if !db.scan(ShownEntryWrite(key, actor, e, p, requestId, runId)) {
      EntryKept(db.scan, key, actor, e, p, requestId, runId);
      DefaultPackCleans(db, pack, actor);
      var t := EnsureDefaultPack(db, pack, actor);
      if t.Done? { WriteEntryCleans(t.db, key, t.value.id, e, p, requestId, runId); }
    }
  }

  lemma DefaultPackCleans(db: DB, pack: PackKey, actor: string)
    requires Clean(db)
    ensures Cleans(db, EnsureDefaultPack(db, pack, actor))
  {
    hide Clean, EnsurePack;
    EnsurePackCleans(db, pack, actor, None, EMPTY_OBJECT, false, None);
  }

  lemma FlipCleans(db: DB, key: EntryKey)
    requires Clean(db) && key in db.entries
    ensures Clean(FlipDeleted(db, key)) && FlipDeleted(db, key).scan == db.scan
  {
    hide PackPassed, ReviewPassed, RunPassed, RevisionPassed, PolicyPassed, LogPassed, ProvenancePassed, RemoveDocs;
    var r := db.entries[key].record;
    assert RowPassed(db.scan, r);
    assert InputOf(r.(status := Deleted)) == InputOf(r);
    assert RowPassed(db.scan, r.(status := Deleted));
  }

  lemma ReviewAdded(db: DB, r: ReviewItem)
    requires Clean(db) && ReviewPassed(db.scan, r)
    ensures Clean(db.(reviews := db.reviews + [r]))
  {
    hide PackPassed, RowPassed, ReviewPassed, RunPassed, RevisionPassed, PolicyPassed, LogPassed;
  }

  lemma ReviewReplaced(db: DB, at: nat, r: ReviewItem)
    requires Clean(db) && at < |db.reviews| && ReviewPassed(db.scan, r)
    ensures Clean(db.(reviews := db.reviews[at := r]))
  {
    hide PackPassed, RowPassed, ReviewPassed, RunPassed, RevisionPassed, PolicyPassed, LogPassed;
  }

  // A review as the scanner is shown it, under whatever number.
  lemma ReviewKept(scan: Scanner, raw: ReviewItem)
    requires !scan(ReviewWrite(raw))
    ensures forall r: ReviewItem | r == raw.(scope := r.scope, revisionNo := r.revisionNo) :: ReviewPassed(scan, r)
  {
  }

  lemma RaiseCleans(db: DB, requestId: RequestId, key: EntryKey, e: EntryInput, existing: Option<EntryRecord>, reason: ReviewReason, exact: bool)
    requires Clean(db)
    ensures Cleans(db, InsertOrReuseReview(db, requestId, key, e, existing, reason, exact))
  {
    hide Clean, RecordRevision, FindPending, ReviewPassed;
    var record := ReviewItem(db.nextId, requestId, key.pack.scope, key.pack.name, e.key, Pending, reason, e, existing, None, 0);
    if !db.scan(ReviewWrite(record)) {
      ReviewKept(db.scan, record);
      NextIdCleans(db, db.nextId + 1);
      var db0 := db.(nextId := db.nextId + 1);
      var p := SystemProvenance("system", "review_create");
      RecordCleans(db0, ReviewEntity, record.id, "create", ReviewSnapshot(record), p, Some(requestId), None);
      var t := RecordRevision(db0, ReviewEntity, record.id, "create", ReviewSnapshot(record), p, Some(requestId), None);
      if t.Done? {
        var stored := record.(revisionNo := t.value);
        ReviewAdded(t.db, stored);
      }
    }
  }

  lemma UpdateReviewCleans(db: DB, at: nat, record: ReviewItem, actor: string, action: string)
    requires Clean(db) && at < |db.reviews| && !db.scan(ReviewWrite(record))
    ensures Cleans(db, UpdateReview(db, at, record, actor, action))
  {
    hide Clean, RecordRevision, ReviewPassed, Text.Blank;
    ReviewKept(db.scan, record);
    var p := SystemProvenance(actor, "review_" + action);
    RecordCleans(db, ReviewEntity, record.id, action, ReviewSnapshot(record), p, Some(record.requestId), None);
    var t := RecordRevision(db, ReviewEntity, record.id, action, ReviewSnapshot(record), p, Some(record.requestId), None);
    if t.Done? {
      var stored := record.(revisionNo := t.value);
      ReviewReplaced(t.db, at, stored);
    }
  }

  lemma RunStored(db: DB, r: RunRecord, nextId: Id)
    requires Clean(db) && RunPassed(db.scan, r)
    ensures Clean(db.(runs := db.runs[r.id := r], nextId := nextId))
  {
    hide PackPassed, RowPassed, ReviewPassed, RunPassed, RevisionPassed, PolicyPassed, LogPassed;
  }

  lemma EnsureRunCleans(db: DB, input: RunInput)
    requires Clean(db)
    ensures Cleans(db, EnsureRun(db, input))
  {
    hide Clean, RunPassed, PastRun, Text.Blank;
    var id := if input.id.Some? then input.id.value else Minted(db.nextId);
    NextIdCleans(db, PastRun(db.nextId, id));
    if !db.scan(RunWrite(input)) {
      var record := RunRecord(id, input.projectScopeId, input.taskScopeId, input.source, input.metadata);
      RunKept(db.scan, record, input.id);
      RunStored(db, record, PastRun(db.nextId, id));
    }
  }

  lemma RunKept(scan: Scanner, r: RunRecord, id: Option<RunId>)
    requires !scan(RunWrite(RunInput(id, r.projectScopeId, r.taskScopeId, r.source, r.metadata)))
    ensures RunPassed(scan, r)
  {
  }

  // ---------- entries, packs and the policy ----------

  lemma DeleteCleans(db: DB, sel: Selector, actor: string)
    requires Clean(db)
    ensures Cleans(db, DeleteEntry(db, sel, actor))
  {
    hide Clean, DeleteRow, Normalize;
    if Select(db, sel, actor).Ok? { DeleteRowCleans(db, Select(db, sel, actor).value, actor); }
  }

  lemma DeleteRowCleans(db: DB, key: EntryKey, actor: string)
    requires Clean(db) && key in db.entries
    ensures Cleans(db, DeleteRow(db, key, actor))
  {
    hide Clean, RecordRevision, FlipDeleted, EntryPassed, ProvenancePassed;
    var row, p := db.entries[key], SystemProvenance(actor, "delete");
    var record := row.record.(status := Deleted, provenance := p);
    FlipCleans(db, key);
    SameWords(db, key, record);
    RecordCleans(FlipDeleted(db, key), EntryEntity, record.id, "delete", EntrySnapshot(record), p, None, None);
    var t := RecordRevision(FlipDeleted(db, key), EntryEntity, record.id, "delete", EntrySnapshot(record), p, None, None);
    if t.Done? {
      var stored := record.(revisionNo := t.value);
      SameWords(db, key, stored);
      EntryStored(t.db, key, row.(record := stored), t.db.fts);
    }
  }

  // A record that says the same as the row is passed as the row is.
  lemma SameWords(db: DB, key: EntryKey, r: EntryRecord)
    requires Clean(db) && key in db.entries
    requires var was := db.entries[key].record;
             r.scope == was.scope && r.packName == was.packName && InputOf(r).(provenance := None) == InputOf(was).(provenance := None)
    ensures EntryPassed(db.scan, r)
  {
    hide PackPassed, ReviewPassed, RunPassed, RevisionPassed, PolicyPassed, LogPassed, ProvenancePassed;
    assert RowPassed(db.scan, db.entries[key].record);
  }

  lemma RevertCleans(db: DB, sel: Selector, no: Option<int>, actor: string)
    requires Clean(db)
    ensures Cleans(db, RevertEntry(db, sel, no, actor))
  {
    hide Clean, ApplyEntry, FlipDeleted, RevertTarget;
    if RevertTarget(db, sel, no, actor).Ok? {
      var (pack, snapshot) := RevertTarget(db, sel, no, actor).value;
      ApplyCleans(db, pack, InputOf(snapshot), actor, snapshot.provenance, None, None, false);
      var t := ApplyEntry(db, pack, InputOf(snapshot), actor, snapshot.provenance, None, None, false);
      if t.Done? && EntryKey(pack, snapshot.key) in t.db.entries { FlipCleans(t.db, EntryKey(pack, snapshot.key)); }
    }
  }

  lemma PutCleans(db: DB, req: PutRequest)
    requires Clean(db)
    ensures Cleans(db, PutEntry(db, req))
  {
    hide Clean, ApplyEntry, Text.Blank;
    if Normalize(req.scope).Ok? {
      ApplyCleans(db, PackKey(Normalize(req.scope).value, req.packName), req.entry, req.actor,
                  Or(req.entry.provenance, SystemProvenance(req.actor, "manual_put")), None, None, false);
    }
  }

  lemma CreateCleans(db: DB, req: CreatePackRequest)
    requires Clean(db)
    ensures Cleans(db, CreatePack(db, req))
  {
    hide Clean, EnsurePack, Text.Blank;
    if Normalize(req.scope).Ok? {
      EnsurePackCleans(db, PackKey(Normalize(req.scope).value, req.name), req.actor, req.description, req.metadata, req.locked, req.lockReason);
    }
  }

  // The pack's own scope and name are those of its key in every valid store.
  lemma UpdateCleans(db: DB, req: UpdatePackRequest)
    requires Clean(db) && forall k | k in db.packs :: db.packs[k].scope == k.scope
    ensures Cleans(db, UpdatePack(db, req))
  {
    hide Clean, ReplacePack, Text.Blank, OnlyUnarchives;
    if Normalize(req.scope).Ok? && PackKey(Normalize(req.scope).value, req.name) in db.packs {
      var key := PackKey(Normalize(req.scope).value, req.name);
      var pack := UpdatedPack(db.packs[key], req);
      if !db.scan(PackWrite(key.scope, pack.name, req.actor, pack.description, pack.metadata, pack.lockReason)) {
        ReplacePackCleans(db, key, pack, req.actor, "update", "pack_update");
      }
    }
  }

  lemma PolicyCleans(db: DB, mode: ReviewMode, metadata: Json, actor: string)
    requires Clean(db)
    ensures Cleans(db, SetPolicy(db, mode, metadata, actor))
  {
    hide Clean, RecordRevision, Text.Blank;
    var policy := db.policy.(mode := mode, metadata := metadata, updatedBy := actor);
    if !db.scan(PolicyWrite(mode, metadata, actor)) {
      var p := SystemProvenance(actor, "review_policy_update");
      RecordCleans(db, PolicyEntity, POLICY_ID, "update", PolicySnapshot(policy), p, None, None);
      var t := RecordRevision(db, PolicyEntity, POLICY_ID, "update", PolicySnapshot(policy), p, None, None);
      if t.Done? { PolicyStored(t.db, policy.(revisionNo := t.value)); }
    }
  }

  lemma PolicyStored(db: DB, p: ReviewPolicy)
    requires Clean(db) && PolicyPassed(db.scan, p)
    ensures Clean(db.(policy := p))
  {
    hide PackPassed, RowPassed, ReviewPassed, RunPassed, RevisionPassed, PolicyPassed, LogPassed;
  }

  // ---------- commits and source imports ----------

  lemma GovernCleans(db: DB, requestId: RequestId, runId: Option<RunId>, key: EntryKey, pack: Option<PackRecord>, e: EntryInput, actor: string,
                     p: Provenance, mode: ReviewMode, exact: bool)
    requires Clean(db)
    ensures Cleans(db, GovernProposal(db, requestId, runId, key, pack, e, actor, p, mode, exact))
  {
    hide Clean, ApplyEntry, InsertOrReuseReview, IsDuplicate;
    ApplyCleans(db, key.pack, e, actor, p, Some(requestId), runId, false);
    var existing := GetEntry(db, key);
    match Decide(key.pack.scope.kind, pack, existing, IsDuplicate(existing, e, mode, exact), mode)
    case Hold(reason) => RaiseCleans(db, requestId, key, e, RecordOf(existing), reason, exact);
    case _ =>
  }

  lemma ProposalCleans(db: DB, requestId: RequestId, runId: Option<RunId>, pack: PackKey, e: EntryInput, actor: string, p: Provenance,
                       mode: ReviewMode, exact: bool)
    requires Clean(db)
    ensures Cleans(db, CommitProposal(db, requestId, runId, pack, e, actor, p, mode, exact))
  {
    hide Clean, GovernProposal, EnsureDefaultPack;
    var key := EntryKey(pack, e.key);
    GovernCleans(db, requestId, runId, key, GetPack(db, pack), e, actor, p, mode, exact);
    DefaultPackCleans(db, pack, actor);
    var t := EnsureDefaultPack(db, pack, actor);
    if t.Done? { GovernCleans(t.db, requestId, runId, key, Some(t.value), e, actor, p, mode, exact); }
  }

  lemma {:induction false} ProposalsClean(db: DB, req: CommitRequest, runId: Option<RunId>, mode: ReviewMode, exact: bool, n: nat)
    requires Clean(db) && n <= |req.proposals|
    ensures Cleans(db, CommitProposals(db, req, runId, mode, exact, n))
  {
    hide Clean, CommitProposal, Text.Blank, InputValid;
    if n > 0 {
      ProposalsClean(db, req, runId, mode, exact, n - 1);
      var t, p := CommitProposals(db, req, runId, mode, exact, n - 1), req.proposals[n - 1];
      if t.Done? && Normalize(p.scope).Ok? {
        var provenance := Or(p.entry.provenance, Provenance(req.actor, "commit_work", None, runId, Some(req.requestId), None));
        ProposalCleans(t.db, req.requestId, runId, PackKey(Normalize(p.scope).value, p.packName), p.entry, req.actor, provenance, mode, exact);
      }
    }
  }

  lemma ProposalNamed(db: DB, requestId: RequestId, runId: Option<RunId>, pack: PackKey, e: EntryInput, actor: string, p: Provenance,
                      mode: ReviewMode, exact: bool)
    ensures var t := CommitProposal(db, requestId, runId, pack, e, actor, p, mode, exact);
            t.Done? ==> t.value.scope == pack.scope && t.value.packName == pack.name && t.value.entryKey == e.key
  {
    hide GovernProposal, EnsureDefaultPack;
    var key := EntryKey(pack, e.key);
    GovernNamed(db, requestId, runId, key, GetPack(db, pack), e, actor, p, mode, exact);
    var t := EnsureDefaultPack(db, pack, actor);
    if t.Done? { GovernNamed(t.db, requestId, runId, key, Some(t.value), e, actor, p, mode, exact); }
  }

  lemma GovernNamed(db: DB, requestId: RequestId, runId: Option<RunId>, key: EntryKey, pack: Option<PackRecord>, e: EntryInput, actor: string,
                    p: Provenance, mode: ReviewMode, exact: bool)
    ensures var t := GovernProposal(db, requestId, runId, key, pack, e, actor, p, mode, exact);
            t.Done? ==> t.value.scope == key.pack.scope && t.value.packName == key.pack.name && t.value.entryKey == key.key
  {
    hide ApplyEntry, InsertOrReuseReview, IsDuplicate, Decide;
  }

  lemma {:induction false} ItemsNamed(db: DB, req: CommitRequest, runId: Option<RunId>, mode: ReviewMode, exact: bool, n: nat)
    requires n <= |req.proposals|
    ensures var t := CommitProposals(db, req, runId, mode, exact, n);
            t.Done? ==> |t.value| == n && forall i | 0 <= i < n :: Names(t.value[i], ShowProposals(req.proposals)[i])
  {
    hide CommitProposal, Normalize, Text.Blank, InputValid;
    if n > 0 {
      ItemsNamed(db, req, runId, mode, exact, n - 1);
      var t, p := CommitProposals(db, req, runId, mode, exact, n - 1), req.proposals[n - 1];
      if t.Done? && Normalize(p.scope).Ok? {
        var provenance := Or(p.entry.provenance, Provenance(req.actor, "commit_work", None, runId, Some(req.requestId), None));
        ProposalNamed(t.db, req.requestId, runId, PackKey(Normalize(p.scope).value, p.packName), p.entry, req.actor, provenance, mode, exact);
      }
    }
  }

  lemma CommitCleans(db: DB, req: CommitRequest, exact: bool)
    requires Clean(db)
    ensures Cleans(db, CommitWork(db, req, exact))
  {
    hide Clean, EnsureRun, CommitProposals, Summarize, Text.Blank, LogPassed, ShownCommit;
    if req.run.Some? { EnsureRunCleans(db, req.run.value); }
    var r := CommitRun(db, req.run);
    if r.Done? {
      ProposalsClean(r.db, req, r.value, db.policy.mode, exact, |req.proposals|);
      var t := CommitProposals(r.db, req, r.value, db.policy.mode, exact, |req.proposals|);
      if t.Done? && !db.scan(ShownCommit(req)) {
        var result := CommitResult(req.requestId, Summarize(t.value), r.value, t.value);
        ItemsNamed(r.db, req, r.value, db.policy.mode, exact, |req.proposals|);
        ShownIsLogged(db.scan, req, result);
        AnswerLogged(t.db, req.requestId, result);
      }
    }
  }

  lemma ShownIsLogged(scan: Scanner, req: CommitRequest, r: CommitResult)
    requires !scan(ShownCommit(req)) && |r.items| == |req.proposals|
    requires forall i | 0 <= i < |req.proposals| :: Names(r.items[i], ShowProposals(req.proposals)[i])
    ensures LogPassed(scan, req.requestId, r)
  {
    hide Names;
    var w := ShownCommit(req);
    assert w.proposals == ShowProposals(req.proposals) && |w.proposals| == |r.items|;
    assert forall i | 0 <= i < |r.items| :: Names(r.items[i], w.proposals[i]);
  }

  lemma AnswerLogged(db: DB, id: RequestId, r: CommitResult)
    requires Clean(db) && LogPassed(db.scan, id, r)
    ensures Clean(db.(commits := db.commits[id := r]))
  {
    hide PackPassed, RowPassed, ReviewPassed, RunPassed, RevisionPassed, PolicyPassed, LogPassed;
  }

  lemma {:induction false} CandidatesClean(db: DB, actor: string, p: Preview, n: nat)
    requires Clean(db) && n <= |p.candidates|
    ensures Cleans(db, ApplyCandidates(db, actor, p, n))
  {
    hide Clean, CommitWork, CandidateCommit;
    if n > 0 {
      CandidatesClean(db, actor, p, n - 1);
      var t := ApplyCandidates(db, actor, p, n - 1);
      if t.Done? { CommitCleans(t.db, CandidateCommit(actor, p, p.candidates[n - 1]), true); }
    }
  }

  lemma ImportCleans(db: DB, req: ImportRequest)
    requires Clean(db)
    ensures Cleans(db, ApplyImport(db, req))
  {
    hide Clean, PreviewImport, ApplyCandidates, Report;
    if PreviewImport(db, req).Ok? {
      var p := PreviewImport(db, req).value;
      CandidatesClean(db, req.actor, p, |p.candidates|);
    }
  }

  // ---------- reviews ----------

  lemma SettleCleans(db: DB, at: nat, r: ReviewItem, actor: string, action: string)
    requires Clean(db)
    ensures Cleans(db, Settle(db, at, r, actor, action))
  {
    hide Clean, UpdateReview;
    if !db.scan(ReviewWrite(r)) && at < |db.reviews| { UpdateReviewCleans(db, at, r, actor, action); }
  }

  lemma ApprovalCleans(db: DB, at: nat, r: ReviewItem, actor: string, source: string, action: string, note: Option<string>)
    requires Clean(db)
    ensures var a := ApplyProposed(db, r, actor, source, note);
            a.Done? ==> Cleans(db, Settle(a.db, at, r.(state := Approved, note := note), actor, action))
  {
    hide Clean, ApplyEntry, Settle, ApprovalProvenance;
    var p := ApprovalProvenance(r, actor, source, note);
    ApplyCleans(db, PackKey(r.scope, r.packName), r.proposed, actor, p, Some(r.requestId), p.runId, false);
    var a := ApplyProposed(db, r, actor, source, note);
    if a.Done? { SettleCleans(a.db, at, r.(state := Approved, note := note), actor, action); }
  }

  lemma ApproveCleans(db: DB, id: Id, actor: string, note: Option<string>)
    requires Clean(db)
    ensures Cleans(db, ApproveReview(db, id, actor, note)) && Cleans(db, RejectReview(db, id, actor, note))
  {
    hide Clean, ApplyProposed, Settle, Text.Blank;
    if PendingReview(db, id, actor).Ok? {
      var at := PendingReview(db, id, actor).value;
      ApprovalCleans(db, at, db.reviews[at], actor, "review_approve", "approve", note);
      SettleCleans(db, at, db.reviews[at].(state := Rejected, note := note), actor, "reject");
    }
  }

  lemma EditCleans(db: DB, id: Id, f: EditFields, actor: string, note: Option<string>)
    requires Clean(db)
    ensures Cleans(db, EditReview(db, id, f, actor)) && Cleans(db, EditAndApproveReview(db, id, f, actor, note))
  {
    hide Clean, ApplyProposed, Settle, UpdateReview, Text.Blank, InputValid, EditedEntry;
    if PendingReview(db, id, actor).Ok? {
      var at := PendingReview(db, id, actor).value;
      if EditedReview(db, db.reviews[at], f).Ok? {
        var edited := EditedReview(db, db.reviews[at], f).value;
        ApprovalCleans(db, at, edited, actor, "review_edit_and_approve", "edit_and_approve", note);
        UpdateReviewCleans(db, at, edited, actor, "edit");
      }
    }
  }

  // ---------- bundles ----------

  lemma ImportPackCleans(db: DB, p: PackRecord, actor: string)
    requires Clean(db) && PacksNamed(db)
    ensures Cleans(db, ImportPack(db, p, actor)) && (ImportPack(db, p, actor).Done? ==> PacksNamed(ImportPack(db, p, actor).db))
  {
    hide Clean, InsertPack, ReplacePack, Text.Blank;
    if Normalize(p.scope).Ok? {
      var key := PackKey(Normalize(p.scope).value, p.name);
      if !db.scan(PackWrite(key.scope, p.name, actor, p.description, p.metadata, KeptLockReason(p))) {
        if key in db.packs {
          var record := db.packs[key].(description := p.description, metadata := p.metadata, status := p.status, locked := p.locked,
                                       lockReason := KeptLockReason(p));
          ReplacePackCleans(db, key, record, actor, "import_update", "pack_import");
          ReplacedNamed(db, key, record, actor, "import_update", "pack_import");
        } else {
          InsertPackCleans(db, key, actor, p.description, p.metadata, p.status, p.locked, KeptLockReason(p), "import_create", "pack_import");
          InsertedNamed(db, key, actor, p.description, p.metadata, p.status, p.locked, KeptLockReason(p), "import_create", "pack_import");
        }
      }
    }
  }

  lemma ReplacedNamed(db: DB, key: PackKey, record: PackRecord, actor: string, action: string, source: string)
    requires PacksNamed(db) && record.scope == key.scope && record.name == key.name
    ensures var t := ReplacePack(db, key, record, actor, action, source); t.Done? ==> PacksNamed(t.db)
  {
    hide MaxRevision;
  }

  lemma InsertedNamed(db: DB, key: PackKey, actor: string, description: Option<string>, metadata: Json, status: PackStatus, locked: bool,
                      lockReason: Option<string>, action: string, source: string)
    requires PacksNamed(db)
    ensures var t := InsertPack(db, key, actor, description, metadata, status, locked, lockReason, action, source);
            t.Done? ==> PacksNamed(t.db)
  {
    hide MaxRevision;
  }

  // Every pack lies under its own scope and name.
  ghost predicate PacksNamed(db: DB) {
    forall k | k in db.packs :: db.packs[k].scope == k.scope && db.packs[k].name == k.name
  }

  lemma {:induction false} ImportPacksClean(db: DB, packs: seq<PackRecord>, actor: string, n: nat)
    requires Clean(db) && PacksNamed(db) && n <= |packs|
    ensures var t := ImportPacks(db, packs, actor, n); Cleans(db, t) && (t.Done? ==> PacksNamed(t.db))
  {
    hide Clean, ImportPack, PacksNamed;
    if n > 0 {
      ImportPacksClean(db, packs, actor, n - 1);
      var t := ImportPacks(db, packs, actor, n - 1);
      if t.Done? { ImportPackCleans(t.db, packs[n - 1], actor); }
    }
  }

  lemma {:induction false} ImportEntriesClean(db: DB, es: seq<EntryRecord>, actor: string, n: nat)
    requires Clean(db) && n <= |es|
    ensures Cleans(db, ImportEntries(db, es, actor, n))
  {
    hide Clean, ApplyEntry, FlipDeleted;
    if n > 0 {
      ImportEntriesClean(db, es, actor, n - 1);
      var t, e := ImportEntries(db, es, actor, n - 1), es[n - 1];
      if t.Done? && Normalize(e.scope).Ok? {
        var key := KeyOf(Normalize(e.scope).value, e.packName, e.key);
        ApplyCleans(t.db, key.pack, InputOf(e), actor, e.provenance, None, None, true);
        var u := ApplyEntry(t.db, key.pack, InputOf(e), actor, e.provenance, None, None, true);
        if u.Done? && key in u.db.entries { FlipCleans(u.db, key); }
      }
    }
  }

  lemma {:induction false} ImportRunsClean(db: DB, runs: seq<RunRecord>, n: nat)
    requires Clean(db) && n <= |runs|
    ensures Cleans(db, ImportRuns(db, runs, n))
  {
    hide Clean, RunPassed, Text.Blank;
    if n > 0 {
      ImportRunsClean(db, runs, n - 1);
      var t, r := ImportRuns(db, runs, n - 1), runs[n - 1];
      if t.Done? && !t.db.scan(RunWrite(RunInput(Some(r.id), r.projectScopeId, r.taskScopeId, r.source, r.metadata))) {
        RunKept(t.db.scan, r, Some(r.id));
        RunStored(t.db, r, PastRun(t.db.nextId, r.id));
      }
    }
  }

  lemma ImportReviewCleans(db: DB, r: ReviewItem, actor: string)
    requires Clean(db)
    ensures Cleans(db, ImportReview(db, r, actor))
  {
    hide Clean, ReviewPassed, PutRevision, ReviewIndex, Text.Blank, InputValid;
    var t := ImportReview(db, r, actor);
    if t.Done? {
      ReviewKept(db.scan, r);
      var stored, at := StoredReview(r), ReviewIndex(db.reviews, r.id);
      var mid := db.(reviews := t.db.reviews);
      if at.Some? { ReviewReplaced(db, at.value, stored); } else { ReviewAdded(db, stored); }
      RevisionPut(mid, ReviewRevision(r, actor));
      NextIdCleans(mid.(revisions := t.db.revisions), t.db.nextId);
    }
  }

  lemma RevisionPut(db: DB, r: Revision)
    requires Clean(db) && RevisionPassed(db.scan, r)
    ensures Clean(db.(revisions := PutRevision(db.revisions, r)))
  {
    hide PackPassed, RowPassed, ReviewPassed, RunPassed, RevisionPassed, PolicyPassed, LogPassed, RevisionIndex;
  }

  lemma {:induction false} ImportReviewsClean(db: DB, reviews: seq<ReviewItem>, actor: string, n: nat)
    requires Clean(db) && n <= |reviews|
    ensures Cleans(db, ImportReviews(db, reviews, actor, n))
  {
    hide Clean, ImportReview;
    if n > 0 {
      ImportReviewsClean(db, reviews, actor, n - 1);
      var t := ImportReviews(db, reviews, actor, n - 1);
      if t.Done? { ImportReviewCleans(t.db, reviews[n - 1], actor); }
    }
  }

  lemma BundleCleans(db: DB, b: Bundle, actor: string)
    requires Clean(db) && PacksNamed(db)
    ensures Cleans(db, ImportBundle(db, b, actor))
  {
    hide Clean, PacksNamed, ImportPacks, ImportEntries, ImportRuns, ImportReviews, Text.Blank;
    ImportPacksClean(db, b.packs, actor, |b.packs|);
    var p := ImportPacks(db, b.packs, actor, |b.packs|);
    if p.Done? {
      ImportEntriesClean(p.db, b.entries, actor, |b.entries|);
      var e := ImportEntries(p.db, b.entries, actor, |b.entries|);
      if e.Done? {
        ImportRunsClean(e.db, b.runs, |b.runs|);
        var r := ImportRuns(e.db, b.runs, |b.runs|);
        if r.Done? { ImportReviewsClean(r.db, b.reviews, actor, |b.reviews|); }
      }
    }
  }

  // ---------- whole runs ----------

  lemma StepCleans(db: DB, op: Op)
    requires Clean(db) && PacksNamed(db)
    ensures Clean(Step(db, op)) && Step(db, op).scan == db.scan
  {
    hide Clean, CommitWork, ApplyImport, PutEntry, DeleteEntry, RevertEntry, CreatePack, UpdatePack, SetPolicy, EnsureRun,
         ApproveReview, RejectReview, EditReview, EditAndApproveReview, ImportBundle;
    match op
    case Put(req) => PutCleans(db, req);
    case Delete(sel, actor) => DeleteCleans(db, sel, actor);
    case Revert(sel, no, actor) => RevertCleans(db, sel, no, actor);
    case Create(req) => CreateCleans(db, req);
    case Update(req) => UpdateCleans(db, req);
    case Policy(mode, metadata, actor) => PolicyCleans(db, mode, metadata, actor);
    case StartRun(input) => EnsureRunCleans(db, input);
    case Commit(_, _, _, _) => CommitCleans(db, CommitOf(op), false);
    case Import(req) => ImportCleans(db, req);
    case Approve(id, actor, note) => ApproveCleans(db, id, actor, note);
    case Reject(id, actor, note) => ApproveCleans(db, id, actor, note);
    case Edit(id, f, actor) => EditCleans(db, id, f, actor, None);
    case EditAndApprove(id, f, actor, note) => EditCleans(db, id, f, actor, note);
    case Restore(b, actor) => BundleCleans(db, b, actor);
  }

  lemma ValidNamed(db: DB)
    requires Valid(db)
    ensures PacksNamed(db)
  {
    forall k | k in db.packs ensures db.packs[k].scope == k.scope && db.packs[k].name == k.name {
      assert PackShape(k, db.packs[k], db.nextId);
    }
  }

  lemma {:induction false} RunCleans(db: DB, ops: seq<Op>)
    requires Valid(db) && Clean(db)
    ensures Clean(Run(db, ops)) && Run(db, ops).scan == db.scan
  {
    hide Valid, Clean, Step, PacksNamed, Advances;
    if ops != [] {
      var n := |ops| - 1;
      RunCleans(db, ops[..n]);
      RunMoves(db, ops[..n]);
      ValidNamed(Run(db, ops[..n]));
      StepCleans(Run(db, ops[..n]), ops[n]);
    }
  }

  /**
   No credential is ever stored. Whatever anybody does, each pack, entry, review, run, policy and logged answer of
   the store, and each snapshot in its history, is one that the scanner was shown in full and found nothing in; and so is who is
   recorded beside it, but for who imported a review.
   */
  lemma NoCredentialStored(scan: Scanner, ops: seq<Op>)
    ensures Clean(Run(EmptyDB(scan), ops)) && Run(EmptyDB(scan), ops).scan == scan
  {
    hide Run, Valid;
    EmptyIsValid(scan);
    RunCleans(EmptyDB(scan), ops);
  }

  /** So an entry whose text makes the scanner ring, wherever it is shown, is in no reachable store and in no history. */
  lemma FlaggedIsNowhere(scan: Scanner, ops: seq<Op>, content: EntryInput)
    requires forall w: Write | w.EntryWrite? && w.entry.content == content :: scan(w)
    ensures var db := Run(EmptyDB(scan), ops);
            (forall k | k in db.entries :: InputOf(db.entries[k].record).(provenance := None) != content) &&
            forall i | 0 <= i < |db.revisions| && db.revisions[i].snapshot.EntrySnapshot? ::
              InputOf(db.revisions[i].snapshot.entry).(provenance := None) != content
  {
    hide Run, PackPassed, ReviewPassed, RunPassed, PolicyPassed, LogPassed, ProvenancePassed;
    NoCredentialStored(scan, ops);
    var db := Run(EmptyDB(scan), ops);
    forall k | k in db.entries ensures InputOf(db.entries[k].record).(provenance := None) != content { assert RowPassed(scan, db.entries[k].record); }
    forall i | 0 <= i < |db.revisions| && db.revisions[i].snapshot.EntrySnapshot?
      ensures InputOf(db.revisions[i].snapshot.entry).(provenance := None) != content
    {
      assert RevisionPassed(scan, db.revisions[i]);
    }
  }

  /** The exception is there: whatever the scanner says of its importer, an imported review that it passes is recorded under their name. */
  lemma ImporterIsRecorded(scan: Scanner, r: ReviewItem, actor: string)
    requires !Text.Blank(actor) && ImportableReview(r) && !scan(ReviewWrite(r))
    ensures var t := ImportBundle(EmptyDB(scan), Bundle([], [], [r], []), actor);
            t.Done? && |t.db.revisions| == 2 && t.db.revisions[1].provenance == SystemProvenance(actor, "review_import")
  {
    hide Text.Blank, ImportableReview;
    var db, b := EmptyDB(scan), Bundle([], [], [r], []);
    assert ImportPacks(db, b.packs, actor, 0) == Done(db, ()) && ImportEntries(db, b.entries, actor, 0) == Done(db, ());
    assert ImportRuns(db, b.runs, 0) == Done(db, ()) && ImportReviews(db, b.reviews, actor, 0) == Done(db, ());
    assert ImportReviews(db, b.reviews, actor, 1) == ImportReview(db, r, actor);
    var at := RevisionIndex(db.revisions, ReviewEntity, r.id, Max(r.revisionNo, 1));
    assert at.None?;
  }
}
