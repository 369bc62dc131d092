/**
 The composite writes of a transaction: each keeps the invariant and grows the tables, and the frame of each
 is stated exactly.
 */
module Writes {
  import opened Prelude
  import opened JsonTree
  import opened Model
  import opened Database
  import opened Operations
  import opened Histories
  import opened Invariant
  import opened Bundles
  import opened Growth
  import Text

  ghost predicate Sound(db: DB, db': DB) {
    Valid(db') && Grows(db, db')
  }

  // Nothing but packs (at most the one named, inserted with default governance), ids and revisions may differ.
  ghost predicate SamePacksBut(db: DB, db': DB, pack: PackKey) {
    db'.packs == db.packs ||
    (pack !in db.packs && pack in db'.packs && db'.packs == db.packs[pack := db'.packs[pack]] && IsDefaultPack(db'.packs[pack]))
  }

  ghost predicate IsDefaultPack(p: PackRecord) {
    p.status.Open? && !p.locked && p.lockReason.None? && p.description.None?
  }

  ghost predicate SameElsewhere(db: DB, db': DB) {
    db'.reviews == db.reviews && db'.commits == db.commits && db'.policy == db.policy && db'.runs == db.runs && db'.scan == db.scan
  }

  ghost predicate EntriesSameBut(db: DB, db': DB, key: EntryKey) {
    key in db'.entries && db'.entries == db.entries[key := db'.entries[key]]
  }

  // An entry was written at `key`: the row shows the input, is active, and nothing else moved.
  ghost predicate WritesAt(db: DB, db': DB, key: EntryKey, entry: EntryInput, provenance: Provenance) {
    EntriesSameBut(db, db', key) && SamePacksBut(db, db', key.pack) && SameElsewhere(db, db') && key.pack in db'.packs &&
    ShowsInput(db'.entries[key].record, entry, provenance) &&
    (key in db.entries ==> db'.entries[key].record.id == db.entries[key].record.id) &&
    db'.entries[key].record.revisionNo == (if key in db.entries then db.entries[key].record.revisionNo + 1 else 1)
  }

  ghost predicate ShowsInput(r: EntryRecord, entry: EntryInput, provenance: Provenance) {
    r.status.Active? && SameContent(InputOf(r), entry) && r.provenance == provenance
  }

  lemma EnsureDefaultPackFrame(db: DB, pack: PackKey, actor: string)
    ensures var t := EnsureDefaultPack(db, pack, actor);
            t.Done? ==> SamePacksBut(db, t.db, pack) && SameElsewhere(db, t.db) && t.db.entries == db.entries && t.db.fts == db.fts
  {
  }

  lemma EnsureDefaultPackSound(db: DB, pack: PackKey, actor: string)
    requires Valid(db) && Normalized(pack.scope)
    ensures var t := EnsureDefaultPack(db, pack, actor);
            t.Done? ==> Sound(db, t.db) && SamePacksBut(db, t.db, pack) && SameElsewhere(db, t.db) &&
                        pack in t.db.packs && t.db.packs[pack] == t.value && t.db.entries == db.entries && t.db.fts == db.fts
  {
    EnsureDefaultPackFrame(db, pack, actor);
    EnsurePackGrows(db, pack, actor, None, EMPTY_OBJECT, false, None);
  }

  lemma GrowsReflexive(db: DB)
    ensures Grows(db, db)
  {
  }

  lemma WriteEntrySound(db: DB, key: EntryKey, entry: EntryInput, provenance: Provenance,
                        requestId: Option<RequestId>, runId: Option<RunId>)
    requires Valid(db) && key.pack in db.packs && key.key == entry.key && InputValid(entry)
    ensures var t := WriteEntry(db, key, db.packs[key.pack].id, entry, provenance, requestId, runId);
            t.Done? ==> Sound(db, t.db) && WritesAt(db, t.db, key, entry, provenance) && t.db.packs == db.packs &&
                        t.db.entries[key].record == t.value
  {
    hide WriteEntry, Valid, Grows, ContentHash, UpsertDoc, MaxRevision;
    var t := WriteEntry(db, key, db.packs[key.pack].id, entry, provenance, requestId, runId);
    WriteEntryGrows(db, key, entry, provenance, requestId, runId);
    WriteEntryIs(db, key, db.packs[key.pack].id, entry, provenance, requestId, runId);
    if t.Done? {
      WriteStores(db, key, entry, provenance, requestId, runId);
      EntryStoredNumber(db, t.db, key, t.db.entries[key], t.db.revisions[|db.revisions|]);
    }
  }

  /** What a successful `apply_entry` does: exactly one entry is written, in a pack that takes writes. */
  lemma ApplyEntrySound(db: DB, pack: PackKey, entry: EntryInput, actor: string, provenance: Provenance,
                        requestId: Option<RequestId>, runId: Option<RunId>, allowArchived: bool)
    requires Valid(db) && Normalized(pack.scope)
    ensures var t := ApplyEntry(db, pack, entry, actor, provenance, requestId, runId, allowArchived);
            var key := EntryKey(pack, entry.key);
            t.Done? ==> Sound(db, t.db) && WritesAt(db, t.db, key, entry, provenance) && t.db.entries[key].record == t.value &&
                        (allowArchived || t.db.packs[pack].status.Open?)
  {
    hide Valid, Grows, EnsureDefaultPack, WriteEntry, InputValid;
    var t := ApplyEntry(db, pack, entry, actor, provenance, requestId, runId, allowArchived);
    var e := EnsureDefaultPack(db, pack, actor);
    if t.Done? {
      EnsureDefaultPackSound(db, pack, actor);
      WriteEntrySound(e.db, EntryKey(pack, entry.key), entry, provenance, requestId, runId);
      GrowsTransitive(db, e.db, t.db);
    }
  }

  // ---------- deleting ----------

  // The hash depends on the content alone.
  lemma SameHash(row: EntryRow, row': EntryRow)
    requires HashCurrent(row) && row'.contentHash == row.contentHash && SameContent(InputOf(row.record), InputOf(row'.record))
    ensures HashCurrent(row')
  {
    SameContentSameHash(InputOf(row.record), InputOf(row'.record));
  }

  lemma FlippedRows(entries: map<EntryKey, EntryRow>, key: EntryKey, packs: map<PackKey, PackRecord>, nextId: Id)
    requires EntryRows(entries, packs, nextId) && key in entries
    ensures EntryRows(entries[key := Flipped(entries[key])], packs, nextId)
  {
    assert EntryShape(key, entries[key], packs, nextId);
  }

  lemma FlippedHashes(entries: map<EntryKey, EntryRow>, key: EntryKey)
    requires Hashed(entries) && key in entries
    ensures Hashed(entries[key := Flipped(entries[key])])
  {
    assert HashCurrent(entries[key]);
    SameHash(entries[key], Flipped(entries[key]));
    hide HashCurrent;
    HashStored(entries, key, Flipped(entries[key]));
  }

  lemma FlippedHistories(entries: map<EntryKey, EntryRow>, key: EntryKey, revisions: seq<Revision>)
    requires EntryHistories(revisions, entries) && key in entries
    ensures EntryHistories(revisions, entries[key := Flipped(entries[key])])
  {
    hide EntryHistory;
    assert EntryHistory(revisions, entries[key].record);
    FlippedHistory(revisions, entries[key].record);
  }

  lemma FlippedHistory(revisions: seq<Revision>, r: EntryRecord)
    requires EntryHistory(revisions, r)
    ensures EntryHistory(revisions, r.(status := Deleted))
  {
    hide History, Numbered, Told;
    var h := History(revisions, EntryEntity, r.id);
    assert forall i | 0 <= i < |h| :: SnapshotOf(h[i].snapshot, r) ==> SnapshotOf(h[i].snapshot, r.(status := Deleted));
  }

  lemma FlippedIndex(entries: map<EntryKey, EntryRow>, key: EntryKey, packs: map<PackKey, PackRecord>, nextId: Id, fts: seq<Doc>)
    requires EntryRows(entries, packs, nextId) && key in entries && Indexed(entries, fts)
    ensures Indexed(entries[key := Flipped(entries[key])], RemoveDocs(fts, entries[key].record.id))
  {
    forall k | k in entries ensures DocOf(entries[k].record).key == k {
      assert EntryShape(k, entries[k], packs, nextId);
    }
    RemovalKeepsIndex(entries, key, Flipped(entries[key]), fts);
  }

  lemma FlipKeepsValid(db: DB, key: EntryKey)
    requires Valid(db) && key in db.entries
    ensures Valid(FlipDeleted(db, key))
  {
    FlippedRows(db.entries, key, db.packs, db.nextId);
    FlippedHashes(db.entries, key);
    FlippedHistories(db.entries, key, db.revisions);
    FlippedIndex(db.entries, key, db.packs, db.nextId, db.fts);
  }

  /** Flipping the status of a row that has just moved to a new revision is still growth. */
  lemma FlipAfterWrite(db: DB, db1: DB, key: EntryKey)
    requires Grows(db, db1) && key in db1.entries
    requires key in db.entries ==> db1.entries[key].record.revisionNo > db.entries[key].record.revisionNo
    ensures Grows(db, FlipDeleted(db1, key))
  {
    var db2 := FlipDeleted(db1, key);
    forall k | k in db.entries ensures k in db2.entries && EntryAdvances(db.entries[k], db2.entries[k]) {
      assert EntryAdvances(db.entries[k], db1.entries[k]);
    }
  }

  lemma DeleteRowSound(db: DB, key: EntryKey, actor: string)
    requires Valid(db) && key in db.entries
    ensures var t := DeleteRow(db, key, actor);
            t.Done? ==> Sound(db, t.db) && EntriesSameBut(db, t.db, key) && SameElsewhere(db, t.db) && t.db.packs == db.packs &&
                        t.db.entries[key].record == t.value &&
                        t.value == db.entries[key].record.(status := Deleted, provenance := t.value.provenance,
                                                           revisionNo := db.entries[key].record.revisionNo + 1)
  {
    hide DeleteRow, EntryShape, RemoveDocs, Indexed, StoresEntry;
    var t := DeleteRow(db, key, actor);
    if t.Done? {
      DeleteFrame(db, key, actor);
      DeleteStores(db, key, actor);
      DocKeys(db);
      IndexKept(db);
      var row, r := t.db.entries[key], t.db.revisions[|db.revisions|];
      OnlyHolder(db, t.db, key, row, r);
      RemovalKeepsIndex(db.entries, key, row, db.fts);
      EntryStored(db, t.db, key, row, r);
    }
  }

  lemma IndexKept(db: DB)
    requires Valid(db)
    ensures Indexed(db.entries, db.fts)
  {
  }

  lemma DeleteFrame(db: DB, key: EntryKey, actor: string)
    requires key in db.entries
    ensures var t := DeleteRow(db, key, actor);
            t.Done? ==> key in t.db.entries && |t.db.revisions| == |db.revisions| + 1 &&
                        t.db.entries[key] == db.entries[key].(record := t.value) &&
                        t.value == db.entries[key].record.(status := Deleted, provenance := SystemProvenance(actor, "delete"),
                                                           revisionNo := t.value.revisionNo) &&
                        t.db == db.(entries := db.entries[key := t.db.entries[key]],
                                    revisions := db.revisions + [t.db.revisions[|db.revisions|]],
                                    fts := RemoveDocs(db.fts, db.entries[key].record.id))
  {
    var t := DeleteRow(db, key, actor);
    if t.Done? {
      assert t.db.entries == db.entries[key := t.db.entries[key]];
    }
  }

  lemma DeleteStores(db: DB, key: EntryKey, actor: string)
    requires Valid(db) && key in db.entries
    ensures var t := DeleteRow(db, key, actor);
            t.Done? ==> key in t.db.entries && |t.db.revisions| == |db.revisions| + 1 &&
                        StoresEntry(db, t.db, key, t.db.entries[key], t.db.revisions[|db.revisions|]) &&
                        t.db.fts == RemoveDocs(db.fts, db.entries[key].record.id)
  {
    var t := DeleteRow(db, key, actor);
    if t.Done? {
      DeleteFrame(db, key, actor);
      DeleteRecords(db, key, actor);
      RowIsShaped(db, key);
      hide Valid, DeleteRow, HashCurrent, InputValid, Records, SnapshotOf;
      SameHash(db.entries[key], t.db.entries[key]);
      DeletedShape(key, db.entries[key], t.value.provenance, t.value.revisionNo, db.packs, db.nextId);
    }
  }

  lemma RowIsShaped(db: DB, key: EntryKey)
    requires Valid(db) && key in db.entries
    ensures EntryShape(key, db.entries[key], db.packs, db.nextId) && HashCurrent(db.entries[key])
  {
    hide HashCurrent;
  }

  lemma DeletedShape(k: EntryKey, row: EntryRow, provenance: Provenance, no: nat, packs: map<PackKey, PackRecord>, nextId: Id)
    requires EntryShape(k, row, packs, nextId)
    ensures EntryShape(k, row.(record := row.record.(status := Deleted, provenance := provenance, revisionNo := no)), packs, nextId)
  {
  }

  lemma DeleteRecords(db: DB, key: EntryKey, actor: string)
    requires key in db.entries
    ensures var t := DeleteRow(db, key, actor);
            t.Done? ==> key in t.db.entries && |t.db.revisions| == |db.revisions| + 1 &&
                        Records(db.revisions, t.db.revisions[|db.revisions|], t.db.entries[key].record) &&
                        SnapshotOf(t.db.revisions[|db.revisions|].snapshot, t.db.entries[key].record)
  {
  }

  // ---------- reviews ----------

  // Tables, ids and revisions move; packs, entries, index, policy, runs and commits do not.
  ghost predicate OnlyReviewsChange(db: DB, db': DB) {
    db' == db.(reviews := db'.reviews, revisions := db'.revisions, nextId := db'.nextId)
  }

  lemma ReviewStored(db: DB, db': DB, r: Revision)
    requires Valid(db) && OnlyReviewsChange(db, db') && db'.revisions == db.revisions + [r]
    requires r.entity.ReviewEntity? && r.entityId < db'.nextId && db.nextId <= db'.nextId
    requires ReviewRows(db'.reviews, db'.nextId)
    ensures Valid(db')
  {
    ReviewRevisionKeepsHistories(db, r);
    PackRowsLater(db.packs, db.nextId, db'.nextId);
    EntryRowsUnderPacks(db.entries, db.packs, db.nextId, db.packs, db'.nextId);
  }

  ghost predicate Reviewable(requestId: RequestId, key: EntryKey, entry: EntryInput) {
    (requestId.ByClient? ==> !Text.Blank(requestId.text)) && Normalized(key.pack.scope) && !Text.Blank(key.pack.name) &&
    key.key == entry.key && InputValid(entry)
  }

  ghost predicate ExistingShape(existing: Option<EntryRecord>) {
    existing.Some? ==> Normalized(existing.value.scope) && !Text.Blank(existing.value.packName) && !Text.Blank(existing.value.key)
  }

  /** A new review is appended, pending, showing what it was raised for; nothing else changes. */
  lemma InsertReviewSound(db: DB, requestId: RequestId, key: EntryKey, entry: EntryInput,
                          existing: Option<EntryRecord>, reason: ReviewReason)
    requires Valid(db) && Reviewable(requestId, key, entry) && ExistingShape(existing)
    ensures var t := InsertReview(db, requestId, key, entry, existing, reason);
            t.Done? ==> Sound(db, t.db) && OnlyReviewsChange(db, t.db) && t.db.reviews == db.reviews + [t.value] &&
                        MatchesPending(t.value, key, entry, existing, reason)
  {
    var t := InsertReview(db, requestId, key, entry, existing, reason);
    if t.Done? {
      InsertReviewFrame(db, requestId, key, entry, existing, reason);
      InsertedReviewShape(t.value, requestId, key, entry, existing, t.db.nextId);
      hide InsertReview, ReviewShape, Reviewable, ExistingShape, MatchesPending, ReviewAdvances;
      ReviewAppended(db.reviews, db.nextId, t.value, t.db.nextId);
      ReviewStored(db, t.db, t.db.revisions[|db.revisions|]);
      ReviewsGrow(db, t.db);
    }
  }

  lemma InsertReviewFrame(db: DB, requestId: RequestId, key: EntryKey, entry: EntryInput, existing: Option<EntryRecord>, reason: ReviewReason)
    requires key.key == entry.key
    ensures var t := InsertReview(db, requestId, key, entry, existing, reason);
            t.Done? ==> OnlyReviewsChange(db, t.db) && t.db.reviews == db.reviews + [t.value] && t.db.nextId == db.nextId + 1 &&
                        MatchesPending(t.value, key, entry, existing, reason) && t.value.id == db.nextId && t.value.revisionNo > 0 &&
                        t.value.requestId == requestId && t.value.proposed == entry &&
                        |t.db.revisions| == |db.revisions| + 1 && t.db.revisions == db.revisions + [t.db.revisions[|db.revisions|]] &&
                        t.db.revisions[|db.revisions|].entity.ReviewEntity? && t.db.revisions[|db.revisions|].entityId == db.nextId
  {
    hide MaxRevision;
  }

  lemma InsertedReviewShape(r: ReviewItem, requestId: RequestId, key: EntryKey, entry: EntryInput, existing: Option<EntryRecord>, nextId: Id)
    requires Reviewable(requestId, key, entry) && ExistingShape(existing) && r.id < nextId && r.revisionNo > 0
    requires KeyOf(r.scope, r.packName, r.entryKey) == key && r.requestId == requestId && r.proposed == entry && r.existing == existing
    ensures ReviewShape(r, nextId)
  {
  }

  // Rows of other tables as they were, reviews and revisions appended to.
  lemma ReviewsGrow(db: DB, db': DB)
    requires OnlyReviewsChange(db, db') && db.reviews <= db'.reviews && db.revisions <= db'.revisions && db.nextId <= db'.nextId
    ensures Grows(db, db')
  {
  }

  lemma ReviewAppended(reviews: seq<ReviewItem>, nextId: Id, r: ReviewItem, nextId': Id)
    requires ReviewRows(reviews, nextId) && nextId <= nextId' && ReviewShape(r, nextId') && nextId <= r.id
    ensures ReviewRows(reviews + [r], nextId')
  {
    forall i | 0 <= i < |reviews + [r]| ensures ReviewShape((reviews + [r])[i], nextId') {
      if i < |reviews| { assert ReviewShape(reviews[i], nextId); }
    }
    forall i | 0 <= i < |reviews| ensures reviews[i].id != r.id {
      assert ReviewShape(reviews[i], nextId);
    }
  }

  lemma UpdateReviewSound(db: DB, at: nat, record: ReviewItem, actor: string, action: string)
    requires Valid(db) && at < |db.reviews| && db.reviews[at].state.Pending? && SameCause(db.reviews[at], record)
    requires InputValid(record.proposed)
    ensures var t := UpdateReview(db, at, record, actor, action);
            t.Done? ==> Sound(db, t.db) && OnlyReviewsChange(db, t.db) && t.db.nextId == db.nextId &&
                        t.db.reviews == db.reviews[at := t.value] && t.value == record.(revisionNo := t.value.revisionNo)
  {
    var t := UpdateReview(db, at, record, actor, action);
    if t.Done? {
      UpdateReviewFrame(db, at, record, actor, action);
      UpdatedReviewRows(db, at, t.value);
      hide UpdateReview, ReviewRows, Valid;
      ReviewStored(db, t.db, t.db.revisions[|db.revisions|]);
      ReviewReplaced(db, t.db, at, t.value);
    }
  }

  lemma UpdatedReviewRows(db: DB, at: nat, r: ReviewItem)
    requires Valid(db) && at < |db.reviews| && SameCause(db.reviews[at], r) && InputValid(r.proposed)
    ensures r.revisionNo > 0 ==> ReviewRows(db.reviews[at := r], db.nextId)
    ensures r.id < db.nextId
  {
    hide Valid, ImportableReview;
    ReviewsAreRows(db);
    assert ReviewShape(db.reviews[at], db.nextId);
    ImportableToo(db.reviews[at], r);
  }

  lemma ReviewsAreRows(db: DB)
    requires Valid(db)
    ensures ReviewRows(db.reviews, db.nextId)
  {
  }

  lemma ImportableToo(a: ReviewItem, b: ReviewItem)
    requires ImportableReview(a) && SameCause(a, b) && InputValid(b.proposed)
    ensures ImportableReview(b)
  {
  }

  lemma ReviewReplaced(db: DB, db': DB, at: nat, r: ReviewItem)
    requires OnlyReviewsChange(db, db') && at < |db.reviews| && db'.reviews == db.reviews[at := r] && db.revisions <= db'.revisions
    requires db.nextId <= db'.nextId && db.reviews[at].state.Pending? && SameCause(db.reviews[at], r)
    ensures Grows(db, db')
  {
  }

  lemma UpdateReviewFrame(db: DB, at: nat, record: ReviewItem, actor: string, action: string)
    requires at < |db.reviews|
    ensures var t := UpdateReview(db, at, record, actor, action);
            t.Done? ==> OnlyReviewsChange(db, t.db) && t.db.nextId == db.nextId && t.db.reviews == db.reviews[at := t.value] &&
                        t.value == record.(revisionNo := t.value.revisionNo) && t.value.revisionNo > 0 &&
                        |t.db.revisions| == |db.revisions| + 1 && t.db.revisions == db.revisions + [t.db.revisions[|db.revisions|]] &&
                        t.db.revisions[|db.revisions|].entity.ReviewEntity? && t.db.revisions[|db.revisions|].entityId == record.id
  {
    hide MaxRevision;
  }

  // ---------- runs and policy ----------

  lemma EnsureRunSound(db: DB, input: RunInput)
    requires Valid(db)
    ensures var t := EnsureRun(db, input);
            t.Done? ==> Sound(db, t.db) && t.db == db.(runs := t.db.runs, nextId := t.db.nextId) && t.value.id in t.db.runs
  {
    var t := EnsureRun(db, input);
    if t.Done? {
      EnsureRunFrame(db, input);
      hide EnsureRun;
      IdsMoveOn(db, t.db);
    }
  }

  lemma EnsureRunFrame(db: DB, input: RunInput)
    requires RunRows(db.runs, db.nextId)
    ensures var t := EnsureRun(db, input);
            t.Done? ==> t.db == db.(runs := t.db.runs, nextId := t.db.nextId) && db.nextId <= t.db.nextId && t.value.id in t.db.runs &&
                        RunRows(t.db.runs, t.db.nextId)
  {
  }

  /** Giving out ids or writing runs and the commit log disturbs nothing else. */
  lemma IdsMoveOn(db: DB, db': DB)
    requires Valid(db) && db' == db.(runs := db'.runs, nextId := db'.nextId, commits := db'.commits) && db.nextId <= db'.nextId
    requires RunRows(db'.runs, db'.nextId) && forall id | id in db.commits :: id in db'.commits && db'.commits[id] == db.commits[id]
    ensures Sound(db, db')
  {
    PackRowsLater(db.packs, db.nextId, db'.nextId);
    EntryRowsUnderPacks(db.entries, db.packs, db.nextId, db.packs, db'.nextId);
    forall i | 0 <= i < |db.reviews| ensures ReviewShape(db.reviews[i], db'.nextId) {
      assert ReviewShape(db.reviews[i], db.nextId);
    }
  }

  lemma SetPolicySound(db: DB, mode: ReviewMode, metadata: Json, actor: string)
    requires Valid(db)
    ensures var t := SetPolicy(db, mode, metadata, actor);
            t.Done? ==> Sound(db, t.db) && t.db == db.(policy := t.value, revisions := t.db.revisions) &&
                        t.value.mode == mode && t.value.metadata == metadata &&
                        (if db.policy.mode == mode && db.policy.metadata == metadata then t.value == db.policy
                         else t.value.revisionNo == db.policy.revisionNo + 1 && t.value.updatedBy == actor)
  {
    hide Valid, Grows, MaxRevision;
    var t := SetPolicy(db, mode, metadata, actor);
    if t.Done? && !(db.policy.mode == mode && db.policy.metadata == metadata) {
      hide SetPolicy;
      PolicyFrame(db, mode, metadata, actor);
      PolicyStored(db, t.db, t.value, t.db.revisions[|db.revisions|]);
    } else if t.Done? {
      GrowsReflexive(db);
    }
  }

  lemma PolicyFrame(db: DB, mode: ReviewMode, metadata: Json, actor: string)
    requires !(db.policy.mode == mode && db.policy.metadata == metadata)
    ensures var t := SetPolicy(db, mode, metadata, actor);
            t.Done? ==> |t.db.revisions| == |db.revisions| + 1 && var r := t.db.revisions[|db.revisions|];
                        t.db == db.(policy := t.value, revisions := db.revisions + [r]) && r.entity.PolicyEntity? && r.entityId == POLICY_ID &&
                        r.no == t.value.revisionNo == MaxRevision(db.revisions, PolicyEntity, POLICY_ID) + 1 &&
                        t.value.mode == mode && t.value.metadata == metadata && t.value.updatedBy == actor &&
                        r.snapshot.PolicySnapshot? && r.snapshot.policy.(revisionNo := r.no) == t.value
  {
    hide MaxRevision;
  }

  lemma PolicyStored(db: DB, db': DB, now: ReviewPolicy, r: Revision)
    requires Valid(db) && db' == db.(policy := now, revisions := db.revisions + [r]) && r.entity.PolicyEntity? && r.entityId == POLICY_ID
    requires r.no == now.revisionNo == MaxRevision(db.revisions, PolicyEntity, POLICY_ID) + 1
    requires r.snapshot.PolicySnapshot? && r.snapshot.policy.(revisionNo := r.no) == now
    ensures Sound(db, db') && now.revisionNo == db.policy.revisionNo + 1
  {
    hide History, MaxRevision, PackShape, EntryShape, ReviewShape, DocOfActive;
    PolicyRecorded(db.revisions, r, db.policy, now);
    PackHistoriesKept(db.revisions, r, db.packs);
    EntryHistoriesKept(db.revisions, r, db.entries);
    PolicyIdBelow(db);
  }

  lemma PolicyRecorded(revisions: seq<Revision>, r: Revision, was: ReviewPolicy, now: ReviewPolicy)
    requires PolicyHistory(revisions, was) && r.entity.PolicyEntity? && r.entityId == POLICY_ID
    requires r.no == now.revisionNo == MaxRevision(revisions, PolicyEntity, POLICY_ID) + 1
    requires r.snapshot.PolicySnapshot? && r.snapshot.policy.(revisionNo := r.no) == now
    ensures PolicyHistory(revisions + [r], now) && now.revisionNo == was.revisionNo + 1
  {
    MaxOfNumbered(revisions, PolicyEntity, POLICY_ID);
    HistoryAppend(revisions, r, PolicyEntity, POLICY_ID);
  }

  lemma PolicyIdBelow(db: DB)
    requires Valid(db)
    ensures POLICY_ID < db.nextId
  {
    var h := History(db.revisions, PolicyEntity, POLICY_ID);
    HistoryInTable(db.revisions, PolicyEntity, POLICY_ID, 0);
    var i :| 0 <= i < |db.revisions| && db.revisions[i] == h[0];
  }
}
