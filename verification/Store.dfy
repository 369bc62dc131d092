/**
 The context store as the object that the program has: its tables are fields, a transaction writes them step by
 step, and an error rolls them back. Every method is proved to do what its specification function says.
 */
module Store {
  import opened Prelude
  import opened JsonTree
  import opened Model
  import opened Database
  import opened Operations
  import opened SourceImport
  import opened Bundles
  import opened Compose
  import JsonText
  import Text

  // What a method of a transaction reports and leaves in the tables is what its specification says.
  ghost predicate Ran<T>(spec: Tx<T>, db: DB, r: Result<T>) {
    match r
    case Ok(value) => spec == Done(db, value)
    case Err(error) => spec == Fail(error)
  }

  // The same for a whole operation: on an error the tables are as they were.
  ghost predicate Committed<T>(spec: Tx<T>, before: DB, after: DB, r: Result<T>) {
    Ran(spec, after, r) && after == spec.After(before)
  }

  class ContextStore {
    const scan: Scanner
    var packs: map<PackKey, PackRecord>
    var entries: map<EntryKey, EntryRow>
    var revisions: seq<Revision>
    var reviews: seq<ReviewItem>
    var commits: map<RequestId, CommitResult>
    var policy: ReviewPolicy
    var runs: map<RunId, RunRecord>
    var fts: seq<Doc>
    var nextId: Id

    // The contents of the tables.
    function Db(): DB
      reads this
    {
      DB(scan, packs, entries, revisions, reviews, commits, policy, runs, fts, nextId)
    }

    constructor (scan: Scanner)
      ensures this.scan == scan && Db() == EmptyDB(scan)
    {
      this.scan := scan;
      packs, entries, reviews, commits, runs, fts := map[], map[], [], map[], map[], [];
      var initial := ReviewPolicy(Balanced, EMPTY_OBJECT, "system", 0);
      revisions := [Revision(PolicyEntity, POLICY_ID, 1, "create", PolicySnapshot(initial),
                             SystemProvenance("system", "migration_v5"), None, None)];
      policy := initial.(revisionNo := 1);
      nextId := POLICY_ID + 1;
    }

    method Rollback(saved: DB)
      requires saved.scan == scan
      modifies this
      ensures Db() == saved
    {
      packs, entries, revisions, reviews := saved.packs, saved.entries, saved.revisions, saved.reviews;
      commits, policy, runs, fts, nextId := saved.commits, saved.policy, saved.runs, saved.fts, saved.nextId;
    }

    // Ends a transaction: an error takes the tables back to where the transaction began.
    method End<T>(saved: DB, r: Result<T>)
      requires saved.scan == scan
      modifies this
      ensures Db() == if r.Ok? then old(Db()) else saved
    {
      if r.Err? { Rollback(saved); }
    }

    method NewId() returns (id: Id)
      modifies `nextId
      ensures id == old(nextId) && Db() == old(Db()).(nextId := id + 1)
    {
      id := nextId;
      nextId := nextId + 1;
    }

    // ---------- revisions, packs ----------

    method RecordRevisionTx(entity: EntityType, id: Id, action: string, snapshot: Snapshot, provenance: Provenance,
                            requestId: Option<RequestId>, runId: Option<RunId>) returns (r: Result<nat>)
      modifies `revisions
      ensures Ran(RecordRevision(old(Db()), entity, id, action, snapshot, provenance, requestId, runId), Db(), r)
    {
      if scan(RevisionMetadata(ShowProvenance(provenance), Shown(requestId), runId)) { return Err(SecretDetected); }
      var no := MaxRevision(revisions, entity, id) + 1;
      revisions := revisions + [Revision(entity, id, no, action, snapshot, provenance, requestId, runId)];
      return Ok(no);
    }

    // Writes a row, records its revision, and then writes the revision's number into the row.
    method PutPackTx(key: PackKey, record: PackRecord, actor: string, action: string, source: string) returns (r: Result<PackRecord>)
      modifies `packs, `revisions
      ensures Ran(ReplacePack(old(Db()), key, record, actor, action, source), Db(), r)
    {
      hide MaxRevision;
      ghost var before := packs;
      packs := packs[key := record];
      var no := RecordRevisionTx(PackEntity, record.id, action, PackSnapshot(record), SystemProvenance(actor, source), None, None);
      if no.Err? { return Err(no.error); }
      packs := packs[key := record.(revisionNo := no.value)];
      assert packs == before[key := record.(revisionNo := no.value)];
      return Ok(record.(revisionNo := no.value));
    }

    method InsertPackTx(key: PackKey, actor: string, description: Option<string>, metadata: Json, status: PackStatus,
                        locked: bool, lockReason: Option<string>, action: string, source: string) returns (r: Result<PackRecord>)
      modifies `packs, `revisions, `nextId
      ensures Ran(InsertPack(old(Db()), key, actor, description, metadata, status, locked, lockReason, action, source), Db(), r)
    {
      hide RecordRevision;
      var id := NewId();
      r := PutPackTx(key, PackRecord(id, key.scope, key.name, description, metadata, status, locked, lockReason, 0), actor, action, source);
    }

    method EnsurePackTx(key: PackKey, actor: string, description: Option<string>, metadata: Json, locked: bool,
                        lockReason: Option<string>) returns (r: Result<PackRecord>)
      modifies `packs, `revisions, `nextId
      ensures Ran(EnsurePack(old(Db()), key, actor, description, metadata, locked, lockReason), Db(), r)
    {
      hide InsertPack;
      if Text.Blank(key.name) { return Err(Validation); }
      if key in packs { return Ok(packs[key]); }
      if scan(PackWrite(key.scope, key.name, actor, description, metadata, lockReason)) { return Err(SecretDetected); }
      r := InsertPackTx(key, actor, description, metadata, Open, locked, lockReason, "create", "pack_create");
    }

    // ---------- entries ----------

    // `DELETE FROM entry_fts`, row by row.
    method DeleteDocsTx(id: Id)
      modifies `fts
      ensures fts == RemoveDocs(old(fts), id)
    {
      var table := fts;
      fts := [];
      for i := 0 to |table|
        modifies `fts
        invariant fts == RemoveDocs(table[..i], id)
      {
        assert table[..i + 1][..i] == table[..i];
        if table[i].entryId != id {
          fts := fts + [table[i]];
        }
      }
      assert table[..|table|] == table;
    }

    method UpsertDocTx(record: EntryRecord)
      modifies `fts
      ensures fts == UpsertDoc(old(fts), record)
    {
      DeleteDocsTx(record.id);
      if record.status.Deleted? { return; }
      fts := fts + [DocOf(record)];
    }

    method ContentHashOf(e: EntryInput) returns (hash: Hash)
      ensures hash == ContentHash(e)
    {
      hide Letters, JsonText.Print, TrimmedTags;
      ghost var key, kind, title, rest := Text.Trim(e.key), Text.Trim(e.kind), TrimmedTitle(e), JsonText.Print(e.metadata);
      hash := Letters(Text.Trim(e.key));
      hash := hash + Letters(Text.Trim(e.kind));
      LettersJoin(key, kind);
      LettersJoin(key + kind, title);
      assert key + kind + "" == key + kind;
      if e.title.Some? { hash := hash + Letters(Text.Trim(e.title.value)); }
      assert hash == Letters(key + kind + title);
      hash := hash + [NormalizedHash(e.value)];
      ghost var before := hash;
      NoTags(e.tags);
      assert before + Letters("") == before;
      for i := 0 to |e.tags|
        invariant hash == before + Letters(TrimmedTags(e.tags[..i]))
      {
        OneMoreTag(e.tags, i);
        HashAppend(before, Letters(TrimmedTags(e.tags[..i])), Letters(Text.Trim(e.tags[i])));
        hash := hash + Letters(Text.Trim(e.tags[i]));
      }
      assert e.tags[..|e.tags|] == e.tags;
      LettersJoin(TrimmedTags(e.tags), rest);
      HashAppend(before, Letters(TrimmedTags(e.tags)), Letters(rest));
      hash := hash + Letters(JsonText.Print(e.metadata));
    }

    static lemma NoTags(tags: seq<string>)
      ensures Letters(TrimmedTags(tags[..0])) == [] && Letters("") == []
    {
    }

    static lemma OneMoreTag(tags: seq<string>, i: nat)
      requires i < |tags|
      ensures Letters(TrimmedTags(tags[..i + 1])) == Letters(TrimmedTags(tags[..i])) + Letters(Text.Trim(tags[i]))
    {
      hide Letters;
      assert tags[..i + 1][..i] == tags[..i];
      LettersJoin(TrimmedTags(tags[..i]), Text.Trim(tags[i]));
    }

    static lemma HashAppend(a: Hash, b: Hash, c: Hash)
      ensures a + b + c == a + (b + c)
    {
    }

    static lemma LettersJoin(a: string, b: string)
      ensures Letters(a + b) == Letters(a) + Letters(b) && Letters("") == []
    {
    }

    // Recording a revision reads and writes the revision table only.
    static lemma RecordElsewhere(a: DB, b: DB, entity: EntityType, id: Id, action: string, snapshot: Snapshot,
                                 provenance: Provenance, requestId: Option<RequestId>, runId: Option<RunId>)
      requires a.scan == b.scan && a.revisions == b.revisions
      ensures var ta := RecordRevision(a, entity, id, action, snapshot, provenance, requestId, runId);
              RecordRevision(b, entity, id, action, snapshot, provenance, requestId, runId)
              == if ta.Done? then Done(b.(revisions := ta.db.revisions), ta.value) else ta
      ensures var ta := RecordRevision(a, entity, id, action, snapshot, provenance, requestId, runId);
              ta.Done? ==> ta.db == a.(revisions := ta.db.revisions)
    {
      hide MaxRevision;
    }

    // The part of `apply_entry_tx_inner` after its checks: upsert the row, record the revision, refresh the document.
    method WriteEntryTx(key: EntryKey, packId: Id, entry: EntryInput, provenance: Provenance,
                        requestId: Option<RequestId>, runId: Option<RunId>) returns (r: Result<EntryRecord>)
      modifies `entries, `revisions, `fts, `nextId
      ensures Ran(WriteEntry(old(Db()), key, packId, entry, provenance, requestId, runId), Db(), r)
    {
      hide RecordRevision, ContentHash, UpsertDoc;
      ghost var before := entries;
      var hash := ContentHashOf(entry);
      var record := EntryRecord(nextId, key.pack.scope, key.pack.name, entry.key, entry.title, entry.kind, entry.value,
                                entry.tags, entry.metadata, provenance, entry.locked, Active, 0);
      var action, pack := "create", packId;
      if key in entries {
        action, pack := "update", entries[key].packId;
        record := record.(id := entries[key].record.id);
      } else {
        var id := NewId();
      }
      assert record == WrittenRecord(old(Db()), key, entry, provenance);
      hide WrittenRecord;
      ghost var db0 := Db();
      entries := entries[key := EntryRow(record, pack, hash)];
      RecordElsewhere(db0, Db(), EntryEntity, record.id, action, EntrySnapshot(record), provenance, requestId, runId);
      var no := RecordRevisionTx(EntryEntity, record.id, action, EntrySnapshot(record), provenance, requestId, runId);
      if no.Err? { return Err(no.error); }
      record := record.(revisionNo := no.value);
      entries := entries[key := EntryRow(record, pack, hash)];
      assert entries == before[key := EntryRow(record, pack, hash)];
      UpsertDocTx(record);
      return Ok(record);
    }

    // `apply_entry_tx_inner`.
    method ApplyEntryTx(pack: PackKey, entry: EntryInput, actor: string, provenance: Provenance, requestId: Option<RequestId>,
                        runId: Option<RunId>, allowArchived: bool) returns (r: Result<EntryRecord>)
      modifies `packs, `entries, `revisions, `fts, `nextId
      ensures Ran(ApplyEntry(old(Db()), pack, entry, actor, provenance, requestId, runId, allowArchived), Db(), r)
    {
      hide WriteEntry, EnsurePack;
      if Text.Blank(actor) || Text.Blank(pack.name) || !InputValid(entry) { return Err(Validation); }
      if scan(ShownEntryWrite(EntryKey(pack, entry.key), actor, entry, provenance, requestId, runId)) { return Err(SecretDetected); }
      var record := EnsurePackTx(pack, actor, None, EMPTY_OBJECT, false, None);
      if record.Err? { return Err(record.error); }
      if !allowArchived && record.value.status.Archived? { return Err(Error.Conflict); }
      r := WriteEntryTx(EntryKey(pack, entry.key), record.value.id, entry, provenance, requestId, runId);
    }

    method FlipDeletedTx(key: EntryKey)
      requires key in entries
      modifies `entries, `fts
      ensures Db() == FlipDeleted(old(Db()), key)
    {
      var row := entries[key];
      entries := entries[key := row.(record := row.record.(status := Deleted))];
      DeleteDocsTx(row.record.id);
    }

    method PutEntry(req: PutRequest) returns (r: Result<EntryRecord>)
      modifies this
      ensures Committed(Operations.PutEntry(old(Db()), req), old(Db()), Db(), r)
    {
      hide ApplyEntry;
      var saved := Db();
      var scope := Normalize(req.scope);
      if scope.Err? { return Err(scope.error); }
      if Text.Blank(req.actor) || Text.Blank(req.packName) { return Err(Validation); }
      var provenance := if req.entry.provenance.Some? then req.entry.provenance.value else SystemProvenance(req.actor, "manual_put");
      r := ApplyEntryTx(PackKey(scope.value, req.packName), req.entry, req.actor, provenance, None, None, false);
      End(saved, r);
    }

    method DeleteEntry(sel: Selector, actor: string) returns (r: Result<EntryRecord>)
      modifies this
      ensures Committed(Operations.DeleteEntry(old(Db()), sel, actor), old(Db()), Db(), r)
    {
      hide Select, DeleteRow;
      var saved := Db();
      var selected := Select(saved, sel, actor);
      if selected.Err? { return Err(selected.error); }
      var key := selected.value;
      if key.pack !in packs { return Err(NotFound); }
      if packs[key.pack].status.Archived? { return Err(Error.Conflict); }
      SelectedExists(saved, sel, actor);
      r := DeleteRowTx(key, actor);
      End(saved, r);
    }

    static lemma SelectedExists(db: DB, sel: Selector, actor: string)
      ensures Select(db, sel, actor).Ok? ==> Select(db, sel, actor).value in db.entries
    {
    }

    // The writes of `delete_entry`.
    method DeleteRowTx(key: EntryKey, actor: string) returns (r: Result<EntryRecord>)
      requires key in entries
      modifies `entries, `revisions, `fts
      ensures Ran(DeleteRow(old(Db()), key, actor), Db(), r)
    {
      hide MaxRevision, RemoveDocs;
      var row := entries[key];
      FlipDeletedTx(key);
      var record := row.record.(status := Deleted, provenance := SystemProvenance(actor, "delete"));
      var no := RecordRevisionTx(EntryEntity, record.id, "delete", EntrySnapshot(record), record.provenance, None, None);
      if no.Err? { return Err(no.error); }
      record := record.(revisionNo := no.value);
      entries := entries[key := row.(record := record)];
      return Ok(record);
    }

    method RevertEntry(sel: Selector, revisionNo: Option<int>, actor: string) returns (r: Result<EntryRecord>)
      modifies this
      ensures Committed(Operations.RevertEntry(old(Db()), sel, revisionNo, actor), old(Db()), Db(), r)
    {
      hide RevertTarget, RestoreSnapshot;
      var saved := Db();
      var target := RevertTarget(saved, sel, revisionNo, actor);
      if target.Err? { return Err(target.error); }
      r := RestoreTx(target.value.0, target.value.1, actor);
      End(saved, r);
    }

    // The writes of `revert_entry`.
    method RestoreTx(pack: PackKey, snapshot: EntryRecord, actor: string) returns (r: Result<EntryRecord>)
      modifies `packs, `entries, `revisions, `fts, `nextId
      ensures Ran(RestoreSnapshot(old(Db()), pack, snapshot, actor), Db(), r)
    {
      hide ApplyEntry, FlipDeleted;
      var restored := ApplyEntryTx(pack, InputOf(snapshot), actor, snapshot.provenance, None, None, false);
      if restored.Err? { return Err(restored.error); }
      var key := EntryKey(pack, snapshot.key);
      if snapshot.status.Deleted? && key in entries {
        FlipDeletedTx(key);
        return Ok(restored.value.(status := Deleted));
      }
      return Ok(restored.value);
    }

    // ---------- packs and policy ----------

    method SetPolicy(mode: ReviewMode, metadata: Json, actor: string) returns (r: Result<ReviewPolicy>)
      modifies this
      ensures Committed(Operations.SetPolicy(old(Db()), mode, metadata, actor), old(Db()), Db(), r)
    {
      hide MaxRevision;
      if Text.Blank(actor) { return Err(Validation); }
      if scan(PolicyWrite(mode, metadata, actor)) { return Err(SecretDetected); }
      if policy.mode == mode && policy.metadata == metadata { return Ok(policy); }
      var saved := Db();
      var changed := policy.(mode := mode, metadata := metadata, updatedBy := actor);
      var no := RecordRevisionTx(PolicyEntity, POLICY_ID, "update", PolicySnapshot(changed),
                                 SystemProvenance(actor, "review_policy_update"), None, None);
      if no.Err? {
        Rollback(saved);
        return Err(no.error);
      }
      policy := changed.(revisionNo := no.value);
      return Ok(policy);
    }

    method CreatePack(req: CreatePackRequest) returns (r: Result<PackRecord>)
      modifies this
      ensures Committed(Operations.CreatePack(old(Db()), req), old(Db()), Db(), r)
    {
      hide EnsurePack;
      var saved := Db();
      var scope := Normalize(req.scope);
      if scope.Err? { return Err(scope.error); }
      if Text.Blank(req.actor) || Text.Blank(req.name) { return Err(Validation); }
      if scan(PackWrite(scope.value, req.name, req.actor, req.description, req.metadata, req.lockReason)) { return Err(SecretDetected); }
      var key := PackKey(scope.value, req.name);
      if key in packs { return Err(Error.Conflict); }
      r := EnsurePackTx(key, req.actor, req.description, req.metadata, req.locked, req.lockReason);
      End(saved, r);
    }

    // The fields of the row that an update replaces, one after the other.
    static method UpdatedFields(row: PackRecord, req: UpdatePackRequest) returns (pack: PackRecord)
      ensures pack == UpdatedPack(row, req)
    {
      pack := row;
      var locked := if req.locked.Some? then req.locked.value else pack.locked;
      var lockReason := pack.lockReason;
      if !locked {
        lockReason := None;
      } else if req.lockReason.Some? {
        lockReason := req.lockReason;
      }
      if req.description.Some? { pack := pack.(description := req.description); }
      if req.metadata.Some? { pack := pack.(metadata := req.metadata.value); }
      if req.status.Some? { pack := pack.(status := req.status.value); }
      pack := pack.(locked := locked, lockReason := lockReason);
    }

    method UpdatePack(req: UpdatePackRequest) returns (r: Result<PackRecord>)
      modifies this
      ensures Committed(Operations.UpdatePack(old(Db()), req), old(Db()), Db(), r)
    {
      hide OnlyUnarchives, Normalize, ReplacePack, UpdatedPack;
      var saved := Db();
      var scope := Normalize(req.scope);
      if scope.Err? { return Err(scope.error); }
      if Text.Blank(req.actor) || Text.Blank(req.name) { return Err(Validation); }
      var key := PackKey(scope.value, req.name);
      if key !in packs { return Err(NotFound); }
      var pack := packs[key];
      if pack.status.Archived? && !OnlyUnarchives(req) { return Err(Error.Conflict); }
      pack := UpdatedFields(pack, req);
      if scan(PackWrite(scope.value, pack.name, req.actor, pack.description, pack.metadata, pack.lockReason)) { return Err(SecretDetected); }
      r := PutPackTx(key, pack, req.actor, "update", "pack_update");
      End(saved, r);
    }

    // ---------- reviews ----------

    method InsertReviewTx(requestId: RequestId, key: EntryKey, entry: EntryInput, existing: Option<EntryRecord>,
                          reason: ReviewReason) returns (r: Result<ReviewItem>)
      modifies `reviews, `revisions, `nextId
      ensures Ran(InsertReview(old(Db()), requestId, key, entry, existing, reason), Db(), r)
    {
      hide MaxRevision;
      var record := ReviewItem(nextId, requestId, key.pack.scope, key.pack.name, entry.key, Pending, reason, entry, existing, None, 0);
      if scan(ReviewWrite(record)) { return Err(SecretDetected); }
      var id := NewId();
      var table := reviews;
      reviews := table + [record];
      var no := RecordRevisionTx(ReviewEntity, id, "create", ReviewSnapshot(record), SystemProvenance("system", "review_create"),
                                 Some(requestId), None);
      if no.Err? { return Err(no.error); }
      record := record.(revisionNo := no.value);
      reviews := table + [record];
      return Ok(record);
    }

    // `find_matching_pending_review_tx`: the oldest match, in the order of creation.
    method FindPendingTx(key: EntryKey, entry: EntryInput, existing: Option<EntryRecord>, reason: ReviewReason)
      returns (found: Option<ReviewItem>)
      ensures found == FindPending(reviews, key, entry, existing, reason)
    {
      assert reviews[0..] == reviews;
      for i := 0 to |reviews|
        invariant FindPending(reviews, key, entry, existing, reason) == FindPending(reviews[i..], key, entry, existing, reason)
      {
        assert reviews[i..][1..] == reviews[i + 1..];
        if MatchesPending(reviews[i], key, entry, existing, reason) { return Some(reviews[i]); }
      }
      return None;
    }

    method InsertOrReuseReviewTx(requestId: RequestId, key: EntryKey, entry: EntryInput, existing: Option<EntryRecord>,
                                 reason: ReviewReason, exact: bool) returns (r: Result<ReviewItem>)
      modifies `reviews, `revisions, `nextId
      ensures Ran(InsertOrReuseReview(old(Db()), requestId, key, entry, existing, reason, exact), Db(), r)
    {
      hide FindPending, InsertReview;
      if exact {
        var found := FindPendingTx(key, entry, existing, reason);
        if found.Some? { return Ok(found.value); }
      }
      r := InsertReviewTx(requestId, key, entry, existing, reason);
    }

    method UpdateReviewTx(at: nat, record: ReviewItem, actor: string, action: string) returns (r: Result<ReviewItem>)
      requires at < |reviews|
      modifies `reviews, `revisions
      ensures Ran(UpdateReview(old(Db()), at, record, actor, action), Db(), r)
    {
      hide MaxRevision;
      if Text.Blank(actor) { return Err(Validation); }
      if scan(ReviewTransition(record, actor)) { return Err(SecretDetected); }
      var table := reviews;
      reviews := table[at := record];
      var no := RecordRevisionTx(ReviewEntity, record.id, action, ReviewSnapshot(record), SystemProvenance(actor, "review_" + action),
                                 Some(record.requestId), None);
      if no.Err? { return Err(no.error); }
      reviews := table[at := record.(revisionNo := no.value)];
      return Ok(record.(revisionNo := no.value));
    }

    method SettleTx(at: nat, record: ReviewItem, actor: string, action: string) returns (r: Result<ReviewItem>)
      requires at < |reviews|
      modifies `reviews, `revisions
      ensures Ran(Settle(old(Db()), at, record, actor, action), Db(), r)
    {
      hide UpdateReview;
      if scan(ReviewWrite(record)) { return Err(SecretDetected); }
      r := UpdateReviewTx(at, record, actor, action);
    }

    static lemma PendingInTable(db: DB, id: Id, actor: string)
      ensures PendingReview(db, id, actor).Ok? ==> PendingReview(db, id, actor).value < |db.reviews|
    {
    }

    // Writes the proposed entry and settles the review as approved.
    method ApproveTx(at: nat, review: ReviewItem, actor: string, source: string, action: string, note: Option<string>)
      returns (r: Result<ReviewItem>)
      requires at < |reviews|
      modifies this
      ensures var a := ApplyProposed(old(Db()), review, actor, source, note);
              if a.Done? then Ran(Settle(a.db, at, review.(state := Approved, note := note), actor, action), Db(), r)
              else r == Err(a.error)
    {
      hide ApplyEntry, Settle;
      var provenance := ApprovalProvenance(review, actor, source, note);
      var applied := ApplyEntryTx(PackKey(review.scope, review.packName), review.proposed, actor, provenance,
                                  Some(review.requestId), provenance.runId, false);
      if applied.Err? { return Err(applied.error); }
      r := SettleTx(at, review.(state := Approved, note := note), actor, action);
    }

    method ApproveReview(reviewId: Id, actor: string, note: Option<string>) returns (r: Result<ReviewItem>)
      modifies this
      ensures Committed(Operations.ApproveReview(old(Db()), reviewId, actor, note), old(Db()), Db(), r)
    {
      hide PendingReview, ApplyProposed, Settle;
      var saved := Db();
      PendingInTable(saved, reviewId, actor);
      var at := PendingReview(saved, reviewId, actor);
      if at.Err? { return Err(at.error); }
      r := ApproveTx(at.value, reviews[at.value], actor, "review_approve", "approve", note);
      End(saved, r);
    }

    method RejectReview(reviewId: Id, actor: string, note: Option<string>) returns (r: Result<ReviewItem>)
      modifies this
      ensures Committed(Operations.RejectReview(old(Db()), reviewId, actor, note), old(Db()), Db(), r)
    {
      hide PendingReview, Settle;
      var saved := Db();
      PendingInTable(saved, reviewId, actor);
      var at := PendingReview(saved, reviewId, actor);
      if at.Err? { return Err(at.error); }
      r := SettleTx(at.value, reviews[at.value].(state := Rejected, note := note), actor, "reject");
      End(saved, r);
    }

    // `apply_review_edit_fields`, field by field.
    method EditFieldsOf(review: ReviewItem, f: EditFields) returns (r: Result<ReviewItem>)
      ensures r == EditedReview(Db(), review, f)
    {
      hide InputValid;
      var e := review.proposed;
      if f.title.Some? { e := e.(title := f.title); }
      assert e == EditedEntry(review.proposed, EditFields(f.title, None, None, None, None, None));
      if f.kind.Some? { e := e.(kind := f.kind.value); }
      assert e == EditedEntry(review.proposed, EditFields(f.title, f.kind, None, None, None, None));
      if f.value.Some? { e := e.(value := f.value.value); }
      assert e == EditedEntry(review.proposed, EditFields(f.title, f.kind, f.value, None, None, None));
      if f.tags.Some? { e := e.(tags := f.tags.value); }
      assert e == EditedEntry(review.proposed, EditFields(f.title, f.kind, f.value, f.tags, None, None));
      if f.metadata.Some? { e := e.(metadata := f.metadata.value); }
      assert e == EditedEntry(review.proposed, EditFields(f.title, f.kind, f.value, f.tags, f.metadata, None));
      if f.locked.Some? { e := e.(locked := f.locked.value); }
      assert e == EditedEntry(review.proposed, f);
      if !InputValid(e) { return Err(Validation); }
      if scan(ReviewWrite(review.(proposed := e))) { return Err(SecretDetected); }
      return Ok(review.(proposed := e));
    }

    method EditReview(reviewId: Id, f: EditFields, actor: string) returns (r: Result<ReviewItem>)
      modifies this
      ensures Committed(Operations.EditReview(old(Db()), reviewId, f, actor), old(Db()), Db(), r)
    {
      hide PendingReview, EditedReview, UpdateReview;
      var saved := Db();
      PendingInTable(saved, reviewId, actor);
      var at := PendingReview(saved, reviewId, actor);
      if at.Err? { return Err(at.error); }
      var edited := EditFieldsOf(reviews[at.value], f);
      if edited.Err? { return Err(edited.error); }
      r := UpdateReviewTx(at.value, edited.value, actor, "edit");
      End(saved, r);
    }

    method EditAndApproveReview(reviewId: Id, f: EditFields, actor: string, note: Option<string>) returns (r: Result<ReviewItem>)
      modifies this
      ensures Committed(Operations.EditAndApproveReview(old(Db()), reviewId, f, actor, note), old(Db()), Db(), r)
    {
      hide PendingReview, EditedReview, ApplyProposed, Settle;
      var saved := Db();
      PendingInTable(saved, reviewId, actor);
      var at := PendingReview(saved, reviewId, actor);
      if at.Err? { return Err(at.error); }
      var edited := EditFieldsOf(reviews[at.value], f);
      if edited.Err? { return Err(edited.error); }
      r := ApproveTx(at.value, edited.value, actor, "review_edit_and_approve", "edit_and_approve", note);
      End(saved, r);
    }

    // ---------- runs and commits ----------

    method EnsureRunTx(input: RunInput) returns (r: Result<RunRecord>)
      modifies `runs, `nextId
      ensures Ran(EnsureRun(old(Db()), input), Db(), r)
    {
      if Text.Blank(input.source) { return Err(Validation); }
      if input.id.Some? && input.id.value.Named? && Text.Blank(input.id.value.text) { return Err(Validation); }
      var id;
      if input.id.Some? {
        id := input.id.value;
      } else {
        var minted := NewId();
        id := Minted(minted);
      }
      nextId := PastRun(nextId, id);
      if id in runs { return Ok(runs[id]); }
      if scan(RunWrite(input)) { return Err(SecretDetected); }
      var record := RunRecord(id, input.projectScopeId, input.taskScopeId, input.source, input.metadata);
      runs := runs[id := record];
      return Ok(record);
    }

    method CreateRun(input: RunInput) returns (r: Result<RunRecord>)
      modifies this
      ensures Committed(EnsureRun(old(Db()), input), old(Db()), Db(), r)
    {
      hide EnsureRun;
      var saved := Db();
      r := EnsureRunTx(input);
      End(saved, r);
    }

    method HoldTx(requestId: RequestId, key: EntryKey, entry: EntryInput, existing: Option<EntryRow>, reason: ReviewReason,
                  exact: bool) returns (r: Result<CommitItem>)
      modifies `reviews, `revisions, `nextId
      ensures Ran(HoldForReview(old(Db()), requestId, key, entry, existing, reason, exact), Db(), r)
    {
      hide InsertOrReuseReview;
      var review := InsertOrReuseReviewTx(requestId, key, entry, RecordOf(existing), reason, exact);
      if review.Err? { return Err(review.error); }
      return Ok(Item(key, Held, Some(Review(reason)), None, Some(review.value.id)));
    }

    // The verdict of the specification, as the branches below come to it.
    static ghost function VerdictAt(db: DB, key: EntryKey, pack: Option<PackRecord>, entry: EntryInput, mode: ReviewMode, exact: bool): Verdict {
      Decide(key.pack.scope.kind, pack, GetEntry(db, key), IsDuplicate(GetEntry(db, key), entry, mode, exact), mode)
    }

    static lemma Governed(db: DB, requestId: RequestId, runId: Option<RunId>, key: EntryKey, pack: Option<PackRecord>, entry: EntryInput,
                          actor: string, provenance: Provenance, mode: ReviewMode, exact: bool, verdict: Verdict)
      requires Decide(key.pack.scope.kind, pack, GetEntry(db, key), IsDuplicate(GetEntry(db, key), entry, mode, exact), mode) == verdict
      ensures var spec := GovernProposal(db, requestId, runId, key, pack, entry, actor, provenance, mode, exact);
              var id := IdOf(GetEntry(db, key));
              (verdict.Refuse? ==> spec == Done(db, Item(key, Refused, Some(Because(Error.Conflict)), id, None))) &&
              (verdict.Skip? ==> spec == Done(db, Item(key, Duplicate, None, id, None))) &&
              (verdict.Hold? ==> spec == HoldForReview(db, requestId, key, entry, GetEntry(db, key), verdict.reason, exact)) &&
              (verdict.Apply? ==>
                var t := ApplyEntry(db, key.pack, entry, actor, provenance, Some(requestId), runId, false);
                spec == if t.Done? then Done(t.db, Item(key, Applied, None, Some(t.value.id), None)) else Fail(t.error))
    {
      hide HoldForReview, ApplyEntry, IsDuplicate, Decide, Item;
    }

    // The checks of `commit_proposal_tx` from the destination pack on, in the order in which the source makes them.
    method GovernTx(requestId: RequestId, runId: Option<RunId>, key: EntryKey, pack: Option<PackRecord>, entry: EntryInput,
                    actor: string, provenance: Provenance, mode: ReviewMode, exact: bool) returns (r: Result<CommitItem>)
      modifies this
      ensures Ran(GovernProposal(old(Db()), requestId, runId, key, pack, entry, actor, provenance, mode, exact), Db(), r)
    {
      hide GovernProposal, HoldForReview, ApplyEntry, IsDuplicate, Item;
      var existing := if key in entries then Some(entries[key]) else None;
      ghost var verdict := VerdictAt(Db(), key, pack, entry, mode, exact);
      Governed(Db(), requestId, runId, key, pack, entry, actor, provenance, mode, exact, verdict);
      if pack.Some? && pack.value.status.Archived? {
        return Ok(Item(key, Refused, Some(Because(Error.Conflict)), IdOf(existing), None));
      }
      var duplicate := IsDuplicate(existing, entry, mode, exact);
      if mode.Strict? && duplicate {
        return Ok(Item(key, Duplicate, None, IdOf(existing), None));
      }
      if key.pack.scope.kind.Global? {
        r := HoldTx(requestId, key, entry, existing, GlobalScope, exact);
        return;
      }
      if (pack.Some? && pack.value.locked) || (existing.Some? && existing.value.record.locked) {
        r := HoldTx(requestId, key, entry, existing, Locked, exact);
        return;
      }
      if mode.Strict? {
        var reason := if IsActive(existing) then Conflicting else StrictPolicy;
        r := HoldTx(requestId, key, entry, existing, reason, exact);
        return;
      }
      DuplicateExists(existing, entry, mode, exact);
      if existing.Some? {
        if duplicate {
          return Ok(Item(key, Duplicate, None, IdOf(existing), None));
        }
        if mode.Balanced? && existing.value.record.status.Active? {
          r := HoldTx(requestId, key, entry, existing, Conflicting, exact);
          return;
        }
      }
      var applied := ApplyEntryTx(key.pack, entry, actor, provenance, Some(requestId), runId, false);
      if applied.Err? { return Err(applied.error); }
      return Ok(Item(key, Applied, None, Some(applied.value.id), None));
    }

    static lemma DuplicateExists(existing: Option<EntryRow>, entry: EntryInput, mode: ReviewMode, exact: bool)
      ensures IsDuplicate(existing, entry, mode, exact) ==> existing.Some?
    {
    }

    // `commit_proposal_tx`.
    method CommitProposalTx(requestId: RequestId, runId: Option<RunId>, pack: PackKey, entry: EntryInput, actor: string,
                            provenance: Provenance, mode: ReviewMode, exact: bool) returns (r: Result<CommitItem>)
      modifies this
      ensures Ran(CommitProposal(old(Db()), requestId, runId, pack, entry, actor, provenance, mode, exact), Db(), r)
    {
      hide GovernProposal, EnsurePack;
      var key := EntryKey(pack, entry.key);
      var existing := if key in entries then Some(entries[key]) else None;
      if scan(ShownEntryWrite(key, actor, entry, provenance, Some(requestId), runId)) {
        return Ok(Item(key, Refused, Some(Because(SecretDetected)), IdOf(existing), None));
      }
      var destination := None;
      if exact {
        destination := if pack in packs then Some(packs[pack]) else None;
      } else {
        var record := EnsurePackTx(pack, actor, None, EMPTY_OBJECT, false, None);
        if record.Err? { return Err(record.error); }
        destination := Some(record.value);
      }
      r := GovernTx(requestId, runId, key, destination, entry, actor, provenance, mode, exact);
    }

    method CommitOneTx(req: CommitRequest, runId: Option<RunId>, mode: ReviewMode, exact: bool, p: Proposal) returns (r: Result<CommitItem>)
      modifies this
      ensures Ran(CommitOne(old(Db()), req, runId, mode, exact, p), Db(), r)
    {
      hide CommitProposal;
      var scope := Normalize(p.scope);
      if scope.Err? { return Err(scope.error); }
      if Text.Blank(p.packName) || !InputValid(p.entry) { return Err(Validation); }
      var provenance := if p.entry.provenance.Some? then p.entry.provenance.value
                        else Provenance(req.actor, "commit_work", None, runId, Some(req.requestId), None);
      r := CommitProposalTx(req.requestId, runId, PackKey(scope.value, p.packName), p.entry, req.actor, provenance, mode, exact);
    }

    static lemma {:induction false} CommitStopped(db: DB, req: CommitRequest, runId: Option<RunId>, mode: ReviewMode, exact: bool, n: nat, m: nat)
      requires n <= m <= |req.proposals| && CommitProposals(db, req, runId, mode, exact, n).Fail?
      ensures CommitProposals(db, req, runId, mode, exact, m) == CommitProposals(db, req, runId, mode, exact, n)
    {
      hide CommitOne;
      if n < m { CommitStopped(db, req, runId, mode, exact, n, m - 1); }
    }

    // `summarize_commit_status`.
    method SummarizeItems(items: seq<CommitItem>) returns (status: CommitStatus)
      ensures status == Summarize(items)
    {
      var applied, pending, refused := false, false, false;
      for i := 0 to |items|
        invariant applied <==> exists j | 0 <= j < i :: items[j].disposition.Applied? || items[j].disposition.Duplicate?
        invariant pending <==> exists j | 0 <= j < i :: items[j].disposition.Held?
        invariant refused <==> exists j | 0 <= j < i :: items[j].disposition.Refused?
      {
        match items[i].disposition {
          case Applied => applied := true;
          case Duplicate => applied := true;
          case Held => pending := true;
          case Refused => refused := true;
        }
      }
      if applied && !pending && !refused { return AllApplied; }
      if !applied && pending && !refused { return AllPending; }
      if !applied && !pending && refused { return AllRejected; }
      return Partial;
    }

    // The loop of `commit_work_tx` over the proposals.
    method CommitProposalsTx(req: CommitRequest, runId: Option<RunId>, mode: ReviewMode, exact: bool) returns (r: Result<seq<CommitItem>>)
      modifies this
      ensures Ran(CommitProposals(old(Db()), req, runId, mode, exact, |req.proposals|), Db(), r)
    {
      hide CommitOne;
      var items := [];
      for n := 0 to |req.proposals|
        invariant CommitProposals(old(Db()), req, runId, mode, exact, n) == Done(Db(), items)
      {
        var item := CommitOneTx(req, runId, mode, exact, req.proposals[n]);
        if item.Err? {
          CommitStopped(old(Db()), req, runId, mode, exact, n + 1, |req.proposals|);
          return Err(item.error);
        }
        items := items + [item.value];
      }
      return Ok(items);
    }

    // `commit_work_tx`.
    method CommitWorkTx(req: CommitRequest, exact: bool) returns (r: Result<CommitResult>)
      modifies this
      ensures Ran(Operations.CommitWork(old(Db()), req, exact), Db(), r)
    {
      hide CommitProposals, EnsureRun, Summarize, ShownCommit;
      if req.requestId.ByClient? && Text.Blank(req.requestId.text) { return Err(Validation); }
      if Text.Blank(req.actor) { return Err(Validation); }
      if req.proposals == [] { return Err(Validation); }
      if scan(ShownCommit(req)) { return Err(SecretDetected); }
      if req.requestId in commits { return Ok(commits[req.requestId]); }
      var mode := policy.mode;
      var runId := None;
      if req.run.Some? {
        var run := EnsureRunTx(req.run.value);
        if run.Err? { return Err(run.error); }
        runId := Some(run.value.id);
      }
      var items := CommitProposalsTx(req, runId, mode, exact);
      if items.Err? { return Err(items.error); }
      var status := SummarizeItems(items.value);
      var result := CommitResult(req.requestId, status, runId, items.value);
      commits := commits[req.requestId := result];
      return Ok(result);
    }

    method CommitWork(req: CommitRequest) returns (r: Result<CommitResult>)
      modifies this
      ensures Committed(Operations.CommitWork(old(Db()), req, false), old(Db()), Db(), r)
    {
      hide Operations.CommitWork;
      var saved := Db();
      r := CommitWorkTx(req, false);
      End(saved, r);
    }

    // ---------- the source import ----------

    static lemma {:induction false} BuildStopped(db: DB, actor: string, pack: PackKey, gov: PackGovernance, parsed: seq<ParsedCandidate>, n: nat)
      requires n <= |parsed| && BuildCandidates(db, actor, pack, gov, parsed[..n]).Err?
      ensures BuildCandidates(db, actor, pack, gov, parsed) == BuildCandidates(db, actor, pack, gov, parsed[..n])
    {
      hide BuildCandidate;
      if n < |parsed| {
        assert parsed[..|parsed| - 1][..n] == parsed[..n];
        BuildStopped(db, actor, pack, gov, parsed[..|parsed| - 1], n);
      } else {
        assert parsed[..n] == parsed;
      }
    }

    method BuildCandidateList(actor: string, pack: PackKey, gov: PackGovernance, parsed: seq<ParsedCandidate>)
      returns (r: Result<seq<Candidate>>)
      ensures r == BuildCandidates(Db(), actor, pack, gov, parsed)
    {
      hide BuildCandidate;
      var candidates := [];
      for n := 0 to |parsed|
        invariant BuildCandidates(Db(), actor, pack, gov, parsed[..n]) == Ok(candidates)
      {
        assert parsed[..n + 1][..n] == parsed[..n];
        var candidate := BuildCandidate(Db(), actor, pack, gov, n, parsed[n]);
        if candidate.Err? {
          BuildStopped(Db(), actor, pack, gov, parsed, n + 1);
          return Err(candidate.error);
        }
        candidates := candidates + [candidate.value];
      }
      assert parsed[..|parsed|] == parsed;
      return Ok(candidates);
    }

    // The keys that a later candidate repeats.
    method DuplicateKeys(cs: seq<Candidate>) returns (repeated: set<string>)
      ensures repeated == RepeatedKeys(cs)
    {
      var seen: set<string> := {};
      repeated := {};
      for n := 0 to |cs|
        invariant forall k :: k in seen <==> exists i | 0 <= i < n :: cs[i].entry.key == k
        invariant forall k :: k in repeated <==> exists i, j | 0 <= i < j < n && cs[i].entry.key == cs[j].entry.key :: cs[j].entry.key == k
      {
        if cs[n].entry.key in seen {
          repeated := repeated + {cs[n].entry.key};
        } else {
          seen := seen + {cs[n].entry.key};
        }
      }
    }

    // `build_source_import_preview`.
    method BuildImportPreview(req: ImportRequest, pack: PackKey) returns (r: Result<Preview>)
      ensures r == BuildPreview(Db(), req, pack)
    {
      hide BuildCandidates, RepeatedKeys, AllIdentical;
      var gov := GovernanceOf(Db(), pack);
      var candidates := BuildCandidateList(req.actor, pack, gov, req.parsed);
      if candidates.Err? { return Err(candidates.error); }
      var repeated := DuplicateKeys(candidates.value);
      var allowed, warnings := repeated == {}, FromParserAll(req.parserWarnings);
      if !allowed { warnings := warnings + [SharedKeys(repeated)]; }
      if gov.status == Some(Archived) {
        allowed := false;
        warnings := warnings + [PackIsArchived];
      } else if gov.locked && !AllIdentical(candidates.value) {
        warnings := warnings + [PackIsLocked];
      }
      var expected := FromParserAll(req.parserWarnings) + (if repeated != {} then [SharedKeys(repeated)] else []) +
                      (if gov.status == Some(Archived) then [PackIsArchived]
                       else if gov.locked && !AllIdentical(candidates.value) then [PackIsLocked] else []);
      assert warnings == expected;
      return Ok(Preview(pack.scope, pack.name, policy.mode, gov, candidates.value, warnings, allowed));
    }

    method PreviewSourceImport(req: ImportRequest) returns (r: Result<Preview>)
      ensures r == PreviewImport(Db(), req)
    {
      hide BuildPreview, Prepare;
      var pack := Prepare(req);
      if pack.Err? { return Err(pack.error); }
      r := BuildImportPreview(req, pack.value);
    }

    method ApplyCandidateTx(actor: string, preview: Preview, c: Candidate) returns (r: Result<ImportItem>)
      modifies this
      ensures Ran(ApplyCandidate(old(Db()), actor, preview, c), Db(), r)
    {
      hide Operations.CommitWork, CandidateCommit;
      if c.disposition.Identical? {
        return Ok(ImportItem(c.index, c.entry.key, Duplicate, None, c.existingId, None));
      }
      var result := CommitWorkTx(CandidateCommit(actor, preview, c), true);
      if result.Err? { return Err(result.error); }
      if result.value.items == [] { return Err(Validation); }
      var item := result.value.items[0];
      return Ok(ImportItem(c.index, item.entryKey, item.disposition, item.reason, item.entryId, item.reviewId));
    }

    static lemma {:induction false} ApplyStopped(db: DB, actor: string, preview: Preview, n: nat, m: nat)
      requires n <= m <= |preview.candidates| && ApplyCandidates(db, actor, preview, n).Fail?
      ensures ApplyCandidates(db, actor, preview, m) == ApplyCandidates(db, actor, preview, n)
    {
      hide ApplyCandidate;
      if n < m { ApplyStopped(db, actor, preview, n, m - 1); }
    }

    method ApplyCandidatesTx(actor: string, preview: Preview) returns (r: Result<seq<ImportItem>>)
      modifies this
      ensures Ran(ApplyCandidates(old(Db()), actor, preview, |preview.candidates|), Db(), r)
    {
      hide ApplyCandidate;
      var items := [];
      for n := 0 to |preview.candidates|
        invariant ApplyCandidates(old(Db()), actor, preview, n) == Done(Db(), items)
      {
        var item := ApplyCandidateTx(actor, preview, preview.candidates[n]);
        if item.Err? {
          ApplyStopped(old(Db()), actor, preview, n + 1, |preview.candidates|);
          return Err(item.error);
        }
        items := items + [item.value];
      }
      return Ok(items);
    }

    method ApplySourceImport(req: ImportRequest) returns (r: Result<ImportResult>)
      modifies this
      ensures Committed(ApplyImport(old(Db()), req), old(Db()), Db(), r)
    {
      hide PreviewImport, ApplyCandidates, Report;
      var saved := Db();
      var preview := PreviewSourceImport(req);
      if preview.Err? { return Err(preview.error); }
      if req.expected.Some? && req.expected.value != Fingerprint(req.actor, preview.value) { return Err(Error.Conflict); }
      if !preview.value.applyAllowed { return Err(Validation); }
      var items := ApplyCandidatesTx(req.actor, preview.value);
      if items.Err? {
        Rollback(saved);
        return Err(items.error);
      }
      return Ok(Report(preview.value, items.value));
    }

    // ---------- the bundle import ----------

    method ImportPackTx(p: PackRecord, actor: string) returns (r: Result<PackRecord>)
      modifies this
      ensures Ran(ImportPack(old(Db()), p, actor), Db(), r)
    {
      hide InsertPack, ReplacePack;
      if Text.Blank(actor) { return Err(Validation); }
      var scope := Normalize(p.scope);
      if scope.Err? { return Err(scope.error); }
      if Text.Blank(p.name) { return Err(Validation); }
      var lockReason := KeptLockReason(p);
      if scan(PackWrite(scope.value, p.name, actor, p.description, p.metadata, lockReason)) { return Err(SecretDetected); }
      var key := PackKey(scope.value, p.name);
      if key in packs {
        var record := packs[key].(description := p.description, metadata := p.metadata, status := p.status, locked := p.locked,
                                  lockReason := lockReason);
        r := PutPackTx(key, record, actor, "import_update", "pack_import");
      } else {
        r := InsertPackTx(key, actor, p.description, p.metadata, p.status, p.locked, lockReason, "import_create", "pack_import");
      }
    }

    method ImportEntryTx(e: EntryRecord, actor: string) returns (r: Result<()>)
      modifies this
      ensures Ran(ImportEntry(old(Db()), e, actor), Db(), r)
    {
      hide ApplyEntry, FlipDeleted;
      var scope := Normalize(e.scope);
      if scope.Err? { return Err(scope.error); }
      var pack := PackKey(scope.value, e.packName);
      var key := EntryKey(pack, e.key);
      var applied := ApplyEntryTx(pack, InputOf(e), actor, e.provenance, None, None, true);
      if applied.Err? { return Err(applied.error); }
      if e.status.Deleted? && key in entries { FlipDeletedTx(key); }
      return Ok(());
    }

    method ImportRunTx(run: RunRecord) returns (r: Result<()>)
      modifies this
      ensures Ran(ImportRun(old(Db()), run), Db(), r)
    {
      if (run.id.Named? && Text.Blank(run.id.text)) || Text.Blank(run.source) { return Err(Validation); }
      if scan(RunWrite(RunInput(Some(run.id), run.projectScopeId, run.taskScopeId, run.source, run.metadata))) { return Err(SecretDetected); }
      runs := runs[run.id := run];
      nextId := PastRun(nextId, run.id);
      return Ok(());
    }

    // `upsert_imported_review_item_tx`: both upserts overwrite what is there under the same key.
    method ImportReviewTx(review: ReviewItem, actor: string) returns (r: Result<()>)
      modifies this
      ensures Ran(ImportReview(old(Db()), review, actor), Db(), r)
    {
      hide ImportableReview, RevisionIndex;
      if scan(ReviewWrite(review)) { return Err(SecretDetected); }
      if Text.Blank(actor) || !ImportableReview(review) { return Err(Validation); }
      ReviewScope(review);
      var no := Max(review.revisionNo, 1);
      var stored := review.(scope := Normalize(review.scope).value, revisionNo := no);
      var at := ReviewIndex(reviews, review.id);
      if at.Some? {
        reviews := reviews[at.value := stored];
      } else {
        reviews := reviews + [stored];
      }
      var action := match review.state case Pending => "import_pending" case Approved => "import_approved" case Rejected => "import_rejected";
      var revision := Revision(ReviewEntity, review.id, no, action, ReviewSnapshot(review), SystemProvenance(actor, "review_import"),
                               Some(review.requestId), None);
      revisions := PutRevision(revisions, revision);
      nextId := Max(nextId, review.id + 1);
      return Ok(());
    }

    static lemma ReviewScope(review: ReviewItem)
      ensures ImportableReview(review) ==> Normalize(review.scope).Ok?
    {
    }

    static lemma {:induction false} PacksStopped(db: DB, packs: seq<PackRecord>, actor: string, n: nat, m: nat)
      requires n <= m <= |packs| && ImportPacks(db, packs, actor, n).Fail?
      ensures ImportPacks(db, packs, actor, m) == ImportPacks(db, packs, actor, n)
    {
      hide ImportPack;
      if n < m { PacksStopped(db, packs, actor, n, m - 1); }
    }

    static lemma {:induction false} EntriesStopped(db: DB, entries: seq<EntryRecord>, actor: string, n: nat, m: nat)
      requires n <= m <= |entries| && ImportEntries(db, entries, actor, n).Fail?
      ensures ImportEntries(db, entries, actor, m) == ImportEntries(db, entries, actor, n)
    {
      hide ImportEntry;
      if n < m { EntriesStopped(db, entries, actor, n, m - 1); }
    }

    static lemma {:induction false} RunsStopped(db: DB, runs: seq<RunRecord>, n: nat, m: nat)
      requires n <= m <= |runs| && ImportRuns(db, runs, n).Fail?
      ensures ImportRuns(db, runs, m) == ImportRuns(db, runs, n)
    {
      hide ImportRun;
      if n < m { RunsStopped(db, runs, n, m - 1); }
    }

    static lemma {:induction false} ReviewsStopped(db: DB, reviews: seq<ReviewItem>, actor: string, n: nat, m: nat)
      requires n <= m <= |reviews| && ImportReviews(db, reviews, actor, n).Fail?
      ensures ImportReviews(db, reviews, actor, m) == ImportReviews(db, reviews, actor, n)
    {
      hide ImportReview;
      if n < m { ReviewsStopped(db, reviews, actor, n, m - 1); }
    }

    // `import_bundle`, first to last loop, behind the check of the actor in `import_data`.
    method ImportBundleTx(b: Bundle, actor: string) returns (r: Result<()>)
      modifies this
      ensures Ran(Bundles.ImportBundle(old(Db()), b, actor), Db(), r)
    {
      hide ImportPack, ImportEntry, ImportRun, ImportReview;
      if Text.Blank(actor) { return Err(Validation); }
      ghost var db0 := Db();
      for n := 0 to |b.packs|
        invariant ImportPacks(db0, b.packs, actor, n) == Done(Db(), ())
      {
        var done := ImportPackTx(b.packs[n], actor);
        if done.Err? {
          PacksStopped(db0, b.packs, actor, n + 1, |b.packs|);
          return Err(done.error);
        }
      }
      ghost var db1 := Db();
      for n := 0 to |b.entries|
        invariant ImportEntries(db1, b.entries, actor, n) == Done(Db(), ())
      {
        var done := ImportEntryTx(b.entries[n], actor);
        if done.Err? {
          EntriesStopped(db1, b.entries, actor, n + 1, |b.entries|);
          return Err(done.error);
        }
        assert done.value == ();
      }
      ghost var db2 := Db();
      for n := 0 to |b.runs|
        invariant ImportRuns(db2, b.runs, n) == Done(Db(), ())
      {
        var done := ImportRunTx(b.runs[n]);
        if done.Err? {
          RunsStopped(db2, b.runs, n + 1, |b.runs|);
          return Err(done.error);
        }
        assert done.value == ();
      }
      ghost var db3 := Db();
      for n := 0 to |b.reviews|
        invariant ImportReviews(db3, b.reviews, actor, n) == Done(Db(), ())
      {
        var done := ImportReviewTx(b.reviews[n], actor);
        if done.Err? {
          ReviewsStopped(db3, b.reviews, actor, n + 1, |b.reviews|);
          return Err(done.error);
        }
        assert done.value == ();
      }
      return Ok(());
    }

    method ImportBundle(b: Bundle, actor: string) returns (r: Result<()>)
      modifies this
      ensures Committed(Bundles.ImportBundle(old(Db()), b, actor), old(Db()), Db(), r)
    {
      hide Bundles.ImportBundle;
      var saved := Db();
      r := ImportBundleTx(b, actor);
      End(saved, r);
    }

    // ---------- composing ----------

    // `compose_filters`.
    method ComposeFilters(req: ComposeRequest) returns (r: Result<set<ScopeRef>>)
      ensures r == ScopesOf(req)
    {
      var scopes := {ScopeRef(Global, GLOBAL_SCOPE_ID)};
      if req.projectScopeId.Some? {
        var project := Normalize(ScopeRef(Project, req.projectScopeId.value));
        if project.Err? { return Err(project.error); }
        scopes := scopes + {project.value};
      }
      assert scopes + {} == scopes;
      if req.taskScopeId.Some? {
        var task := Normalize(ScopeRef(Task, req.taskScopeId.value));
        if task.Err? { return Err(task.error); }
        scopes := scopes + {task.value};
      }
      return Ok(scopes);
    }

    // Collecting the rows that a sorted query yields.
    method CollectRows(keys: set<EntryKey>) returns (rows: seq<EntryRecord>)
      requires keys <= entries.Keys
      ensures rows == Rows(Db(), keys)
    {
      hide Rows;
      RowsFollowKeys(Db(), keys);
      var sorted := InOrder(keys);
      rows := [];
      for i := 0 to |sorted|
        invariant |rows| == i && forall j | 0 <= j < i :: rows[j] == Rows(Db(), keys)[j]
      {
        rows := rows + [entries[sorted[i]].record];
      }
      assert rows == Rows(Db(), keys);
    }

    // `list_compose_exclusions`.
    method ListExclusions(req: ComposeRequest) returns (r: Result<seq<Exclusion>>)
      ensures var scopes := ScopesOf(req);
              r == if scopes.Err? then Err(scopes.error) else Ok(Exclusions(Db(), ExcludedKeys(Db(), scopes.value, req.includeArchived)))
    {
      hide Exclusions, Excluded, ScopesOf;
      var scopes := ComposeFilters(req);
      if scopes.Err? { return Err(scopes.error); }
      var keys := ExcludedKeys(Db(), scopes.value, req.includeArchived);
      ExclusionsFollowKeys(Db(), keys);
      var sorted := InOrder(keys);
      var listed: seq<Exclusion> := [];
      for i := 0 to |sorted|
        invariant |listed| == i && forall j | 0 <= j < i :: listed[j] == Exclusions(Db(), keys)[j]
      {
        var row := entries[sorted[i]].record;
        var reason := if row.status.Deleted? then DeletedEntry else ArchivedPack;
        listed := listed + [Exclusion(row.id, sorted[i], row.revisionNo, reason)];
      }
      assert listed == Exclusions(Db(), keys);
      return Ok(listed);
    }

    // `compose_context`, but for the rendered text: query, grouping, exclusions and metrics.
    method ComposeContext(req: ComposeRequest) returns (r: Result<Composed>)
      ensures r == Compose.ComposeContext(Db(), req)
    {
      hide Grouped, Included, Excluded, Rows, Exclusions, ScopesOf;
      var scopes := ComposeFilters(req);
      if scopes.Err? { return Err(scopes.error); }
      ComposedKeys(Db(), scopes.value, req.includeArchived);
      var rows := CollectRows(Included(Db(), scopes.value, req.includeArchived));
      var sections := Group(rows);
      var exclusions := ListExclusions(req);
      var included := 0;
      for i := 0 to |sections|
        invariant included == CountEntries(sections[..i])
      {
        assert sections[..i + 1][..i] == sections[..i];
        included := included + |sections[i].entries|;
      }
      assert sections[..|sections|] == sections;
      return Ok(Composed(sections, exclusions.value, Metrics(included, |exclusions.value|)));
    }

    static lemma ComposedKeys(db: DB, scopes: set<ScopeRef>, includeArchived: bool)
      ensures Included(db, scopes, includeArchived) <= db.entries.Keys
      ensures Excluded(db, scopes, includeArchived) <= db.entries.Keys
    {
    }

    // The keys that the query for exclusions selects.
    static function ExcludedKeys(db: DB, scopes: set<ScopeRef>, includeArchived: bool): (keys: set<EntryKey>)
      ensures keys == Excluded(db, scopes, includeArchived) && keys <= db.entries.Keys
    {
      Excluded(db, scopes, includeArchived)
    }
  }
}
