/** What the operations do to the tables, where their own definitions leave it to be worked out. */
module Effects {
  import opened Prelude
  import opened JsonTree
  import opened Model
  import opened Database
  import opened Operations
  import opened Histories
  import opened Invariant
  import opened Growth
  import opened Writes
  import opened Governance
  import opened Runs

  // ---------- a commit item tells what happened ----------

  // What the item says about its proposal is so.
  ghost predicate Tells(db: DB, end: DB, key: EntryKey, entry: EntryInput, provenance: Provenance, item: CommitItem) {
    item.scope == key.pack.scope && item.packName == key.pack.name && item.entryKey == key.key &&
    match item.disposition
    case Applied => Writable(db, key, db.policy.mode) && WritesAt(db, end, key, entry, provenance) &&
                    item.entryId == Some(end.entries[key].record.id) && end.reviews == db.reviews
    case Held => end.entries == db.entries && item.reason.Some? && item.reason.value.Review? && item.reviewId.Some? &&
                 ReviewWaits(end, item.reviewId.value, key, entry, RecordOf(GetEntry(db, key)), item.reason.value.reason)
    case Duplicate => NothingWritten(db, end) && key in db.entries && db.entries[key].record.status.Active? &&
                      item.entryId == Some(db.entries[key].record.id)
    case Refused => NothingWritten(db, end) && item.entryId == IdOf(GetEntry(db, key)) &&
                    (item.reason == Some(Because(Error.Conflict)) ==> key.pack in db.packs && db.packs[key.pack].status.Archived?)
  }

  ghost predicate NothingWritten(db: DB, end: DB) {
    end.entries == db.entries && end.reviews == db.reviews
  }

  ghost predicate ReviewWaits(db: DB, id: Id, key: EntryKey, entry: EntryInput, existing: Option<EntryRecord>, reason: ReviewReason) {
    exists i | 0 <= i < |db.reviews| :: db.reviews[i].id == id && MatchesPending(db.reviews[i], key, entry, existing, reason)
  }

  lemma InsertedWaits(db: DB, requestId: RequestId, key: EntryKey, entry: EntryInput, existing: Option<EntryRecord>, reason: ReviewReason)
    requires Valid(db) && Reviewable(requestId, key, entry) && ExistingShape(existing)
    ensures var t := InsertReview(db, requestId, key, entry, existing, reason);
            t.Done? ==> OnlyReviewsChange(db, t.db) && ReviewWaits(t.db, t.value.id, key, entry, existing, reason)
  {
    InsertReviewSound(db, requestId, key, entry, existing, reason);
    var t := InsertReview(db, requestId, key, entry, existing, reason);
    hide Valid, Grows, InsertReview, MatchesPending;
    if t.Done? { assert t.db.reviews[|db.reviews|] == t.value; }
  }

  lemma FoundWaits(db: DB, key: EntryKey, entry: EntryInput, existing: Option<EntryRecord>, reason: ReviewReason)
    ensures var f := FindPending(db.reviews, key, entry, existing, reason);
            f.Some? ==> ReviewWaits(db, f.value.id, key, entry, existing, reason)
  {
    var f := FindPending(db.reviews, key, entry, existing, reason);
    if f.Some? {
      var i :| 0 <= i < |db.reviews| && db.reviews[i] == f.value;
    }
  }

  lemma ReusedWaits(db: DB, requestId: RequestId, key: EntryKey, entry: EntryInput, existing: Option<EntryRecord>, reason: ReviewReason, exact: bool)
    requires Valid(db) && Reviewable(requestId, key, entry) && ExistingShape(existing)
    ensures var t := InsertOrReuseReview(db, requestId, key, entry, existing, reason, exact);
            t.Done? ==> OnlyReviewsChange(db, t.db) && ReviewWaits(t.db, t.value.id, key, entry, existing, reason)
  {
    hide Valid, InsertReview, FindPending, ReviewWaits, Reviewable, ExistingShape;
    InsertedWaits(db, requestId, key, entry, existing, reason);
    FoundWaits(db, key, entry, existing, reason);
  }

  lemma ExistingIsShaped(db: DB, key: EntryKey)
    requires Valid(db)
    ensures ExistingShape(RecordOf(GetEntry(db, key)))
  {
    if key in db.entries { ExistingRowShape(db, key); }
  }

  lemma HoldTells(db: DB, requestId: RequestId, key: EntryKey, entry: EntryInput, provenance: Provenance, reason: ReviewReason, exact: bool)
    requires Valid(db) && Reviewable(requestId, key, entry)
    ensures var t := HoldForReview(db, requestId, key, entry, GetEntry(db, key), reason, exact);
            t.Done? ==> Tells(db, t.db, key, entry, provenance, t.value) && t.value.disposition.Held? && OnlyReviewsChange(db, t.db)
  {
    hide Valid, InsertOrReuseReview, ReviewWaits, WritesAt, Writable, ExistingShape, Reviewable;
    ExistingIsShaped(db, key);
    ReusedWaits(db, requestId, key, entry, RecordOf(GetEntry(db, key)), reason, exact);
  }

  lemma ApplyTells(db: DB, requestId: RequestId, runId: Option<RunId>, key: EntryKey, entry: EntryInput, actor: string, provenance: Provenance)
    requires Valid(db) && Reviewable(requestId, key, entry) && Writable(db, key, db.policy.mode)
    ensures var t := ApplyEntry(db, key.pack, entry, actor, provenance, Some(requestId), runId, false);
            t.Done? ==> Tells(db, t.db, key, entry, provenance, Item(key, Applied, None, Some(t.value.id), None))
  {
    ApplyEntrySound(db, key.pack, entry, actor, provenance, Some(requestId), runId, false);
    hide Valid, Grows, ApplyEntry, Writable;
  }

  lemma SettledTells(db: DB, key: EntryKey, entry: EntryInput, provenance: Provenance, exact: bool)
    ensures VerdictOn(db, key, entry, exact).Refuse? ==>
              Tells(db, db, key, entry, provenance, Item(key, Refused, Some(Because(Error.Conflict)), IdOf(GetEntry(db, key)), None))
    ensures VerdictOn(db, key, entry, exact).Skip? ==>
              Tells(db, db, key, entry, provenance, Item(key, Duplicate, None, IdOf(GetEntry(db, key)), None))
  {
    hide ContentHash, SameContent, WritesAt;
  }

  lemma GovernTells(db: DB, requestId: RequestId, runId: Option<RunId>, key: EntryKey, entry: EntryInput, actor: string,
                    provenance: Provenance, exact: bool)
    requires Valid(db) && Reviewable(requestId, key, entry)
    ensures var t := GovernProposal(db, requestId, runId, key, GetPack(db, key.pack), entry, actor, provenance, db.policy.mode, exact);
            t.Done? ==> Tells(db, t.db, key, entry, provenance, t.value)
  {
    hide Valid, Reviewable, Tells, HoldForReview, ApplyEntry, Decide, IsDuplicate, Writable;
    match VerdictOn(db, key, entry, exact)
    case Refuse => SettledTells(db, key, entry, provenance, exact);
    case Skip => SettledTells(db, key, entry, provenance, exact);
    case Hold(reason) => HoldTells(db, requestId, key, entry, provenance, reason, exact);
    case Apply =>
      DecideRespectsGovernance(db, key, IsDuplicate(GetEntry(db, key), entry, db.policy.mode, exact), db.policy.mode);
      ApplyTells(db, requestId, runId, key, entry, actor, provenance);
  }

  // A pack inserted first does not change what the item tells.
  lemma TellsOfBefore(db: DB, mid: DB, end: DB, key: EntryKey, entry: EntryInput, provenance: Provenance, item: CommitItem)
    requires SamePacksBut(db, mid, key.pack) && SameElsewhere(db, mid) && mid.entries == db.entries && key.pack in mid.packs
    requires Tells(mid, end, key, entry, provenance, item)
    ensures Tells(db, end, key, entry, provenance, item)
  {
    hide MatchesPending;
  }

  /**
   The item that a commit reports for a proposal tells the truth: applied means the entry was written, where an
   agent may write; held means a pending review of exactly this proposal over exactly this entry exists under the
   reported id; duplicate and refused mean that no entry and no review was touched.
   */
  lemma ItemTellsTruth(db: DB, requestId: RequestId, runId: Option<RunId>, pack: PackKey, entry: EntryInput, actor: string,
                       provenance: Provenance, exact: bool)
    requires Valid(db) && Reviewable(requestId, EntryKey(pack, entry.key), entry)
    ensures var t := CommitProposal(db, requestId, runId, pack, entry, actor, provenance, db.policy.mode, exact);
            t.Done? ==> Tells(db, t.db, EntryKey(pack, entry.key), entry, provenance, t.value)
  {
    hide Valid, GovernProposal, Tells, SamePacksBut;
    var key := EntryKey(pack, entry.key);
    if db.scan(ShownEntryWrite(key, actor, entry, provenance, Some(requestId), runId)) {
      SecretTells(db, key, entry, provenance);
    } else if exact {
      GovernTells(db, requestId, runId, key, entry, actor, provenance, exact);
    } else {
      var e := EnsureDefaultPack(db, pack, actor);
      EnsureDefaultPackSound(db, pack, actor);
      if e.Done? {
        ValidAfter(db, e.db);
        GovernTells(e.db, requestId, runId, key, entry, actor, provenance, exact);
        var t := GovernProposal(e.db, requestId, runId, key, Some(e.value), entry, actor, provenance, db.policy.mode, exact);
        if t.Done? { TellsOfBefore(db, e.db, t.db, key, entry, provenance, t.value); }
      }
    }
  }

  lemma SecretTells(db: DB, key: EntryKey, entry: EntryInput, provenance: Provenance)
    ensures Tells(db, db, key, entry, provenance, Item(key, Refused, Some(Because(SecretDetected)), IdOf(GetEntry(db, key)), None))
  {
  }

  lemma ValidAfter(db: DB, end: DB)
    requires Sound(db, end)
    ensures Valid(end)
  {
  }

  /** Sending a committed request again yields the same result and changes nothing. */
  lemma ResendIsIdempotent(db: DB, req: CommitRequest, exact: bool)
    requires Valid(db) && CommitWork(db, req, exact).Done?
    ensures var t := CommitWork(db, req, exact); CommitWork(t.db, req, exact) == Done(t.db, t.value)
  {
    CommitWorkSound(db, req, exact);
    hide CommitRun, CommitProposals, Summarize, Valid, AgentChange;
  }

  // ---------- entries, packs and the policy ----------

  /** A successful put writes exactly the entry given, under its own provenance or else the caller's. */
  lemma PutWrites(db: DB, req: PutRequest)
    requires Valid(db) && PutEntry(db, req).Done?
    ensures Normalize(req.scope).Ok?
    ensures var key := KeyOf(Normalize(req.scope).value, req.packName, req.entry.key); var end := PutEntry(db, req).db;
            WritesAt(db, end, key, req.entry,
                     if req.entry.provenance.Some? then req.entry.provenance.value else SystemProvenance(req.actor, "manual_put")) &&
            end.entries[key].record == PutEntry(db, req).value && end.packs[key.pack].status.Open?
  {
    hide ApplyEntry, Grows;
    NormalizeSettles(req.scope);
    var provenance := Or(req.entry.provenance, SystemProvenance(req.actor, "manual_put"));
    ApplyEntrySound(db, PackKey(Normalize(req.scope).value, req.packName), req.entry, req.actor, provenance, None, None, false);
  }

  /** A successful delete keeps everything of the entry but its status and provenance, and hides it from the index. */
  lemma DeleteHides(db: DB, sel: Selector, actor: string)
    requires Valid(db) && DeleteEntry(db, sel, actor).Done?
    ensures Select(db, sel, actor).Ok? && Select(db, sel, actor).value in db.entries
    ensures var key := Select(db, sel, actor).value; var end := DeleteEntry(db, sel, actor).db;
            EntriesSameBut(db, end, key) && end.packs == db.packs && SameElsewhere(db, end) &&
            var was, now := db.entries[key].record, end.entries[key].record;
            now == was.(status := Deleted, provenance := now.provenance, revisionNo := was.revisionNo + 1) &&
            forall i | 0 <= i < |end.fts| :: end.fts[i].entryId != was.id
  {
    hide Select, DeleteRow, Grows, Valid, SameElsewhere, EntriesSameBut;
    SelectNormalized(db, sel, actor);
    var key := Select(db, sel, actor).value;
    DeleteRowSound(db, key, actor);
    DeletedRowHidden(db, key, actor);
  }

  lemma DeletedRowHidden(db: DB, key: EntryKey, actor: string)
    requires Valid(db) && key in db.entries && DeleteRow(db, key, actor).Done?
    ensures var end := DeleteRow(db, key, actor).db;
            key in end.entries && forall i | 0 <= i < |end.fts| :: end.fts[i].entryId != db.entries[key].record.id
  {
    hide DeleteRow, Grows, Valid;
    DeleteRowSound(db, key, actor);
    ValidAfter(db, DeleteRow(db, key, actor).db);
    NoDocOfDeleted(DeleteRow(db, key, actor).db, key);
  }

  lemma NoDocOfDeleted(db: DB, key: EntryKey)
    requires Valid(db) && key in db.entries && db.entries[key].record.status.Deleted?
    ensures forall i | 0 <= i < |db.fts| :: db.fts[i].entryId != db.entries[key].record.id
  {
    forall i | 0 <= i < |db.fts| ensures db.fts[i].entryId != db.entries[key].record.id {
      assert DocOfActive(db.entries, db.fts[i]);
    }
  }

  // Every field of the update that is given is taken over, every other one stays.
  predicate TakesOver<T(==)>(given: Option<T>, was: T, now: T) {
    now == if given.Some? then given.value else was
  }

  /**
   A successful pack update takes over the fields given and keeps the others, drops the reason of a lock that is
   off, moves to the next revision, and leaves identity, entries and every other pack alone.
   */
  lemma PackUpdateIsPartial(db: DB, req: UpdatePackRequest)
    requires Valid(db) && UpdatePack(db, req).Done?
    ensures Normalize(req.scope).Ok?
    ensures var key := PackKey(Normalize(req.scope).value, req.name); var end := UpdatePack(db, req).db;
            key in db.packs && key in end.packs && end.entries == db.entries && end.packs == db.packs[key := end.packs[key]] &&
            var was, now := db.packs[key], end.packs[key];
            now.id == was.id && now.scope == was.scope && now.name == was.name && now.revisionNo == was.revisionNo + 1 &&
            TakesOver(req.status, was.status, now.status) && TakesOver(req.locked, was.locked, now.locked) &&
            TakesOver(req.metadata, was.metadata, now.metadata) &&
            (if req.description.Some? then now.description == req.description else now.description == was.description) &&
            (if !now.locked then now.lockReason.None?
             else now.lockReason == if req.lockReason.Some? then req.lockReason else was.lockReason)
  {
    hide MaxRevision, Normalize;
    var key := PackKey(Normalize(req.scope).value, req.name);
    StampOfPack(db, key);
  }

  lemma StampOfPack(db: DB, key: PackKey)
    requires Valid(db) && key in db.packs
    ensures MaxRevision(db.revisions, PackEntity, db.packs[key].id) == db.packs[key].revisionNo
  {
    assert PackHistory(db.revisions, db.packs[key]);
    MaxOfNumbered(db.revisions, PackEntity, db.packs[key].id);
  }

  /**
   A pack is created only under a new key, open, with the fields given and nothing else changed. A lock reason is
   stored even without a lock, although updates and imports drop it then.
   */
  lemma CreatedPack(db: DB, req: CreatePackRequest)
    requires Valid(db) && CreatePack(db, req).Done?
    ensures Normalize(req.scope).Ok?
    ensures var key := PackKey(Normalize(req.scope).value, req.name); var end := CreatePack(db, req).db;
            key !in db.packs && key in end.packs && end.packs == db.packs[key := end.packs[key]] && end.entries == db.entries &&
            end.packs[key] == PackRecord(db.nextId, key.scope, req.name, req.description, req.metadata, Open, req.locked, req.lockReason, 1)
  {
    hide MaxRevision, Normalize, EnsurePack, Valid;
    NoRevisionOfNew(db);
    CreatesPack(db, req);
    PackEnsured(db, PackKey(Normalize(req.scope).value, req.name), req.actor, req.description, req.metadata, req.locked, req.lockReason);
  }

  lemma CreatesPack(db: DB, req: CreatePackRequest)
    requires CreatePack(db, req).Done?
    ensures Normalize(req.scope).Ok?
    ensures var key := PackKey(Normalize(req.scope).value, req.name);
            key !in db.packs && CreatePack(db, req) == EnsurePack(db, key, req.actor, req.description, req.metadata, req.locked, req.lockReason)
  {
    hide EnsurePack, Normalize;
  }

  lemma PackEnsured(db: DB, key: PackKey, actor: string, description: Option<string>, metadata: Json, locked: bool, lockReason: Option<string>)
    requires key !in db.packs && EnsurePack(db, key, actor, description, metadata, locked, lockReason).Done?
    ensures var end := EnsurePack(db, key, actor, description, metadata, locked, lockReason).db;
            key in end.packs && end.packs == db.packs[key := end.packs[key]] && end.entries == db.entries &&
            end.packs[key] == PackRecord(db.nextId, key.scope, key.name, description, metadata, Open, locked, lockReason,
                                         MaxRevision(db.revisions, PackEntity, db.nextId) + 1)
  {
    hide MaxRevision;
  }

  lemma NoRevisionOfNew(db: DB)
    requires Valid(db)
    ensures MaxRevision(db.revisions, PackEntity, db.nextId) == 0
  {
    HistoryEmpty(db.revisions, PackEntity, db.nextId);
    MaxOfNumbered(db.revisions, PackEntity, db.nextId);
  }
}
