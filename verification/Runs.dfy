/** Runs of the store: any sequence of operations, by any number of clients, in any order. */
module Runs {
  import opened Prelude
  import opened JsonTree
  import opened Model
  import opened Database
  import opened Operations
  import opened SourceImport
  import opened Bundles
  import opened Histories
  import opened Invariant
  import opened Growth
  import opened Writes
  import opened Governance

  datatype Op =
    | Put(put: PutRequest)
    | Delete(selector: Selector, actor: string)
    | Revert(selector: Selector, revisionNo: Option<int>, actor: string)
    | Create(create: CreatePackRequest)
    | Update(update: UpdatePackRequest)
    | Policy(mode: ReviewMode, metadata: Json, actor: string)
    | StartRun(run: RunInput)
    | Commit(id: string, actor: string, from: Option<RunInput>, proposals: seq<Proposal>)
    | Import(import_: ImportRequest)
    | Approve(reviewId: Id, actor: string, note: Option<string>)
    | Reject(reviewId: Id, actor: string, note: Option<string>)
    | Edit(reviewId: Id, fields: EditFields, actor: string)
    | EditAndApprove(reviewId: Id, fields: EditFields, actor: string, note: Option<string>)
    | Restore(bundle: Bundle, actor: string)

  function CommitOf(op: Op): CommitRequest
    requires op.Commit?
  {
    CommitRequest(ByClient(op.id), op.actor, op.from, op.proposals)
  }

  /** The tables after an operation; an operation that fails leaves them as they were. */
  function Step(db: DB, op: Op): DB {
    match op
    case Put(req) => PutEntry(db, req).After(db)
    case Delete(sel, actor) => DeleteEntry(db, sel, actor).After(db)
    case Revert(sel, no, actor) => RevertEntry(db, sel, no, actor).After(db)
    case Create(req) => CreatePack(db, req).After(db)
    case Update(req) => UpdatePack(db, req).After(db)
    case Policy(mode, metadata, actor) => SetPolicy(db, mode, metadata, actor).After(db)
    case StartRun(input) => EnsureRun(db, input).After(db)
    case Commit(_, _, _, _) => CommitWork(db, CommitOf(op), false).After(db)
    case Import(req) => ApplyImport(db, req).After(db)
    case Approve(id, actor, note) => ApproveReview(db, id, actor, note).After(db)
    case Reject(id, actor, note) => RejectReview(db, id, actor, note).After(db)
    case Edit(id, f, actor) => EditReview(db, id, f, actor).After(db)
    case EditAndApprove(id, f, actor, note) => EditAndApproveReview(db, id, f, actor, note).After(db)
    case Restore(b, actor) => ImportBundle(db, b, actor).After(db)
  }

  function Run(db: DB, ops: seq<Op>): DB {
    if ops == [] then db else Step(Run(db, ops[..|ops| - 1]), ops[|ops| - 1])
  }

  lemma RunLast(db: DB, ops: seq<Op>)
    requires ops != []
    ensures Run(db, ops) == Step(Run(db, ops[..|ops| - 1]), ops[|ops| - 1])
  {
    hide Step;
  }

  lemma {:induction false} RunAppend(db: DB, a: seq<Op>, b: seq<Op>)
    ensures Run(db, a + b) == Run(Run(db, a), b)
  {
    if b == [] {
      assert a + b == a;
    } else {
      var n := |b| - 1;
      assert (a + b)[..|a + b| - 1] == a + b[..n];
      RunAppend(db, a, b[..n]);
    }
  }

  // ---------- entry operations ----------

  lemma PutEntrySound(db: DB, req: PutRequest)
    requires Valid(db)
    ensures PutEntry(db, req).Done? ==> Sound(db, PutEntry(db, req).db)
  {
    NormalizeSettles(req.scope);
    if Normalize(req.scope).Ok? {
      var provenance := Or(req.entry.provenance, SystemProvenance(req.actor, "manual_put"));
      ApplyEntrySound(db, PackKey(Normalize(req.scope).value, req.packName), req.entry, req.actor, provenance, None, None, false);
    }
  }

  lemma DeleteEntrySound(db: DB, sel: Selector, actor: string)
    requires Valid(db)
    ensures DeleteEntry(db, sel, actor).Done? ==> Sound(db, DeleteEntry(db, sel, actor).db)
  {
    hide Select, DeleteRow, Valid, Grows;
    if Select(db, sel, actor).Ok? {
      SelectNormalized(db, sel, actor);
      DeleteRowSound(db, Select(db, sel, actor).value, actor);
    }
  }

  // The row at `key` shows the snapshot's content and status under the next revision number.
  ghost predicate Restores(db: DB, db': DB, key: EntryKey, snapshot: EntryRecord) {
    key in db'.entries && SameContent(InputOf(db'.entries[key].record), InputOf(snapshot)) &&
    db'.entries[key].record.status == snapshot.status && db'.entries[key].record.provenance == snapshot.provenance &&
    (key in db.entries ==> db'.entries[key].record.id == db.entries[key].record.id &&
                           db'.entries[key].record.revisionNo == db.entries[key].record.revisionNo + 1)
  }

  // A restore changes the one entry, and at most inserts its pack.
  ghost predicate RestoreFrame(db: DB, db': DB, key: EntryKey) {
    EntriesSameBut(db, db', key) && SamePacksBut(db, db', key.pack) && SameElsewhere(db, db') &&
    key.pack in db'.packs && db'.packs[key.pack].status.Open?
  }

  lemma FlipAfterWriteFrame(db: DB, db1: DB, key: EntryKey, entry: EntryInput, provenance: Provenance)
    requires WritesAt(db, db1, key, entry, provenance)
    ensures var db2 := FlipDeleted(db1, key);
            EntriesSameBut(db, db2, key) && SamePacksBut(db, db2, key.pack) && SameElsewhere(db, db2) && db2.packs == db1.packs &&
            db2.entries[key] == Flipped(db1.entries[key])
  {
    assert FlipDeleted(db1, key).entries == db.entries[key := Flipped(db1.entries[key])];
  }

  lemma FlipSound(db: DB, db1: DB, key: EntryKey)
    requires Sound(db, db1) && key in db1.entries
    requires key in db.entries ==> db1.entries[key].record.revisionNo > db.entries[key].record.revisionNo
    ensures Sound(db, FlipDeleted(db1, key))
  {
    FlipKeepsValid(db1, key);
    FlipAfterWrite(db, db1, key);
  }

  /** Restoring a snapshot writes the entry and, where the snapshot was deleted, flips it in the same transaction. */
  lemma RestoreSnapshotSound(db: DB, pack: PackKey, snapshot: EntryRecord, actor: string)
    requires Valid(db) && Normalized(pack.scope)
    ensures var t := RestoreSnapshot(db, pack, snapshot, actor);
            t.Done? ==> Sound(db, t.db) && RestoreFrame(db, t.db, EntryKey(pack, snapshot.key)) &&
                        Restores(db, t.db, EntryKey(pack, snapshot.key), snapshot)
  {
    hide ApplyEntry, Valid, Grows;
    var key := EntryKey(pack, snapshot.key);
    var a := ApplyEntry(db, pack, InputOf(snapshot), actor, snapshot.provenance, None, None, false);
    ApplyEntrySound(db, pack, InputOf(snapshot), actor, snapshot.provenance, None, None, false);
    if a.Done? && snapshot.status.Deleted? {
      FlipSound(db, a.db, key);
      FlipAfterWriteFrame(db, a.db, key, InputOf(snapshot), snapshot.provenance);
    }
  }

  lemma SelectNormalized(db: DB, sel: Selector, actor: string)
    ensures Select(db, sel, actor).Ok? ==> Normalized(Select(db, sel, actor).value.pack.scope) && Select(db, sel, actor).value in db.entries
  {
    NormalizeSettles(sel.scope);
  }

  lemma RevertEntrySound(db: DB, sel: Selector, no: Option<int>, actor: string)
    requires Valid(db)
    ensures RevertEntry(db, sel, no, actor).Done? ==> Sound(db, RevertEntry(db, sel, no, actor).db)
  {
    hide RestoreSnapshot, Select, Valid, Grows;
    if RevertTarget(db, sel, no, actor).Ok? {
      SelectNormalized(db, sel, actor);
      var target := RevertTarget(db, sel, no, actor).value;
      RestoreSnapshotSound(db, target.0, target.1, actor);
    }
  }

  // ---------- pack operations ----------

  lemma CreatePackSound(db: DB, req: CreatePackRequest)
    requires Valid(db)
    ensures CreatePack(db, req).Done? ==> Sound(db, CreatePack(db, req).db)
  {
    NormalizeSettles(req.scope);
    if Normalize(req.scope).Ok? {
      EnsurePackGrows(db, PackKey(Normalize(req.scope).value, req.name), req.actor, req.description, req.metadata, req.locked, req.lockReason);
    }
  }

  lemma UpdatePackSound(db: DB, req: UpdatePackRequest)
    requires Valid(db)
    ensures UpdatePack(db, req).Done? ==> Sound(db, UpdatePack(db, req).db)
  {
    hide Valid, Grows, ReplacePack, UpdatedPack, OnlyUnarchives;
    if Normalize(req.scope).Ok? {
      UpdateKnownPackSound(db, PackKey(Normalize(req.scope).value, req.name), req);
    }
  }

  lemma UpdateKnownPackSound(db: DB, key: PackKey, req: UpdatePackRequest)
    requires Valid(db)
    ensures key in db.packs ==>
              var t := ReplacePack(db, key, UpdatedPack(db.packs[key], req), req.actor, "update", "pack_update");
              t.Done? ==> Sound(db, t.db)
  {
    if key in db.packs {
      assert PackShape(key, db.packs[key], db.nextId);
      ReplacePackGrows(db, key, UpdatedPack(db.packs[key], req), req.actor, "update", "pack_update");
    }
  }

  // ---------- review operations ----------

  lemma ApplyProposedSound(db: DB, review: ReviewItem, actor: string, source: string, note: Option<string>)
    requires Valid(db) && Normalized(review.scope)
    ensures var t := ApplyProposed(db, review, actor, source, note);
            var key := KeyOf(review.scope, review.packName, review.proposed.key);
            t.Done? ==> Sound(db, t.db) && t.db.reviews == db.reviews && key.pack in t.db.packs && t.db.packs[key.pack].status.Open? &&
                        WritesAt(db, t.db, key, review.proposed, ApprovalProvenance(review, actor, source, note))
  {
    var provenance := ApprovalProvenance(review, actor, source, note);
    ApplyEntrySound(db, PackKey(review.scope, review.packName), review.proposed, actor, provenance,
                    Some(review.requestId), provenance.runId, false);
  }

  lemma SettleSound(db: DB, at: nat, review: ReviewItem, actor: string, action: string)
    requires Valid(db) && at < |db.reviews| && db.reviews[at].state.Pending? && SameCause(db.reviews[at], review)
    requires InputValid(review.proposed)
    ensures var t := Settle(db, at, review, actor, action);
            t.Done? ==> Sound(db, t.db) && OnlyReviewsChange(db, t.db) && t.db.nextId == db.nextId &&
                        t.db.reviews == db.reviews[at := t.value] && t.value == review.(revisionNo := t.value.revisionNo)
  {
    UpdateReviewSound(db, at, review, actor, action);
  }

  lemma PendingShape(db: DB, reviewId: Id, actor: string)
    requires Valid(db) && PendingReview(db, reviewId, actor).Ok?
    ensures var at := PendingReview(db, reviewId, actor).value;
            at < |db.reviews| && db.reviews[at].id == reviewId && db.reviews[at].state.Pending? &&
            ReviewShape(db.reviews[at], db.nextId)
  {
  }

  lemma ApproveSound(db: DB, id: Id, actor: string, note: Option<string>)
    requires Valid(db)
    ensures ApproveReview(db, id, actor, note).Done? ==> Sound(db, ApproveReview(db, id, actor, note).db)
  {
    if PendingReview(db, id, actor).Ok? {
      PendingShape(db, id, actor);
      var at := PendingReview(db, id, actor).value;
      ApproveAtSound(db, at, db.reviews[at], actor, "review_approve", "approve", note);
    }
  }

  lemma ApproveAtSound(db: DB, at: nat, review: ReviewItem, actor: string, source: string, action: string, note: Option<string>)
    requires Valid(db) && at < |db.reviews| && db.reviews[at].state.Pending? && SameCause(db.reviews[at], review)
    requires InputValid(review.proposed)
    ensures var a := ApplyProposed(db, review, actor, source, note);
            a.Done? ==> var t := Settle(a.db, at, review.(state := Approved, note := note), actor, action);
                        t.Done? ==> Sound(db, t.db)
  {
    assert ReviewShape(db.reviews[at], db.nextId);
    var a := ApplyProposed(db, review, actor, source, note);
    ApplyProposedSound(db, review, actor, source, note);
    if a.Done? {
      var t := Settle(a.db, at, review.(state := Approved, note := note), actor, action);
      SettleSound(a.db, at, review.(state := Approved, note := note), actor, action);
      if t.Done? { GrowsTransitive(db, a.db, t.db); }
    }
  }

  lemma RejectSound(db: DB, id: Id, actor: string, note: Option<string>)
    requires Valid(db)
    ensures RejectReview(db, id, actor, note).Done? ==> Sound(db, RejectReview(db, id, actor, note).db)
  {
    if PendingReview(db, id, actor).Ok? {
      PendingShape(db, id, actor);
      var at := PendingReview(db, id, actor).value;
      SettleSound(db, at, db.reviews[at].(state := Rejected, note := note), actor, "reject");
    }
  }

  lemma EditSound(db: DB, id: Id, f: EditFields, actor: string)
    requires Valid(db)
    ensures EditReview(db, id, f, actor).Done? ==> Sound(db, EditReview(db, id, f, actor).db)
  {
    if PendingReview(db, id, actor).Ok? {
      PendingShape(db, id, actor);
      var at := PendingReview(db, id, actor).value;
      if EditedReview(db, db.reviews[at], f).Ok? {
        UpdateReviewSound(db, at, EditedReview(db, db.reviews[at], f).value, actor, "edit");
      }
    }
  }

  lemma EditAndApproveSound(db: DB, id: Id, f: EditFields, actor: string, note: Option<string>)
    requires Valid(db)
    ensures EditAndApproveReview(db, id, f, actor, note).Done? ==> Sound(db, EditAndApproveReview(db, id, f, actor, note).db)
  {
    if PendingReview(db, id, actor).Ok? {
      PendingShape(db, id, actor);
      var at := PendingReview(db, id, actor).value;
      if EditedReview(db, db.reviews[at], f).Ok? {
        ApproveAtSound(db, at, EditedReview(db, db.reviews[at], f).value, actor, "review_edit_and_approve", "edit_and_approve", note);
      }
    }
  }

  // ---------- the bundle import ----------

  ghost predicate Moves(db: DB, db': DB) {
    Valid(db') && Advances(db, db')
  }

  lemma SoundMoves(db: DB, db': DB)
    requires Sound(db, db')
    ensures Moves(db, db')
  {
    GrowsAdvances(db, db');
  }

  lemma MovesTransitive(a: DB, b: DB, c: DB)
    requires Moves(a, b) && Moves(b, c)
    ensures Moves(a, c)
  {
    AdvancesTransitive(a, b, c);
  }

  lemma MovesReflexive(db: DB)
    requires Valid(db)
    ensures Moves(db, db)
  {
  }

  lemma ImportPackMoves(db: DB, p: PackRecord, actor: string)
    requires Valid(db)
    ensures ImportPack(db, p, actor).Done? ==> Moves(db, ImportPack(db, p, actor).db)
  {
    var t := ImportPack(db, p, actor);
    if t.Done? {
      NormalizeSettles(p.scope);
      var key := PackKey(Normalize(p.scope).value, p.name);
      if key in db.packs {
        assert PackShape(key, db.packs[key], db.nextId);
        ReplacePackGrows(db, key, db.packs[key].(description := p.description, metadata := p.metadata, status := p.status,
                                                 locked := p.locked, lockReason := KeptLockReason(p)),
                         actor, "import_update", "pack_import");
      } else {
        InsertPackGrows(db, key, actor, p.description, p.metadata, p.status, p.locked, KeptLockReason(p), "import_create", "pack_import");
      }
      SoundMoves(db, t.db);
    }
  }

  lemma ImportEntryMoves(db: DB, e: EntryRecord, actor: string)
    requires Valid(db)
    ensures ImportEntry(db, e, actor).Done? ==> Moves(db, ImportEntry(db, e, actor).db)
  {
    var t := ImportEntry(db, e, actor);
    if t.Done? {
      NormalizeSettles(e.scope);
      var pack := PackKey(Normalize(e.scope).value, e.packName);
      var a := ApplyEntry(db, pack, InputOf(e), actor, e.provenance, None, None, true);
      ApplyEntrySound(db, pack, InputOf(e), actor, e.provenance, None, None, true);
      if e.status.Deleted? {
        FlipKeepsValid(a.db, EntryKey(pack, e.key));
        FlipAfterWrite(db, a.db, EntryKey(pack, e.key));
      }
      SoundMoves(db, t.db);
    }
  }

  lemma ImportRunMoves(db: DB, r: RunRecord)
    requires Valid(db)
    ensures ImportRun(db, r).Done? ==> Moves(db, ImportRun(db, r).db)
  {
    var t := ImportRun(db, r);
    if t.Done? {
      IdsMoveOn(db, t.db);
      SoundMoves(db, t.db);
    }
  }

  lemma ReviewRowReplaced(reviews: seq<ReviewItem>, nextId: Id, at: nat, r: ReviewItem)
    requires ReviewRows(reviews, nextId) && at < |reviews| && reviews[at].id == r.id && ReviewShape(r, nextId)
    ensures ReviewRows(reviews[at := r], nextId)
  {
    hide ReviewShape;
  }

  lemma ReviewRowAppended(reviews: seq<ReviewItem>, nextId: Id, r: ReviewItem)
    requires ReviewRows(reviews, nextId) && ReviewShape(r, nextId) && forall i | 0 <= i < |reviews| :: reviews[i].id != r.id
    ensures ReviewRows(reviews + [r], nextId)
  {
    hide ReviewShape;
  }

  lemma ReviewRowsPut(reviews: seq<ReviewItem>, nextId: Id, r: ReviewItem, nextId': Id)
    requires ReviewRows(reviews, nextId) && nextId <= nextId' && ReviewShape(r, nextId')
    ensures var at := ReviewIndex(reviews, r.id);
            ReviewRows(if at.Some? then reviews[at.value := r] else reviews + [r], nextId')
  {
    ReviewRowsLater(reviews, nextId, nextId');
    hide ReviewRows, ReviewShape;
    var at := ReviewIndex(reviews, r.id);
    if at.Some? {
      ReviewRowReplaced(reviews, nextId', at.value, r);
    } else {
      ReviewRowAppended(reviews, nextId', r);
    }
  }

  lemma ReviewRowsLater(reviews: seq<ReviewItem>, nextId: Id, nextId': Id)
    requires ReviewRows(reviews, nextId) && nextId <= nextId'
    ensures ReviewRows(reviews, nextId')
  {
    forall i | 0 <= i < |reviews| ensures ReviewShape(reviews[i], nextId') { assert ReviewShape(reviews[i], nextId); }
  }

  lemma PutKeepsHistories(db: DB, r: Revision)
    requires Valid(db) && r.entity.ReviewEntity?
    ensures PackHistories(PutRevision(db.revisions, r), db.packs) && EntryHistories(PutRevision(db.revisions, r), db.entries)
    ensures PolicyHistory(PutRevision(db.revisions, r), db.policy)
  {
    forall k | k in db.packs ensures PackHistory(PutRevision(db.revisions, r), db.packs[k]) {
      HistoryPut(db.revisions, r, PackEntity, db.packs[k].id);
    }
    forall k | k in db.entries ensures EntryHistory(PutRevision(db.revisions, r), db.entries[k].record) {
      HistoryPut(db.revisions, r, EntryEntity, db.entries[k].record.id);
    }
    HistoryPut(db.revisions, r, PolicyEntity, POLICY_ID);
  }

  // An imported review and a revision of it are upserted; ids move past it.
  ghost predicate UpsertsReview(db: DB, db': DB, r: ReviewItem, actor: string) {
    ImportableReview(r) && Normalize(r.scope).Ok? && OnlyReviewsChange(db, db') && db'.nextId == Max(db.nextId, r.id + 1) &&
    db'.revisions == PutRevision(db.revisions, ReviewRevision(r, actor)) &&
    var at := ReviewIndex(db.reviews, r.id);
    db'.reviews == if at.Some? then db.reviews[at.value := StoredReview(r)] else db.reviews + [StoredReview(r)]
  }

  lemma ImportReviewFrame(db: DB, r: ReviewItem, actor: string)
    ensures ImportReview(db, r, actor).Done? ==> UpsertsReview(db, ImportReview(db, r, actor).db, r, actor)
  {
    hide PutRevision, InputValid, ReviewRevision, StoredReview, ReviewIndex;
  }

  lemma UpsertedShape(r: ReviewItem, nextId: Id)
    requires ImportableReview(r) && r.id < nextId
    ensures ReviewShape(StoredReview(r), nextId)
  {
    NormalizeSettles(r.scope);
  }

  lemma PutKeepsIds(revisions: seq<Revision>, r: Revision, nextId: Id, nextId': Id)
    requires RevisionIds(revisions, nextId) && nextId <= nextId' && r.entityId < nextId'
    ensures RevisionIds(PutRevision(revisions, r), nextId')
  {
  }

  lemma UpsertKeepsValid(db: DB, db': DB, r: ReviewItem, actor: string)
    requires Valid(db) && UpsertsReview(db, db', r, actor)
    ensures Valid(db')
  {
    UpsertedShape(r, db'.nextId);
    PutKeepsHistories(db, ReviewRevision(r, actor));
    PutKeepsIds(db.revisions, ReviewRevision(r, actor), db.nextId, db'.nextId);
    hide ImportableReview, ReviewShape, PutRevision, PackShape, EntryShape, Normalize, ReviewRevision;
    ReviewRowsPut(db.reviews, db.nextId, StoredReview(r), db'.nextId);
    PackRowsLater(db.packs, db.nextId, db'.nextId);
    EntryRowsUnderPacks(db.entries, db.packs, db.nextId, db.packs, db'.nextId);
  }

  lemma UpsertAdvances(db: DB, db': DB, r: ReviewItem, actor: string)
    requires UpsertsReview(db, db', r, actor)
    ensures Advances(db, db')
  {
    hide Normalize;
  }

  lemma ImportReviewMoves(db: DB, r: ReviewItem, actor: string)
    requires Valid(db)
    ensures ImportReview(db, r, actor).Done? ==> Moves(db, ImportReview(db, r, actor).db)
  {
    hide ImportReview, Valid, Advances, UpsertsReview;
    var t := ImportReview(db, r, actor);
    if t.Done? {
      ImportReviewFrame(db, r, actor);
      UpsertKeepsValid(db, t.db, r, actor);
      UpsertAdvances(db, t.db, r, actor);
    }
  }

  lemma {:induction false} ImportPacksMove(db: DB, packs: seq<PackRecord>, actor: string, n: nat)
    requires Valid(db) && n <= |packs|
    ensures ImportPacks(db, packs, actor, n).Done? ==> Moves(db, ImportPacks(db, packs, actor, n).db)
  {
    hide ImportPack, Valid, Advances;
    MovesReflexive(db);
    if n > 0 {
      ImportPacksMove(db, packs, actor, n - 1);
      var t := ImportPacks(db, packs, actor, n - 1);
      if t.Done? {
        ImportPackMoves(t.db, packs[n - 1], actor);
        var u := ImportPack(t.db, packs[n - 1], actor);
        if u.Done? { MovesTransitive(db, t.db, u.db); }
      }
    }
  }

  lemma {:induction false} ImportEntriesMove(db: DB, entries: seq<EntryRecord>, actor: string, n: nat)
    requires Valid(db) && n <= |entries|
    ensures ImportEntries(db, entries, actor, n).Done? ==> Moves(db, ImportEntries(db, entries, actor, n).db)
  {
    hide ImportEntry, Valid, Advances;
    MovesReflexive(db);
    if n > 0 {
      ImportEntriesMove(db, entries, actor, n - 1);
      var t := ImportEntries(db, entries, actor, n - 1);
      if t.Done? {
        ImportEntryMoves(t.db, entries[n - 1], actor);
        var u := ImportEntry(t.db, entries[n - 1], actor);
        if u.Done? { MovesTransitive(db, t.db, u.db); }
      }
    }
  }

  lemma {:induction false} ImportRunsMove(db: DB, runs: seq<RunRecord>, n: nat)
    requires Valid(db) && n <= |runs|
    ensures ImportRuns(db, runs, n).Done? ==> Moves(db, ImportRuns(db, runs, n).db)
  {
    hide ImportRun, Valid, Advances;
    MovesReflexive(db);
    if n > 0 {
      ImportRunsMove(db, runs, n - 1);
      var t := ImportRuns(db, runs, n - 1);
      if t.Done? {
        ImportRunMoves(t.db, runs[n - 1]);
        var u := ImportRun(t.db, runs[n - 1]);
        if u.Done? { MovesTransitive(db, t.db, u.db); }
      }
    }
  }

  lemma {:induction false} ImportReviewsMove(db: DB, reviews: seq<ReviewItem>, actor: string, n: nat)
    requires Valid(db) && n <= |reviews|
    ensures ImportReviews(db, reviews, actor, n).Done? ==> Moves(db, ImportReviews(db, reviews, actor, n).db)
  {
    hide ImportReview, Valid, Advances;
    MovesReflexive(db);
    if n > 0 {
      ImportReviewsMove(db, reviews, actor, n - 1);
      var t := ImportReviews(db, reviews, actor, n - 1);
      if t.Done? {
        ImportReviewMoves(t.db, reviews[n - 1], actor);
        var u := ImportReview(t.db, reviews[n - 1], actor);
        if u.Done? { MovesTransitive(db, t.db, u.db); }
      }
    }
  }

  lemma ImportBundleMoves(db: DB, b: Bundle, actor: string)
    requires Valid(db)
    ensures ImportBundle(db, b, actor).Done? ==> Moves(db, ImportBundle(db, b, actor).db)
  {
    var t := ImportBundle(db, b, actor);
    if t.Done? {
      var p := ImportPacks(db, b.packs, actor, |b.packs|);
      ImportPacksMove(db, b.packs, actor, |b.packs|);
      var e := ImportEntries(p.db, b.entries, actor, |b.entries|);
      ImportEntriesMove(p.db, b.entries, actor, |b.entries|);
      MovesTransitive(db, p.db, e.db);
      var r := ImportRuns(e.db, b.runs, |b.runs|);
      ImportRunsMove(e.db, b.runs, |b.runs|);
      MovesTransitive(db, e.db, r.db);
      ImportReviewsMove(r.db, b.reviews, actor, |b.reviews|);
      MovesTransitive(db, r.db, t.db);
    }
  }

  // ---------- whole runs ----------

  /** Every operation keeps the invariant; all but the bundle import only grow the tables. */
  lemma StepSound(db: DB, op: Op)
    requires Valid(db)
    ensures if op.Restore? then Moves(db, Step(db, op)) else Sound(db, Step(db, op))
  {
    hide Valid, Grows, Advances, PutEntry, DeleteEntry, RevertEntry, CreatePack, UpdatePack, SetPolicy, EnsureRun, CommitWork, ApplyImport,
         ApproveReview, RejectReview, EditReview, EditAndApproveReview, ImportBundle, AgentChange;
    GrowsReflexive(db);
    MovesReflexive(db);
    match op
    case Put(req) => PutEntrySound(db, req);
    case Delete(sel, actor) => DeleteEntrySound(db, sel, actor);
    case Revert(sel, no, actor) => RevertEntrySound(db, sel, no, actor);
    case Create(req) => CreatePackSound(db, req);
    case Update(req) => UpdatePackSound(db, req);
    case Policy(mode, metadata, actor) => SetPolicySound(db, mode, metadata, actor);
    case StartRun(input) => EnsureRunSound(db, input);
    case Commit(_, _, _, _) => CommitWorkSound(db, CommitOf(op), false);
    case Import(req) => ApplyImportSound(db, req);
    case Approve(id, actor, note) => ApproveSound(db, id, actor, note);
    case Reject(id, actor, note) => RejectSound(db, id, actor, note);
    case Edit(id, f, actor) => EditSound(db, id, f, actor);
    case EditAndApprove(id, f, actor, note) => EditAndApproveSound(db, id, f, actor, note);
    case Restore(b, actor) => ImportBundleMoves(db, b, actor);
  }

  lemma {:induction false} RunMoves(db: DB, ops: seq<Op>)
    requires Valid(db)
    ensures Moves(db, Run(db, ops))
  {
    hide Valid, Grows, Step;
    MovesReflexive(db);
    if ops != [] {
      var n := |ops| - 1;
      RunMoves(db, ops[..n]);
      var mid, end := Run(db, ops[..n]), Run(db, ops);
      StepSound(mid, ops[n]);
      if !ops[n].Restore? { SoundMoves(mid, end); }
      MovesTransitive(db, mid, end);
    }
  }

  ghost predicate NoRestore(ops: seq<Op>) {
    forall i | 0 <= i < |ops| :: !ops[i].Restore?
  }

  lemma {:induction false} RunGrows(db: DB, ops: seq<Op>)
    requires Valid(db) && NoRestore(ops)
    ensures Sound(db, Run(db, ops))
  {
    hide Valid, Grows, Step;
    if ops == [] {
      GrowsReflexive(db);
    } else {
      var n := |ops| - 1;
      RunGrows(db, ops[..n]);
      var mid, end := Run(db, ops[..n]), Run(db, ops);
      StepSound(mid, ops[n]);
      GrowsTransitive(db, mid, end);
    }
  }

  // ---------- one review ----------

  // A bundle import leaves alone the reviews that its bundle does not list.
  predicate Spares(op: Op, id: Id) {
    op.Restore? ==> forall i | 0 <= i < |op.bundle.reviews| :: op.bundle.reviews[i].id != id
  }

  predicate AllSpare(ops: seq<Op>, id: Id) {
    forall i | 0 <= i < |ops| :: Spares(ops[i], id)
  }

  lemma ImportPackKeepsReviews(db: DB, p: PackRecord, actor: string)
    ensures ImportPack(db, p, actor).Done? ==> ImportPack(db, p, actor).db.reviews == db.reviews
  {
    hide MaxRevision, Normalize;
  }

  lemma ImportEntryKeepsReviews(db: DB, e: EntryRecord, actor: string)
    ensures ImportEntry(db, e, actor).Done? ==> ImportEntry(db, e, actor).db.reviews == db.reviews
  {
    hide ApplyEntry, Normalize, RemoveDocs;
    if Normalize(e.scope).Ok? {
      ApplyEntryKeepsReviews(db, PackKey(Normalize(e.scope).value, e.packName), InputOf(e), actor, e.provenance);
    }
  }

  lemma ApplyEntryKeepsReviews(db: DB, pack: PackKey, entry: EntryInput, actor: string, provenance: Provenance)
    ensures var t := ApplyEntry(db, pack, entry, actor, provenance, None, None, true); t.Done? ==> t.db.reviews == db.reviews
  {
    hide EnsureDefaultPack, WriteEntry, InputValid, SamePacksBut, UpsertDoc, ContentHash, MaxRevision, WrittenRecord;
    EnsureDefaultPackFrame(db, pack, actor);
    var e := EnsureDefaultPack(db, pack, actor);
    if e.Done? { WriteEntryIs(e.db, EntryKey(pack, entry.key), e.value.id, entry, provenance, None, None); }
  }

  lemma {:induction false} ImportPacksKeepReviews(db: DB, packs: seq<PackRecord>, actor: string, n: nat)
    requires n <= |packs|
    ensures ImportPacks(db, packs, actor, n).Done? ==> ImportPacks(db, packs, actor, n).db.reviews == db.reviews
  {
    hide ImportPack;
    if n > 0 {
      ImportPacksKeepReviews(db, packs, actor, n - 1);
      var t := ImportPacks(db, packs, actor, n - 1);
      if t.Done? { ImportPackKeepsReviews(t.db, packs[n - 1], actor); }
    }
  }

  lemma {:induction false} ImportEntriesKeepReviews(db: DB, entries: seq<EntryRecord>, actor: string, n: nat)
    requires n <= |entries|
    ensures ImportEntries(db, entries, actor, n).Done? ==> ImportEntries(db, entries, actor, n).db.reviews == db.reviews
  {
    hide ImportEntry;
    if n > 0 {
      ImportEntriesKeepReviews(db, entries, actor, n - 1);
      var t := ImportEntries(db, entries, actor, n - 1);
      if t.Done? { ImportEntryKeepsReviews(t.db, entries[n - 1], actor); }
    }
  }

  lemma {:induction false} ImportRunsKeepReviews(db: DB, runs: seq<RunRecord>, n: nat)
    requires n <= |runs|
    ensures ImportRuns(db, runs, n).Done? ==> ImportRuns(db, runs, n).db.reviews == db.reviews
  {
    if n > 0 { ImportRunsKeepReviews(db, runs, n - 1); }
  }

  lemma {:induction false} ImportReviewsSpare(db: DB, reviews: seq<ReviewItem>, actor: string, n: nat, at: nat)
    requires n <= |reviews| && at < |db.reviews| && forall i | 0 <= i < n :: reviews[i].id != db.reviews[at].id
    ensures var t := ImportReviews(db, reviews, actor, n); t.Done? ==> at < |t.db.reviews| && t.db.reviews[at] == db.reviews[at]
  {
    hide PutRevision, ReviewRevision, StoredReview, ImportableReview;
    if n > 0 { ImportReviewsSpare(db, reviews, actor, n - 1, at); }
  }

  /** A bundle import keeps every review that its bundle does not list, where it is and as it is. */
  lemma ImportSpares(db: DB, b: Bundle, actor: string, at: nat)
    requires at < |db.reviews| && Spares(Restore(b, actor), db.reviews[at].id)
    ensures var t := ImportBundle(db, b, actor); t.Done? ==> at < |t.db.reviews| && t.db.reviews[at] == db.reviews[at]
  {
    hide ImportPacks, ImportEntries, ImportRuns, ImportReviews;
    var p := ImportPacks(db, b.packs, actor, |b.packs|);
    ImportPacksKeepReviews(db, b.packs, actor, |b.packs|);
    if p.Done? {
      var e := ImportEntries(p.db, b.entries, actor, |b.entries|);
      ImportEntriesKeepReviews(p.db, b.entries, actor, |b.entries|);
      if e.Done? {
        ImportRunsKeepReviews(e.db, b.runs, |b.runs|);
        var r := ImportRuns(e.db, b.runs, |b.runs|);
        if r.Done? { ImportReviewsSpare(r.db, b.reviews, actor, |b.reviews|, at); }
      }
    }
  }

  lemma StepKeepsReview(db: DB, op: Op, at: nat)
    requires Valid(db) && at < |db.reviews| && Spares(op, db.reviews[at].id)
    ensures at < |Step(db, op).reviews| && ReviewAdvances(db.reviews[at], Step(db, op).reviews[at])
  {
    if op.Restore? {
      RestoreStep(db, op);
      ImportSpares(db, op.bundle, op.actor, at);
      hide Step, ImportBundle, Valid;
    } else {
      hide Step, Valid, RowsAdvance;
      StepSound(db, op);
    }
  }

  lemma RestoreStep(db: DB, op: Op)
    requires op.Restore?
    ensures Step(db, op) == ImportBundle(db, op.bundle, op.actor).After(db)
  {
    hide ImportBundle;
  }

  /** Over a run whose bundle imports do not list it, a review stays in its place and changes only while it is pending. */
  lemma {:induction false} RunKeepsReview(db: DB, ops: seq<Op>, at: nat)
    requires Valid(db) && at < |db.reviews| && AllSpare(ops, db.reviews[at].id)
    ensures at < |Run(db, ops).reviews| && ReviewAdvances(db.reviews[at], Run(db, ops).reviews[at])
  {
    hide Valid, Step, Spares, Advances;
    if ops != [] {
      var n := |ops| - 1;
      RunKeepsReview(db, ops[..n], at);
      RunMoves(db, ops[..n]);
      StepKeepsReview(Run(db, ops[..n]), ops[n], at);
    }
  }
}
