/** The life of a review item: one decision, at most one write, and the atomic edit-and-approve. */
module Reviews {
  import opened Prelude
  import opened JsonTree
  import opened Model
  import opened Database
  import opened Operations
  import opened Invariant
  import opened Growth
  import opened Writes
  import opened Runs
  import Text

  /** Approved and rejected are terminal: a settled review never changes again, unless a bundle import lists it. */
  lemma SettledForever(db: DB, ops: seq<Op>, i: nat)
    requires Valid(db) && i < |db.reviews| && AllSpare(ops, db.reviews[i].id) && !db.reviews[i].state.Pending?
    ensures i < |Run(db, ops).reviews| && Run(db, ops).reviews[i] == db.reviews[i]
  {
    hide Run, Valid;
    RunKeepsReview(db, ops, i);
  }

  /** While it is pending a review may be edited, but it stays about the same entry, proposed for the same reason. */
  lemma CauseForever(db: DB, ops: seq<Op>, i: nat)
    requires Valid(db) && i < |db.reviews| && AllSpare(ops, db.reviews[i].id)
    ensures i < |Run(db, ops).reviews| && SameCause(db.reviews[i], Run(db, ops).reviews[i])
  {
    hide Run, Valid;
    RunKeepsReview(db, ops, i);
  }

  // The review an operation approves when it succeeds, if it approves one.
  function Approves(db: DB, op: Op): Option<Id> {
    match op
    case Approve(id, actor, note) => if ApproveReview(db, id, actor, note).Done? then Some(id) else None
    case EditAndApprove(id, f, actor, note) => if EditAndApproveReview(db, id, f, actor, note).Done? then Some(id) else None
    case _ => None
  }

  /** Approving writes exactly the proposed entry, and settles the review. */
  lemma ApprovalWritesProposal(db: DB, id: Id, actor: string, note: Option<string>)
    requires Valid(db) && ApproveReview(db, id, actor, note).Done?
    ensures var at, end := ReviewIndex(db.reviews, id), ApproveReview(db, id, actor, note).db;
            at.Some? && at.value < |end.reviews| &&
            var r := db.reviews[at.value];
            r.state.Pending? && end.reviews == db.reviews[at.value := end.reviews[at.value]] &&
            end.reviews[at.value].state.Approved? && end.reviews[at.value].id == id && end.reviews[at.value].proposed == r.proposed &&
            ApprovalOf(db, end, r, ApprovalProvenance(r, actor, "review_approve", note))
  {
    PendingShape(db, id, actor);
    var at := PendingReview(db, id, actor).value;
    ApprovalAt(db, at, db.reviews[at], actor, "review_approve", "approve", note);
  }

  // The entry the review proposes is written, in a pack that takes writes, and no other entry changes.
  ghost predicate ApprovalOf(db: DB, end: DB, r: ReviewItem, provenance: Provenance) {
    var key := KeyOf(r.scope, r.packName, r.proposed.key);
    EntriesSameBut(db, end, key) && ShowsInput(end.entries[key].record, r.proposed, provenance) &&
    SamePacksBut(db, end, key.pack) && key.pack in end.packs && end.packs[key.pack].status.Open? && end.policy == db.policy
  }

  lemma ApprovalAt(db: DB, at: nat, review: ReviewItem, actor: string, source: string, action: string, note: Option<string>)
    requires Valid(db) && at < |db.reviews| && db.reviews[at].state.Pending? && SameCause(db.reviews[at], review)
    requires InputValid(review.proposed)
    ensures var a := ApplyProposed(db, review, actor, source, note);
            a.Done? ==> var t := Settle(a.db, at, review.(state := Approved, note := note), actor, action);
                        t.Done? ==> |t.db.reviews| == |db.reviews| && t.db.reviews == db.reviews[at := t.db.reviews[at]] &&
                                    t.db.reviews[at].state.Approved? && t.db.reviews[at].id == review.id &&
                                    t.db.reviews[at].proposed == review.proposed &&
                                    ApprovalOf(db, t.db, review, ApprovalProvenance(review, actor, source, note))
  {
    hide Valid, Grows, ApplyProposed, Settle, ApprovalProvenance;
    assert ReviewShape(db.reviews[at], db.nextId) by { ReviewAt(db, at); }
    var a := ApplyProposed(db, review, actor, source, note);
    ApplyProposedSound(db, review, actor, source, note);
    if a.Done? {
      SettleSound(a.db, at, review.(state := Approved, note := note), actor, action);
    }
  }

  lemma ReviewAt(db: DB, at: nat)
    requires Valid(db) && at < |db.reviews|
    ensures ReviewShape(db.reviews[at], db.nextId)
  {
  }

  /** Rejecting a review changes no entry, no pack and no document. */
  lemma RejectWritesNothing(db: DB, id: Id, actor: string, note: Option<string>)
    ensures RejectReview(db, id, actor, note).Done? ==> OnlyReviewsChange(db, RejectReview(db, id, actor, note).db)
  {
    hide MaxRevision;
  }

  /** Nor does editing one. */
  lemma EditWritesNothing(db: DB, id: Id, f: EditFields, actor: string)
    ensures EditReview(db, id, f, actor).Done? ==> OnlyReviewsChange(db, EditReview(db, id, f, actor).db)
  {
    hide MaxRevision, EditedEntry;
  }

  // ---------- at most one write ----------

  predicate Settled(db: DB, id: Id) {
    var at := ReviewIndex(db.reviews, id);
    at.Some? && !db.reviews[at.value].state.Pending?
  }

  function Approvals(db: DB, ops: seq<Op>, id: Id): nat {
    if ops == [] then 0 else
      var n := |ops| - 1;
      Approvals(db, ops[..n], id) + (if Approves(Run(db, ops[..n]), ops[n]) == Some(id) then 1 else 0)
  }

  lemma SettledKept(db: DB, end: DB, id: Id)
    requires Settled(db, id) && ReviewRows(end.reviews, end.nextId)
    requires var at := ReviewIndex(db.reviews, id).value; at < |end.reviews| && ReviewAdvances(db.reviews[at], end.reviews[at])
    ensures Settled(end, id)
  {
    hide ReviewShape;
    IndexUnique(end.reviews, end.nextId, ReviewIndex(db.reviews, id).value);
  }

  lemma SettledIsNotApproved(db: DB, op: Op, id: Id)
    requires Settled(db, id)
    ensures Approves(db, op) != Some(id)
  {
    hide ApplyProposed, Settle, EditedReview;
  }

  lemma SettledStays(db: DB, op: Op, id: Id)
    requires Valid(db) && Settled(db, id) && Spares(op, id)
    ensures Settled(Step(db, op), id) && Approves(db, op) != Some(id)
  {
    hide Step, Approves, Valid, Advances;
    StepMoves(db, op);
    ValidReviews(Step(db, op));
    StepKeepsReview(db, op, ReviewIndex(db.reviews, id).value);
    SettledKept(db, Step(db, op), id);
    SettledIsNotApproved(db, op, id);
  }

  lemma StepMoves(db: DB, op: Op)
    requires Valid(db)
    ensures Valid(Step(db, op))
  {
    hide Step, Valid, Advances, Grows;
    StepSound(db, op);
  }

  lemma IndexUnique(reviews: seq<ReviewItem>, nextId: Id, at: nat)
    requires ReviewRows(reviews, nextId) && at < |reviews|
    ensures ReviewIndex(reviews, reviews[at].id) == Some(at)
  {
  }

  lemma ApprovalSettles(db: DB, op: Op, id: Id)
    requires Valid(db) && Approves(db, op) == Some(id)
    ensures Settled(Step(db, op), id)
  {
    hide ApproveReview, EditAndApproveReview, ApprovalOf, Grows, Valid, ReviewRows;
    StepSound(db, op);
    var end := Step(db, op);
    ValidReviews(end);
    match op
    case Approve(_, actor, note) =>
      ApprovalWritesProposal(db, id, actor, note);
      IndexUnique(end.reviews, end.nextId, ReviewIndex(db.reviews, id).value);
    case EditAndApprove(_, f, actor, note) =>
      EditedApprovalWrites(db, id, f, actor, note);
      IndexUnique(end.reviews, end.nextId, ReviewIndex(db.reviews, id).value);
    case _ =>
  }

  /** The atomic edit-and-approve writes exactly the edited proposal. */
  lemma EditedApprovalWrites(db: DB, id: Id, f: EditFields, actor: string, note: Option<string>)
    requires Valid(db) && EditAndApproveReview(db, id, f, actor, note).Done?
    ensures var at, end := ReviewIndex(db.reviews, id), EditAndApproveReview(db, id, f, actor, note).db;
            at.Some? && at.value < |end.reviews| &&
            var r := db.reviews[at.value].(proposed := EditedEntry(db.reviews[at.value].proposed, f));
            db.reviews[at.value].state.Pending? && end.reviews == db.reviews[at.value := end.reviews[at.value]] &&
            end.reviews[at.value].state.Approved? && end.reviews[at.value].id == id &&
            ApprovalOf(db, end, r, ApprovalProvenance(r, actor, "review_edit_and_approve", note))
  {
    PendingShape(db, id, actor);
    hide Valid, ApplyProposed, Settle, ApprovalOf, ApprovalProvenance, InputValid, ReviewShape;
    var at := PendingReview(db, id, actor).value;
    var r := EditedReview(db, db.reviews[at], f).value;
    ApprovalAt(db, at, r, actor, "review_edit_and_approve", "edit_and_approve", note);
  }

  /** Over any run whose bundle imports do not list it a review is approved, and so writes its entry, at most once. */
  lemma {:induction false} ApprovedAtMostOnce(db: DB, ops: seq<Op>, id: Id)
    requires Valid(db) && AllSpare(ops, id)
    ensures Approvals(db, ops, id) <= (if Settled(db, id) then 0 else 1)
    ensures Approvals(db, ops, id) == 1 || Settled(db, id) ==> Settled(Run(db, ops), id)
  {
    hide Valid, Advances, Settled, Step, Approves, Spares;
    if ops != [] {
      var n := |ops| - 1;
      ApprovedAtMostOnce(db, ops[..n], id);
      RunMoves(db, ops[..n]);
      var mid := Run(db, ops[..n]);
      if Settled(mid, id) {
        SettledStays(mid, ops[n], id);
      } else if Approves(mid, ops[n]) == Some(id) {
        ApprovalSettles(mid, ops[n], id);
      }
    }
  }

  // ---------- edit-and-approve is edit, then approve ----------

  // The two databases are alike in everything that an entry write reads.
  ghost predicate AlikeForEntries(a: DB, b: DB) {
    a.scan == b.scan && a.packs == b.packs && a.entries == b.entries && a.fts == b.fts && a.nextId == b.nextId &&
    forall entity: EntityType, id: Id :: !entity.ReviewEntity? ==> MaxRevision(a.revisions, entity, id) == MaxRevision(b.revisions, entity, id)
  }

  lemma MaxRevisionAppend(revisions: seq<Revision>, r: Revision, entity: EntityType, id: Id)
    ensures MaxRevision(revisions + [r], entity, id) ==
            if r.entity == entity && r.entityId == id && r.no > MaxRevision(revisions, entity, id) then r.no
            else MaxRevision(revisions, entity, id)
  {
    assert (revisions + [r])[..|revisions|] == revisions;
  }

  lemma RecordAlike(a: DB, b: DB, entity: EntityType, id: Id, action: string, s: Snapshot, s': Snapshot,
                    p: Provenance, q: Provenance, requestId: Option<RequestId>, runId: Option<RunId>)
    requires AlikeForEntries(a, b) && !entity.ReviewEntity?
    ensures var ta := RecordRevision(a, entity, id, action, s, p, requestId, runId);
            var tb := RecordRevision(b, entity, id, action, s', q, requestId, runId);
            (p == q ==> (ta.Done? <==> tb.Done?)) && (ta.Done? && tb.Done? ==> ta.value == tb.value && AlikeForEntries(ta.db, tb.db))
  {
    var ta := RecordRevision(a, entity, id, action, s, p, requestId, runId);
    var tb := RecordRevision(b, entity, id, action, s', q, requestId, runId);
    if ta.Done? && tb.Done? {
      var ra, rb := ta.db.revisions[|a.revisions|], tb.db.revisions[|b.revisions|];
      forall e: EntityType, i: Id | !e.ReviewEntity?
        ensures MaxRevision(ta.db.revisions, e, i) == MaxRevision(tb.db.revisions, e, i)
      {
        MaxRevisionAppend(a.revisions, ra, e, i);
        MaxRevisionAppend(b.revisions, rb, e, i);
      }
    }
  }

  lemma EnsurePackAlike(a: DB, b: DB, key: PackKey, actor: string)
    requires AlikeForEntries(a, b)
    ensures var ta, tb := EnsureDefaultPack(a, key, actor), EnsureDefaultPack(b, key, actor);
            (ta.Done? <==> tb.Done?) && (ta.Done? ==> ta.value == tb.value && AlikeForEntries(ta.db, tb.db))
  {
    hide MaxRevision, RecordRevision;
    if key !in a.packs {
      var record := PackRecord(a.nextId, key.scope, key.name, None, EMPTY_OBJECT, Open, false, None, 0);
      RecordAlike(a.(nextId := a.nextId + 1), b.(nextId := b.nextId + 1), PackEntity, record.id, "create",
                  PackSnapshot(record), PackSnapshot(record), SystemProvenance(actor, "pack_create"),
                  SystemProvenance(actor, "pack_create"), None, None);
    }
  }

  // The outcome of two writes at `key` that differ at most in the provenance they store.
  ghost predicate AlikeUpTo(a: DB, b: DB, key: EntryKey, p: Provenance, q: Provenance) {
    key in a.entries && a.entries[key].record.provenance == p &&
    AlikeForEntries(a.(entries := a.entries[key := WithProvenance(a.entries[key], q)]), b)
  }

  function WithProvenance(row: EntryRow, q: Provenance): EntryRow {
    row.(record := row.record.(provenance := q))
  }

  lemma RowWrittenAlike(a: DB, b: DB, key: EntryKey, row: EntryRow, q: Provenance)
    requires AlikeForEntries(a, b)
    ensures var row' := WithProvenance(row, q);
            AlikeUpTo(a.(entries := a.entries[key := row], fts := UpsertDoc(a.fts, row.record)),
                      b.(entries := b.entries[key := row'], fts := UpsertDoc(b.fts, row'.record)), key, row.record.provenance, q)
  {
    hide MaxRevision, RemoveDocs;
    assert a.entries[key := row][key := WithProvenance(row, q)] == b.entries[key := WithProvenance(row, q)];
  }

  lemma WriteEntryAlike(a: DB, b: DB, key: EntryKey, packId: Id, entry: EntryInput, p: Provenance, q: Provenance,
                        requestId: Option<RequestId>, runId: Option<RunId>)
    requires AlikeForEntries(a, b)
    ensures var ta, tb := WriteEntry(a, key, packId, entry, p, requestId, runId), WriteEntry(b, key, packId, entry, q, requestId, runId);
            (p == q ==> (ta.Done? <==> tb.Done?)) && (ta.Done? && tb.Done? ==> AlikeUpTo(ta.db, tb.db, key, p, q))
  {
    hide MaxRevision, RecordRevision, UpsertDoc, ContentHash, AlikeUpTo;
    var record := WrittenRecord(a, key, entry, p);
    var update := key in a.entries;
    var action := if update then "update" else "create";
    var a0 := if update then a else a.(nextId := a.nextId + 1);
    var b0 := if update then b else b.(nextId := b.nextId + 1);
    var s, s' := EntrySnapshot(record), EntrySnapshot(WrittenRecord(b, key, entry, q));
    RecordAlike(a0, b0, EntryEntity, record.id, action, s, s', p, q, requestId, runId);
    var ra := RecordRevision(a0, EntryEntity, record.id, action, s, p, requestId, runId);
    var rb := RecordRevision(b0, EntryEntity, record.id, action, s', q, requestId, runId);
    if ra.Done? && rb.Done? {
      var row := EntryRow(record.(revisionNo := ra.value), if update then a.entries[key].packId else packId, ContentHash(entry));
      RowWrittenAlike(ra.db, rb.db, key, row, q);
    }
  }

  /** An entry write does not see the review table or its revisions. */
  lemma ApplyEntryAlike(a: DB, b: DB, pack: PackKey, entry: EntryInput, actor: string, p: Provenance, q: Provenance,
                        requestId: Option<RequestId>, runId: Option<RunId>)
    requires AlikeForEntries(a, b)
    ensures var ta := ApplyEntry(a, pack, entry, actor, p, requestId, runId, false);
            var tb := ApplyEntry(b, pack, entry, actor, q, requestId, runId, false);
            (p == q ==> (ta.Done? <==> tb.Done?)) &&
            (ta.Done? && tb.Done? ==> AlikeUpTo(ta.db, tb.db, EntryKey(pack, entry.key), p, q))
  {
    hide MaxRevision, EnsureDefaultPack, WriteEntry, AlikeUpTo;
    EnsurePackAlike(a, b, pack, actor);
    var ea, eb := EnsureDefaultPack(a, pack, actor), EnsureDefaultPack(b, pack, actor);
    if ea.Done? {
      WriteEntryAlike(ea.db, eb.db, EntryKey(pack, entry.key), ea.value.id, entry, p, q, requestId, runId);
    }
  }

  lemma UpdateReviewAlike(db: DB, at: nat, record: ReviewItem, actor: string, action: string)
    requires at < |db.reviews|
    ensures UpdateReview(db, at, record, actor, action).Done? ==> AlikeForEntries(UpdateReview(db, at, record, actor, action).db, db)
  {
    var t := UpdateReview(db, at, record, actor, action);
    if t.Done? {
      forall e: EntityType, i: Id | !e.ReviewEntity? ensures MaxRevision(t.db.revisions, e, i) == MaxRevision(db.revisions, e, i) {
        MaxRevisionAppend(db.revisions, t.db.revisions[|db.revisions|], e, i);
      }
    }
  }

  // Packs, entries, documents and ids agree, but for the provenance stored at `key`.
  ghost predicate SameStoreUpTo(a: DB, b: DB, key: EntryKey, p: Provenance, q: Provenance) {
    a.packs == b.packs && a.fts == b.fts && a.nextId == b.nextId && key in a.entries && a.entries[key].record.provenance == p &&
    b.entries == a.entries[key := WithProvenance(a.entries[key], q)]
  }

  lemma ApproveAlike(a: DB, b: DB, at: nat, ra: ReviewItem, rb: ReviewItem, actor: string, s: string, s': string,
                     act: string, act': string, note: Option<string>)
    requires AlikeForEntries(a, b) && ra.proposed == rb.proposed && ra.requestId == rb.requestId && ra.scope == rb.scope && ra.packName == rb.packName
    ensures var ta, tb := ApplyProposed(a, ra, actor, s, note), ApplyProposed(b, rb, actor, s', note);
            var p, q := ApprovalProvenance(ra, actor, s, note), ApprovalProvenance(rb, actor, s', note);
            ta.Done? && tb.Done? ==>
              var ua, ub := Settle(ta.db, at, ra.(state := Approved, note := note), actor, act),
                            Settle(tb.db, at, rb.(state := Approved, note := note), actor, act');
              ua.Done? && ub.Done? ==> SameStoreUpTo(ua.db, ub.db, KeyOf(ra.scope, ra.packName, ra.proposed.key), p, q)
  {
    hide MaxRevision, ApplyEntry;
    var p, q := ApprovalProvenance(ra, actor, s, note), ApprovalProvenance(rb, actor, s', note);
    assert p.runId == q.runId;
    ApplyEntryAlike(a, b, PackKey(ra.scope, ra.packName), ra.proposed, actor, p, q, Some(ra.requestId), p.runId);
  }

  /**
   The atomic edit-and-approve reaches the packs, entries, documents and ids that editing and then approving
   reaches, up to the fallback provenance, which only a proposal without provenance of its own receives.
   */
  lemma EditAndApproveIsEditThenApprove(db: DB, id: Id, f: EditFields, actor: string, note: Option<string>)
    requires Valid(db)
    requires EditReview(db, id, f, actor).Done? && ApproveReview(EditReview(db, id, f, actor).db, id, actor, note).Done?
    requires EditAndApproveReview(db, id, f, actor, note).Done?
    ensures var two := ApproveReview(EditReview(db, id, f, actor).db, id, actor, note).db;
            var one := EditAndApproveReview(db, id, f, actor, note).db;
            var at := ReviewIndex(db.reviews, id);
            at.Some? &&
            var r := db.reviews[at.value].(proposed := EditedEntry(db.reviews[at.value].proposed, f));
            var p, q := ApprovalProvenance(r, actor, "review_approve", note), ApprovalProvenance(r, actor, "review_edit_and_approve", note);
            SameStoreUpTo(two, one, KeyOf(r.scope, r.packName, r.proposed.key), p, q) &&
            (r.proposed.provenance.Some? ==> one.entries == two.entries)
  {
    hide Valid, ReviewShape, InputValid, EditedEntry, ApplyProposed, Settle, UpdateReview, AlikeForEntries;
    PendingShape(db, id, actor);
    var at := PendingReview(db, id, actor).value;
    var r := EditedReview(db, db.reviews[at], f).value;
    var e := EditReview(db, id, f, actor);
    EditedIsPending(db, id, f, actor);
    UpdateReviewAlike(db, at, r, actor, "edit");
    ApproveAlike(e.db, db, at, e.db.reviews[at], r, actor, "review_approve", "review_edit_and_approve", "approve", "edit_and_approve", note);
  }

  /** After an edit the review is found where it was, pending, showing the edited proposal. */
  lemma EditedIsPending(db: DB, id: Id, f: EditFields, actor: string)
    requires Valid(db) && EditReview(db, id, f, actor).Done?
    ensures var e := EditReview(db, id, f, actor).db; var at := PendingReview(db, id, actor);
            at.Ok? && PendingReview(e, id, actor) == at && at.value < |e.reviews| && EditedReview(db, db.reviews[at.value], f).Ok? &&
            e.reviews[at.value] == EditedReview(db, db.reviews[at.value], f).value.(revisionNo := e.reviews[at.value].revisionNo)
  {
    hide UpdateReview, EditedEntry, Grows, Valid, OnlyReviewsChange;
    PendingShape(db, id, actor);
    var at := PendingReview(db, id, actor).value;
    var r := EditedReview(db, db.reviews[at], f).value;
    var e := UpdateReview(db, at, r, actor, "edit").db;
    EditedCause(db, db.reviews[at], f);
    UpdateReviewSound(db, at, r, actor, "edit");
    ValidReviews(e);
    hide ReviewRows, EditedReview;
    IndexUnique(e.reviews, e.nextId, at);
  }

  lemma EditedCause(db: DB, review: ReviewItem, f: EditFields)
    ensures var r := EditedReview(db, review, f);
            r.Ok? ==> SameCause(review, r.value) && InputValid(r.value.proposed) && r.value.state == review.state
  {
    hide InputValid;
  }

  lemma ValidReviews(db: DB)
    requires Valid(db)
    ensures ReviewRows(db.reviews, db.nextId)
  {
  }

  // ---------- when the steps succeed ----------

  predicate TakesEntry(db: DB, pack: PackKey, entry: EntryInput, actor: string) {
    !Text.Blank(actor) && !Text.Blank(pack.name) && InputValid(entry) && (pack in db.packs ==> db.packs[pack].status.Open?)
  }

  // What an entry write shows the scanner, with the pack it may have to create.
  function EntryRecords(db: DB, pack: PackKey, entry: EntryInput, actor: string, p: Provenance,
                        requestId: Option<RequestId>, runId: Option<RunId>): set<Write>
  {
    {ShownEntryWrite(EntryKey(pack, entry.key), actor, entry, p, requestId, runId),
     RevisionMetadata(ShowProvenance(p), Shown(requestId), runId)} +
    if pack in db.packs then {} else PackRecords(pack, actor)
  }

  function PackRecords(pack: PackKey, actor: string): set<Write> {
    {PackWrite(pack.scope, pack.name, actor, None, EMPTY_OBJECT, None),
     RevisionMetadata(ShowProvenance(SystemProvenance(actor, "pack_create")), Shown(None), None)}
  }

  function TransitionRecords(r: ReviewItem, actor: string, action: string): set<Write> {
    {ReviewTransition(r, actor), RevisionMetadata(ShowProvenance(SystemProvenance(actor, "review_" + action)), Shown(Some(r.requestId)), None)}
  }

  predicate Passes(db: DB, shown: set<Write>) {
    forall w | w in shown :: !db.scan(w)
  }

  lemma PassesBoth(db: DB, a: set<Write>, b: set<Write>)
    ensures Passes(db, a + b) <==> Passes(db, a) && Passes(db, b)
  {
  }

  lemma EnsurePackSucceeds(db: DB, pack: PackKey, actor: string)
    requires !Text.Blank(pack.name)
    ensures var e := EnsureDefaultPack(db, pack, actor);
            (e.Done? <==> pack in db.packs || Passes(db, PackRecords(pack, actor))) &&
            (e.Done? ==> e.db.scan == db.scan && e.value.status == (if pack in db.packs then db.packs[pack].status else Open))
  {
    hide MaxRevision;
  }

  lemma WriteEntrySucceeds(db: DB, key: EntryKey, packId: Id, entry: EntryInput, p: Provenance,
                           requestId: Option<RequestId>, runId: Option<RunId>)
    ensures WriteEntry(db, key, packId, entry, p, requestId, runId).Done? <==> !db.scan(RevisionMetadata(ShowProvenance(p), Shown(requestId), runId))
  {
    hide MaxRevision, ContentHash, UpsertDoc;
  }

  lemma ApplyEntrySucceeds(db: DB, pack: PackKey, entry: EntryInput, actor: string, p: Provenance,
                           requestId: Option<RequestId>, runId: Option<RunId>)
    ensures ApplyEntry(db, pack, entry, actor, p, requestId, runId, false).Done? <==>
            TakesEntry(db, pack, entry, actor) && Passes(db, EntryRecords(db, pack, entry, actor, p, requestId, runId))
  {
    hide EnsureDefaultPack, WriteEntry, InputValid;
    if !Text.Blank(pack.name) {
      var e := EnsureDefaultPack(db, pack, actor);
      EnsurePackSucceeds(db, pack, actor);
      if e.Done? { WriteEntrySucceeds(e.db, EntryKey(pack, entry.key), e.value.id, entry, p, requestId, runId); }
    }
  }

  // Everything that approving a review shows.
  function ApprovalRecords(db: DB, r: ReviewItem, actor: string, source: string, action: string, note: Option<string>): set<Write> {
    var p, settled := ApprovalProvenance(r, actor, source, note), r.(state := Approved, note := note);
    EntryRecords(db, PackKey(r.scope, r.packName), r.proposed, actor, p, Some(r.requestId), p.runId) +
    ({ReviewWrite(settled)} + TransitionRecords(settled, actor, action))
  }

  lemma SettleSucceeds(db: DB, at: nat, r: ReviewItem, actor: string, action: string)
    requires at < |db.reviews| && !Text.Blank(actor)
    ensures Settle(db, at, r, actor, action).Done? <==> Passes(db, {ReviewWrite(r)} + TransitionRecords(r, actor, action))
  {
    hide MaxRevision;
  }

  lemma ApprovalSucceeds(db: DB, at: nat, r: ReviewItem, actor: string, source: string, action: string, note: Option<string>)
    requires Valid(db) && at < |db.reviews| && SameCause(db.reviews[at], r) && InputValid(r.proposed)
    ensures var a := ApplyProposed(db, r, actor, source, note);
            a.Done? && Settle(a.db, at, r.(state := Approved, note := note), actor, action).Done? <==>
            TakesEntry(db, PackKey(r.scope, r.packName), r.proposed, actor) && Passes(db, ApprovalRecords(db, r, actor, source, action, note))
  {
    var p, settled := ApprovalProvenance(r, actor, source, note), r.(state := Approved, note := note);
    ReviewAt(db, at);
    ApplyEntrySucceeds(db, PackKey(r.scope, r.packName), r.proposed, actor, p, Some(r.requestId), p.runId);
    ApplyProposedSound(db, r, actor, source, note);
    hide Valid, Grows, ApplyEntry, Settle, EntryRecords, TransitionRecords, EntriesSameBut, SamePacksBut, ShowsInput, InputValid, Passes;
    var shown, more := EntryRecords(db, PackKey(r.scope, r.packName), r.proposed, actor, p, Some(r.requestId), p.runId),
                       {ReviewWrite(settled)} + TransitionRecords(settled, actor, action);
    PassesBoth(db, shown, more);
    var a := ApplyProposed(db, r, actor, source, note);
    if a.Done? {
      SettleSucceeds(a.db, at, settled, actor, action);
      SamePasses(db, a.db, more);
    }
  }

  lemma SamePasses(a: DB, b: DB, shown: set<Write>)
    requires b.scan == a.scan
    ensures Passes(a, shown) <==> Passes(b, shown)
  {
  }

  // The review as an edit leaves it, before its revision number is known.
  function EditedRow(db: DB, at: nat, f: EditFields): ReviewItem
    requires at < |db.reviews|
  {
    db.reviews[at].(proposed := EditedEntry(db.reviews[at].proposed, f))
  }

  lemma RowCause(db: DB, at: nat, f: EditFields)
    requires at < |db.reviews|
    ensures SameCause(db.reviews[at], EditedRow(db, at, f))
  {
  }

  // The pending review that an actor can decide on, edited.
  ghost predicate CanApproveEdited(db: DB, id: Id, f: EditFields, actor: string) {
    PendingReview(db, id, actor).Ok? &&
    var r := EditedRow(db, PendingReview(db, id, actor).value, f);
    TakesEntry(db, PackKey(r.scope, r.packName), r.proposed, actor)
  }

  // What the one step shows the scanner, and what the two steps show it.
  function OneStepRecords(db: DB, at: nat, f: EditFields, actor: string, note: Option<string>): set<Write>
    requires at < |db.reviews|
  {
    var r := EditedRow(db, at, f);
    {ReviewWrite(r)} + ApprovalRecords(db, r, actor, "review_edit_and_approve", "edit_and_approve", note)
  }

  function TwoStepRecords(db: DB, at: nat, f: EditFields, actor: string, note: Option<string>): set<Write>
    requires at < |db.reviews|
  {
    var r := EditedRow(db, at, f);
    var renumbered := r.(revisionNo := MaxRevision(db.revisions, ReviewEntity, r.id) + 1);
    {ReviewWrite(r)} + TransitionRecords(r, actor, "edit") + ApprovalRecords(db, renumbered, actor, "review_approve", "approve", note)
  }

  lemma OneStepSucceeds(db: DB, at: nat, id: Id, f: EditFields, actor: string, note: Option<string>)
    requires Valid(db) && PendingReview(db, id, actor) == Ok(at) && at < |db.reviews|
    ensures EditAndApproveReview(db, id, f, actor, note).Done? <==>
            CanApproveEdited(db, id, f, actor) && Passes(db, OneStepRecords(db, at, f, actor, note))
  {
    hide Valid, ApplyProposed, Settle, ApprovalRecords, InputValid, EditedEntry, Text.Blank;
    var r := EditedRow(db, at, f);
    RowCause(db, at, f);
    if InputValid(r.proposed) {
      ApprovalSucceeds(db, at, r, actor, "review_edit_and_approve", "edit_and_approve", note);
      PassesBoth(db, {ReviewWrite(r)}, ApprovalRecords(db, r, actor, "review_edit_and_approve", "edit_and_approve", note));
    }
  }

  lemma EditSucceeds(db: DB, at: nat, id: Id, f: EditFields, actor: string)
    requires PendingReview(db, id, actor) == Ok(at) && at < |db.reviews|
    ensures var r := EditedRow(db, at, f); var e := EditReview(db, id, f, actor);
            (e.Done? <==> InputValid(r.proposed) && Passes(db, {ReviewWrite(r)} + TransitionRecords(r, actor, "edit"))) &&
            (e.Done? ==> |e.db.reviews| == |db.reviews| && e.db.scan == db.scan && e.db.packs == db.packs &&
                         e.db.reviews[at] == r.(revisionNo := MaxRevision(db.revisions, ReviewEntity, r.id) + 1))
  {
    hide MaxRevision, InputValid, EditedEntry;
  }

  lemma SameApprovalRecords(a: DB, b: DB, r: ReviewItem, actor: string, source: string, action: string, note: Option<string>)
    requires a.packs == b.packs
    ensures ApprovalRecords(a, r, actor, source, action, note) == ApprovalRecords(b, r, actor, source, action, note)
  {
  }

  lemma TwoStepsSucceed(db: DB, at: nat, id: Id, f: EditFields, actor: string, note: Option<string>)
    requires Valid(db) && PendingReview(db, id, actor) == Ok(at) && at < |db.reviews|
    ensures EditReview(db, id, f, actor).Done? && ApproveReview(EditReview(db, id, f, actor).db, id, actor, note).Done? <==>
            CanApproveEdited(db, id, f, actor) && Passes(db, TwoStepRecords(db, at, f, actor, note))
  {
    hide MaxRevision, Valid, ApplyProposed, Settle, ApprovalRecords, TransitionRecords, InputValid, EditedEntry, Passes, Text.Blank, EditReview;
    var r, e := EditedRow(db, at, f), EditReview(db, id, f, actor);
    var renumbered := r.(revisionNo := MaxRevision(db.revisions, ReviewEntity, r.id) + 1);
    EditSucceeds(db, at, id, f, actor);
    PassesBoth(db, {ReviewWrite(r)} + TransitionRecords(r, actor, "edit"), ApprovalRecords(db, renumbered, actor, "review_approve", "approve", note));
    if e.Done? {
      EditedIsPending(db, id, f, actor);
      StepValid(db, id, f, actor);
      ApprovalSucceeds(e.db, at, renumbered, actor, "review_approve", "approve", note);
      SameApprovalRecords(db, e.db, renumbered, actor, "review_approve", "approve", note);
      SamePasses(db, e.db, ApprovalRecords(db, renumbered, actor, "review_approve", "approve", note));
    }
  }

  lemma StepValid(db: DB, id: Id, f: EditFields, actor: string)
    requires Valid(db) && EditReview(db, id, f, actor).Done?
    ensures Valid(EditReview(db, id, f, actor).db)
  {
    hide EditReview;
    StepSound(db, Edit(id, f, actor));
  }

  ghost predicate Silent(scan: Scanner) {
    forall w: Write :: !scan(w)
  }

  /**
   The one step succeeds exactly if the edited review can be approved by the actor and the scanner passes what
   the step shows it; so do the two steps, with what they show it; and where the scanner finds nothing at all,
   the one step succeeds exactly if the two do.
   */
  lemma EditAndApproveSucceedsTogether(db: DB, id: Id, f: EditFields, actor: string, note: Option<string>)
    requires Valid(db)
    ensures var one := EditAndApproveReview(db, id, f, actor, note).Done?;
            var two := EditReview(db, id, f, actor).Done? && ApproveReview(EditReview(db, id, f, actor).db, id, actor, note).Done?;
            (one <==> CanApproveEdited(db, id, f, actor) && Passes(db, OneStepRecords(db, PendingReview(db, id, actor).value, f, actor, note))) &&
            (two <==> CanApproveEdited(db, id, f, actor) && Passes(db, TwoStepRecords(db, PendingReview(db, id, actor).value, f, actor, note))) &&
            (Silent(db.scan) ==> (one <==> two))
  {
    hide OneStepRecords, TwoStepRecords, TakesEntry, EditedEntry, ApplyProposed, Settle, UpdateReview, EditedReview;
    if PendingReview(db, id, actor).Ok? {
      PendingShape(db, id, actor);
      var at := PendingReview(db, id, actor).value;
      OneStepSucceeds(db, at, id, f, actor, note);
      TwoStepsSucceed(db, at, id, f, actor, note);
    }
  }
}
