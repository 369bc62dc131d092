/** What every operation records in the revision table: who did what to which row, on whose request, and how the row was then. */
module Trails {
  import opened Prelude
  import opened JsonTree
  import opened Model
  import opened Database
  import opened Operations
  import opened Bundles
  import opened Invariant
  import opened Growth
  import opened Writes
  import opened Runs
  import opened Reviews
  import opened Reverts
  import opened Requests
  import JsonText
  import Text

  function By(actor: string, source: string): Provenance { Provenance(actor, source, None, None, None, None) }

  // The revision of an entry as it is now, but for a status that is flipped afterwards; the number is that of the row.
  ghost predicate TellsOfEntry(r: Revision, now: EntryRecord, action: string, requestId: Option<RequestId>, runId: Option<RunId>) {
    r.entity.EntryEntity? && r.entityId == now.id && r.no == now.revisionNo && r.action == action && r.provenance == now.provenance &&
    r.requestId == requestId && r.runId == runId && r.snapshot.EntrySnapshot? && r.snapshot.entry == now.(revisionNo := r.snapshot.entry.revisionNo)
  }

  ghost predicate TellsOfPack(r: Revision, now: PackRecord, action: string, provenance: Provenance) {
    r.entity.PackEntity? && r.entityId == now.id && r.no == now.revisionNo && r.action == action && r.provenance == provenance &&
    r.requestId.None? && r.runId.None? && r.snapshot.PackSnapshot? && r.snapshot.pack == now.(revisionNo := r.snapshot.pack.revisionNo)
  }

  ghost predicate TellsOfReview(r: Revision, now: ReviewItem, action: string, provenance: Provenance) {
    r.entity.ReviewEntity? && r.entityId == now.id && r.no == now.revisionNo && r.action == action && r.provenance == provenance &&
    r.requestId == Some(now.requestId) && r.runId.None? && r.snapshot.ReviewSnapshot? &&
    r.snapshot.review == now.(revisionNo := r.snapshot.review.revisionNo)
  }

  // ---------- entries ----------

  // An entry write leaves one revision of the entry, behind one of its pack where the write created the pack.
  ghost predicate WriteTrail(db: DB, end: DB, key: EntryKey, actor: string, requestId: Option<RequestId>, runId: Option<RunId>) {
    key in end.entries && key.pack in end.packs && (key.pack in db.packs ==> end.packs == db.packs) &&
    var before := if key.pack in db.packs then 0 else 1;
    |end.revisions| == |db.revisions| + before + 1 && db.revisions <= end.revisions &&
    (before == 1 ==> TellsOfPack(end.revisions[|db.revisions|], end.packs[key.pack], "create", By(actor, "pack_create"))) &&
    TellsOfEntry(end.revisions[|db.revisions| + before], end.entries[key].record, if key in db.entries then "update" else "create", requestId, runId)
  }

  lemma EnsuredTrail(db: DB, pack: PackKey, actor: string)
    ensures var e := EnsureDefaultPack(db, pack, actor);
            e.Done? ==> e.db.entries == db.entries && pack in e.db.packs && e.db.packs[pack] == e.value &&
                        (pack in db.packs ==> e.db == db) &&
                        (pack !in db.packs ==> |e.db.revisions| == |db.revisions| + 1 && db.revisions <= e.db.revisions &&
                                               TellsOfPack(e.db.revisions[|db.revisions|], e.value, "create", By(actor, "pack_create")))
  {
    hide MaxRevision, Text.Blank;
  }

  lemma RowTrail(db: DB, key: EntryKey, packId: Id, entry: EntryInput, provenance: Provenance, requestId: Option<RequestId>, runId: Option<RunId>)
    ensures var t := WriteEntry(db, key, packId, entry, provenance, requestId, runId);
            t.Done? ==> key in t.db.entries && t.db.packs == db.packs && |t.db.revisions| == |db.revisions| + 1 && db.revisions <= t.db.revisions &&
                        TellsOfEntry(t.db.revisions[|db.revisions|], t.db.entries[key].record, if key in db.entries then "update" else "create", requestId, runId)
  {
    hide MaxRevision, ContentHash, UpsertDoc;
  }

  lemma ApplyTrail(db: DB, pack: PackKey, entry: EntryInput, actor: string, provenance: Provenance, requestId: Option<RequestId>,
                   runId: Option<RunId>, allowArchived: bool)
    ensures var t := ApplyEntry(db, pack, entry, actor, provenance, requestId, runId, allowArchived);
            t.Done? ==> WriteTrail(db, t.db, EntryKey(pack, entry.key), actor, requestId, runId)
  {
    hide EnsureDefaultPack, WriteEntry, InputValid, Text.Blank, TellsOfPack, TellsOfEntry;
    EnsuredTrail(db, pack, actor);
    var e := EnsureDefaultPack(db, pack, actor);
    if e.Done? { RowTrail(e.db, EntryKey(pack, entry.key), e.value.id, entry, provenance, requestId, runId); }
  }

  /** A put is recorded as a creation or an update of the entry as it is then, on no request. */
  lemma PutTrail(db: DB, req: PutRequest)
    requires PutEntry(db, req).Done?
    ensures WriteTrail(db, PutEntry(db, req).db, EntryKey(PackMeant(req.scope, req.packName), req.entry.key), req.actor, None, None)
  {
    hide ApplyEntry, Normalize, WriteTrail, Text.Blank;
    ScopeRead(req.scope);
    ApplyTrail(db, PackMeant(req.scope, req.packName), req.entry, req.actor,
               Or(req.entry.provenance, SystemProvenance(req.actor, "manual_put")), None, None, false);
  }

  /** A delete is recorded as such, of the entry as it is deleted. */
  lemma DeleteTrail(db: DB, sel: Selector, actor: string)
    requires DeleteEntry(db, sel, actor).Done?
    ensures var key, end := EntryMeant(sel), DeleteEntry(db, sel, actor).db;
            key in end.entries && |end.revisions| == |db.revisions| + 1 && db.revisions <= end.revisions &&
            TellsOfEntry(end.revisions[|db.revisions|], end.entries[key].record, "delete", None, None)
  {
    hide Select, MaxRevision, RemoveDocs;
    Selected(db, sel, actor);
  }

  /** A revert is recorded as an update; where it goes back to a deleted revision the row is deleted only afterwards. */
  lemma RevertTrail(db: DB, sel: Selector, no: Option<int>, actor: string)
    requires Valid(db) && RevertEntry(db, sel, no, actor).Done?
    ensures EntryMeant(sel) in db.entries
    ensures var key, end, n := EntryMeant(sel), RevertEntry(db, sel, no, actor).db, GoesBackTo(db, sel, no);
            key in end.entries && |end.revisions| == |db.revisions| + 1 && db.revisions <= end.revisions &&
            TellsOfEntry(end.revisions[|db.revisions|], end.entries[key].record.(status := Active), "update", None, None) &&
            n > 0 && end.entries[key].record.provenance == RevertedBy(actor, n)
  {
    hide Select, Valid, ApplyEntry, SnapshotAt, RevertTarget, TellsOfEntry, JsonText.Digits, SameElsewhere;
    Selected(db, sel, actor);
    if Select(db, sel, actor).Err? { NoTarget(db, sel, no, actor); }
    RevertStores(db, sel, no, actor);
    TargetIsSnapshot(db, sel, no, actor);
    var key := EntryMeant(sel);
    PackOfEntry(db, key);
    var target := RevertTarget(db, sel, no, actor).value.1;
    ApplyTrail(db, key.pack, InputOf(target), actor, target.provenance, None, None, false);
    WrittenActive(db, key.pack, InputOf(target), actor, target.provenance);
  }

  lemma WrittenActive(db: DB, pack: PackKey, entry: EntryInput, actor: string, provenance: Provenance)
    ensures var t := ApplyEntry(db, pack, entry, actor, provenance, None, None, false);
            t.Done? ==> EntryKey(pack, entry.key) in t.db.entries && t.db.entries[EntryKey(pack, entry.key)].record.status.Active?
  {
    hide EnsureDefaultPack, ContentHash, UpsertDoc, MaxRevision, InputValid, Text.Blank;
  }

  // ---------- packs and the policy ----------

  lemma CreateTrail(db: DB, req: CreatePackRequest)
    requires CreatePack(db, req).Done?
    ensures var key, end := PackMeant(req.scope, req.name), CreatePack(db, req).db;
            key in end.packs && |end.revisions| == |db.revisions| + 1 && db.revisions <= end.revisions &&
            TellsOfPack(end.revisions[|db.revisions|], end.packs[key], "create", By(req.actor, "pack_create"))
  {
    hide Normalize, MaxRevision, Text.Blank;
    ScopeRead(req.scope);
  }

  lemma UpdateTrail(db: DB, req: UpdatePackRequest)
    requires UpdatePack(db, req).Done?
    ensures var key, end := PackMeant(req.scope, req.name), UpdatePack(db, req).db;
            key in end.packs && |end.revisions| == |db.revisions| + 1 && db.revisions <= end.revisions &&
            TellsOfPack(end.revisions[|db.revisions|], end.packs[key], "update", By(req.actor, "pack_update"))
  {
    hide Normalize, MaxRevision, Text.Blank, UpdatedPack, OnlyUnarchives;
    ScopeRead(req.scope);
  }

  /** A change of the policy is recorded; setting the policy there is leaves no trail. */
  lemma PolicyTrail(db: DB, mode: ReviewMode, metadata: Json, actor: string)
    requires SetPolicy(db, mode, metadata, actor).Done?
    ensures var end := SetPolicy(db, mode, metadata, actor).db;
            if db.policy.mode == mode && db.policy.metadata == metadata then end == db
            else |end.revisions| == |db.revisions| + 1 && db.revisions <= end.revisions &&
                 end.policy == ReviewPolicy(mode, metadata, actor, end.policy.revisionNo) &&
                 var r := end.revisions[|db.revisions|];
                 r == Revision(PolicyEntity, POLICY_ID, end.policy.revisionNo, "update", r.snapshot, By(actor, "review_policy_update"), None, None) &&
                 r.snapshot.PolicySnapshot? && r.snapshot.policy == end.policy.(revisionNo := r.snapshot.policy.revisionNo)
  {
    hide MaxRevision, Text.Blank;
  }

  // ---------- reviews ----------

  lemma TransitionTrail(db: DB, at: nat, record: ReviewItem, actor: string, action: string)
    requires at < |db.reviews|
    ensures var t := UpdateReview(db, at, record, actor, action);
            t.Done? ==> |t.db.reviews| == |db.reviews| && |t.db.revisions| == |db.revisions| + 1 && db.revisions <= t.db.revisions &&
                        TellsOfReview(t.db.revisions[|db.revisions|], t.db.reviews[at], action, By(actor, "review_" + action))
  {
    hide MaxRevision, Text.Blank;
  }

  /** A rejection and an edit are each recorded as one revision of the review, by who did it, on the request that raised the review. */
  lemma RejectTrail(db: DB, id: Id, actor: string, note: Option<string>, at: nat)
    requires Valid(db) && Waits(db, id, at) && RejectReview(db, id, actor, note).Done?
    ensures var end := RejectReview(db, id, actor, note).db;
            |end.reviews| == |db.reviews| && |end.revisions| == |db.revisions| + 1 && db.revisions <= end.revisions &&
            TellsOfReview(end.revisions[|db.revisions|], end.reviews[at], "reject", Provenance(actor, "review_reject", None, None, None, None))
  {
    hide Valid, UpdateReview, PendingReview, Text.Blank, TellsOfReview;
    WaitingIsFound(db, id, actor);
    NeedsActor(db, id, actor);
    TransitionTrail(db, at, db.reviews[at].(state := Rejected, note := note), actor, "reject");
    assert "review_" + "reject" == "review_reject";
  }

  lemma EditTrail(db: DB, id: Id, f: EditFields, actor: string, at: nat)
    requires Valid(db) && Waits(db, id, at) && EditReview(db, id, f, actor).Done?
    ensures var end := EditReview(db, id, f, actor).db;
            |end.reviews| == |db.reviews| && |end.revisions| == |db.revisions| + 1 && db.revisions <= end.revisions &&
            TellsOfReview(end.revisions[|db.revisions|], end.reviews[at], "edit", Provenance(actor, "review_edit", None, None, None, None))
  {
    hide Valid, UpdateReview, PendingReview, Text.Blank, TellsOfReview, EditedReview;
    WaitingIsFound(db, id, actor);
    NeedsActor(db, id, actor);
    TransitionTrail(db, at, EditedReview(db, db.reviews[at], f).value, actor, "edit");
    assert "review_" + "edit" == "review_edit";
  }

  // An approval leaves the trail of the entry it writes, on the request that raised the review, and one revision of the review behind it.
  ghost predicate ApprovalTrail(db: DB, end: DB, at: nat, key: EntryKey, actor: string, action: string, runId: Option<RunId>) {
    at < |db.reviews| == |end.reviews| && |end.revisions| > 0 &&
    var mid := end.(revisions := end.revisions[..|end.revisions| - 1]);
    WriteTrail(db, mid, key, actor, Some(db.reviews[at].requestId), runId) &&
    TellsOfReview(end.revisions[|end.revisions| - 1], end.reviews[at], action, By(actor, "review_" + action))
  }

  lemma ApprovedTrail(db: DB, at: nat, review: ReviewItem, actor: string, source: string, action: string, note: Option<string>)
    requires at < |db.reviews| && SameCause(db.reviews[at], review)
    ensures var a := ApplyProposed(db, review, actor, source, note);
            a.Done? && at < |a.db.reviews| && |a.db.reviews| == |db.reviews| ==>
              var t := Settle(a.db, at, review.(state := Approved, note := note), actor, action);
              t.Done? ==> ApprovalTrail(db, t.db, at, KeyOf(review.scope, review.packName, review.proposed.key), actor, action,
                                        ApprovedAs(review, actor, source, note).runId)
  {
    hide ApplyEntry, UpdateReview, TellsOfReview, WriteTrail, JsonText.Digits;
    var p := ApprovedAs(review, actor, source, note);
    ApplyTrail(db, PackKey(review.scope, review.packName), review.proposed, actor, p, Some(review.requestId), p.runId, false);
    var a := ApplyProposed(db, review, actor, source, note);
    if a.Done? && at < |a.db.reviews| && |a.db.reviews| == |db.reviews| {
      var settled := review.(state := Approved, note := note);
      TransitionTrail(a.db, at, settled, actor, action);
      var t := Settle(a.db, at, settled, actor, action);
      if t.Done? {
        SettleFrame(a.db, at, settled, actor, action);
        assert t.db.revisions[..|t.db.revisions| - 1] == a.db.revisions;
        SameTrail(db, a.db, t.db.(revisions := a.db.revisions), KeyOf(review.scope, review.packName, review.proposed.key), actor,
                  Some(review.requestId), p.runId);
      }
    }
  }

  lemma SettleFrame(db: DB, at: nat, review: ReviewItem, actor: string, action: string)
    ensures var t := Settle(db, at, review, actor, action); t.Done? ==> OnlyReviewsChange(db, t.db)
  {
    hide MaxRevision, Text.Blank;
  }

  lemma SameTrail(db: DB, mid: DB, end: DB, key: EntryKey, actor: string, requestId: Option<RequestId>, runId: Option<RunId>)
    requires WriteTrail(db, mid, key, actor, requestId, runId) && end.entries == mid.entries && end.packs == mid.packs && end.revisions == mid.revisions
    ensures WriteTrail(db, end, key, actor, requestId, runId)
  {
    hide TellsOfEntry, TellsOfPack;
  }

  lemma ReviewsStay(db: DB, review: ReviewItem, actor: string, source: string, note: Option<string>)
    requires Valid(db) && Normalized(review.scope)
    ensures var a := ApplyProposed(db, review, actor, source, note); a.Done? ==> a.db.reviews == db.reviews
  {
    hide Valid, ApplyProposed, WritesAt;
    ApplyProposedSound(db, review, actor, source, note);
  }

  /** An approval records the entry it writes on the request that raised the review, and then the review as approved. */
  lemma ApproveTrail(db: DB, id: Id, actor: string, note: Option<string>, at: nat)
    requires Valid(db) && Waits(db, id, at) && ApproveReview(db, id, actor, note).Done?
    ensures var r := db.reviews[at];
            ApprovalTrail(db, ApproveReview(db, id, actor, note).db, at, KeyOf(r.scope, r.packName, r.proposed.key), actor, "approve",
                          if r.proposed.provenance.Some? then r.proposed.provenance.value.runId else None)
  {
    hide Valid, ApplyProposed, Settle, PendingReview, ApprovalTrail, Text.Blank, InputValid, JsonText.Digits;
    WaitingIsFound(db, id, actor);
    NeedsActor(db, id, actor);
    ReviewAt(db, at);
    SelfCause(db.reviews[at]);
    ReviewsStay(db, db.reviews[at], actor, "review_approve", note);
    ApprovedTrail(db, at, db.reviews[at], actor, "review_approve", "approve", note);
  }

  lemma EditAndApproveTrail(db: DB, id: Id, f: EditFields, actor: string, note: Option<string>, at: nat)
    requires Valid(db) && Waits(db, id, at) && EditAndApproveReview(db, id, f, actor, note).Done?
    ensures var r := db.reviews[at];
            ApprovalTrail(db, EditAndApproveReview(db, id, f, actor, note).db, at, KeyOf(r.scope, r.packName, r.proposed.key), actor, "edit_and_approve",
                          if r.proposed.provenance.Some? then r.proposed.provenance.value.runId else None)
  {
    hide Valid, ApplyProposed, Settle, PendingReview, ApprovalTrail, Text.Blank, InputValid, EditedEntry, JsonText.Digits;
    WaitingIsFound(db, id, actor);
    NeedsActor(db, id, actor);
    ReviewAt(db, at);
    RowCause(db, at, f);
    KeptByEdit(db.reviews[at].proposed, f);
    var edited := EditedRow(db, at, f);
    ReviewsStay(db, edited, actor, "review_edit_and_approve", note);
    ApprovedTrail(db, at, edited, actor, "review_edit_and_approve", "edit_and_approve", note);
  }

  // ---------- proposals ----------

  // A review that was raised is the last one, and its revision the last one recorded; a review found again leaves no trail.
  ghost predicate RaisedTrail(db: DB, end: DB) {
    end.reviews == db.reviews ||
    (|end.reviews| == |db.reviews| + 1 && end.revisions != [] &&
     TellsOfReview(end.revisions[|end.revisions| - 1], end.reviews[|db.reviews|], "create", Provenance("system", "review_create", None, None, None, None)))
  }

  lemma RaiseTrail(db: DB, requestId: RequestId, key: EntryKey, entry: EntryInput, existing: Option<EntryRecord>, reason: ReviewReason, exact: bool)
    ensures var t := InsertOrReuseReview(db, requestId, key, entry, existing, reason, exact); t.Done? ==> RaisedTrail(db, t.db)
  {
    hide MaxRevision, FindPending;
  }

  lemma GovernTrail(db: DB, requestId: RequestId, runId: Option<RunId>, key: EntryKey, pack: Option<PackRecord>, entry: EntryInput, actor: string,
                    provenance: Provenance, mode: ReviewMode, exact: bool)
    requires key.key == entry.key
    ensures var t := GovernProposal(db, requestId, runId, key, pack, entry, actor, provenance, mode, exact);
            t.Done? ==> (t.value.disposition.Applied? ==> WriteTrail(db, t.db, key, actor, Some(requestId), runId)) &&
                        (t.value.disposition.Held? ==> RaisedTrail(db, t.db)) &&
                        (t.value.disposition.Duplicate? || t.value.disposition.Refused? ==> t.db == db)
  {
    hide ApplyEntry, InsertOrReuseReview, Decide, IsDuplicate, WriteTrail, RaisedTrail;
    ApplyTrail(db, key.pack, entry, actor, provenance, Some(requestId), runId, false);
    var existing := GetEntry(db, key);
    match Decide(key.pack.scope.kind, pack, existing, IsDuplicate(existing, entry, mode, exact), mode)
    case Hold(reason) => RaiseTrail(db, requestId, key, entry, RecordOf(existing), reason, exact);
    case _ =>
  }

  /**
   What a proposal leaves in the revision table: where it is applied, the trail of its entry, on the commit's
   request and run; where it is held, that of the review it raises; and where it creates its pack, one of the pack.
   */
  lemma ProposalTrail(db: DB, requestId: RequestId, runId: Option<RunId>, pack: PackKey, entry: EntryInput, actor: string, provenance: Provenance,
                      mode: ReviewMode, exact: bool)
    ensures var t, key := CommitProposal(db, requestId, runId, pack, entry, actor, provenance, mode, exact), EntryKey(pack, entry.key);
            t.Done? ==> (t.value.disposition.Applied? ==> WriteTrail(db, t.db, key, actor, Some(requestId), runId)) &&
                        (t.value.disposition.Held? ==> RaisedTrail(db, t.db))
  {
    hide GovernProposal, EnsureDefaultPack, WriteTrail, RaisedTrail;
    var key := EntryKey(pack, entry.key);
    if exact {
      GovernTrail(db, requestId, runId, key, GetPack(db, pack), entry, actor, provenance, mode, exact);
    } else {
      var e := EnsureDefaultPack(db, pack, actor);
      EnsuredTrail(db, pack, actor);
      if e.Done? {
        GovernTrail(e.db, requestId, runId, key, Some(e.value), entry, actor, provenance, mode, exact);
        var t := GovernProposal(e.db, requestId, runId, key, Some(e.value), entry, actor, provenance, mode, exact);
        EnsureKeepsReviews(db, pack, actor);
        if t.Done? && t.value.disposition.Applied? { TrailsJoin(db, e.db, t.db, key, actor, Some(requestId), runId); }
        if t.Done? && t.value.disposition.Held? { RaisedToo(db, e.db, t.db); }
      }
    }
  }

  lemma RaisedToo(db: DB, mid: DB, end: DB)
    requires RaisedTrail(mid, end) && mid.reviews == db.reviews
    ensures RaisedTrail(db, end)
  {
    hide TellsOfReview;
  }

  lemma TrailsJoin(db: DB, mid: DB, end: DB, key: EntryKey, actor: string, requestId: Option<RequestId>, runId: Option<RunId>)
    requires WriteTrail(mid, end, key, actor, requestId, runId) && mid.entries == db.entries && key.pack in mid.packs
    requires key.pack in db.packs ==> mid == db
    requires key.pack !in db.packs ==>
               |mid.revisions| == |db.revisions| + 1 && db.revisions <= mid.revisions &&
               TellsOfPack(mid.revisions[|db.revisions|], mid.packs[key.pack], "create", By(actor, "pack_create"))
    ensures WriteTrail(db, end, key, actor, requestId, runId)
  {
    hide TellsOfEntry, TellsOfPack;
  }

  lemma EnsureKeepsReviews(db: DB, pack: PackKey, actor: string)
    ensures var e := EnsureDefaultPack(db, pack, actor); e.Done? ==> e.db.reviews == db.reviews
  {
    hide MaxRevision, Text.Blank;
  }

  // ---------- imported bundles ----------

  /** An imported pack is recorded once, and the record tells whether it was new. */
  lemma ImportPackTrail(db: DB, p: PackRecord, actor: string)
    requires ImportPack(db, p, actor).Done?
    ensures var key, end := PackMeant(p.scope, p.name), ImportPack(db, p, actor).db;
            key in end.packs && |end.revisions| == |db.revisions| + 1 && db.revisions <= end.revisions &&
            TellsOfPack(end.revisions[|db.revisions|], end.packs[key], if key in db.packs then "import_update" else "import_create",
                        By(actor, "pack_import"))
  {
    hide Normalize, InsertPack, ReplacePack, TellsOfPack, KeptLockReason, Text.Blank;
    ScopeRead(p.scope);
    var key := PackMeant(p.scope, p.name);
    if key in db.packs {
      ReplacedTrail(db, key, db.packs[key].(description := p.description, metadata := p.metadata, status := p.status, locked := p.locked,
                                            lockReason := KeptLockReason(p)), actor);
    } else {
      InsertedTrail(db, key, actor, p.description, p.metadata, p.status, p.locked, KeptLockReason(p));
    }
  }

  lemma ReplacedTrail(db: DB, key: PackKey, record: PackRecord, actor: string)
    ensures var t := ReplacePack(db, key, record, actor, "import_update", "pack_import");
            t.Done? ==> key in t.db.packs && |t.db.revisions| == |db.revisions| + 1 && db.revisions <= t.db.revisions &&
                        TellsOfPack(t.db.revisions[|db.revisions|], t.db.packs[key], "import_update", By(actor, "pack_import"))
  {
    hide MaxRevision;
  }

  lemma InsertedTrail(db: DB, key: PackKey, actor: string, description: Option<string>, metadata: Json, status: PackStatus, locked: bool,
                      lockReason: Option<string>)
    ensures var t := InsertPack(db, key, actor, description, metadata, status, locked, lockReason, "import_create", "pack_import");
            t.Done? ==> key in t.db.packs && |t.db.revisions| == |db.revisions| + 1 && db.revisions <= t.db.revisions &&
                        TellsOfPack(t.db.revisions[|db.revisions|], t.db.packs[key], "import_create", By(actor, "pack_import"))
  {
    hide MaxRevision;
  }

  // The record of an imported review, as it was imported, under its own number, which starts at 1.
  function ImportedAs(r: ReviewItem, actor: string): Revision {
    Revision(ReviewEntity, r.id, if r.revisionNo == 0 then 1 else r.revisionNo,
             if r.state.Pending? then "import_pending" else if r.state.Approved? then "import_approved" else "import_rejected",
             ReviewSnapshot(r), By(actor, "review_import"), Some(r.requestId), None)
  }

  predicate SameRevision(a: Revision, b: Revision) { a.entity == b.entity && a.entityId == b.entityId && a.no == b.no }

  /** An imported review is recorded in the place of its own revision of that number, or else behind all others, which stay. */
  lemma ImportReviewTrail(db: DB, r: ReviewItem, actor: string)
    requires ImportReview(db, r, actor).Done?
    ensures var end, told := ImportReview(db, r, actor).db.revisions, ImportedAs(r, actor);
            if exists i | 0 <= i < |db.revisions| :: SameRevision(db.revisions[i], told)
            then exists i | 0 <= i < |db.revisions| :: SameRevision(db.revisions[i], told) && end == db.revisions[i := told]
            else end == db.revisions + [told]
  {
    hide ReviewIndex, Normalize, Text.Blank, InputValid, StoredReview;
    var told := ImportedAs(r, actor);
    assert ReviewRevision(r, actor) == told;
    var at := RevisionIndex(db.revisions, told.entity, told.entityId, told.no);
    if at.Some? { assert SameRevision(db.revisions[at.value], told); }
  }
}
