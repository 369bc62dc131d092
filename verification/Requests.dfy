/** When each request succeeds, and what it leaves behind, said in terms of the request and the tables alone. */
module Requests {
  import opened Prelude
  import opened JsonTree
  import opened Model
  import opened Database
  import opened Operations
  import opened Invariant
  import opened Growth
  import opened Writes
  import opened Runs
  import opened Reviews
  import opened Effects
  import opened Reverts
  import JsonText
  import Text

  // ---------- which rows a request means ----------

  // The scope that a request means by a kind and an id: ids are trimmed, and the global scope has but one.
  function ScopeMeant(raw: ScopeRef): ScopeRef {
    ScopeRef(raw.kind, if raw.kind.Global? then "global" else Text.Trim(raw.id))
  }

  predicate ScopeGiven(raw: ScopeRef) {
    raw.kind.Global? || !Text.Blank(raw.id)
  }

  /** A scope is read as it is meant, and refused exactly if a kind that needs an id has none. */
  lemma ScopeRead(raw: ScopeRef)
    ensures Normalize(raw) == if ScopeGiven(raw) then Ok(ScopeMeant(raw)) else Err(Validation)
  {
  }

  function PackMeant(scope: ScopeRef, name: string): PackKey { PackKey(ScopeMeant(scope), name) }

  function EntryMeant(sel: Selector): EntryKey { EntryKey(PackMeant(sel.scope, sel.packName), sel.entryKey) }

  predicate SelectorGiven(sel: Selector, actor: string) {
    ScopeGiven(sel.scope) && !Text.Blank(actor) && !Text.Blank(sel.packName) && !Text.Blank(sel.entryKey)
  }

  lemma Selected(db: DB, sel: Selector, actor: string)
    ensures Select(db, sel, actor).Ok? <==> SelectorGiven(sel, actor) && EntryMeant(sel) in db.entries
    ensures Select(db, sel, actor).Ok? ==> Select(db, sel, actor).value == EntryMeant(sel)
  {
    hide Normalize, Text.Blank, Text.Trim;
    ScopeRead(sel.scope);
  }

  /** A fresh store holds nothing but its policy: Balanced, set by the system, and recorded as created at revision 1. */
  lemma FreshStore(scan: Scanner)
    ensures var db := EmptyDB(scan);
            db.packs == map[] && db.entries == map[] && db.reviews == [] && db.commits == map[] && db.runs == map[] && db.fts == [] &&
            db.policy == ReviewPolicy(Balanced, Object([]), "system", 1) && |db.revisions| == 1 &&
            var r := db.revisions[0];
            r == Revision(PolicyEntity, POLICY_ID, 1, "create", r.snapshot, Provenance("system", "migration_v5", None, None, None, None), None, None) &&
            r.snapshot.PolicySnapshot? && r.snapshot.policy == db.policy.(revisionNo := r.snapshot.policy.revisionNo)
  {
  }

  // ---------- entries ----------

  /** A put succeeds exactly if scope, pack name and actor are given, the entry is valid, its pack takes writes, and the scanner passes it. */
  lemma PutSucceeds(db: DB, req: PutRequest)
    ensures var pack := PackMeant(req.scope, req.packName);
            var p := if req.entry.provenance.Some? then req.entry.provenance.value else Provenance(req.actor, "manual_put", None, None, None, None);
            PutEntry(db, req).Done? <==>
              ScopeGiven(req.scope) && TakesEntry(db, pack, req.entry, req.actor) && Passes(db, EntryRecords(db, pack, req.entry, req.actor, p, None, None))
  {
    hide ApplyEntry, Normalize, InputValid, EntryRecords, Passes;
    ScopeRead(req.scope);
    ApplyEntrySucceeds(db, PackMeant(req.scope, req.packName), req.entry, req.actor,
                       Or(req.entry.provenance, SystemProvenance(req.actor, "manual_put")), None, None);
  }

  /** And what is put is then the active entry of its key, field by field, in an open pack; nothing else changes. */
  lemma PutStores(db: DB, req: PutRequest)
    requires Valid(db) && PutEntry(db, req).Done?
    ensures var pack := PackMeant(req.scope, req.packName); var key := EntryKey(pack, req.entry.key);
            var end, e := PutEntry(db, req).db, req.entry;
            key in end.entries && end.entries == db.entries[key := end.entries[key]] && SameElsewhere(db, end) &&
            pack in end.packs && end.packs[pack].status.Open? && (pack in db.packs ==> end.packs == db.packs) &&
            (forall p | p in end.packs && p != pack :: p in db.packs && end.packs[p] == db.packs[p]) &&
            end.entries[key].record ==
              EntryRecord(end.entries[key].record.id, pack.scope, req.packName, e.key, e.title, e.kind, e.value, e.tags, e.metadata,
                          if e.provenance.Some? then e.provenance.value else Provenance(req.actor, "manual_put", None, None, None, None),
                          e.locked, Active, if key in db.entries then db.entries[key].record.revisionNo + 1 else 1)
  {
    hide PutEntry, Normalize, Valid;
    ScopeRead(req.scope);
    PutWrites(db, req);
    var key := EntryKey(PackMeant(req.scope, req.packName), req.entry.key);
    PutEntryIsValid(db, req);
    RowNamed(PutEntry(db, req).db, key);
  }

  lemma PutEntryIsValid(db: DB, req: PutRequest)
    requires Valid(db) && PutEntry(db, req).Done?
    ensures Valid(PutEntry(db, req).db)
  {
    hide PutEntry, Valid;
    PutEntrySound(db, req);
  }

  lemma RowNamed(db: DB, key: EntryKey)
    requires Valid(db) && key in db.entries
    ensures var r := db.entries[key].record; r.scope == key.pack.scope && r.packName == key.pack.name && r.key == key.key
  {
    assert EntryShape(key, db.entries[key], db.packs, db.nextId);
  }

  /** A delete succeeds exactly if the selector is complete and names an entry of an open pack, and the scanner passes its provenance. */
  lemma DeleteSucceeds(db: DB, sel: Selector, actor: string)
    requires Valid(db)
    ensures DeleteEntry(db, sel, actor).Done? <==>
            SelectorGiven(sel, actor) && EntryMeant(sel) in db.entries && OpenIn(db, EntryMeant(sel).pack) &&
            !db.scan(RevisionMetadata(ShownProvenance(actor, "delete", None, None, None, None), None, None))
  {
    hide Select, MaxRevision, RemoveDocs, Valid;
    Selected(db, sel, actor);
    if EntryMeant(sel) in db.entries { PackOfEntry(db, EntryMeant(sel)); }
  }

  predicate OpenIn(db: DB, pack: PackKey) {
    pack in db.packs && db.packs[pack].status.Open?
  }

  lemma PackOfEntry(db: DB, key: EntryKey)
    requires Valid(db) && key in db.entries
    ensures key.pack in db.packs && db.packs[key.pack].name == key.pack.name && Normalized(key.pack.scope) && !Text.Blank(key.pack.name)
  {
    assert EntryShape(key, db.entries[key], db.packs, db.nextId);
    assert PackShape(key.pack, db.packs[key.pack], db.nextId);
  }

  /** And what is deleted is the entry meant: it keeps everything but its status, its provenance and its revision number. */
  lemma DeleteStores(db: DB, sel: Selector, actor: string)
    requires Valid(db) && DeleteEntry(db, sel, actor).Done?
    ensures var key, end := EntryMeant(sel), DeleteEntry(db, sel, actor).db;
            key in db.entries && key in end.entries && end.entries == db.entries[key := end.entries[key]] &&
            end.packs == db.packs && SameElsewhere(db, end) &&
            end.entries[key].record == db.entries[key].record.(status := Deleted, revisionNo := db.entries[key].record.revisionNo + 1,
                                                               provenance := Provenance(actor, "delete", None, None, None, None))
  {
    hide Select, DeleteRow, Grows, Valid, SameElsewhere;
    Selected(db, sel, actor);
    SelectNormalized(db, sel, actor);
    DeleteRowSound(db, EntryMeant(sel), actor);
    DeleteFrame(db, EntryMeant(sel), actor);
  }

  // The revision that a revert goes back to: the one asked for, or else the one before the current one.
  function GoesBackTo(db: DB, sel: Selector, no: Option<int>): int
    requires EntryMeant(sel) in db.entries
  {
    if no.Some? then no.value else db.entries[EntryMeant(sel)].record.revisionNo - 1
  }

  function RevertedBy(actor: string, no: nat): Provenance {
    Provenance(actor, "revert", Some("revision:" + JsonText.Digits(no)), None, None, None)
  }

  /**
   A revert succeeds exactly if the selector is complete and names an entry, the revision is one of the entry's,
   its pack takes writes, and the scanner passes the content gone back to.
   */
  lemma RevertSucceeds(db: DB, sel: Selector, no: Option<int>, actor: string)
    requires Valid(db)
    ensures RevertEntry(db, sel, no, actor).Done? <==>
            SelectorGiven(sel, actor) && EntryMeant(sel) in db.entries &&
            var key, n := EntryMeant(sel), GoesBackTo(db, sel, no);
            1 <= n <= db.entries[key].record.revisionNo &&
            var back := InputOf(SnapshotAt(db, key, n).(provenance := RevertedBy(actor, n)));
            TakesEntry(db, key.pack, back, actor) && Passes(db, EntryRecords(db, key.pack, back, actor, RevertedBy(actor, n), None, None))
  {
    hide Select, Valid, ApplyEntry, SnapshotAt, RevertTarget, TakesEntry, EntryRecords, Passes, JsonText.Digits, FlipDeleted;
    Selected(db, sel, actor);
    if Select(db, sel, actor).Ok? {
      TargetIsSnapshot(db, sel, no, actor);
      var key, n := EntryMeant(sel), GoesBackTo(db, sel, no);
      if 1 <= n <= db.entries[key].record.revisionNo {
        var target := SnapshotAt(db, key, n).(provenance := RevertedBy(actor, n));
        ApplyEntrySucceeds(db, key.pack, InputOf(target), actor, target.provenance, None, None);
      }
    } else {
      NoTarget(db, sel, no, actor);
    }
  }

  lemma NoTarget(db: DB, sel: Selector, no: Option<int>, actor: string)
    requires Select(db, sel, actor).Err?
    ensures RevertTarget(db, sel, no, actor).Err?
  {
    hide Select, RevisionIndex;
  }

  /** And then the entry meant shows the content, lock and status of that revision again, under the next number. */
  lemma RevertStores(db: DB, sel: Selector, no: Option<int>, actor: string)
    requires Valid(db) && RevertEntry(db, sel, no, actor).Done?
    ensures EntryMeant(sel) in db.entries
    ensures var key, end, n := EntryMeant(sel), RevertEntry(db, sel, no, actor).db, GoesBackTo(db, sel, no);
            1 <= n <= db.entries[key].record.revisionNo && key in end.entries && end.entries == db.entries[key := end.entries[key]] &&
            end.packs == db.packs && SameElsewhere(db, end) &&
            var was, now, back := db.entries[key].record, end.entries[key].record, SnapshotAt(db, key, n);
            now == EntryRecord(was.id, was.scope, was.packName, was.key, back.title, back.kind, back.value, back.tags, back.metadata,
                               RevertedBy(actor, n), back.locked, back.status, was.revisionNo + 1)
  {
    hide Select, Valid, RevertEntry, SnapshotAt, SameElsewhere, JsonText.Digits;
    Selected(db, sel, actor);
    RevertRestores(db, sel, no, actor);
    RowNamed(db, EntryMeant(sel));
    RowNamed(RevertEntry(db, sel, no, actor).db, EntryMeant(sel));
  }

  // ---------- packs and the policy ----------

  // What recording a revision of another table than the entries shows the scanner.
  function Recorded(actor: string, source: string): Write {
    RevisionMetadata(ShownProvenance(actor, source, None, None, None, None), None, None)
  }

  /** A pack is created exactly if scope, name and actor are given, its key is new, and the scanner passes it. */
  lemma CreateSucceeds(db: DB, req: CreatePackRequest)
    ensures CreatePack(db, req).Done? <==>
            ScopeGiven(req.scope) && !Text.Blank(req.actor) && !Text.Blank(req.name) && PackMeant(req.scope, req.name) !in db.packs &&
            Passes(db, {PackWrite(ScopeMeant(req.scope), req.name, req.actor, req.description, req.metadata, req.lockReason),
                        Recorded(req.actor, "pack_create")})
  {
    hide Normalize, MaxRevision, Text.Blank;
    ScopeRead(req.scope);
  }

  lemma CreateStores(db: DB, req: CreatePackRequest)
    requires Valid(db) && CreatePack(db, req).Done?
    ensures var key, end := PackMeant(req.scope, req.name), CreatePack(db, req).db;
            key !in db.packs && end.entries == db.entries &&
            end.packs == db.packs[key := PackRecord(db.nextId, key.scope, req.name, req.description, req.metadata, Open, req.locked, req.lockReason, 1)]
  {
    hide CreatePack, Normalize, Valid;
    ScopeRead(req.scope);
    CreatedPack(db, req);
  }

  // The fields that a pack update gives are taken over; a lock that is off has no reason.
  function PackAfter(was: PackRecord, req: UpdatePackRequest): PackRecord {
    var locked := if req.locked.Some? then req.locked.value else was.locked;
    PackRecord(was.id, was.scope, was.name,
               if req.description.Some? then req.description else was.description,
               if req.metadata.Some? then req.metadata.value else was.metadata,
               if req.status.Some? then req.status.value else was.status,
               locked,
               if !locked then None else if req.lockReason.Some? then req.lockReason else was.lockReason,
               was.revisionNo)
  }

  /**
   A pack is updated exactly if scope, name and actor are given, the pack exists, it is not archived unless the
   update makes it active again and nothing else, and the scanner passes the fields it will have.
   */
  lemma UpdateSucceeds(db: DB, req: UpdatePackRequest)
    requires Valid(db)
    ensures UpdatePack(db, req).Done? <==>
            ScopeGiven(req.scope) && !Text.Blank(req.actor) && !Text.Blank(req.name) && PackMeant(req.scope, req.name) in db.packs &&
            var was := db.packs[PackMeant(req.scope, req.name)];
            (was.status.Archived? ==> req.status == Some(Open) && req.description.None? && req.metadata.None? && req.locked.None? &&
                                        req.lockReason.None?) &&
            var pack := PackAfter(was, req);
            Passes(db, {PackWrite(pack.scope, pack.name, req.actor, pack.description, pack.metadata, pack.lockReason),
                        Recorded(req.actor, "pack_update")})
  {
    hide Normalize, MaxRevision, Text.Blank, Valid;
    ScopeRead(req.scope);
    if PackMeant(req.scope, req.name) in db.packs { PackNamed(db, PackMeant(req.scope, req.name)); }
  }

  lemma PackNamed(db: DB, key: PackKey)
    requires Valid(db) && key in db.packs
    ensures db.packs[key].scope == key.scope && db.packs[key].name == key.name
  {
    assert PackShape(key, db.packs[key], db.nextId);
  }

  lemma UpdateStores(db: DB, req: UpdatePackRequest)
    requires Valid(db) && UpdatePack(db, req).Done?
    ensures var key, end := PackMeant(req.scope, req.name), UpdatePack(db, req).db;
            key in db.packs && end.entries == db.entries &&
            end.packs == db.packs[key := PackAfter(db.packs[key], req).(revisionNo := db.packs[key].revisionNo + 1)]
  {
    hide UpdatePack, Normalize, Valid;
    ScopeRead(req.scope);
    PackUpdateIsPartial(db, req);
  }

  /** The policy is set exactly if the actor is given and the scanner passes it; a policy that stays the same is not recorded. */
  lemma PolicySucceeds(db: DB, mode: ReviewMode, metadata: Json, actor: string)
    ensures SetPolicy(db, mode, metadata, actor).Done? <==>
            !Text.Blank(actor) && !db.scan(PolicyWrite(mode, metadata, actor)) &&
            ((db.policy.mode == mode && db.policy.metadata == metadata) || !db.scan(Recorded(actor, "review_policy_update")))
  {
    hide MaxRevision, Text.Blank;
  }

  /** A run is recorded, or found, exactly if its source and its own id are not blank and the scanner passes a new one. */
  lemma RunSucceeds(db: DB, input: RunInput)
    ensures EnsureRun(db, input).Done? <==>
            !Text.Blank(input.source) && (input.id.Some? && input.id.value.Named? ==> !Text.Blank(input.id.value.text)) &&
            ((if input.id.Some? then input.id.value else Minted(db.nextId)) in db.runs || !db.scan(RunWrite(input)))
  {
    hide Text.Blank;
  }

  // ---------- reviews ----------

  // The review of an id, if it still waits for a decision.
  ghost predicate Waits(db: DB, id: Id, at: nat) {
    at < |db.reviews| && db.reviews[at].id == id && db.reviews[at].state.Pending?
  }

  lemma WaitingIsFound(db: DB, id: Id, actor: string)
    requires Valid(db)
    ensures PendingReview(db, id, actor).Ok? <==> !Text.Blank(actor) && exists at: nat :: Waits(db, id, at)
    ensures forall at: nat | Waits(db, id, at) && !Text.Blank(actor) :: PendingReview(db, id, actor) == Ok(at)
  {
    hide Valid, Text.Blank;
    ValidReviews(db);
    forall at: nat | Waits(db, id, at) && !Text.Blank(actor) ensures PendingReview(db, id, actor) == Ok(at) {
      IndexUnique(db.reviews, db.nextId, at);
    }
    if PendingReview(db, id, actor).Ok? { assert Waits(db, id, PendingReview(db, id, actor).value); }
  }

  /** A review is rejected exactly if it waits, the actor is given, and the scanner passes the settled review. */
  lemma RejectSucceeds(db: DB, id: Id, actor: string, note: Option<string>, at: nat)
    requires Valid(db) && Waits(db, id, at)
    ensures var settled := db.reviews[at].(state := Rejected, note := note);
            RejectReview(db, id, actor, note).Done? <==>
              !Text.Blank(actor) && Passes(db, {ReviewWrite(settled)} + TransitionRecords(settled, actor, "reject"))
  {
    hide Valid, Settle, PendingReview, Text.Blank, Passes, TransitionRecords;
    WaitingIsFound(db, id, actor);
    if !Text.Blank(actor) { SettleSucceeds(db, at, db.reviews[at].(state := Rejected, note := note), actor, "reject"); }
  }

  /** A rejected review keeps everything but its state, its note and its number; no other table and no other review changes. */
  lemma RejectStores(db: DB, id: Id, actor: string, note: Option<string>, at: nat)
    requires Valid(db) && Waits(db, id, at) && RejectReview(db, id, actor, note).Done?
    ensures var end := RejectReview(db, id, actor, note).db;
            OnlyReviewsChange(db, end) && |end.reviews| == |db.reviews| && end.reviews == db.reviews[at := end.reviews[at]] &&
            end.reviews[at] == db.reviews[at].(state := Rejected, note := note, revisionNo := end.reviews[at].revisionNo)
  {
    hide Valid, MaxRevision, PendingReview, Text.Blank, Grows;
    WaitingIsFound(db, id, actor);
    NeedsActor(db, id, actor);
  }

  lemma NeedsActor(db: DB, id: Id, actor: string)
    ensures Text.Blank(actor) ==> PendingReview(db, id, actor).Err?
  {
  }

  /** A review is approved exactly if it waits, its pack takes the proposed entry, and the scanner passes what that stores. */
  lemma ApproveSucceeds(db: DB, id: Id, actor: string, note: Option<string>, at: nat)
    requires Valid(db) && Waits(db, id, at)
    ensures var r := db.reviews[at];
            ApproveReview(db, id, actor, note).Done? <==>
              TakesEntry(db, PackKey(r.scope, r.packName), r.proposed, actor) &&
              Passes(db, ApprovalRecords(db, r, actor, "review_approve", "approve", note))
  {
    hide Valid, ApplyProposed, Settle, ApprovalRecords, PendingReview, Text.Blank, InputValid, Passes;
    WaitingIsFound(db, id, actor);
    NeedsActor(db, id, actor);
    ReviewAt(db, at);
    SelfCause(db.reviews[at]);
    ApprovalSucceeds(db, at, db.reviews[at], actor, "review_approve", "approve", note);
  }

  lemma SelfCause(r: ReviewItem)
    ensures SameCause(r, r)
  {
  }

  // ---------- what an edit of a review does ----------

  // The fields an edit gives are taken over and the others stay; key and provenance cannot be edited.
  ghost predicate EditedTo(was: EntryInput, f: EditFields, now: EntryInput) {
    now.title == (if f.title.Some? then f.title else was.title) && TakesOver(f.kind, was.kind, now.kind) &&
    TakesOver(f.value, was.value, now.value) && TakesOver(f.tags, was.tags, now.tags) &&
    TakesOver(f.metadata, was.metadata, now.metadata) && TakesOver(f.locked, was.locked, now.locked) &&
    now.key == was.key && now.provenance == was.provenance
  }

  lemma EditedIs(e: EntryInput, f: EditFields)
    ensures EditedTo(e, f, EditedEntry(e, f))
  {
  }

  /**
   After an edit the review waits where it was, about the same entry for the same reason; of its proposal the
   fields given are taken over and all others are as they were. No other review and no other table changes.
   */
  lemma EditTakesOver(db: DB, id: Id, f: EditFields, actor: string, at: nat)
    requires Valid(db) && Waits(db, id, at) && EditReview(db, id, f, actor).Done?
    ensures var end := EditReview(db, id, f, actor).db;
            OnlyReviewsChange(db, end) && |end.reviews| == |db.reviews| && end.reviews == db.reviews[at := end.reviews[at]] &&
            EditedTo(db.reviews[at].proposed, f, end.reviews[at].proposed) && end.reviews[at].state.Pending? &&
            end.reviews[at] == db.reviews[at].(proposed := end.reviews[at].proposed, revisionNo := end.reviews[at].revisionNo)
  {
    hide Valid, MaxRevision, PendingReview, Text.Blank, EditedEntry, EditedTo, InputValid;
    WaitingIsFound(db, id, actor);
    NeedsActor(db, id, actor);
    EditedIs(db.reviews[at].proposed, f);
  }

  // The provenance of what an approval writes: the proposal's own, or else one that names the review.
  function ApprovedAs(r: ReviewItem, actor: string, source: string, note: Option<string>): Provenance {
    if r.proposed.provenance.Some? then r.proposed.provenance.value
    else Provenance(actor, source, Some(JsonText.Digits(r.id)), None, Some(r.requestId), note)
  }

  // What an approval leaves behind: the entry shows what is approved, and the review that it was approved.
  ghost predicate Leaves(db: DB, end: DB, at: nat, now: EntryInput, provenance: Provenance, note: Option<string>)
    requires at < |db.reviews|
  {
    var r := db.reviews[at];
    LeavesEntry(db, end, KeyOf(r.scope, r.packName, now.key), now, provenance) &&
    |end.reviews| == |db.reviews| && end.reviews == db.reviews[at := end.reviews[at]] &&
    end.reviews[at] == r.(proposed := now, state := Approved, note := note, revisionNo := end.reviews[at].revisionNo)
  }

  ghost predicate LeavesEntry(db: DB, end: DB, key: EntryKey, now: EntryInput, provenance: Provenance) {
    key in end.entries && end.entries == db.entries[key := end.entries[key]] && key.pack in end.packs && end.packs[key.pack].status.Open? &&
    (forall p | p in end.packs && p != key.pack :: p in db.packs && end.packs[p] == db.packs[p]) &&
    (key.pack in db.packs ==> end.packs == db.packs) &&
    end.entries[key].record == EntryRecord(end.entries[key].record.id, key.pack.scope, key.pack.name, now.key, now.title, now.kind, now.value,
                                           now.tags, now.metadata, provenance, now.locked, Active,
                                           if key in db.entries then db.entries[key].record.revisionNo + 1 else 1)
  }

  lemma WrittenLeaves(db: DB, mid: DB, end: DB, key: EntryKey, now: EntryInput, provenance: Provenance)
    requires WritesAt(db, mid, key, now, provenance) && Valid(mid) && mid.packs[key.pack].status.Open?
    requires end.entries == mid.entries && end.packs == mid.packs && key.key == now.key
    ensures LeavesEntry(db, end, key, now, provenance)
  {
    hide Valid;
    RowNamed(mid, key);
  }

  lemma ApprovalLeaves(db: DB, at: nat, review: ReviewItem, actor: string, source: string, action: string, note: Option<string>)
    requires Valid(db) && at < |db.reviews| && db.reviews[at].state.Pending? && SameCause(db.reviews[at], review)
    requires review == db.reviews[at].(proposed := review.proposed) && InputValid(review.proposed)
    ensures var a := ApplyProposed(db, review, actor, source, note);
            a.Done? ==> var t := Settle(a.db, at, review.(state := Approved, note := note), actor, action);
                        t.Done? ==> Leaves(db, t.db, at, review.proposed, ApprovedAs(review, actor, source, note), note)
  {
    hide Valid, Grows, ApplyProposed, Settle, LeavesEntry, WritesAt, InputValid, JsonText.Digits;
    ReviewAt(db, at);
    var a := ApplyProposed(db, review, actor, source, note);
    ApplyProposedSound(db, review, actor, source, note);
    if a.Done? {
      var settled := review.(state := Approved, note := note);
      var t := Settle(a.db, at, settled, actor, action);
      SettleSound(a.db, at, settled, actor, action);
      if t.Done? {
        WrittenLeaves(db, a.db, t.db, KeyOf(review.scope, review.packName, review.proposed.key), review.proposed,
                      ApprovedAs(review, actor, source, note));
      }
    }
  }

  /** Approving leaves the entry as it was proposed, under the proposal's own provenance or else one that names the review. */
  lemma ApproveStores(db: DB, id: Id, actor: string, note: Option<string>, at: nat)
    requires Valid(db) && Waits(db, id, at) && ApproveReview(db, id, actor, note).Done?
    ensures Leaves(db, ApproveReview(db, id, actor, note).db, at, db.reviews[at].proposed,
                   ApprovedAs(db.reviews[at], actor, "review_approve", note), note)
  {
    hide Valid, ApplyProposed, Settle, PendingReview, Leaves, InputValid, Text.Blank, JsonText.Digits;
    WaitingIsFound(db, id, actor);
    NeedsActor(db, id, actor);
    ReviewAt(db, at);
    SelfCause(db.reviews[at]);
    ApprovalLeaves(db, at, db.reviews[at], actor, "review_approve", "approve", note);
  }

  /** Editing and approving at once leaves the entry as it was proposed, with the fields taken over that the edit gives. */
  lemma EditAndApproveStores(db: DB, id: Id, f: EditFields, actor: string, note: Option<string>, at: nat)
    requires Valid(db) && Waits(db, id, at) && EditAndApproveReview(db, id, f, actor, note).Done?
    ensures var end := EditAndApproveReview(db, id, f, actor, note).db;
            at < |end.reviews| && EditedTo(db.reviews[at].proposed, f, end.reviews[at].proposed) &&
            Leaves(db, end, at, end.reviews[at].proposed, ApprovedAs(db.reviews[at], actor, "review_edit_and_approve", note), note)
  {
    hide Valid, ApplyProposed, Settle, PendingReview, LeavesEntry, InputValid, Text.Blank, EditedEntry, EditedTo, JsonText.Digits;
    WaitingIsFound(db, id, actor);
    NeedsActor(db, id, actor);
    var edited := EditedRow(db, at, f);
    EditedIs(db.reviews[at].proposed, f);
    KeptByEdit(db.reviews[at].proposed, f);
    RowCause(db, at, f);
    ApprovalLeaves(db, at, edited, actor, "review_edit_and_approve", "edit_and_approve", note);
  }

  lemma KeptByEdit(e: EntryInput, f: EditFields)
    ensures EditedEntry(e, f).key == e.key && EditedEntry(e, f).provenance == e.provenance
  {
  }
}
