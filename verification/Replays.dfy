/** What a commit's answer means later on: packs it created, and reviews that a replayed answer names. */
module Replays {
  import opened Prelude
  import opened JsonTree
  import opened Model
  import opened Database
  import opened Operations
  import opened SourceImport
  import opened Bundles
  import opened Invariant
  import opened Growth
  import opened Writes
  import opened Governance
  import opened Runs
  import opened Stamps
  import opened Reviews
  import opened Effects
  import Text

  // ---------- the pack of a proposal ----------

  lemma HeldKeepsPacks(db: DB, requestId: RequestId, key: EntryKey, entry: EntryInput, existing: Option<EntryRow>, reason: ReviewReason, exact: bool)
    ensures var t := HoldForReview(db, requestId, key, entry, existing, reason, exact); t.Done? ==> t.db.packs == db.packs
  {
    hide MaxRevision, FindPending, MatchesPending;
  }

  lemma AppliedHasPack(db: DB, requestId: RequestId, runId: Option<RunId>, key: EntryKey, entry: EntryInput, actor: string, provenance: Provenance)
    requires Valid(db) && Reviewable(requestId, key, entry)
    ensures var t := ApplyEntry(db, key.pack, entry, actor, provenance, Some(requestId), runId, false);
            t.Done? ==> key.pack in t.db.packs && (key.pack in db.packs ==> t.db.packs == db.packs)
  {
    hide Valid, ApplyEntry, Grows;
    ApplyEntrySound(db, key.pack, entry, actor, provenance, Some(requestId), runId, false);
  }

  lemma GovernKeepsPack(db: DB, requestId: RequestId, runId: Option<RunId>, key: EntryKey, pack: Option<PackRecord>, entry: EntryInput,
                        actor: string, provenance: Provenance, mode: ReviewMode, exact: bool)
    requires Valid(db) && Reviewable(requestId, key, entry)
    ensures var t := GovernProposal(db, requestId, runId, key, pack, entry, actor, provenance, mode, exact);
            t.Done? ==> (key.pack in t.db.packs <==> key.pack in db.packs || t.value.disposition.Applied?)
  {
    hide Valid, HoldForReview, ApplyEntry, Decide, IsDuplicate, Reviewable;
    var existing := GetEntry(db, key);
    match Decide(key.pack.scope.kind, pack, existing, IsDuplicate(existing, entry, mode, exact), mode)
    case Hold(reason) =>
      HeldKeepsPacks(db, requestId, key, entry, existing, reason, exact);
      HeldIsHeld(db, requestId, key, entry, existing, reason, exact);
    case Apply => AppliedHasPack(db, requestId, runId, key, entry, actor, provenance);
    case _ =>
  }

  lemma HeldIsHeld(db: DB, requestId: RequestId, key: EntryKey, entry: EntryInput, existing: Option<EntryRow>, reason: ReviewReason, exact: bool)
    ensures var t := HoldForReview(db, requestId, key, entry, existing, reason, exact); t.Done? ==> t.value.disposition.Held?
  {
    hide InsertOrReuseReview;
  }

  /**
   When a proposal brings its pack about. A commit creates an absent pack exactly if the scanner passes the
   proposal, whatever then becomes of it; if the scanner refuses the pack, the whole commit fails. A source
   import creates it exactly if the candidate is applied.
   */
  lemma ProposalCreatesPack(db: DB, requestId: RequestId, runId: Option<RunId>, pack: PackKey, entry: EntryInput, actor: string,
                            provenance: Provenance, mode: ReviewMode, exact: bool)
    requires Valid(db) && Reviewable(requestId, EntryKey(pack, entry.key), entry) && pack !in db.packs
    ensures var t := CommitProposal(db, requestId, runId, pack, entry, actor, provenance, mode, exact);
            var secret := db.scan(ShownEntryWrite(EntryKey(pack, entry.key), actor, entry, provenance, Some(requestId), runId));
            (t.Done? ==> (pack in t.db.packs <==> if exact then t.value.disposition.Applied? else !secret)) &&
            (!exact && !secret && !Passes(db, PackRecords(pack, actor)) ==> t == Fail(SecretDetected))
  {
    hide Valid, GovernProposal, EnsureDefaultPack, Grows;
    var key := EntryKey(pack, entry.key);
    if exact {
      GovernKeepsPack(db, requestId, runId, key, GetPack(db, pack), entry, actor, provenance, mode, exact);
    } else {
      var e := EnsureDefaultPack(db, pack, actor);
      EnsureDefaultPackSound(db, pack, actor);
      if !Passes(db, PackRecords(pack, actor)) { RefusedFails(db, pack, actor); }
      if e.Done? {
        GovernKeepsPack(e.db, requestId, runId, key, Some(e.value), entry, actor, provenance, mode, exact);
      }
    }
  }

  lemma RefusedFails(db: DB, pack: PackKey, actor: string)
    requires pack !in db.packs && !Text.Blank(pack.name) && !Passes(db, PackRecords(pack, actor))
    ensures EnsureDefaultPack(db, pack, actor) == Fail(SecretDetected)
  {
  }

  /**
   Of an absent pack every proposal that the scanner passes is held in Strict mode and in the global scope, and
   applied otherwise; the pack is there afterwards in either case.
   */
  lemma AbsentPackFate(db: DB, requestId: RequestId, runId: Option<RunId>, pack: PackKey, entry: EntryInput, actor: string,
                       provenance: Provenance, mode: ReviewMode)
    requires Valid(db) && Reviewable(requestId, EntryKey(pack, entry.key), entry) && pack !in db.packs
    requires !db.scan(ShownEntryWrite(EntryKey(pack, entry.key), actor, entry, provenance, Some(requestId), runId))
    ensures var t := CommitProposal(db, requestId, runId, pack, entry, actor, provenance, mode, false);
            t.Done? ==> pack in t.db.packs && IsDefaultPack(t.db.packs[pack]) &&
                        t.value.disposition == if mode.Strict? || pack.scope.kind.Global? then Held else Applied
  {
    hide Valid, EnsureDefaultPack, Sound, CommitProposal, IsDefaultPack;
    ProposalCreatesPack(db, requestId, runId, pack, entry, actor, provenance, mode, false);
    CommitSteps(db, requestId, runId, pack, entry, actor, provenance, mode);
    NewPackIsDefault(db, pack, actor);
    var e := EnsureDefaultPack(db, pack, actor);
    if e.Done? { FateInNewPack(e.db, requestId, runId, EntryKey(pack, entry.key), e.value, entry, actor, provenance, mode); }
  }

  lemma CommitSteps(db: DB, requestId: RequestId, runId: Option<RunId>, pack: PackKey, entry: EntryInput, actor: string,
                    provenance: Provenance, mode: ReviewMode)
    requires !db.scan(ShownEntryWrite(EntryKey(pack, entry.key), actor, entry, provenance, Some(requestId), runId))
    ensures var e := EnsureDefaultPack(db, pack, actor);
            CommitProposal(db, requestId, runId, pack, entry, actor, provenance, mode, false) ==
            if e.Fail? then Fail(e.error)
            else GovernProposal(e.db, requestId, runId, EntryKey(pack, entry.key), Some(e.value), entry, actor, provenance, mode, false)
  {
    hide EnsureDefaultPack, GovernProposal;
  }

  // A pack that is inserted on the way is open and unlocked, and has no entries yet.
  lemma NewPackIsDefault(db: DB, pack: PackKey, actor: string)
    requires Valid(db) && Normalized(pack.scope) && pack !in db.packs
    ensures var e := EnsureDefaultPack(db, pack, actor);
            e.Done? ==> Valid(e.db) && pack in e.db.packs && e.db.packs[pack] == e.value && IsDefaultPack(e.value) &&
                        forall key | key in e.db.entries :: key.pack != pack
  {
    PacksOfEntries(db);
    EnsureDefaultPackSound(db, pack, actor);
    hide Valid, EnsureDefaultPack, Grows;
  }

  lemma PacksOfEntries(db: DB)
    requires Valid(db)
    ensures forall key | key in db.entries :: key.pack in db.packs
  {
    forall key | key in db.entries ensures key.pack in db.packs { assert EntryShape(key, db.entries[key], db.packs, db.nextId); }
  }

  lemma FateInNewPack(db: DB, requestId: RequestId, runId: Option<RunId>, key: EntryKey, pack: PackRecord, entry: EntryInput,
                      actor: string, provenance: Provenance, mode: ReviewMode)
    requires Valid(db) && Reviewable(requestId, key, entry) && key.pack in db.packs && db.packs[key.pack] == pack
    requires IsDefaultPack(pack) && key !in db.entries
    ensures var t := GovernProposal(db, requestId, runId, key, Some(pack), entry, actor, provenance, mode, false);
            t.Done? ==> key.pack in t.db.packs && IsDefaultPack(t.db.packs[key.pack]) &&
                        t.value.disposition == if mode.Strict? || key.pack.scope.kind.Global? then Held else Applied
  {
    hide Valid, HoldForReview, ApplyEntry, Reviewable;
    var reason := if key.pack.scope.kind.Global? then GlobalScope else StrictPolicy;
    HeldIsHeld(db, requestId, key, entry, None, reason, false);
    HeldKeepsPacks(db, requestId, key, entry, None, reason, false);
    AppliedHasPack(db, requestId, runId, key, entry, actor, provenance);
  }

  /** For instance: a global proposal to a fresh store is held for review, and its pack is there all the same. */
  lemma HeldYetCreated(id: string, entry: EntryInput, actor: string, provenance: Provenance)
    requires !Text.Blank(id) && InputValid(entry)
    ensures var db, pack := EmptyDB(_ => false), PackKey(ScopeRef(Global, GLOBAL_SCOPE_ID), DEFAULT_PACK_NAME);
            var t := CommitProposal(db, ByClient(id), None, pack, entry, actor, provenance, db.policy.mode, false);
            t.Done? && t.value.disposition.Held? && pack !in db.packs && pack in t.db.packs
  {
    hide MaxRevision, FindPending, ContentHash, Text.Blank, InputValid;
    DefaultNameIsName();
  }

  lemma DefaultNameIsName()
    ensures !Text.Blank(DEFAULT_PACK_NAME)
  {
    Text.TrimIsTight(DEFAULT_PACK_NAME);
  }

  // ---------- the review that a replayed answer names ----------

  predicate IsPending(db: DB, id: Id) {
    var at := ReviewIndex(db.reviews, id);
    at.Some? && db.reviews[at.value].state.Pending?
  }

  // The review an operation approves or rejects when it succeeds, if it does either.
  function Settles(db: DB, op: Op): Option<Id> {
    match op
    case Reject(id, actor, note) => if RejectReview(db, id, actor, note).Done? then Some(id) else None
    case _ => Approves(db, op)
  }

  predicate SettledAlong(db: DB, ops: seq<Op>, id: Id) {
    exists i | 0 <= i < |ops| :: Settles(Run(db, ops[..i]), ops[i]) == Some(id)
  }

  lemma PutAppends(db: DB, req: PutRequest)
    requires Valid(db)
    ensures db.reviews <= Step(db, Put(req)).reviews
  {
    hide ApplyEntry, Valid, Grows;
    NormalizeSettles(req.scope);
    if Normalize(req.scope).Ok? {
      var provenance := Or(req.entry.provenance, SystemProvenance(req.actor, "manual_put"));
      ApplyEntrySound(db, PackKey(Normalize(req.scope).value, req.packName), req.entry, req.actor, provenance, None, None, false);
    }
  }

  lemma RowOpsAppend(db: DB, op: Op)
    requires Valid(db) && (op.Delete? || op.Revert?)
    ensures db.reviews <= Step(db, op).reviews
  {
    hide Select, DeleteRow, RestoreSnapshot, Valid, Grows;
    match op
    case Delete(sel, actor) =>
      if Select(db, sel, actor).Ok? {
        SelectNormalized(db, sel, actor);
        DeleteRowSound(db, Select(db, sel, actor).value, actor);
      }
    case Revert(sel, no, actor) =>
      if RevertTarget(db, sel, no, actor).Ok? {
        SelectNormalized(db, sel, actor);
        var target := RevertTarget(db, sel, no, actor).value;
        RestoreSnapshotSound(db, target.0, target.1, actor);
      }
  }

  lemma PackOpsAppend(db: DB, op: Op)
    requires op.Create? || op.Update? || op.Policy? || op.StartRun?
    ensures db.reviews <= Step(db, op).reviews
  {
    hide CreatePack, UpdatePack, SetPolicy, EnsureRun;
    match op
    case Create(req) => CreateKeepsReviews(db, req);
    case Update(req) => UpdateKeepsReviews(db, req);
    case Policy(mode, metadata, actor) => PolicyKeepsReviews(db, mode, metadata, actor);
    case StartRun(input) => RunKeepsReviews(db, input);
  }

  lemma CreateKeepsReviews(db: DB, req: CreatePackRequest)
    ensures CreatePack(db, req).Done? ==> CreatePack(db, req).db.reviews == db.reviews
  {
    hide MaxRevision, Normalize;
  }

  lemma UpdateKeepsReviews(db: DB, req: UpdatePackRequest)
    ensures UpdatePack(db, req).Done? ==> UpdatePack(db, req).db.reviews == db.reviews
  {
    hide MaxRevision, Normalize, UpdatedPack, OnlyUnarchives;
  }

  lemma PolicyKeepsReviews(db: DB, mode: ReviewMode, metadata: Json, actor: string)
    ensures SetPolicy(db, mode, metadata, actor).Done? ==> SetPolicy(db, mode, metadata, actor).db.reviews == db.reviews
  {
    hide MaxRevision;
  }

  lemma RunKeepsReviews(db: DB, input: RunInput)
    ensures EnsureRun(db, input).Done? ==> EnsureRun(db, input).db.reviews == db.reviews
  {
  }

  lemma AgentOpsAppend(db: DB, op: Op)
    requires Valid(db) && (op.Commit? || op.Import?)
    ensures db.reviews <= Step(db, op).reviews
  {
    hide CommitWork, ApplyImport, Valid, Grows;
    match op
    case Commit(_, _, _, _) => CommitWorkSound(db, CommitOf(op), false);
    case Import(req) => ApplyImportSound(db, req);
  }

  lemma PendingKept(db: DB, end: DB, id: Id)
    requires IsPending(db, id) && db.reviews <= end.reviews && ReviewRows(end.reviews, end.nextId)
    ensures IsPending(end, id)
  {
    var at := ReviewIndex(db.reviews, id).value;
    assert end.reviews[at] == db.reviews[at];
    IndexUnique(end.reviews, end.nextId, at);
  }

  // A transition of one review leaves every other one where it is and as it is.
  lemma OtherKept(db: DB, end: DB, id: Id, at: nat)
    requires IsPending(db, id) && at < |db.reviews| && |end.reviews| == |db.reviews| && end.reviews == db.reviews[at := end.reviews[at]]
    requires db.reviews[at].id != id && ReviewRows(end.reviews, end.nextId)
    ensures IsPending(end, id)
  {
    var i := ReviewIndex(db.reviews, id).value;
    assert end.reviews[i] == db.reviews[i];
    IndexUnique(end.reviews, end.nextId, i);
  }

  lemma ApprovalKeepsOthers(db: DB, op: Op, id: Id)
    requires Valid(db) && IsPending(db, id) && (op.Approve? || op.EditAndApprove?) && Settles(db, op) != Some(id)
    ensures IsPending(Step(db, op), id)
  {
    hide ApproveReview, EditAndApproveReview, ApprovalOf, Valid, Grows, IsPending;
    StepSound(db, op);
    ValidReviews(Step(db, op));
    match op
    case Approve(other, actor, note) =>
      if ApproveReview(db, other, actor, note).Done? {
        ApprovalWritesProposal(db, other, actor, note);
        OtherKept(db, Step(db, op), id, ReviewIndex(db.reviews, other).value);
      }
    case EditAndApprove(other, f, actor, note) =>
      if EditAndApproveReview(db, other, f, actor, note).Done? {
        EditedApprovalWrites(db, other, f, actor, note);
        OtherKept(db, Step(db, op), id, ReviewIndex(db.reviews, other).value);
      }
  }

  lemma EditKeepsPending(db: DB, other: Id, f: EditFields, actor: string, id: Id)
    requires Valid(db) && IsPending(db, id)
    ensures IsPending(Step(db, Edit(other, f, actor)), id)
  {
    hide EditReview, EditedReview, Valid, Grows, IsPending;
    var op := Edit(other, f, actor);
    StepSound(db, op);
    ValidReviews(Step(db, op));
    if EditReview(db, other, f, actor).Done? {
      EditedIsPending(db, other, f, actor);
      EditAtOnce(db, other, f, actor);
      var at := PendingReview(db, other, actor).value;
      if other == id { PendingAt(Step(db, op), id, actor); } else { OtherKept(db, Step(db, op), id, at); }
    }
  }

  lemma PendingAt(db: DB, id: Id, actor: string)
    requires PendingReview(db, id, actor).Ok?
    ensures IsPending(db, id)
  {
  }

  // An edit replaces the one review.
  lemma EditAtOnce(db: DB, id: Id, f: EditFields, actor: string)
    requires EditReview(db, id, f, actor).Done?
    ensures var at, end := PendingReview(db, id, actor), EditReview(db, id, f, actor).db;
            at.Ok? && at.value < |db.reviews| == |end.reviews| && db.reviews[at.value].id == id &&
            end.reviews == db.reviews[at.value := end.reviews[at.value]]
  {
    hide EditedEntry, MaxRevision;
  }

  lemma RejectAtOnce(db: DB, id: Id, actor: string, note: Option<string>)
    requires RejectReview(db, id, actor, note).Done?
    ensures var at, end := PendingReview(db, id, actor), RejectReview(db, id, actor, note).db;
            at.Ok? && at.value < |db.reviews| == |end.reviews| && db.reviews[at.value].id == id &&
            end.reviews == db.reviews[at.value := end.reviews[at.value]] &&
            end.reviews[at.value].id == id && end.reviews[at.value].state.Rejected?
  {
    hide MaxRevision;
  }

  lemma RejectKeepsOthers(db: DB, other: Id, actor: string, note: Option<string>, id: Id)
    requires Valid(db) && IsPending(db, id) && Settles(db, Reject(other, actor, note)) != Some(id)
    ensures IsPending(Step(db, Reject(other, actor, note)), id)
  {
    hide RejectReview, Valid, Grows, IsPending;
    var op := Reject(other, actor, note);
    StepSound(db, op);
    ValidReviews(Step(db, op));
    if RejectReview(db, other, actor, note).Done? {
      RejectAtOnce(db, other, actor, note);
      OtherKept(db, Step(db, op), id, PendingReview(db, other, actor).value);
    }
  }

  lemma RestoreKeepsPending(db: DB, op: Op, id: Id)
    requires Valid(db) && IsPending(db, id) && op.Restore? && Spares(op, id)
    ensures IsPending(Step(db, op), id)
  {
    hide Valid, Step, ImportBundle;
    var at := ReviewIndex(db.reviews, id).value;
    StepMoves(db, op);
    ValidReviews(Step(db, op));
    RestoreStep(db, op);
    ImportSpares(db, op.bundle, op.actor, at);
    IndexUnique(Step(db, op).reviews, Step(db, op).nextId, at);
  }

  // A pending review stays pending in every step that does not settle it.
  lemma StaysPending(db: DB, op: Op, id: Id)
    requires Valid(db) && IsPending(db, id) && Spares(op, id) && Settles(db, op) != Some(id)
    ensures IsPending(Step(db, op), id)
  {
    hide Valid, IsPending, Step, Settles, Spares;
    StepMoves(db, op);
    ValidReviews(Step(db, op));
    match op
    case Approve(_, _, _) => ApprovalKeepsOthers(db, op, id);
    case EditAndApprove(_, _, _, _) => ApprovalKeepsOthers(db, op, id);
    case Reject(other, actor, note) => RejectKeepsOthers(db, other, actor, note, id);
    case Edit(other, f, actor) => EditKeepsPending(db, other, f, actor, id);
    case Restore(_, _) => RestoreKeepsPending(db, op, id);
    case Put(req) => PutAppends(db, req); PendingKept(db, Step(db, op), id);
    case Delete(_, _) => RowOpsAppend(db, op); PendingKept(db, Step(db, op), id);
    case Revert(_, _, _) => RowOpsAppend(db, op); PendingKept(db, Step(db, op), id);
    case Commit(_, _, _, _) => AgentOpsAppend(db, op); PendingKept(db, Step(db, op), id);
    case Import(_) => AgentOpsAppend(db, op); PendingKept(db, Step(db, op), id);
    case _ => PackOpsAppend(db, op); PendingKept(db, Step(db, op), id);
  }

  // And is settled by a step that settles it.
  lemma SettledByIt(db: DB, op: Op, id: Id)
    requires Valid(db) && Settles(db, op) == Some(id)
    ensures Settled(Step(db, op), id)
  {
    hide RejectReview, Valid, Grows;
    if op.Reject? {
      StepSound(db, op);
      ValidReviews(Step(db, op));
      RejectAtOnce(db, id, op.actor, op.note);
      IndexUnique(Step(db, op).reviews, Step(db, op).nextId, PendingReview(db, id, op.actor).value);
    } else {
      ApprovalSettles(db, op, id);
    }
  }

  lemma SettledAlongLast(db: DB, ops: seq<Op>, id: Id)
    requires ops != []
    ensures var n := |ops| - 1;
            SettledAlong(db, ops, id) <==> SettledAlong(db, ops[..n], id) || Settles(Run(db, ops[..n]), ops[n]) == Some(id)
  {
    hide Run, Settles;
    var n := |ops| - 1;
    assert forall i | 0 <= i < n :: ops[..n][i] == ops[i] && ops[..n][..i] == ops[..i];
  }

  /** Over a run whose bundle imports do not list it a pending review is pending at the end exactly if no step settled it. */
  lemma {:induction false} PendingIffNotSettled(db: DB, ops: seq<Op>, id: Id)
    requires Valid(db) && AllSpare(ops, id) && IsPending(db, id)
    ensures Valid(Run(db, ops)) && (IsPending(Run(db, ops), id) <==> !SettledAlong(db, ops, id))
    ensures SettledAlong(db, ops, id) ==> Settled(Run(db, ops), id)
  {
    hide Valid, IsPending, Step, Settles, Settled, Spares, SettledAlong;
    if ops == [] {
      NothingSettled(db, id);
    } else {
      var n := |ops| - 1;
      var mid := Run(db, ops[..n]);
      RunLast(db, ops);
      SettledAlongLast(db, ops, id);
      PendingIffNotSettled(db, ops[..n], id);
      StepMoves(mid, ops[n]);
      if SettledAlong(db, ops[..n], id) {
        SettledStays(mid, ops[n], id);
        NotBoth(Step(mid, ops[n]), id);
      } else if Settles(mid, ops[n]) == Some(id) {
        SettledByIt(mid, ops[n], id);
        NotBoth(Step(mid, ops[n]), id);
      } else {
        StaysPending(mid, ops[n], id);
      }
    }
  }

  lemma NothingSettled(db: DB, id: Id)
    ensures !SettledAlong(db, [], id)
  {
  }

  lemma NotBoth(db: DB, id: Id)
    requires Settled(db, id)
    ensures !IsPending(db, id)
  {
  }

  // ---------- the reviews of a commit ----------

  predicate HeldPending(db: DB, item: CommitItem) {
    item.disposition.Held? ==> item.reviewId.Some? && IsPending(db, item.reviewId.value)
  }

  lemma WaitingIsPending(db: DB, id: Id, key: EntryKey, entry: EntryInput, existing: Option<EntryRecord>, reason: ReviewReason)
    requires ReviewRows(db.reviews, db.nextId) && ReviewWaits(db, id, key, entry, existing, reason)
    ensures IsPending(db, id)
  {
    var i :| 0 <= i < |db.reviews| && db.reviews[i].id == id && MatchesPending(db.reviews[i], key, entry, existing, reason);
    IndexUnique(db.reviews, db.nextId, i);
  }

  lemma TruthIsPending(db: DB, end: DB, key: EntryKey, entry: EntryInput, provenance: Provenance, item: CommitItem)
    requires Valid(end) && Tells(db, end, key, entry, provenance, item)
    ensures HeldPending(end, item)
  {
    hide Valid, ReviewWaits, IsPending, WritesAt, Writable;
    ValidReviews(end);
    if item.disposition.Held? {
      WaitingIsPending(end, item.reviewId.value, key, entry, RecordOf(GetEntry(db, key)), item.reason.value.reason);
    }
  }

  lemma OneHeldPending(db: DB, req: CommitRequest, runId: Option<RunId>, exact: bool, p: Proposal)
    requires Valid(db) && GoodRequestId(req.requestId)
    ensures var t := CommitOne(db, req, runId, db.policy.mode, exact, p);
            t.Done? ==> HeldPending(t.db, t.value) && db.reviews <= t.db.reviews && Valid(t.db) && t.db.policy == db.policy
  {
    hide Valid, CommitProposal, Tells, HeldPending, Grows;
    NormalizeSettles(p.scope);
    CommitOneSound(db, req, runId, exact, p);
    match Normalize(p.scope)
    case Err(_) =>
    case Ok(scope) =>
      if !Text.Blank(p.packName) && InputValid(p.entry) {
        var provenance := Or(p.entry.provenance, Provenance(req.actor, "commit_work", None, runId, Some(req.requestId), None));
        ItemTellsTruth(db, req.requestId, runId, PackKey(scope, p.packName), p.entry, req.actor, provenance, exact);
        var t := CommitOne(db, req, runId, db.policy.mode, exact, p);
        if t.Done? { TruthIsPending(db, t.db, KeyOf(scope, p.packName, p.entry.key), p.entry, provenance, t.value); }
      }
  }

  lemma StillHeldPending(db: DB, end: DB, item: CommitItem)
    requires HeldPending(db, item) && db.reviews <= end.reviews && Valid(end)
    ensures HeldPending(end, item)
  {
    hide Valid, IsPending;
    ValidReviews(end);
    if item.disposition.Held? { PendingKept(db, end, item.reviewId.value); }
  }

  lemma {:induction false} AllHeldPending(db: DB, req: CommitRequest, runId: Option<RunId>, exact: bool, n: nat)
    requires Valid(db) && GoodRequestId(req.requestId) && n <= |req.proposals|
    ensures var t := CommitProposals(db, req, runId, db.policy.mode, exact, n);
            t.Done? ==> Valid(t.db) && t.db.policy == db.policy && |t.value| == n && forall i | 0 <= i < n :: HeldPending(t.db, t.value[i])
  {
    hide Valid, HeldPending, CommitOne, GoodRequestId;
    if n > 0 {
      AllHeldPending(db, req, runId, exact, n - 1);
      var t := CommitProposals(db, req, runId, db.policy.mode, exact, n - 1);
      if t.Done? {
        OneHeldPending(t.db, req, runId, exact, req.proposals[n - 1]);
        var u := CommitOne(t.db, req, runId, db.policy.mode, exact, req.proposals[n - 1]);
        if u.Done? {
          forall i | 0 <= i < n - 1 ensures HeldPending(u.db, t.value[i]) { StillHeldPending(t.db, u.db, t.value[i]); }
        }
      }
    }
  }

  lemma CommitHeldPending(db: DB, req: CommitRequest, exact: bool)
    requires Valid(db) && CommitWork(db, req, exact).Done? && req.requestId !in db.commits
    ensures var t := CommitWork(db, req, exact); Valid(t.db) && forall i | 0 <= i < |t.value.items| :: HeldPending(t.db, t.value.items[i])
  {
    hide Valid, CommitProposals, CommitRun, Summarize, IsPending, Grows, AgentChange;
    CommitWorkSound(db, req, exact);
    CommitRunSound(db, req.run);
    var r := CommitRun(db, req.run);
    AllHeldPending(r.db, req, r.value, exact, |req.proposals|);
    var c, t := CommitProposals(r.db, req, r.value, db.policy.mode, exact, |req.proposals|), CommitWork(db, req, exact);
    assert t.value.items == c.value && t.db.reviews == c.db.reviews;
    forall i | 0 <= i < |t.value.items| ensures HeldPending(t.db, t.value.items[i]) { SameReviews(c.db, t.db, c.value[i]); }
  }

  lemma SameReviews(a: DB, b: DB, item: CommitItem)
    requires HeldPending(a, item) && b.reviews == a.reviews
    ensures HeldPending(b, item)
  {
  }

  /**
   A replayed answer and the reviews it names. Resending a committed request answers with the old result at any
   later time, and a review that the result calls pending is pending still exactly if no step has approved or
   rejected it since, bundle imports that list it aside.
   */
  lemma ReplayNamesReview(db: DB, req: CommitRequest, ops: seq<Op>, n: nat)
    requires Valid(db) && CommitWork(db, req, false).Done? && req.requestId !in db.commits
    requires n < |CommitWork(db, req, false).value.items| && CommitWork(db, req, false).value.items[n].disposition.Held?
    requires var id := CommitWork(db, req, false).value.items[n].reviewId; id.Some? ==> AllSpare(ops, id.value)
    ensures var t := CommitWork(db, req, false); var end, id := Run(t.db, ops), t.value.items[n].reviewId;
            CommitWork(end, req, false) == Done(end, t.value) && id.Some? &&
            (IsPending(end, id.value) <==> !SettledAlong(t.db, ops, id.value))
  {
    CommitHeldPending(db, req, false);
    var t := CommitWork(db, req, false);
    Answered(db, t.db, ops, req);
    hide CommitWork, Run, IsPending, SettledAlong, Valid;
    PendingIffNotSettled(t.db, ops, t.value.items[n].reviewId.value);
  }

  lemma Answered(db: DB, mid: DB, ops: seq<Op>, req: CommitRequest)
    requires Valid(db) && CommitWork(db, req, false).Done? && CommitWork(db, req, false).db == mid
    ensures CommitWork(Run(mid, ops), req, false) == Done(Run(mid, ops), CommitWork(db, req, false).value)
  {
    hide Run, Valid, AgentChange, CommitWork, PackAdvances, EntryAdvances;
    CommitWorkSound(db, req, false);
    CommitLogPermanent(mid, ops, req.requestId);
    RunMoves(mid, ops);
    AnsweredFromLog(db, Run(mid, ops), req);
  }

  lemma AnsweredFromLog(db: DB, end: DB, req: CommitRequest)
    requires CommitWork(db, req, false).Done? && end.scan == db.scan && req.requestId in end.commits
    ensures CommitWork(end, req, false) == Done(end, end.commits[req.requestId])
  {
    hide CommitRun, CommitProposals, Summarize;
  }

  /** A bundle import is what reviews are not safe from: it makes a settled one pending again, under its old id. */
  lemma BundleReopensReview(db: DB, at: nat, actor: string)
    requires Valid(db) && at < |db.reviews| && !Text.Blank(actor) && !db.scan(ReviewWrite(db.reviews[at].(state := Pending)))
    ensures var r := db.reviews[at].(state := Pending);
            var t := ImportBundle(db, Bundle([], [], [r], []), actor);
            t.Done? && ReviewIndex(t.db.reviews, r.id) == Some(at) && at < |t.db.reviews| && t.db.reviews[at] == r
  {
    ReviewAt(db, at);
    ValidReviews(db);
    IndexUnique(db.reviews, db.nextId, at);
    var r := db.reviews[at].(state := Pending);
    assert StoredReview(r) == r;
    hide Valid, RevisionIndex, PutRevision;
    assert [r][..0] == [];
    assert ImportReviews(db, [r], actor, 0) == Done(db, ());
    var end := ImportReview(db, r, actor).db;
    IndexReplaced(db.reviews, r, at);
  }

  lemma {:induction false} IndexReplaced(reviews: seq<ReviewItem>, r: ReviewItem, at: nat)
    requires at < |reviews| && reviews[at].id == r.id && ReviewIndex(reviews, r.id) == Some(at)
    ensures ReviewIndex(reviews[at := r], r.id) == Some(at)
  {
    var n := |reviews| - 1;
    if at < n {
      assert reviews[at := r][..n] == reviews[..n][at := r];
      IndexReplaced(reviews[..n], r, at);
    }
  }
}
