/** The public operations of the context store, each one transaction (`store.rs`). */
module Operations {
  import opened Prelude
  import opened JsonTree
  import opened Model
  import opened Database
  import JsonText
  import Text

  // ---------- requests ----------

  datatype PutRequest = PutRequest(scope: ScopeRef, packName: string, entry: EntryInput, actor: string)
  datatype Selector = Selector(scope: ScopeRef, packName: string, entryKey: string)
  datatype CreatePackRequest = CreatePackRequest(
    scope: ScopeRef, name: string, description: Option<string>, metadata: Json, locked: bool,
    lockReason: Option<string>, actor: string)
  datatype UpdatePackRequest = UpdatePackRequest(
    scope: ScopeRef, name: string, description: Option<string>, metadata: Option<Json>, status: Option<PackStatus>,
    locked: Option<bool>, lockReason: Option<string>, actor: string)
  datatype EditFields = EditFields(
    title: Option<string>, kind: Option<string>, value: Option<EntryValue>, tags: Option<seq<string>>,
    metadata: Option<Json>, locked: Option<bool>)

  function Or<T>(o: Option<T>, default: T): T {
    if o.Some? then o.value else default
  }

  // ---------- policy and packs ----------

  function SetPolicy(db: DB, mode: ReviewMode, metadata: Json, actor: string): Tx<ReviewPolicy> {
    if Text.Blank(actor) then Fail(Validation)
    else if db.scan(PolicyWrite(mode, metadata, actor)) then Fail(SecretDetected)
    else if db.policy.mode == mode && db.policy.metadata == metadata then Done(db, db.policy)
    else
      var policy := db.policy.(mode := mode, metadata := metadata, updatedBy := actor);
      var (db1, no) :- RecordRevision(db, PolicyEntity, POLICY_ID, "update", PolicySnapshot(policy),
                                      SystemProvenance(actor, "review_policy_update"), None, None);
      Done(db1.(policy := policy.(revisionNo := no)), policy.(revisionNo := no))
  }

  function CreatePack(db: DB, req: CreatePackRequest): Tx<PackRecord> {
    match Normalize(req.scope)
    case Err(e) => Fail(e)
    case Ok(scope) =>
      var key := PackKey(scope, req.name);
      if Text.Blank(req.actor) || Text.Blank(req.name) then Fail(Validation)
      else if db.scan(PackWrite(scope, req.name, req.actor, req.description, req.metadata, req.lockReason)) then Fail(SecretDetected)
      else if key in db.packs then Fail(Error.Conflict)
      else EnsurePack(db, key, req.actor, req.description, req.metadata, req.locked, req.lockReason)
  }

  // An archived pack takes no update but the one that only makes it active again.
  predicate OnlyUnarchives(req: UpdatePackRequest) {
    req.status == Some(Open) && req.description.None? && req.metadata.None? && req.locked.None? && req.lockReason.None?
  }

  function UpdatedPack(pack: PackRecord, req: UpdatePackRequest): PackRecord {
    var locked := Or(req.locked, pack.locked);
    pack.(description := if req.description.Some? then req.description else pack.description,
          metadata := Or(req.metadata, pack.metadata),
          status := Or(req.status, pack.status),
          locked := locked,
          lockReason := if !locked then None else if req.lockReason.Some? then req.lockReason else pack.lockReason)
  }

  function UpdatePack(db: DB, req: UpdatePackRequest): Tx<PackRecord> {
    match Normalize(req.scope)
    case Err(e) => Fail(e)
    case Ok(scope) =>
      var key := PackKey(scope, req.name);
      if Text.Blank(req.actor) || Text.Blank(req.name) then Fail(Validation)
      else if key !in db.packs then Fail(NotFound)
      else if db.packs[key].status.Archived? && !OnlyUnarchives(req) then Fail(Error.Conflict)
      else
        var pack := UpdatedPack(db.packs[key], req);
        if db.scan(PackWrite(scope, pack.name, req.actor, pack.description, pack.metadata, pack.lockReason)) then Fail(SecretDetected)
        else ReplacePack(db, key, pack, req.actor, "update", "pack_update")
  }

  // ---------- entries ----------

  function PutEntry(db: DB, req: PutRequest): Tx<EntryRecord> {
    match Normalize(req.scope)
    case Err(e) => Fail(e)
    case Ok(scope) =>
      if Text.Blank(req.actor) || Text.Blank(req.packName) then Fail(Validation)
      else
        var provenance := Or(req.entry.provenance, SystemProvenance(req.actor, "manual_put"));
        ApplyEntry(db, PackKey(scope, req.packName), req.entry, req.actor, provenance, None, None, false)
  }

  // The entry a selector names, with the checks every selector goes through first.
  function Select(db: DB, sel: Selector, actor: string): Result<EntryKey> {
    var scope :- Normalize(sel.scope);
    if Text.Blank(actor) || Text.Blank(sel.packName) || Text.Blank(sel.entryKey) then Err(Validation)
    else if KeyOf(scope, sel.packName, sel.entryKey) !in db.entries then Err(NotFound)
    else Ok(KeyOf(scope, sel.packName, sel.entryKey))
  }

  function DeleteEntry(db: DB, sel: Selector, actor: string): Tx<EntryRecord> {
    match Select(db, sel, actor)
    case Err(e) => Fail(e)
    case Ok(key) =>
      if key.pack !in db.packs then Fail(NotFound)
      else if db.packs[key.pack].status.Archived? then Fail(Error.Conflict)
      else DeleteRow(db, key, actor)
  }

  function DeleteRow(db: DB, key: EntryKey, actor: string): Tx<EntryRecord>
    requires key in db.entries
  {
    var row := db.entries[key];
    var provenance := SystemProvenance(actor, "delete");
    var record := row.record.(status := Deleted, provenance := provenance);
    var (db1, no) :- RecordRevision(FlipDeleted(db, key), EntryEntity, record.id, "delete", EntrySnapshot(record),
                                    provenance, None, None);
    var stored := record.(revisionNo := no);
    Done(db1.(entries := db1.entries[key := row.(record := stored)]), stored)
  }

  // The provenance of a revert names the revision it goes back to.
  function RevertProvenance(actor: string, no: nat): Provenance {
    Provenance(actor, "revert", Some("revision:" + JsonText.Digits(no)), None, None, None)
  }

  // The entry to revert and the snapshot to restore, with the revert's own provenance; the default is the previous revision.
  function RevertTarget(db: DB, sel: Selector, revisionNo: Option<int>, actor: string): Result<(PackKey, EntryRecord)> {
    var key :- Select(db, sel, actor);
    var current := db.entries[key].record;
    var no := Or(revisionNo, current.revisionNo - 1);
    if no <= 0 then Err(Validation)
    else match RevisionIndex(db.revisions, EntryEntity, current.id, no)
      case None => Err(NotFound)
      case Some(at) =>
        match db.revisions[at].snapshot
        case EntrySnapshot(entry) => Ok((key.pack, entry.(provenance := RevertProvenance(actor, no))))
        case _ => Err(Malformed)
  }

  function RevertEntry(db: DB, sel: Selector, revisionNo: Option<int>, actor: string): Tx<EntryRecord> {
    match RevertTarget(db, sel, revisionNo, actor)
    case Err(e) => Fail(e)
    case Ok(target) => RestoreSnapshot(db, target.0, target.1, actor)
  }

  function RestoreSnapshot(db: DB, pack: PackKey, snapshot: EntryRecord, actor: string): Tx<EntryRecord> {
    var (db1, restored) :- ApplyEntry(db, pack, InputOf(snapshot), actor, snapshot.provenance, None, None, false);
    var key := EntryKey(pack, snapshot.key);
    if snapshot.status.Deleted? && key in db1.entries then Done(FlipDeleted(db1, key), restored.(status := Deleted))
    else Done(db1, restored)
  }

  // ---------- commits ----------

  function Item(key: EntryKey, disposition: Disposition, reason: Option<ItemReason>, entryId: Option<Id>, reviewId: Option<Id>): CommitItem {
    CommitItem(key.pack.scope, key.pack.name, key.key, disposition, reason, entryId, reviewId)
  }

  function IdOf(existing: Option<EntryRow>): Option<Id> {
    if existing.Some? then Some(existing.value.record.id) else None
  }

  function RecordOf(existing: Option<EntryRow>): Option<EntryRecord> {
    if existing.Some? then Some(existing.value.record) else None
  }

  predicate IsActive(existing: Option<EntryRow>) {
    existing.Some? && existing.value.record.status.Active?
  }

  predicate IsDuplicate(existing: Option<EntryRow>, entry: EntryInput, mode: ReviewMode, exact: bool) {
    IsActive(existing) &&
    if mode.Strict? || exact then SameContent(InputOf(existing.value.record), entry)
    else existing.value.contentHash == ContentHash(entry)
  }

  function HoldForReview(db: DB, requestId: RequestId, key: EntryKey, entry: EntryInput, existing: Option<EntryRow>,
                         reason: ReviewReason, exact: bool): Tx<CommitItem>
  {
    var (db1, review) :- InsertOrReuseReview(db, requestId, key, entry, RecordOf(existing), reason, exact);
    Done(db1, Item(key, Held, Some(Review(reason)), None, Some(review.id)))
  }

  // `commit_proposal_tx`; `exact` is the source import's exact-candidate check.
  function CommitProposal(db: DB, requestId: RequestId, runId: Option<RunId>, pack: PackKey, entry: EntryInput,
                          actor: string, provenance: Provenance, mode: ReviewMode, exact: bool): Tx<CommitItem>
  {
    var key := EntryKey(pack, entry.key);
    var existing := GetEntry(db, key);
    if db.scan(ShownEntryWrite(key, actor, entry, provenance, Some(requestId), runId)) then
      Done(db, Item(key, Refused, Some(Because(SecretDetected)), IdOf(existing), None))
    else if exact then
      GovernProposal(db, requestId, runId, key, GetPack(db, pack), entry, actor, provenance, mode, exact)
    else
      var (db1, record) :- EnsureDefaultPack(db, pack, actor);
      GovernProposal(db1, requestId, runId, key, Some(record), entry, actor, provenance, mode, exact)
  }

  // The outcomes of the decision that `commit_proposal_tx` takes.
  datatype Verdict = Refuse | Skip | Hold(reason: ReviewReason) | Apply

  function Decide(scope: ScopeKind, pack: Option<PackRecord>, existing: Option<EntryRow>, duplicate: bool, mode: ReviewMode): Verdict {
    if pack.Some? && pack.value.status.Archived? then Refuse
    else if mode.Strict? && duplicate then Skip
    else if scope.Global? then Hold(GlobalScope)
    else if (pack.Some? && pack.value.locked) || (existing.Some? && existing.value.record.locked) then Hold(Locked)
    else if mode.Strict? then Hold(if IsActive(existing) then Conflicting else StrictPolicy)
    else if duplicate then Skip
    else if mode.Balanced? && IsActive(existing) then Hold(Conflicting)
    else Apply
  }

  // The part of `commit_proposal_tx` that follows once the destination pack is known.
  function GovernProposal(db: DB, requestId: RequestId, runId: Option<RunId>, key: EntryKey, pack: Option<PackRecord>,
                          entry: EntryInput, actor: string, provenance: Provenance, mode: ReviewMode, exact: bool): Tx<CommitItem>
  {
    var existing := GetEntry(db, key);
    match Decide(key.pack.scope.kind, pack, existing, IsDuplicate(existing, entry, mode, exact), mode)
    case Refuse => Done(db, Item(key, Refused, Some(Because(Error.Conflict)), IdOf(existing), None))
    case Skip => Done(db, Item(key, Duplicate, None, IdOf(existing), None))
    case Hold(reason) => HoldForReview(db, requestId, key, entry, existing, reason, exact)
    case Apply =>
      var (db1, applied) :- ApplyEntry(db, key.pack, entry, actor, provenance, Some(requestId), runId, false);
      Done(db1, Item(key, Applied, None, Some(applied.id), None))
  }

  function CommitProposals(db: DB, req: CommitRequest, runId: Option<RunId>, mode: ReviewMode, exact: bool, n: nat): Tx<seq<CommitItem>>
    requires n <= |req.proposals|
  {
    if n == 0 then Done(db, []) else
      var (db1, items) :- CommitProposals(db, req, runId, mode, exact, n - 1);
      var (db2, item) :- CommitOne(db1, req, runId, mode, exact, req.proposals[n - 1]);
      Done(db2, items + [item])
  }

  function CommitOne(db: DB, req: CommitRequest, runId: Option<RunId>, mode: ReviewMode, exact: bool, p: Proposal): Tx<CommitItem> {
    match Normalize(p.scope)
    case Err(e) => Fail(e)
    case Ok(scope) =>
      if Text.Blank(p.packName) || !InputValid(p.entry) then Fail(Validation)
      else
        var provenance := Or(p.entry.provenance, Provenance(req.actor, "commit_work", None, runId, Some(req.requestId), None));
        CommitProposal(db, req.requestId, runId, PackKey(scope, p.packName), p.entry, req.actor, provenance, mode, exact)
  }

  function Summarize(items: seq<CommitItem>): CommitStatus {
    var applied := exists i | 0 <= i < |items| :: items[i].disposition.Applied? || items[i].disposition.Duplicate?;
    var pending := exists i | 0 <= i < |items| :: items[i].disposition.Held?;
    var refused := exists i | 0 <= i < |items| :: items[i].disposition.Refused?;
    if applied && !pending && !refused then AllApplied
    else if !applied && pending && !refused then AllPending
    else if !applied && !pending && refused then AllRejected
    else Partial
  }

  function ShownCommit(req: CommitRequest): Write {
    CommitMetadata(Shown(Some(req.requestId)), req.actor, req.run, ShowProposals(req.proposals))
  }

  // `commit_work_tx`: a request id seen before is answered from the log.
  function CommitWork(db: DB, req: CommitRequest, exact: bool): Tx<CommitResult> {
    if (req.requestId.ByClient? && Text.Blank(req.requestId.text)) || Text.Blank(req.actor) || req.proposals == [] then
      Fail(Validation)
    else if db.scan(ShownCommit(req)) then Fail(SecretDetected)
    else if req.requestId in db.commits then Done(db, db.commits[req.requestId])
    else
      var (db1, runId) :- CommitRun(db, req.run);
      var (db2, items) :- CommitProposals(db1, req, runId, db.policy.mode, exact, |req.proposals|);
      var result := CommitResult(req.requestId, Summarize(items), runId, items);
      Done(db2.(commits := db2.commits[req.requestId := result]), result)
  }

  function CommitRun(db: DB, run: Option<RunInput>): Tx<Option<RunId>> {
    match run
    case None => Done(db, None)
    case Some(input) =>
      var (db1, record) :- EnsureRun(db, input);
      Done(db1, Some(record.id))
  }

  // ---------- reviews ----------

  function PendingReview(db: DB, reviewId: Id, actor: string): Result<nat> {
    if Text.Blank(actor) then Err(Validation)
    else match ReviewIndex(db.reviews, reviewId)
      case None => Err(NotFound)
      case Some(at) => if db.reviews[at].state.Pending? then Ok(at) else Err(Validation)
  }

  function ApprovalProvenance(review: ReviewItem, actor: string, source: string, note: Option<string>): Provenance {
    Or(review.proposed.provenance, Provenance(actor, source, Some(JsonText.Digits(review.id)), None, Some(review.requestId), note))
  }

  // Writes the proposed entry of a review and returns the tables; the review row itself is settled by the caller.
  function ApplyProposed(db: DB, review: ReviewItem, actor: string, source: string, note: Option<string>): Tx<EntryRecord> {
    var provenance := ApprovalProvenance(review, actor, source, note);
    ApplyEntry(db, PackKey(review.scope, review.packName), review.proposed, actor, provenance,
               Some(review.requestId), provenance.runId, false)
  }

  function Settle(db: DB, at: nat, review: ReviewItem, actor: string, action: string): Tx<ReviewItem> {
    if db.scan(ReviewWrite(review)) then Fail(SecretDetected)
    else if at >= |db.reviews| then Fail(NotFound)
    else UpdateReview(db, at, review, actor, action)
  }

  function ApproveReview(db: DB, reviewId: Id, actor: string, note: Option<string>): Tx<ReviewItem> {
    match PendingReview(db, reviewId, actor)
    case Err(e) => Fail(e)
    case Ok(at) =>
      var review := db.reviews[at];
      var (db1, _) :- ApplyProposed(db, review, actor, "review_approve", note);
      Settle(db1, at, review.(state := Approved, note := note), actor, "approve")
  }

  function RejectReview(db: DB, reviewId: Id, actor: string, note: Option<string>): Tx<ReviewItem> {
    match PendingReview(db, reviewId, actor)
    case Err(e) => Fail(e)
    case Ok(at) => Settle(db, at, db.reviews[at].(state := Rejected, note := note), actor, "reject")
  }

  function EditedEntry(e: EntryInput, f: EditFields): EntryInput {
    e.(title := if f.title.Some? then f.title else e.title, kind := Or(f.kind, e.kind), value := Or(f.value, e.value),
       tags := Or(f.tags, e.tags), metadata := Or(f.metadata, e.metadata), locked := Or(f.locked, e.locked))
  }

  // `apply_review_edit_fields`.
  function EditedReview(db: DB, review: ReviewItem, f: EditFields): Result<ReviewItem> {
    var edited := review.(proposed := EditedEntry(review.proposed, f));
    if !InputValid(edited.proposed) then Err(Validation)
    else if db.scan(ReviewWrite(edited)) then Err(SecretDetected)
    else Ok(edited)
  }

  function EditReview(db: DB, reviewId: Id, f: EditFields, actor: string): Tx<ReviewItem> {
    match PendingReview(db, reviewId, actor)
    case Err(e) => Fail(e)
    case Ok(at) =>
      match EditedReview(db, db.reviews[at], f)
      case Err(e) => Fail(e)
      case Ok(edited) => UpdateReview(db, at, edited, actor, "edit")
  }

  function EditAndApproveReview(db: DB, reviewId: Id, f: EditFields, actor: string, note: Option<string>): Tx<ReviewItem> {
    match PendingReview(db, reviewId, actor)
    case Err(e) => Fail(e)
    case Ok(at) =>
      match EditedReview(db, db.reviews[at], f)
      case Err(e) => Fail(e)
      case Ok(edited) =>
        var (db1, _) :- ApplyProposed(db, edited, actor, "review_edit_and_approve", note);
        Settle(db1, at, edited.(state := Approved, note := note), actor, "edit_and_approve")
  }
}
