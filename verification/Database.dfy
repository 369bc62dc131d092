/**
 The tables of the context store and the writes that its transactions are made of (`store.rs`).
 Packs and entries are keyed by their UNIQUE columns, `revisions` and `reviews` are kept in the order
 in which rows were inserted, and `fts` is the full-text table, which enforces no uniqueness.
 */
module Database {
  import opened Prelude
  import opened JsonTree
  import opened Model
  import Text

  datatype PackKey = PackKey(scope: ScopeRef, name: string)
  datatype EntryKey = EntryKey(pack: PackKey, key: string)

  datatype EntryRow = EntryRow(record: EntryRecord, packId: Id, contentHash: Hash)

  datatype EntityType = PackEntity | EntryEntity | ReviewEntity | PolicyEntity

  datatype Snapshot =
    | PackSnapshot(pack: PackRecord)
    | EntrySnapshot(entry: EntryRecord)
    | ReviewSnapshot(review: ReviewItem)
    | PolicySnapshot(policy: ReviewPolicy)

  datatype Revision = Revision(
    entity: EntityType, entityId: Id, no: nat, action: string, snapshot: Snapshot,
    provenance: Provenance, requestId: Option<RequestId>, runId: Option<RunId>)

  datatype Doc = Doc(entryId: Id, key: EntryKey, title: string, body: EntryValue, tags: seq<string>)

  datatype DB = DB(
    scan: Scanner,
    packs: map<PackKey, PackRecord>,
    entries: map<EntryKey, EntryRow>,
    revisions: seq<Revision>,
    reviews: seq<ReviewItem>,
    commits: map<RequestId, CommitResult>,
    policy: ReviewPolicy,
    runs: map<RunId, RunRecord>,
    fts: seq<Doc>,
    nextId: Id)

  // The policy row has a fixed key; rows with minted ids start above it.
  const POLICY_ID: Id := 0

  function EmptyDB(scan: Scanner): DB {
    var policy := ReviewPolicy(Balanced, EMPTY_OBJECT, "system", 0);
    DB(scan, map[], map[],
       [Revision(PolicyEntity, POLICY_ID, 1, "create", PolicySnapshot(policy),
                 SystemProvenance("system", "migration_v5"), None, None)],
       [], map[], policy.(revisionNo := 1), map[], [], POLICY_ID + 1)
  }

  /** The outcome of work inside a transaction: the tables it would commit, or an error, on which it rolls back. */
  datatype Tx<T> = Done(db: DB, value: T) | Fail(error: Error) {
    predicate IsFailure() { Fail? }

    function PropagateFailure<U>(): Tx<U>
      requires Fail?
    {
      Fail(error)
    }

    function Extract(): (DB, T)
      requires Done?
    {
      (db, value)
    }

    /** What the database holds after the transaction. */
    function After(before: DB): DB {
      if Done? then db else before
    }
  }

  // ---------- lookups ----------

  function KeyOf(scope: ScopeRef, packName: string, key: string): EntryKey {
    EntryKey(PackKey(scope, packName), key)
  }

  function GetPack(db: DB, key: PackKey): Option<PackRecord> {
    if key in db.packs then Some(db.packs[key]) else None
  }

  function GetEntry(db: DB, key: EntryKey): Option<EntryRow> {
    if key in db.entries then Some(db.entries[key]) else None
  }

  function ReviewIndex(reviews: seq<ReviewItem>, id: Id): (r: Option<nat>)
    ensures r.Some? ==> r.value < |reviews| && reviews[r.value].id == id
    ensures r.None? ==> forall i | 0 <= i < |reviews| :: reviews[i].id != id
  {
    if reviews == [] then None
    else
      var n := |reviews| - 1;
      if reviews[n].id == id then Some(n) else ReviewIndex(reviews[..n], id)
  }

  // ---------- revisions ----------

  function MaxRevision(revisions: seq<Revision>, entity: EntityType, id: Id): nat {
    if revisions == [] then 0 else
      var r, m := revisions[|revisions| - 1], MaxRevision(revisions[..|revisions| - 1], entity, id);
      if r.entity == entity && r.entityId == id && r.no > m then r.no else m
  }

  function RevisionIndex(revisions: seq<Revision>, entity: EntityType, id: Id, no: nat): (r: Option<nat>)
    ensures r.Some? ==> r.value < |revisions|
    ensures r.Some? ==> revisions[r.value].entity == entity && revisions[r.value].entityId == id && revisions[r.value].no == no
    ensures r.None? ==> forall i | 0 <= i < |revisions| ::
                          !(revisions[i].entity == entity && revisions[i].entityId == id && revisions[i].no == no)
  {
    if revisions == [] then None else
      var n := |revisions| - 1;
      if revisions[n].entity == entity && revisions[n].entityId == id && revisions[n].no == no then Some(n)
      else RevisionIndex(revisions[..n], entity, id, no)
  }

  // The upsert on (entity, id, number).
  function PutRevision(revisions: seq<Revision>, r: Revision): seq<Revision> {
    var at := RevisionIndex(revisions, r.entity, r.entityId, r.no);
    if at.Some? then revisions[at.value := r] else revisions + [r]
  }

  function RecordRevision(db: DB, entity: EntityType, id: Id, action: string, snapshot: Snapshot,
                          provenance: Provenance, requestId: Option<RequestId>, runId: Option<RunId>): Tx<nat>
  {
    if db.scan(RevisionMetadata(ShowProvenance(provenance), Shown(requestId), runId)) then Fail(SecretDetected)
    else
      var no := MaxRevision(db.revisions, entity, id) + 1;
      Done(db.(revisions := db.revisions + [Revision(entity, id, no, action, snapshot, provenance, requestId, runId)]), no)
  }

  // ---------- the full-text table ----------

  function DocOf(r: EntryRecord): Doc {
    Doc(r.id, KeyOf(r.scope, r.packName, r.key), if r.title.Some? then r.title.value else "", r.value, r.tags)
  }

  function RemoveDocs(fts: seq<Doc>, id: Id): seq<Doc> {
    if fts == [] then [] else
      var d := fts[|fts| - 1];
      RemoveDocs(fts[..|fts| - 1], id) + (if d.entryId == id then [] else [d])
  }

  function UpsertDoc(fts: seq<Doc>, r: EntryRecord): seq<Doc> {
    RemoveDocs(fts, r.id) + (if r.status.Deleted? then [] else [DocOf(r)])
  }

  // ---------- packs ----------

  // Inserts the pack row under a fresh id and records its first revision.
  function InsertPack(db: DB, key: PackKey, actor: string, description: Option<string>, metadata: Json,
                      status: PackStatus, locked: bool, lockReason: Option<string>, action: string, source: string): Tx<PackRecord>
  {
    var record := PackRecord(db.nextId, key.scope, key.name, description, metadata, status, locked, lockReason, 0);
    var (db1, no) :- RecordRevision(db.(nextId := db.nextId + 1), PackEntity, record.id, action,
                                    PackSnapshot(record), SystemProvenance(actor, source), None, None);
    Done(db1.(packs := db1.packs[key := record.(revisionNo := no)]), record.(revisionNo := no))
  }

  // Overwrites an existing pack row and records a revision of it.
  function ReplacePack(db: DB, key: PackKey, record: PackRecord, actor: string, action: string, source: string): Tx<PackRecord> {
    var (db1, no) :- RecordRevision(db, PackEntity, record.id, action, PackSnapshot(record),
                                    SystemProvenance(actor, source), None, None);
    Done(db1.(packs := db1.packs[key := record.(revisionNo := no)]), record.(revisionNo := no))
  }

  function EnsurePack(db: DB, key: PackKey, actor: string, description: Option<string>, metadata: Json,
                      locked: bool, lockReason: Option<string>): Tx<PackRecord>
  {
    if Text.Blank(key.name) then Fail(Validation)
    else if key in db.packs then Done(db, db.packs[key])
    else if db.scan(PackWrite(key.scope, key.name, actor, description, metadata, lockReason)) then Fail(SecretDetected)
    else InsertPack(db, key, actor, description, metadata, Open, locked, lockReason, "create", "pack_create")
  }

  function EnsureDefaultPack(db: DB, key: PackKey, actor: string): Tx<PackRecord> {
    EnsurePack(db, key, actor, None, EMPTY_OBJECT, false, None)
  }

  // ---------- entries ----------

  // The record a write stores, before its revision number is known.
  function WrittenRecord(db: DB, key: EntryKey, entry: EntryInput, provenance: Provenance): EntryRecord {
    var id := if key in db.entries then db.entries[key].record.id else db.nextId;
    EntryRecord(id, key.pack.scope, key.pack.name, entry.key, entry.title, entry.kind, entry.value, entry.tags,
                entry.metadata, provenance, entry.locked, Active, 0)
  }

  // Inserts or updates the row, records the revision and refreshes the full-text document.
  function WriteEntry(db: DB, key: EntryKey, packId: Id, entry: EntryInput, provenance: Provenance,
                      requestId: Option<RequestId>, runId: Option<RunId>): Tx<EntryRecord>
  {
    var update := key in db.entries;
    var record := WrittenRecord(db, key, entry, provenance);
    var db0 := if update then db else db.(nextId := db.nextId + 1);
    var (db1, no) :- RecordRevision(db0, EntryEntity, record.id, if update then "update" else "create",
                                    EntrySnapshot(record), provenance, requestId, runId);
    var stored := record.(revisionNo := no);
    var row := EntryRow(stored, if update then db.entries[key].packId else packId, ContentHash(entry));
    Done(db1.(entries := db1.entries[key := row], fts := UpsertDoc(db1.fts, stored)), stored)
  }

  function ShownEntryWrite(key: EntryKey, actor: string, entry: EntryInput, provenance: Provenance,
                           requestId: Option<RequestId>, runId: Option<RunId>): Write
  {
    EntryWrite(key.pack.scope, key.pack.name, actor, ShowInput(entry), ShowProvenance(provenance), Shown(requestId), runId)
  }

  // `apply_entry_tx_inner`.
  function ApplyEntry(db: DB, pack: PackKey, entry: EntryInput, actor: string, provenance: Provenance,
                      requestId: Option<RequestId>, runId: Option<RunId>, allowArchived: bool): Tx<EntryRecord>
  {
    var key := EntryKey(pack, entry.key);
    if Text.Blank(actor) || Text.Blank(pack.name) || !InputValid(entry) then Fail(Validation)
    else if db.scan(ShownEntryWrite(key, actor, entry, provenance, requestId, runId)) then Fail(SecretDetected)
    else
      var (db1, record) :- EnsureDefaultPack(db, pack, actor);
      if !allowArchived && record.status.Archived? then Fail(Error.Conflict)
      else WriteEntry(db1, key, record.id, entry, provenance, requestId, runId)
  }

  function Flipped(row: EntryRow): EntryRow {
    row.(record := row.record.(status := Deleted))
  }

  // Flips the status column alone and drops the document; no revision is recorded.
  function FlipDeleted(db: DB, key: EntryKey): DB
    requires key in db.entries
  {
    var row := db.entries[key];
    db.(entries := db.entries[key := Flipped(row)], fts := RemoveDocs(db.fts, row.record.id))
  }

  // ---------- reviews ----------

  function InsertReview(db: DB, requestId: RequestId, key: EntryKey, entry: EntryInput,
                        existing: Option<EntryRecord>, reason: ReviewReason): Tx<ReviewItem>
  {
    var record := ReviewItem(db.nextId, requestId, key.pack.scope, key.pack.name, entry.key, Pending, reason,
                             entry, existing, None, 0);
    if db.scan(ReviewWrite(record)) then Fail(SecretDetected)
    else
      var (db1, no) :- RecordRevision(db.(nextId := db.nextId + 1), ReviewEntity, record.id, "create",
                                      ReviewSnapshot(record), SystemProvenance("system", "review_create"),
                                      Some(requestId), None);
      var stored := record.(revisionNo := no);
      Done(db1.(reviews := db1.reviews + [stored]), stored)
  }

  predicate MatchesPending(r: ReviewItem, key: EntryKey, entry: EntryInput, existing: Option<EntryRecord>, reason: ReviewReason) {
    r.state.Pending? && KeyOf(r.scope, r.packName, r.entryKey) == key && r.reason == reason &&
    SameContent(r.proposed, entry) && r.existing == existing
  }

  // The oldest pending review of the same proposal over the same entry for the same reason.
  function FindPending(reviews: seq<ReviewItem>, key: EntryKey, entry: EntryInput, existing: Option<EntryRecord>,
                       reason: ReviewReason): (r: Option<ReviewItem>)
    ensures r.Some? ==> r.value in reviews && MatchesPending(r.value, key, entry, existing, reason)
    ensures r.None? ==> forall i | 0 <= i < |reviews| :: !MatchesPending(reviews[i], key, entry, existing, reason)
  {
    if reviews == [] then None
    else if MatchesPending(reviews[0], key, entry, existing, reason) then Some(reviews[0])
    else FindPending(reviews[1..], key, entry, existing, reason)
  }

  function InsertOrReuseReview(db: DB, requestId: RequestId, key: EntryKey, entry: EntryInput,
                               existing: Option<EntryRecord>, reason: ReviewReason, exact: bool): Tx<ReviewItem>
  {
    var found := if exact then FindPending(db.reviews, key, entry, existing, reason) else None;
    if found.Some? then Done(db, found.value)
    else InsertReview(db, requestId, key, entry, existing, reason)
  }

  // `update_review_tx`: the review at position `at` is replaced and a revision of it recorded.
  function UpdateReview(db: DB, at: nat, record: ReviewItem, actor: string, action: string): Tx<ReviewItem>
    requires at < |db.reviews|
  {
    if Text.Blank(actor) then Fail(Validation)
    else if db.scan(ReviewTransition(record, actor)) then Fail(SecretDetected)
    else
      var (db1, no) :- RecordRevision(db, ReviewEntity, record.id, action, ReviewSnapshot(record),
                                      SystemProvenance(actor, "review_" + action), Some(record.requestId), None);
      var stored := record.(revisionNo := no);
      Done(db1.(reviews := db1.reviews[at := stored]), stored)
  }

  // ---------- runs ----------

  // An id that is in use is not minted again.
  function PastRun(nextId: Id, id: RunId): Id {
    if id.Minted? && id.n >= nextId then id.n + 1 else nextId
  }

  function EnsureRun(db: DB, input: RunInput): Tx<RunRecord> {
    if Text.Blank(input.source) then Fail(Validation)
    else if input.id.Some? && input.id.value.Named? && Text.Blank(input.id.value.text) then Fail(Validation)
    else
      var id := if input.id.Some? then input.id.value else Minted(db.nextId);
      var db0 := db.(nextId := PastRun(db.nextId, id));
      if id in db.runs then Done(db0, db.runs[id])
      else if db.scan(RunWrite(input)) then Fail(SecretDetected)
      else
        var record := RunRecord(id, input.projectScopeId, input.taskScopeId, input.source, input.metadata);
        Done(db0.(runs := db0.runs[id := record]), record)
  }
}
