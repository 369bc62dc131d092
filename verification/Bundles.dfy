/** Export and import of a bundle of packs, entries, reviews and runs (`store.rs`). */
module Bundles {
  import opened Prelude
  import opened Model
  import opened Database
  import Text

  datatype Bundle = Bundle(packs: seq<PackRecord>, entries: seq<EntryRecord>, reviews: seq<ReviewItem>, runs: seq<RunRecord>)

  function KeptLockReason(p: PackRecord): Option<string> {
    if p.locked then p.lockReason else None
  }

  // `upsert_imported_pack_tx`.
  function ImportPack(db: DB, p: PackRecord, actor: string): Tx<PackRecord> {
    if Text.Blank(actor) then Fail(Validation)
    else match Normalize(p.scope)
      case Err(e) => Fail(e)
      case Ok(scope) =>
        var key := PackKey(scope, p.name);
        if Text.Blank(p.name) then Fail(Validation)
        else if db.scan(PackWrite(scope, p.name, actor, p.description, p.metadata, KeptLockReason(p))) then Fail(SecretDetected)
        else if key in db.packs then
          ReplacePack(db, key, db.packs[key].(description := p.description, metadata := p.metadata, status := p.status,
                                              locked := p.locked, lockReason := KeptLockReason(p)),
                      actor, "import_update", "pack_import")
        else InsertPack(db, key, actor, p.description, p.metadata, p.status, p.locked, KeptLockReason(p), "import_create", "pack_import")
  }

  function ImportEntry(db: DB, e: EntryRecord, actor: string): Tx<()> {
    match Normalize(e.scope)
    case Err(err) => Fail(err)
    case Ok(scope) =>
      var pack := PackKey(scope, e.packName);
      var key := EntryKey(pack, e.key);
      var (db1, _) :- ApplyEntry(db, pack, InputOf(e), actor, e.provenance, None, None, true);
      Done(if e.status.Deleted? && key in db1.entries then FlipDeleted(db1, key) else db1, ())
  }

  // `upsert_imported_run_tx`.
  function ImportRun(db: DB, r: RunRecord): Tx<()> {
    if (r.id.Named? && Text.Blank(r.id.text)) || Text.Blank(r.source) then Fail(Validation)
    else if db.scan(RunWrite(RunInput(Some(r.id), r.projectScopeId, r.taskScopeId, r.source, r.metadata))) then Fail(SecretDetected)
    else Done(db.(runs := db.runs[r.id := r], nextId := PastRun(db.nextId, r.id)), ())
  }

  predicate ImportableReview(r: ReviewItem) {
    (r.requestId.ByClient? ==> !Text.Blank(r.requestId.text)) && Normalize(r.scope).Ok? && !Text.Blank(r.packName) &&
    !Text.Blank(r.entryKey) && InputValid(r.proposed) &&
    (r.existing.Some? ==> Normalize(r.existing.value.scope).Ok? && !Text.Blank(r.existing.value.packName) && !Text.Blank(r.existing.value.key))
  }

  function Max(a: nat, b: nat): nat { if a < b then b else a }

  // The row and the revision that importing a review stores.
  function StoredReview(r: ReviewItem): ReviewItem
    requires Normalize(r.scope).Ok?
  {
    r.(scope := Normalize(r.scope).value, revisionNo := Max(r.revisionNo, 1))
  }

  function ReviewRevision(r: ReviewItem, actor: string): Revision {
    var action := match r.state case Pending => "import_pending" case Approved => "import_approved" case Rejected => "import_rejected";
    Revision(ReviewEntity, r.id, Max(r.revisionNo, 1), action, ReviewSnapshot(r), SystemProvenance(actor, "review_import"),
             Some(r.requestId), None)
  }

  // `upsert_imported_review_item_tx`: the review row and the revision of its number are overwritten where they exist.
  function ImportReview(db: DB, r: ReviewItem, actor: string): Tx<()> {
    if db.scan(ReviewWrite(r)) then Fail(SecretDetected)
    else if Text.Blank(actor) || !ImportableReview(r) then Fail(Validation)
    else
      var at := ReviewIndex(db.reviews, r.id);
      Done(db.(reviews := if at.Some? then db.reviews[at.value := StoredReview(r)] else db.reviews + [StoredReview(r)],
               revisions := PutRevision(db.revisions, ReviewRevision(r, actor)),
               nextId := Max(db.nextId, r.id + 1)), ())
  }

  function ImportPacks(db: DB, packs: seq<PackRecord>, actor: string, n: nat): Tx<()>
    requires n <= |packs|
  {
    if n == 0 then Done(db, ()) else
      var (db1, _) :- ImportPacks(db, packs, actor, n - 1);
      var (db2, _) :- ImportPack(db1, packs[n - 1], actor);
      Done(db2, ())
  }

  function ImportEntries(db: DB, entries: seq<EntryRecord>, actor: string, n: nat): Tx<()>
    requires n <= |entries|
  {
    if n == 0 then Done(db, ()) else
      var (db1, _) :- ImportEntries(db, entries, actor, n - 1);
      ImportEntry(db1, entries[n - 1], actor)
  }

  function ImportRuns(db: DB, runs: seq<RunRecord>, n: nat): Tx<()>
    requires n <= |runs|
  {
    if n == 0 then Done(db, ()) else
      var (db1, _) :- ImportRuns(db, runs, n - 1);
      ImportRun(db1, runs[n - 1])
  }

  function ImportReviews(db: DB, reviews: seq<ReviewItem>, actor: string, n: nat): Tx<()>
    requires n <= |reviews|
  {
    if n == 0 then Done(db, ()) else
      var (db1, _) :- ImportReviews(db, reviews, actor, n - 1);
      ImportReview(db1, reviews[n - 1], actor)
  }

  // `import_bundle` behind the check of `import_data`: packs, then entries, runs and reviews, all in one transaction.
  function ImportBundle(db: DB, b: Bundle, actor: string): Tx<()> {
    if Text.Blank(actor) then Fail(Validation) else
      var (db1, _) :- ImportPacks(db, b.packs, actor, |b.packs|);
      var (db2, _) :- ImportEntries(db1, b.entries, actor, |b.entries|);
      var (db3, _) :- ImportRuns(db2, b.runs, |b.runs|);
      ImportReviews(db3, b.reviews, actor, |b.reviews|)
  }
}
