/** Exporting a store and importing the bundle into an empty one. */
module RoundTrip {
  import opened Prelude
  import opened Model
  import opened Database
  import opened Bundles
  import opened Invariant
  import opened Growth
  import opened Writes
  import opened Runs
  import opened Reviews
  import Text

  function PackKeyOf(p: PackRecord): PackKey { PackKey(p.scope, p.name) }

  function EntryKeyOf(e: EntryRecord): EntryKey { KeyOf(e.scope, e.packName, e.key) }

  // The bundle holds rows of the store, in any order, no row twice, and with every entry its pack. Exports of
  // the whole store, of one scope or of one pack are all of this kind.
  ghost predicate Exports(db: DB, b: Bundle) {
    PacksFrom(db, b.packs) && EntriesFrom(db, b.entries) && ReviewsFrom(db, b.reviews) && RunsFrom(db, b.runs) &&
    forall i | 0 <= i < |b.entries| :: EntryKeyOf(b.entries[i]).pack in PackKeys(b.packs, |b.packs|)
  }

  ghost predicate PacksFrom(db: DB, packs: seq<PackRecord>) {
    (forall i | 0 <= i < |packs| :: PackKeyOf(packs[i]) in db.packs && db.packs[PackKeyOf(packs[i])] == packs[i]) &&
    forall i, j | 0 <= i < j < |packs| :: PackKeyOf(packs[i]) != PackKeyOf(packs[j])
  }

  ghost predicate EntriesFrom(db: DB, entries: seq<EntryRecord>) {
    (forall i | 0 <= i < |entries| :: EntryKeyOf(entries[i]) in db.entries && db.entries[EntryKeyOf(entries[i])].record == entries[i]) &&
    forall i, j | 0 <= i < j < |entries| :: EntryKeyOf(entries[i]) != EntryKeyOf(entries[j])
  }

  ghost predicate ReviewsFrom(db: DB, reviews: seq<ReviewItem>) {
    (forall i | 0 <= i < |reviews| :: reviews[i] in db.reviews) &&
    forall i, j | 0 <= i < j < |reviews| :: reviews[i].id != reviews[j].id
  }

  ghost predicate RunsFrom(db: DB, runs: seq<RunRecord>) {
    (forall i | 0 <= i < |runs| :: runs[i].id in db.runs && db.runs[runs[i].id] == runs[i]) &&
    forall i, j | 0 <= i < j < |runs| :: runs[i].id != runs[j].id
  }

  function PackKeys(packs: seq<PackRecord>, n: nat): set<PackKey>
    requires n <= |packs|
  {
    set i | 0 <= i < n :: PackKeyOf(packs[i])
  }

  function EntryKeys(entries: seq<EntryRecord>, n: nat): set<EntryKey>
    requires n <= |entries|
  {
    set i | 0 <= i < n :: EntryKeyOf(entries[i])
  }

  // ---------- what is reproduced ----------

  // All but id and revision number, and a lock reason only together with a lock.
  predicate SamePackRow(a: PackRecord, b: PackRecord) {
    a.scope == b.scope && a.name == b.name && a.description == b.description && a.metadata == b.metadata &&
    a.status == b.status && a.locked == b.locked && b.lockReason == KeptLockReason(a)
  }

  // All but id and revision number.
  predicate SameEntryRow(a: EntryRecord, b: EntryRecord) {
    b == a.(id := b.id, revisionNo := b.revisionNo)
  }

  ghost predicate PacksCopied(packs: seq<PackRecord>, end: DB, n: nat)
    requires n <= |packs|
  {
    end.packs.Keys == PackKeys(packs, n) && forall i | 0 <= i < n :: PackCopied(packs[i], end)
  }

  ghost predicate PackCopied(p: PackRecord, end: DB) {
    PackKeyOf(p) in end.packs && SamePackRow(p, end.packs[PackKeyOf(p)])
  }

  ghost predicate EntriesCopied(entries: seq<EntryRecord>, end: DB, n: nat)
    requires n <= |entries|
  {
    end.entries.Keys == EntryKeys(entries, n) && forall i | 0 <= i < n :: EntryCopied(entries[i], end)
  }

  ghost predicate EntryCopied(e: EntryRecord, end: DB) {
    EntryKeyOf(e) in end.entries && SameEntryRow(e, end.entries[EntryKeyOf(e)].record)
  }

  // Either it works, or the scanner found a credential; an open-handed scanner never does.
  ghost predicate OnlySecretsFail<T>(t: Tx<T>, scan: Scanner) {
    (t.Fail? ==> t.error == SecretDetected) && (Silent(scan) ==> t.Done?)
  }

  // ---------- packs ----------

  lemma NormalizedKey(db: DB, p: PackRecord)
    requires Valid(db) && PackKeyOf(p) in db.packs && db.packs[PackKeyOf(p)] == p
    ensures Normalize(p.scope) == Ok(p.scope) && !Text.Blank(p.name)
  {
    assert PackShape(PackKeyOf(p), p, db.nextId);
  }

  lemma ImportNewPack(db: DB, p: PackRecord, actor: string)
    requires Normalize(p.scope) == Ok(p.scope) && !Text.Blank(p.name) && !Text.Blank(actor) && PackKeyOf(p) !in db.packs
    ensures var t := ImportPack(db, p, actor);
            OnlySecretsFail(t, db.scan) &&
            (t.Done? ==> t.db == db.(packs := t.db.packs, revisions := t.db.revisions, nextId := t.db.nextId) &&
                         PackCopied(p, t.db) && t.db.packs == db.packs[PackKeyOf(p) := t.db.packs[PackKeyOf(p)]])
  {
    hide MaxRevision;
  }

  lemma {:induction false} ImportPacksCopy(db: DB, from: DB, packs: seq<PackRecord>, actor: string, n: nat)
    requires Valid(from) && PacksFrom(from, packs) && n <= |packs| && !Text.Blank(actor) && db.packs == map[]
    ensures var t := ImportPacks(db, packs, actor, n);
            OnlySecretsFail(t, db.scan) &&
            (t.Done? ==> t.db == db.(packs := t.db.packs, revisions := t.db.revisions, nextId := t.db.nextId) && PacksCopied(packs, t.db, n))
  {
    hide Valid, ImportPack, Silent, PackCopied;
    if n > 0 {
      ImportPacksCopy(db, from, packs, actor, n - 1);
      var t := ImportPacks(db, packs, actor, n - 1);
      if t.Done? {
        var p := packs[n - 1];
        NewPackKey(from, packs, t.db, n - 1);
        NormalizedKey(from, p);
        hide PacksCopied, PacksFrom;
        ImportNewPack(t.db, p, actor);
        var u := ImportPack(t.db, p, actor);
        if u.Done? { PacksOneMore(packs, t.db, u.db, n - 1); }
      }
    }
  }

  lemma NewPackKey(from: DB, packs: seq<PackRecord>, mid: DB, n: nat)
    requires PacksFrom(from, packs) && n < |packs| && PacksCopied(packs, mid, n)
    ensures PackKeyOf(packs[n]) !in mid.packs && PackKeyOf(packs[n]) in from.packs && from.packs[PackKeyOf(packs[n])] == packs[n]
    ensures forall i | 0 <= i < n :: PackKeyOf(packs[i]) != PackKeyOf(packs[n])
  {
    hide PackCopied;
  }

  lemma PacksOneMore(packs: seq<PackRecord>, mid: DB, end: DB, n: nat)
    requires n < |packs| && PacksCopied(packs, mid, n) && PackCopied(packs[n], end)
    requires forall i | 0 <= i < n :: PackKeyOf(packs[i]) != PackKeyOf(packs[n])
    requires end.packs == mid.packs[PackKeyOf(packs[n]) := end.packs[PackKeyOf(packs[n])]]
    ensures PacksCopied(packs, end, n + 1)
  {
    assert PackKeys(packs, n + 1) == PackKeys(packs, n) + {PackKeyOf(packs[n])};
    forall i | 0 <= i < n + 1 ensures PackCopied(packs[i], end) {
      if i < n { assert PackCopied(packs[i], mid); }
    }
  }

  // ---------- entries ----------

  lemma EntryFacts(from: DB, e: EntryRecord)
    requires Valid(from) && EntryKeyOf(e) in from.entries && from.entries[EntryKeyOf(e)].record == e
    ensures Normalize(e.scope) == Ok(e.scope) && !Text.Blank(e.packName) && InputValid(InputOf(e))
  {
    assert EntryShape(EntryKeyOf(e), from.entries[EntryKeyOf(e)], from.packs, from.nextId);
    assert PackShape(EntryKeyOf(e).pack, from.packs[EntryKeyOf(e).pack], from.nextId);
  }

  lemma ApplyInKnownPack(db: DB, pack: PackKey, entry: EntryInput, actor: string, p: Provenance)
    requires pack in db.packs && !Text.Blank(actor) && !Text.Blank(pack.name) && InputValid(entry)
    ensures OnlySecretsFail(ApplyEntry(db, pack, entry, actor, p, None, None, true), db.scan)
  {
    hide MaxRevision, RemoveDocs, ContentHash;
  }

  lemma ImportNewEntry(db: DB, e: EntryRecord, actor: string)
    requires Valid(db) && Normalize(e.scope) == Ok(e.scope) && !Text.Blank(e.packName) && InputValid(InputOf(e)) && !Text.Blank(actor)
    requires EntryKeyOf(e).pack in db.packs && EntryKeyOf(e) !in db.entries
    ensures var t := ImportEntry(db, e, actor);
            OnlySecretsFail(t, db.scan) &&
            (t.Done? ==> Valid(t.db) && EntryCopied(e, t.db) && t.db.packs == db.packs && SameElsewhere(db, t.db) &&
                         t.db.entries == db.entries[EntryKeyOf(e) := t.db.entries[EntryKeyOf(e)]])
  {
    hide Valid, Grows, ApplyEntry, Silent, FlipDeleted, WritesAt, SamePacksBut, SameElsewhere, SameEntryRow, InputValid, EntriesSameBut;
    var key := EntryKeyOf(e);
    var a := ApplyEntry(db, key.pack, InputOf(e), actor, e.provenance, None, None, true);
    ApplyInKnownPack(db, key.pack, InputOf(e), actor, e.provenance);
    ApplyEntrySound(db, key.pack, InputOf(e), actor, e.provenance, None, None, true);
    if a.Done? {
      ValidOf(db, a.db);
      WrittenCopies(db, a.db, e);
      if e.status.Deleted? { FlipKeepsValid(a.db, key); }
    }
  }

  lemma RowCopied(e: EntryRecord, r: EntryRecord)
    requires ShowsInput(r, InputOf(e), e.provenance) && r.scope == e.scope && r.packName == e.packName && r.key == e.key
    ensures SameEntryRow(e, r.(status := e.status))
  {
  }

  // The write, and where the entry was deleted the flip after it, reproduce the row.
  lemma WrittenCopies(db: DB, mid: DB, e: EntryRecord)
    requires Valid(mid) && EntryKeyOf(e).pack in db.packs && WritesAt(db, mid, EntryKeyOf(e), InputOf(e), e.provenance)
    ensures EntryKeyOf(e) in mid.entries
    ensures var key := EntryKeyOf(e);
            var end := if e.status.Deleted? then FlipDeleted(mid, key) else mid;
            EntryCopied(e, end) && end.packs == db.packs && SameElsewhere(db, end) &&
            end.entries == db.entries[key := end.entries[key]]
  {
    var key := EntryKeyOf(e);
    WrittenShape(mid, key);
    hide Valid;
    RowCopied(e, mid.entries[key].record);
    if e.status.Deleted? { FlipAfterWriteFrame(db, mid, key, InputOf(e), e.provenance); }
  }

  lemma ValidOf(db: DB, end: DB)
    requires Sound(db, end)
    ensures Valid(end)
  {
  }

  lemma WrittenShape(db: DB, key: EntryKey)
    requires Valid(db) && key in db.entries
    ensures db.entries[key].record.scope == key.pack.scope && db.entries[key].record.packName == key.pack.name
    ensures db.entries[key].record.key == key.key
  {
    assert EntryShape(key, db.entries[key], db.packs, db.nextId);
  }

  lemma {:induction false} ImportEntriesCopy(db: DB, from: DB, entries: seq<EntryRecord>, actor: string, n: nat)
    requires Valid(db) && Valid(from) && EntriesFrom(from, entries) && n <= |entries| && !Text.Blank(actor) && db.entries == map[]
    requires forall i | 0 <= i < |entries| :: EntryKeyOf(entries[i]).pack in db.packs
    ensures var t := ImportEntries(db, entries, actor, n);
            OnlySecretsFail(t, db.scan) &&
            (t.Done? ==> Valid(t.db) && t.db.packs == db.packs && SameElsewhere(db, t.db) && EntriesCopied(entries, t.db, n))
  {
    hide Valid, ImportEntry, Silent;
    if n > 0 {
      ImportEntriesCopy(db, from, entries, actor, n - 1);
      var t := ImportEntries(db, entries, actor, n - 1);
      if t.Done? {
        var e := entries[n - 1];
        EntryFacts(from, e);
        assert EntryKeyOf(e) !in t.db.entries;
        ImportNewEntry(t.db, e, actor);
        var u := ImportEntry(t.db, e, actor);
        if u.Done? { EntriesOneMore(entries, t.db, u.db, n - 1); }
      }
    }
  }

  lemma EntriesOneMore(entries: seq<EntryRecord>, mid: DB, end: DB, n: nat)
    requires n < |entries| && EntriesCopied(entries, mid, n) && EntryCopied(entries[n], end)
    requires forall i | 0 <= i < n :: EntryKeyOf(entries[i]) != EntryKeyOf(entries[n])
    requires end.entries == mid.entries[EntryKeyOf(entries[n]) := end.entries[EntryKeyOf(entries[n])]]
    ensures EntriesCopied(entries, end, n + 1)
  {
    assert EntryKeys(entries, n + 1) == EntryKeys(entries, n) + {EntryKeyOf(entries[n])};
    forall i | 0 <= i < n + 1 ensures EntryCopied(entries[i], end) {
      if i < n { assert EntryCopied(entries[i], mid); }
    }
  }

  // ---------- runs and reviews ----------

  ghost predicate RunsCopied(runs: seq<RunRecord>, end: DB, n: nat)
    requires n <= |runs|
  {
    end.runs.Keys == (set i | 0 <= i < n :: runs[i].id) && forall i | 0 <= i < n :: runs[i].id in end.runs && end.runs[runs[i].id] == runs[i]
  }

  lemma ImportNewRun(db: DB, from: DB, r: RunRecord)
    requires Valid(from) && r.id in from.runs && from.runs[r.id] == r
    ensures var t := ImportRun(db, r);
            OnlySecretsFail(t, db.scan) && (t.Done? ==> t.db == db.(runs := db.runs[r.id := r], nextId := t.db.nextId))
  {
    assert RunRows(from.runs, from.nextId);
  }

  lemma {:induction false} ImportRunsCopy(db: DB, from: DB, runs: seq<RunRecord>, n: nat)
    requires Valid(from) && RunsFrom(from, runs) && n <= |runs| && db.runs == map[]
    ensures var t := ImportRuns(db, runs, n);
            OnlySecretsFail(t, db.scan) && (t.Done? ==> t.db == db.(runs := t.db.runs, nextId := t.db.nextId) && RunsCopied(runs, t.db, n))
  {
    hide Valid, ImportRun, Silent, RunsCopied;
    NoRunsCopied(runs, db);
    if n > 0 {
      ImportRunsCopy(db, from, runs, n - 1);
      var t := ImportRuns(db, runs, n - 1);
      if t.Done? {
        ImportNewRun(t.db, from, runs[n - 1]);
        var u := ImportRun(t.db, runs[n - 1]);
        if u.Done? { RunsOneMore(runs, t.db, u.db, n - 1); }
      }
    }
  }

  lemma NoRunsCopied(runs: seq<RunRecord>, db: DB)
    requires db.runs == map[]
    ensures RunsCopied(runs, db, 0)
  {
  }

  lemma RunsOneMore(runs: seq<RunRecord>, mid: DB, end: DB, n: nat)
    requires n < |runs| && RunsCopied(runs, mid, n) && end.runs == mid.runs[runs[n].id := runs[n]]
    requires forall i | 0 <= i < n :: runs[i].id != runs[n].id
    ensures RunsCopied(runs, end, n + 1)
  {
  }

  lemma StoredReviewIsReview(from: DB, r: ReviewItem)
    requires Valid(from) && r in from.reviews
    ensures ImportableReview(r) && r.(scope := Normalize(r.scope).value, revisionNo := Max(r.revisionNo, 1)) == r
  {
    var i :| 0 <= i < |from.reviews| && from.reviews[i] == r;
    assert ReviewShape(from.reviews[i], from.nextId);
  }

  lemma ImportNewReview(db: DB, r: ReviewItem, actor: string)
    requires ImportableReview(r) && !Text.Blank(actor) && ReviewIndex(db.reviews, r.id).None?
    requires r.(scope := Normalize(r.scope).value, revisionNo := Max(r.revisionNo, 1)) == r
    ensures var t := ImportReview(db, r, actor);
            OnlySecretsFail(t, db.scan) &&
            (t.Done? ==> t.db == db.(reviews := db.reviews + [r], revisions := t.db.revisions, nextId := t.db.nextId))
  {
    hide PutRevision;
  }

  lemma NotYetListed(from: DB, reviews: seq<ReviewItem>, n: nat)
    requires ReviewsFrom(from, reviews) && n < |reviews|
    ensures reviews[n] in from.reviews && ReviewIndex(reviews[..n], reviews[n].id).None?
    ensures reviews[..n + 1] == reviews[..n] + [reviews[n]]
  {
    assert forall i | 0 <= i < n :: reviews[..n][i].id != reviews[n].id;
  }

  lemma {:induction false} ImportReviewsCopy(db: DB, from: DB, reviews: seq<ReviewItem>, actor: string, n: nat)
    requires Valid(from) && ReviewsFrom(from, reviews) && n <= |reviews| && !Text.Blank(actor) && db.reviews == []
    ensures var t := ImportReviews(db, reviews, actor, n);
            OnlySecretsFail(t, db.scan) &&
            (t.Done? ==> t.db == db.(reviews := reviews[..n], revisions := t.db.revisions, nextId := t.db.nextId))
  {
    hide Valid, ImportReview, Silent, ReviewsFrom, ReviewIndex, ImportableReview;
    if n > 0 {
      ImportReviewsCopy(db, from, reviews, actor, n - 1);
      var t := ImportReviews(db, reviews, actor, n - 1);
      if t.Done? {
        NotYetListed(from, reviews, n - 1);
        StoredReviewIsReview(from, reviews[n - 1]);
        ImportNewReview(t.db, reviews[n - 1], actor);
      }
    }
  }

  // ---------- the whole bundle ----------

  // The bundle's rows, and nothing else, are in the store.
  ghost predicate Reproduced(b: Bundle, end: DB) {
    PacksCopied(b.packs, end, |b.packs|) && EntriesCopied(b.entries, end, |b.entries|) && RunsCopied(b.runs, end, |b.runs|) &&
    end.reviews == b.reviews
  }

  /**
   The bundle round trip: importing what a valid store exported into an empty store never fails on validation,
   fails at all only when the scanner finds a credential, and reproduces exactly the exported packs, entries
   with status and provenance, reviews and runs, up to pack and entry ids, their revision numbers, and the lock
   reason of unlocked packs.
   */
  lemma BundleRoundTrip(from: DB, b: Bundle, scan: Scanner, actor: string)
    requires Valid(from) && Exports(from, b) && !Text.Blank(actor)
    ensures var t := ImportBundle(EmptyDB(scan), b, actor);
            OnlySecretsFail(t, scan) && (t.Done? ==> Valid(t.db) && Reproduced(b, t.db))
  {
    hide Valid, Silent, ImportPacks, ImportEntries, ImportRuns, ImportReviews, PacksFrom, EntriesFrom, RunsFrom, ReviewsFrom;
    var db := EmptyDB(scan);
    EmptyIsValid(scan);
    ImportBundleMoves(db, b, actor);
    ImportPacksMove(db, b.packs, actor, |b.packs|);
    ImportPacksCopy(db, from, b.packs, actor, |b.packs|);
    var p := ImportPacks(db, b.packs, actor, |b.packs|);
    if p.Done? {
      ImportEntriesCopy(p.db, from, b.entries, actor, |b.entries|);
      var e := ImportEntries(p.db, b.entries, actor, |b.entries|);
      if e.Done? {
        ImportRunsCopy(e.db, from, b.runs, |b.runs|);
        var r := ImportRuns(e.db, b.runs, |b.runs|);
        if r.Done? {
          ImportReviewsCopy(r.db, from, b.reviews, actor, |b.reviews|);
          assert b.reviews[..|b.reviews|] == b.reviews;
        }
      }
    }
  }

  // The bundle leaves no row of the store out.
  ghost predicate ExportsAll(db: DB, b: Bundle) {
    Exports(db, b) && (forall k | k in db.packs :: db.packs[k] in b.packs) &&
    (forall k | k in db.entries :: db.entries[k].record in b.entries) &&
    (forall i | 0 <= i < |db.reviews| :: db.reviews[i] in b.reviews) && (forall id | id in db.runs :: db.runs[id] in b.runs)
  }

  ghost predicate SameStore(a: DB, b: DB) {
    a.packs.Keys == b.packs.Keys && (forall k | k in a.packs :: SamePackRow(a.packs[k], b.packs[k])) &&
    a.entries.Keys == b.entries.Keys && (forall k | k in a.entries :: SameEntryRow(a.entries[k].record, b.entries[k].record)) &&
    (forall r :: r in a.reviews <==> r in b.reviews) && a.runs == b.runs
  }

  lemma PackRowKey(db: DB, k: PackKey)
    requires Valid(db) && k in db.packs
    ensures PackKeyOf(db.packs[k]) == k
  {
    assert PackShape(k, db.packs[k], db.nextId);
  }

  lemma PacksReproduced(from: DB, b: Bundle, end: DB)
    requires Valid(from) && ExportsAll(from, b) && PacksCopied(b.packs, end, |b.packs|)
    ensures from.packs.Keys == end.packs.Keys && forall k | k in from.packs :: SamePackRow(from.packs[k], end.packs[k])
  {
    hide Valid, SamePackRow, EntriesFrom, ReviewsFrom, RunsFrom, PacksFrom;
    forall k | k in from.packs ensures k in end.packs && SamePackRow(from.packs[k], end.packs[k]) {
      PackRowKey(from, k);
      var i :| 0 <= i < |b.packs| && b.packs[i] == from.packs[k];
      assert PackCopied(b.packs[i], end);
    }
    ExportedPacks(from, b);
  }

  lemma ExportedPacks(from: DB, b: Bundle)
    requires Exports(from, b)
    ensures forall k | k in PackKeys(b.packs, |b.packs|) :: k in from.packs
  {
    hide EntriesFrom, ReviewsFrom, RunsFrom;
  }

  lemma EntriesReproduced(from: DB, b: Bundle, end: DB)
    requires Valid(from) && ExportsAll(from, b) && EntriesCopied(b.entries, end, |b.entries|)
    ensures from.entries.Keys == end.entries.Keys
    ensures forall k | k in from.entries :: k in end.entries && SameEntryRow(from.entries[k].record, end.entries[k].record)
  {
    hide Valid, SameEntryRow, PacksFrom, ReviewsFrom, RunsFrom, EntriesFrom;
    forall k | k in from.entries ensures k in end.entries && SameEntryRow(from.entries[k].record, end.entries[k].record) {
      WrittenShape(from, k);
      var i :| 0 <= i < |b.entries| && b.entries[i] == from.entries[k].record;
      assert EntryKeyOf(b.entries[i]) == k;
      assert EntryCopied(b.entries[i], end);
    }
    ExportedKeys(from, b);
  }

  lemma ExportedKeys(from: DB, b: Bundle)
    requires Exports(from, b)
    ensures forall k | k in EntryKeys(b.entries, |b.entries|) :: k in from.entries
  {
    hide PacksFrom, ReviewsFrom, RunsFrom;
  }

  lemma RunsAreRows(db: DB)
    requires Valid(db)
    ensures RunRows(db.runs, db.nextId)
  {
  }

  lemma RunComesBack(from: DB, b: Bundle, end: DB, id: RunId)
    requires RunRows(from.runs, from.nextId) && id in from.runs && from.runs[id] in b.runs && RunsCopied(b.runs, end, |b.runs|)
    ensures id in end.runs && end.runs[id] == from.runs[id]
  {
    var i :| 0 <= i < |b.runs| && b.runs[i] == from.runs[id];
    assert b.runs[i].id == id;
  }

  lemma OnlyExportedRuns(from: DB, runs: seq<RunRecord>, end: DB)
    requires RunsFrom(from, runs) && RunsCopied(runs, end, |runs|)
    ensures forall id | id in end.runs :: id in from.runs
  {
    assert forall id | id in end.runs :: id in (set i | 0 <= i < |runs| :: runs[i].id);
  }

  lemma RunsReproduced(from: DB, b: Bundle, end: DB)
    requires Valid(from) && ExportsAll(from, b) && RunsCopied(b.runs, end, |b.runs|)
    ensures from.runs == end.runs
  {
    hide Valid, PacksFrom, EntriesFrom, ReviewsFrom, RunsFrom, RunsCopied, RunRows;
    RunsAreRows(from);
    OnlyExportedRuns(from, b.runs, end);
    forall id | id in from.runs ensures id in end.runs && end.runs[id] == from.runs[id] {
      RunComesBack(from, b, end, id);
    }
  }

  /** Exporting the whole store and importing it into an empty one gives the same store back. */
  lemma WholeStoreRoundTrip(from: DB, b: Bundle, scan: Scanner, actor: string)
    requires Valid(from) && ExportsAll(from, b) && !Text.Blank(actor)
    ensures var t := ImportBundle(EmptyDB(scan), b, actor);
            OnlySecretsFail(t, scan) && (t.Done? ==> Valid(t.db) && SameStore(from, t.db))
  {
    hide Valid, Exports, PacksCopied, EntriesCopied, RunsCopied, ImportBundle, OnlySecretsFail;
    BundleRoundTrip(from, b, scan, actor);
    var t := ImportBundle(EmptyDB(scan), b, actor);
    if t.Done? {
      PacksReproduced(from, b, t.db);
      EntriesReproduced(from, b, t.db);
      RunsReproduced(from, b, t.db);
      ReviewsReproduced(from, b);
    }
  }

  lemma ReviewsReproduced(from: DB, b: Bundle)
    requires ExportsAll(from, b)
    ensures forall r :: r in from.reviews <==> r in b.reviews
  {
    hide PacksFrom, EntriesFrom, RunsFrom;
    forall r ensures r in from.reviews <==> r in b.reviews {
      if r in from.reviews { var i :| 0 <= i < |from.reviews| && from.reviews[i] == r; }
      if r in b.reviews { var i :| 0 <= i < |b.reviews| && b.reviews[i] == r; }
    }
  }
}
