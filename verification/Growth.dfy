/**
 How the tables may change from one state of a run to a later one. `Grows` is what every operation but the
 bundle import does; `Advances`, which is weaker on revisions and reviews, is what every operation does.
 Rows never disappear or change identity, and a row only changes by moving to a higher revision number.
 */
module Growth {
  import opened Prelude
  import opened Model
  import opened Database
  import opened Histories
  import opened Invariant
  import opened JsonTree
  import Text

  ghost predicate PackAdvances(a: PackRecord, b: PackRecord) {
    b == a || (b.id == a.id && b.revisionNo > a.revisionNo)
  }

  ghost predicate EntryAdvances(a: EntryRow, b: EntryRow) {
    b == a || (b.record.id == a.record.id && b.packId == a.packId && b.record.revisionNo > a.record.revisionNo)
  }

  ghost predicate PolicyAdvances(a: ReviewPolicy, b: ReviewPolicy) {
    b == a || b.revisionNo > a.revisionNo
  }

  // A review changes only while it is pending, and keeps what it was raised for.
  ghost predicate ReviewAdvances(a: ReviewItem, b: ReviewItem) {
    b == a || (a.state.Pending? && SameCause(a, b))
  }

  ghost predicate SameCause(a: ReviewItem, b: ReviewItem) {
    b.id == a.id && b.requestId == a.requestId && b.scope == a.scope && b.packName == a.packName &&
    b.entryKey == a.entryKey && b.reason == a.reason && b.existing == a.existing && b.proposed.key == a.proposed.key
  }

  // Only an imported review may overwrite a revision, and only one of a review.
  ghost predicate RevisionKept(a: Revision, b: Revision) {
    b == a || (a.entity.ReviewEntity? && b.entity.ReviewEntity? && b.entityId == a.entityId && b.no == a.no)
  }

  ghost predicate RowsAdvance(a: DB, b: DB) {
    b.scan == a.scan && a.nextId <= b.nextId &&
    (forall k | k in a.packs :: k in b.packs && PackAdvances(a.packs[k], b.packs[k])) &&
    (forall k | k in a.entries :: k in b.entries && EntryAdvances(a.entries[k], b.entries[k])) &&
    PolicyAdvances(a.policy, b.policy) &&
    (forall id | id in a.commits :: id in b.commits && b.commits[id] == a.commits[id])
  }

  ghost predicate Advances(a: DB, b: DB) {
    RowsAdvance(a, b) && |a.revisions| <= |b.revisions| && |a.reviews| <= |b.reviews| &&
    (forall i | 0 <= i < |a.revisions| :: RevisionKept(a.revisions[i], b.revisions[i])) &&
    (forall i | 0 <= i < |a.reviews| :: b.reviews[i].id == a.reviews[i].id)
  }

  ghost predicate Grows(a: DB, b: DB) {
    RowsAdvance(a, b) && a.revisions <= b.revisions && |a.reviews| <= |b.reviews| &&
    (forall i | 0 <= i < |a.reviews| :: ReviewAdvances(a.reviews[i], b.reviews[i]))
  }

  lemma RowsAdvanceTransitive(a: DB, b: DB, c: DB)
    requires RowsAdvance(a, b) && RowsAdvance(b, c)
    ensures RowsAdvance(a, c)
  {
  }

  lemma AdvancesTransitive(a: DB, b: DB, c: DB)
    requires Advances(a, b) && Advances(b, c)
    ensures Advances(a, c)
  {
    RowsAdvanceTransitive(a, b, c);
    forall i | 0 <= i < |a.revisions| ensures RevisionKept(a.revisions[i], c.revisions[i]) {
      assert RevisionKept(a.revisions[i], b.revisions[i]) && RevisionKept(b.revisions[i], c.revisions[i]);
    }
  }

  lemma GrowsTransitive(a: DB, b: DB, c: DB)
    requires Grows(a, b) && Grows(b, c)
    ensures Grows(a, c)
  {
    RowsAdvanceTransitive(a, b, c);
    forall i | 0 <= i < |a.reviews| ensures ReviewAdvances(a.reviews[i], c.reviews[i]) {
      assert ReviewAdvances(a.reviews[i], b.reviews[i]) && ReviewAdvances(b.reviews[i], c.reviews[i]);
    }
  }

  lemma GrowsAdvances(a: DB, b: DB)
    requires Grows(a, b)
    ensures Advances(a, b)
  {
    forall i | 0 <= i < |a.reviews| ensures b.reviews[i].id == a.reviews[i].id {
      assert ReviewAdvances(a.reviews[i], b.reviews[i]);
    }
  }

  // ---------- storing one row ----------

  lemma PackRowsStored(packs: map<PackKey, PackRecord>, nextId: Id, key: PackKey, p: PackRecord, nextId': Id)
    requires PackRows(packs, nextId) && nextId <= nextId' && PackShape(key, p, nextId')
    requires if key in packs then p.id == packs[key].id else p.id >= nextId
    ensures PackRows(packs[key := p], nextId')
  {
  }

  lemma EntryRowsUnderPacks(entries: map<EntryKey, EntryRow>, packs: map<PackKey, PackRecord>, nextId: Id,
                            packs': map<PackKey, PackRecord>, nextId': Id)
    requires EntryRows(entries, packs, nextId) && nextId <= nextId'
    requires forall k | k in packs :: k in packs' && packs'[k].id == packs[k].id
    ensures EntryRows(entries, packs', nextId')
  {
    forall k | k in entries ensures EntryShape(k, entries[k], packs', nextId') {
      assert EntryShape(k, entries[k], packs, nextId);
    }
  }

  ghost predicate PackRevision(revisions: seq<Revision>, r: Revision, p: PackRecord) {
    r.entity.PackEntity? && r.entityId == p.id && r.no == p.revisionNo == MaxRevision(revisions, PackEntity, p.id) + 1 &&
    r.snapshot.PackSnapshot? && r.snapshot.pack.(revisionNo := p.revisionNo) == p
  }

  // One pack row is written under a new revision; `nextId` may have moved past its id.
  ghost predicate StoresPack(db: DB, db': DB, key: PackKey, p: PackRecord, r: Revision) {
    db' == db.(packs := db.packs[key := p], revisions := db.revisions + [r], nextId := db'.nextId) &&
    db.nextId <= db'.nextId && PackShape(key, p, db'.nextId) && PackRevision(db.revisions, r, p) &&
    (if key in db.packs then p.id == db.packs[key].id else p.id == db.nextId)
  }

  lemma PackStoredNumber(db: DB, db': DB, key: PackKey, p: PackRecord, r: Revision)
    requires Valid(db) && StoresPack(db, db', key, p, r)
    ensures PackHistories(db'.revisions, db'.packs)
    ensures p.revisionNo == (if key in db.packs then db.packs[key].revisionNo + 1 else 1)
  {
    if key in db.packs {
      forall k | k in db.packs && db.packs[k].id == p.id ensures k == key { }
    } else {
      HistoryEmpty(db.revisions, PackEntity, p.id);
      forall k | k in db.packs ensures db.packs[k].id != p.id { assert PackShape(k, db.packs[k], db.nextId); }
    }
    PackRecorded(db.revisions, r, db.packs, key, p);
  }

  lemma PackStoredGrows(db: DB, db': DB, key: PackKey, p: PackRecord, r: Revision)
    requires StoresPack(db, db', key, p, r)
    requires p.revisionNo == (if key in db.packs then db.packs[key].revisionNo + 1 else 1)
    ensures Grows(db, db')
  {
  }

  lemma PackStored(db: DB, db': DB, key: PackKey, p: PackRecord, r: Revision)
    requires Valid(db) && StoresPack(db, db', key, p, r)
    ensures Valid(db') && Grows(db, db')
  {
    PackStoredNumber(db, db', key, p, r);
    PackStoredGrows(db, db', key, p, r);
    PackStoredValid(db, db', key, p, r);
  }

  lemma PackStoredRows(db: DB, db': DB, key: PackKey, p: PackRecord, r: Revision)
    requires Valid(db) && StoresPack(db, db', key, p, r)
    ensures PackRows(db'.packs, db'.nextId) && EntryRows(db'.entries, db'.packs, db'.nextId)
  {
    hide History, MaxRevision, EntryShape, EntryHistory, PackHistory, PolicyHistory, DocOfActive, ReviewShape;
    PackRowsStored(db.packs, db.nextId, key, p, db'.nextId);
    EntryRowsUnderPacks(db.entries, db.packs, db.nextId, db'.packs, db'.nextId);
  }

  lemma PackStoredRest(db: DB, db': DB, key: PackKey, p: PackRecord, r: Revision)
    requires Valid(db) && StoresPack(db, db', key, p, r)
    ensures EntryHistories(db'.revisions, db'.entries) && PolicyHistory(db'.revisions, db'.policy)
    ensures RevisionIds(db'.revisions, db'.nextId) && ReviewRows(db'.reviews, db'.nextId)
  {
    hide EntryHistories, PolicyHistory, PackHistories, EntryRows, PackRows, Indexed, ReviewShape;
    EntryHistoriesKept(db.revisions, r, db.entries);
    PolicyHistoryKept(db.revisions, r, db.policy);
    RestKept(db, db');
  }

  lemma PackStoredValid(db: DB, db': DB, key: PackKey, p: PackRecord, r: Revision)
    requires Valid(db) && StoresPack(db, db', key, p, r)
    ensures Valid(db')
  {
    hide EntryHistories, PolicyHistory, PackHistories, EntryRows, PackRows, Indexed, ReviewRows, RevisionIds, PackRevision;
    PackStoredNumber(db, db', key, p, r);
    PackStoredRows(db, db', key, p, r);
    PackStoredRest(db, db', key, p, r);
  }

  // Tables that a pack or entry write leaves alone stay in order when ids move on.
  lemma RestKept(db: DB, db': DB)
    requires RevisionIds(db.revisions, db.nextId) && ReviewRows(db.reviews, db.nextId)
    requires db.nextId <= db'.nextId && db'.reviews == db.reviews && |db'.revisions| == |db.revisions| + 1
    requires db.revisions <= db'.revisions && db'.revisions[|db.revisions|].entityId < db'.nextId
    ensures RevisionIds(db'.revisions, db'.nextId) && ReviewRows(db'.reviews, db'.nextId)
  {
    forall i | 0 <= i < |db.reviews| ensures ReviewShape(db.reviews[i], db'.nextId) {
      assert ReviewShape(db.reviews[i], db.nextId);
    }
  }

  // One entry row is written under a new revision.
  ghost predicate StoresEntry(db: DB, db': DB, key: EntryKey, row: EntryRow, r: Revision) {
    db' == db.(entries := db.entries[key := row], revisions := db.revisions + [r], nextId := db'.nextId, fts := db'.fts) &&
    db.nextId <= db'.nextId && EntryShape(key, row, db.packs, db'.nextId) && HashCurrent(row) && Records(db.revisions, r, row.record) &&
    SnapshotOf(r.snapshot, row.record) &&
    (if key in db.entries then row.record.id == db.entries[key].record.id else row.record.id == db.nextId)
  }

  lemma OnlyHolder(db: DB, db': DB, key: EntryKey, row: EntryRow, r: Revision)
    requires Valid(db) && StoresEntry(db, db', key, row, r)
    ensures forall k | k in db.entries :: db.entries[k].record.id == row.record.id <==> k == key
  {
    forall k | k in db.entries ensures db.entries[k].record.id == row.record.id <==> k == key {
      assert EntryShape(k, db.entries[k], db.packs, db.nextId);
    }
  }

  lemma SameSnapshot(key: EntryKey, was: EntryRow, row: EntryRow, r: Revision, packs: map<PackKey, PackRecord>, nextId: Id, nextId': Id)
    requires EntryShape(key, was, packs, nextId) && EntryShape(key, row, packs, nextId')
    requires SnapshotOf(r.snapshot, row.record) && row.record.id == was.record.id
    ensures SnapshotOf(r.snapshot, was.record)
  {
  }

  lemma EntryStoredNumber(db: DB, db': DB, key: EntryKey, row: EntryRow, r: Revision)
    requires Valid(db) && StoresEntry(db, db', key, row, r)
    ensures EntryHistories(db'.revisions, db'.entries)
    ensures row.record.revisionNo == (if key in db.entries then db.entries[key].record.revisionNo + 1 else 1)
  {
    hide History, MaxRevision, EntryHistories, EntryShape, HashCurrent, Records, PackHistories, PolicyHistory, PackRows, Indexed, ReviewRows;
    OnlyHolder(db, db', key, row, r);
    if key in db.entries {
      SameSnapshot(key, db.entries[key], row, r, db.packs, db.nextId, db'.nextId);
    } else {
      HistoryEmpty(db.revisions, EntryEntity, row.record.id);
    }
    EntryRecorded(db.revisions, r, db.entries, key, row);
  }

  lemma EntryRowsStored(db: DB, db': DB, key: EntryKey, row: EntryRow, r: Revision)
    requires Valid(db) && StoresEntry(db, db', key, row, r)
    ensures EntryRows(db'.entries, db'.packs, db'.nextId)
  {
    OnlyHolder(db, db', key, row, r);
    EntryRowsUnderPacks(db.entries, db.packs, db.nextId, db.packs, db'.nextId);
    hide Valid, EntryShape, Records, SnapshotOf;
    RowStored(db.entries, db.packs, db'.nextId, key, row);
  }

  lemma RowStored(entries: map<EntryKey, EntryRow>, packs: map<PackKey, PackRecord>, nextId: Id, key: EntryKey, row: EntryRow)
    requires EntryRows(entries, packs, nextId) && EntryShape(key, row, packs, nextId)
    requires forall k | k in entries :: entries[k].record.id == row.record.id <==> k == key
    ensures EntryRows(entries[key := row], packs, nextId)
  {
    hide EntryShape;
    var rows := entries[key := row];
    forall j, k | j in rows && k in rows && rows[j].record.id == rows[k].record.id ensures j == k {
      assert j != key ==> rows[j] == entries[j];
      assert k != key ==> rows[k] == entries[k];
    }
  }

  lemma HashStored(entries: map<EntryKey, EntryRow>, key: EntryKey, row: EntryRow)
    requires Hashed(entries) && HashCurrent(row)
    ensures Hashed(entries[key := row])
  {
    var rows := entries[key := row];
    forall k | k in rows ensures HashCurrent(rows[k]) {
      if k != key { assert HashCurrent(entries[k]); }
    }
  }

  lemma EntryStoredGrows(db: DB, db': DB, key: EntryKey, row: EntryRow, r: Revision)
    requires StoresEntry(db, db', key, row, r)
    requires key in db.entries ==> row.packId == db.entries[key].packId
    requires row.record.revisionNo == (if key in db.entries then db.entries[key].record.revisionNo + 1 else 1)
    ensures Grows(db, db')
  {
  }

  lemma EntryStored(db: DB, db': DB, key: EntryKey, row: EntryRow, r: Revision)
    requires Valid(db) && StoresEntry(db, db', key, row, r) && Indexed(db'.entries, db'.fts)
    requires key in db.entries ==> row.packId == db.entries[key].packId
    ensures Valid(db') && Grows(db, db')
    ensures row.record.revisionNo == (if key in db.entries then db.entries[key].record.revisionNo + 1 else 1)
  {
    EntryStoredNumber(db, db', key, row, r);
    EntryStoredGrows(db, db', key, row, r);
    EntryStoredValid(db, db', key, row, r);
  }

  lemma EntryStoredValid(db: DB, db': DB, key: EntryKey, row: EntryRow, r: Revision)
    requires Valid(db) && StoresEntry(db, db', key, row, r) && Indexed(db'.entries, db'.fts)
    ensures Valid(db')
  {
    hide EntryHistories, PolicyHistory, PackHistories, EntryRows, PackRows, Indexed, ReviewShape, Hashed, HashCurrent;
    EntryStoredNumber(db, db', key, row, r);
    HashStored(db.entries, key, row);
    EntryRowsStored(db, db', key, row, r);
    PackHistoriesKept(db.revisions, r, db.packs);
    PolicyHistoryKept(db.revisions, r, db.policy);
    PackRowsLater(db.packs, db.nextId, db'.nextId);
    RestKept(db, db');
  }

  lemma PackRowsLater(packs: map<PackKey, PackRecord>, nextId: Id, nextId': Id)
    requires PackRows(packs, nextId) && nextId <= nextId'
    ensures PackRows(packs, nextId')
  {
    forall k | k in packs ensures PackShape(k, packs[k], nextId') { assert PackShape(k, packs[k], nextId); }
  }

  // ---------- the writes of a transaction ----------

  lemma InsertPackGrows(db: DB, key: PackKey, actor: string, description: Option<string>, metadata: Json,
                        status: PackStatus, locked: bool, lockReason: Option<string>, action: string, source: string)
    requires Valid(db) && key !in db.packs && Normalized(key.scope) && !Text.Blank(key.name)
    ensures var t := InsertPack(db, key, actor, description, metadata, status, locked, lockReason, action, source);
            t.Done? ==> Valid(t.db) && Grows(db, t.db) && key in t.db.packs && t.db.packs[key] == t.value
  {
    var t := InsertPack(db, key, actor, description, metadata, status, locked, lockReason, action, source);
    if t.Done? {
      PackStored(db, t.db, key, t.value, t.db.revisions[|db.revisions|]);
    }
  }

  lemma ReplacePackGrows(db: DB, key: PackKey, record: PackRecord, actor: string, action: string, source: string)
    requires Valid(db) && key in db.packs && record.id == db.packs[key].id
    requires record.scope == key.scope && record.name == key.name
    ensures var t := ReplacePack(db, key, record, actor, action, source);
            t.Done? ==> Valid(t.db) && Grows(db, t.db)
  {
    var t := ReplacePack(db, key, record, actor, action, source);
    if t.Done? {
      assert PackShape(key, db.packs[key], db.nextId);
      PackStored(db, t.db, key, t.value, t.db.revisions[|db.revisions|]);
    }
  }

  lemma GrowsItself(db: DB)
    ensures Grows(db, db)
  {
  }

  lemma EnsurePackGrows(db: DB, key: PackKey, actor: string, description: Option<string>, metadata: Json,
                        locked: bool, lockReason: Option<string>)
    requires Valid(db) && Normalized(key.scope)
    ensures var t := EnsurePack(db, key, actor, description, metadata, locked, lockReason);
            t.Done? ==> Valid(t.db) && Grows(db, t.db) && key in t.db.packs && t.db.packs[key] == t.value
  {
    hide Valid, Grows, InsertPack;
    if key in db.packs { GrowsItself(db); }
    if key !in db.packs && !Text.Blank(key.name) {
      InsertPackGrows(db, key, actor, description, metadata, Open, locked, lockReason, "create", "pack_create");
    }
  }

  lemma WriteEntryGrows(db: DB, key: EntryKey, entry: EntryInput, provenance: Provenance,
                        requestId: Option<RequestId>, runId: Option<RunId>)
    requires Valid(db) && key.pack in db.packs && key.key == entry.key && InputValid(entry)
    ensures var t := WriteEntry(db, key, db.packs[key.pack].id, entry, provenance, requestId, runId);
            t.Done? ==> Valid(t.db) && Grows(db, t.db) && key in t.db.entries &&
                        (key in db.entries ==> t.db.entries[key].record.revisionNo > db.entries[key].record.revisionNo)
  {
    hide WriteEntry, EntryShape, Indexed, UpsertDoc, Records;
    var t := WriteEntry(db, key, db.packs[key.pack].id, entry, provenance, requestId, runId);
    if t.Done? {
      WriteStores(db, key, entry, provenance, requestId, runId);
      var r, row := t.db.revisions[|db.revisions|], t.db.entries[key];
      WrittenDoc(db, key, entry, provenance, requestId, runId);
      OnlyHolder(db, t.db, key, row, r);
      DocKeys(db);
      UpsertKeepsIndex(db.entries, key, row, db.fts);
      EntryStored(db, t.db, key, row, r);
    }
  }

  lemma DocKeys(db: DB)
    requires Valid(db)
    ensures forall k | k in db.entries :: DocOf(db.entries[k].record).key == k
  {
    forall k | k in db.entries ensures DocOf(db.entries[k].record).key == k {
      assert EntryShape(k, db.entries[k], db.packs, db.nextId);
    }
  }

  lemma WrittenDoc(db: DB, key: EntryKey, entry: EntryInput, provenance: Provenance, requestId: Option<RequestId>, runId: Option<RunId>)
    requires key.pack in db.packs && key.key == entry.key
    ensures var t := WriteEntry(db, key, db.packs[key.pack].id, entry, provenance, requestId, runId);
            t.Done? ==> key in t.db.entries && t.db.entries[key].record.status.Active? && DocOf(t.db.entries[key].record).key == key &&
                        (key in db.entries ==> t.db.entries[key].packId == db.entries[key].packId)
  {
    hide MaxRevision, RemoveDocs, ContentHash;
  }

  // What a write does to the tables, field by field.
  lemma WriteEntryIs(db: DB, key: EntryKey, packId: Id, entry: EntryInput, provenance: Provenance,
                     requestId: Option<RequestId>, runId: Option<RunId>)
    ensures var t, update := WriteEntry(db, key, packId, entry, provenance, requestId, runId), key in db.entries;
            var record := WrittenRecord(db, key, entry, provenance);
            t.Done? ==>
              var no := MaxRevision(db.revisions, EntryEntity, record.id) + 1;
              var stored := record.(revisionNo := no);
              var r := Revision(EntryEntity, record.id, no, if update then "update" else "create", EntrySnapshot(record), provenance, requestId, runId);
              var row := EntryRow(stored, if update then db.entries[key].packId else packId, ContentHash(entry));
              t == Done(db.(entries := db.entries[key := row], revisions := db.revisions + [r],
                            nextId := if update then db.nextId else db.nextId + 1, fts := UpsertDoc(db.fts, stored)), stored)
  {
    hide MaxRevision, ContentHash, UpsertDoc, WrittenRecord;
  }

  lemma WriteStores(db: DB, key: EntryKey, entry: EntryInput, provenance: Provenance,
                    requestId: Option<RequestId>, runId: Option<RunId>)
    requires Valid(db) && key.pack in db.packs && key.key == entry.key && InputValid(entry)
    ensures var t := WriteEntry(db, key, db.packs[key.pack].id, entry, provenance, requestId, runId);
            t.Done? ==> key in t.db.entries && |t.db.revisions| == |db.revisions| + 1 &&
                        StoresEntry(db, t.db, key, t.db.entries[key], t.db.revisions[|db.revisions|]) &&
                        t.db.fts == UpsertDoc(db.fts, t.db.entries[key].record)
  {
    hide WriteEntry, ContentHash, UpsertDoc, MaxRevision, Valid, InputValid, Letters;
    WriteEntryIs(db, key, db.packs[key.pack].id, entry, provenance, requestId, runId);
    if key in db.entries { RowShaped(db, key); }
    var t := WriteEntry(db, key, db.packs[key.pack].id, entry, provenance, requestId, runId);
    if t.Done? {
      var row, r := t.db.entries[key], t.db.revisions[|db.revisions|];
      SameContentSameHash(entry, InputOf(row.record));
      SameValidity(entry, InputOf(row.record));
      assert Records(db.revisions, r, row.record) && SnapshotOf(r.snapshot, row.record);
    }
  }

  lemma RowShaped(db: DB, key: EntryKey)
    requires Valid(db) && key in db.entries
    ensures EntryShape(key, db.entries[key], db.packs, db.nextId)
  {
  }

  lemma SameValidity(a: EntryInput, b: EntryInput)
    requires a.key == b.key && a.kind == b.kind
    ensures InputValid(a) <==> InputValid(b)
  {
  }
}
