/**
 The invariant of the store, table by table. Besides what the schema enforces (unique keys, references)
 it says that revision numbers are version stamps, that content hashes are current, and that the
 full-text table holds exactly one up-to-date document per active entry and nothing else.
 */
module Invariant {
  import opened Model
  import opened Database
  import opened Histories
  import opened Bundles
  import Text

  ghost predicate PackRows(packs: map<PackKey, PackRecord>, nextId: Id) {
    (forall k | k in packs :: PackShape(k, packs[k], nextId)) &&
    (forall j, k | j in packs && k in packs && packs[j].id == packs[k].id :: j == k)
  }

  ghost predicate PackShape(k: PackKey, p: PackRecord, nextId: Id) {
    p.scope == k.scope && p.name == k.name && p.id < nextId && Normalized(k.scope) && !Text.Blank(k.name)
  }

  ghost predicate EntryRows(entries: map<EntryKey, EntryRow>, packs: map<PackKey, PackRecord>, nextId: Id) {
    (forall k | k in entries :: EntryShape(k, entries[k], packs, nextId)) &&
    (forall j, k | j in entries && k in entries && entries[j].record.id == entries[k].record.id :: j == k)
  }

  ghost predicate EntryShape(k: EntryKey, row: EntryRow, packs: map<PackKey, PackRecord>, nextId: Id) {
    row.record.scope == k.pack.scope && row.record.packName == k.pack.name && row.record.key == k.key &&
    k.pack in packs && row.packId == packs[k.pack].id && row.record.id < nextId && InputValid(InputOf(row.record))
  }

  ghost predicate HashCurrent(row: EntryRow) {
    row.contentHash == ContentHash(InputOf(row.record))
  }

  ghost predicate Hashed(entries: map<EntryKey, EntryRow>) {
    forall k {:trigger HashCurrent(entries[k])} | k in entries :: HashCurrent(entries[k])
  }

  // The revisions of a row are 1..current, and the last one shows the row.
  ghost predicate PackHistory(revisions: seq<Revision>, p: PackRecord) {
    var h := History(revisions, PackEntity, p.id);
    Numbered(h) && |h| == p.revisionNo > 0 &&
    h[|h| - 1].snapshot.PackSnapshot? && h[|h| - 1].snapshot.pack.(revisionNo := p.revisionNo) == p
  }

  // A snapshot is deleted exactly if a delete took it.
  ghost predicate Told(r: Revision) {
    r.snapshot.EntrySnapshot? && (r.snapshot.entry.status.Deleted? <==> r.action == "delete")
  }

  // For an entry the last snapshot shows the row up to its status, an active row to the last, and every snapshot
  // is of the same entry.
  ghost predicate EntryHistory(revisions: seq<Revision>, r: EntryRecord) {
    var h := History(revisions, EntryEntity, r.id);
    Numbered(h) && |h| == r.revisionNo > 0 && (forall i | 0 <= i < |h| :: SnapshotOf(h[i].snapshot, r) && Told(h[i])) &&
    (r.status.Active? ==> h[|h| - 1].snapshot.entry.status.Active?) &&
    h[|h| - 1].snapshot.entry.(status := r.status, revisionNo := r.revisionNo) == r
  }

  ghost predicate SnapshotOf(s: Snapshot, r: EntryRecord) {
    s.EntrySnapshot? && s.entry.id == r.id && s.entry.scope == r.scope && s.entry.packName == r.packName && s.entry.key == r.key
  }

  ghost predicate PolicyHistory(revisions: seq<Revision>, p: ReviewPolicy) {
    var h := History(revisions, PolicyEntity, POLICY_ID);
    Numbered(h) && |h| == p.revisionNo > 0 &&
    h[|h| - 1].snapshot.PolicySnapshot? && h[|h| - 1].snapshot.policy.(revisionNo := p.revisionNo) == p
  }

  ghost predicate PackHistories(revisions: seq<Revision>, packs: map<PackKey, PackRecord>) {
    forall k | k in packs :: PackHistory(revisions, packs[k])
  }

  ghost predicate EntryHistories(revisions: seq<Revision>, entries: map<EntryKey, EntryRow>) {
    forall k | k in entries :: EntryHistory(revisions, entries[k].record)
  }

  // Every revision belongs to an id that has been given out.
  ghost predicate RevisionIds(revisions: seq<Revision>, nextId: Id) {
    forall i | 0 <= i < |revisions| :: revisions[i].entityId < nextId
  }

  ghost predicate DocOfActive(entries: map<EntryKey, EntryRow>, d: Doc) {
    d.key in entries && entries[d.key].record.status.Active? && d == DocOf(entries[d.key].record)
  }

  ghost predicate HasDoc(fts: seq<Doc>, r: EntryRecord) {
    DocOf(r) in fts
  }

  ghost predicate DocsDistinct(fts: seq<Doc>) {
    forall i, j | 0 <= i < j < |fts| :: fts[i].entryId != fts[j].entryId
  }

  ghost predicate Indexed(entries: map<EntryKey, EntryRow>, fts: seq<Doc>) {
    (forall i | 0 <= i < |fts| :: DocOfActive(entries, fts[i])) &&
    (forall k {:trigger HasDoc(fts, entries[k].record)} | k in entries :: entries[k].record.status.Active? ==> HasDoc(fts, entries[k].record)) &&
    DocsDistinct(fts)
  }

  ghost predicate ReviewRows(reviews: seq<ReviewItem>, nextId: Id) {
    (forall i | 0 <= i < |reviews| :: ReviewShape(reviews[i], nextId)) &&
    (forall i, j | 0 <= i < j < |reviews| :: reviews[i].id != reviews[j].id)
  }

  ghost predicate ReviewShape(r: ReviewItem, nextId: Id) {
    r.id < nextId && r.revisionNo > 0 && ImportableReview(r) && Normalized(r.scope)
  }

  ghost predicate RunRows(runs: map<RunId, RunRecord>, nextId: Id) {
    forall id | id in runs ::
      runs[id].id == id && (id.Named? ==> !Text.Blank(id.text)) && (id.Minted? ==> id.n < nextId) && !Text.Blank(runs[id].source)
  }

  ghost predicate Valid(db: DB) {
    PackRows(db.packs, db.nextId) && EntryRows(db.entries, db.packs, db.nextId) && Hashed(db.entries) &&
    PackHistories(db.revisions, db.packs) && EntryHistories(db.revisions, db.entries) &&
    PolicyHistory(db.revisions, db.policy) && RevisionIds(db.revisions, db.nextId) &&
    Indexed(db.entries, db.fts) && ReviewRows(db.reviews, db.nextId) && RunRows(db.runs, db.nextId)
  }

  lemma EmptyIsValid(scan: Scanner)
    ensures Valid(EmptyDB(scan))
  {
    var db := EmptyDB(scan);
    HistoryAppend([], db.revisions[0], PolicyEntity, POLICY_ID);
    assert db.revisions == [] + [db.revisions[0]];
  }

  // ---------- recording a revision ----------

  lemma PackHistoriesKept(revisions: seq<Revision>, r: Revision, packs: map<PackKey, PackRecord>)
    requires PackHistories(revisions, packs)
    requires r.entity.PackEntity? ==> forall k | k in packs :: packs[k].id != r.entityId
    ensures PackHistories(revisions + [r], packs)
  {
    forall k | k in packs ensures PackHistory(revisions + [r], packs[k]) {
      HistoryAppend(revisions, r, PackEntity, packs[k].id);
    }
  }

  lemma EntryHistoriesKept(revisions: seq<Revision>, r: Revision, entries: map<EntryKey, EntryRow>)
    requires EntryHistories(revisions, entries)
    requires r.entity.EntryEntity? ==> forall k | k in entries :: entries[k].record.id != r.entityId
    ensures EntryHistories(revisions + [r], entries)
  {
    forall k | k in entries ensures EntryHistory(revisions + [r], entries[k].record) {
      HistoryAppend(revisions, r, EntryEntity, entries[k].record.id);
    }
  }

  lemma PolicyHistoryKept(revisions: seq<Revision>, r: Revision, p: ReviewPolicy)
    requires PolicyHistory(revisions, p) && !r.entity.PolicyEntity?
    ensures PolicyHistory(revisions + [r], p)
  {
    HistoryAppend(revisions, r, PolicyEntity, POLICY_ID);
  }

  /** Recording a revision of an entity that is neither pack, entry nor policy keeps every history. */
  lemma ReviewRevisionKeepsHistories(db: DB, r: Revision)
    requires Valid(db) && r.entity.ReviewEntity?
    ensures PackHistories(db.revisions + [r], db.packs) && EntryHistories(db.revisions + [r], db.entries)
    ensures PolicyHistory(db.revisions + [r], db.policy)
  {
    PackHistoriesKept(db.revisions, r, db.packs);
    EntryHistoriesKept(db.revisions, r, db.entries);
    PolicyHistoryKept(db.revisions, r, db.policy);
  }

  // The revision an entry write or delete records.
  ghost predicate Records(revisions: seq<Revision>, r: Revision, record: EntryRecord) {
    r.entity.EntryEntity? && r.entityId == record.id && r.no == record.revisionNo &&
    r.no == MaxRevision(revisions, EntryEntity, record.id) + 1 &&
    Told(r) && r.snapshot.entry.(revisionNo := record.revisionNo) == record
  }

  lemma RecordedRow(revisions: seq<Revision>, r: Revision, record: EntryRecord)
    requires Records(revisions, r, record)
    requires var h := History(revisions, EntryEntity, record.id); Numbered(h) && forall i | 0 <= i < |h| :: SnapshotOf(h[i].snapshot, record) && Told(h[i])
    ensures EntryHistory(revisions + [r], record)
    ensures record.revisionNo == |History(revisions, EntryEntity, record.id)| + 1
  {
    var h := History(revisions, EntryEntity, record.id);
    MaxOfNumbered(revisions, EntryEntity, record.id);
    HistoryAppend(revisions, r, EntryEntity, record.id);
    assert SnapshotOf(r.snapshot, record);
  }

  /** Storing a row under its newly recorded revision keeps all entry histories; the number goes up by one. */
  lemma EntryRecorded(revisions: seq<Revision>, r: Revision, entries: map<EntryKey, EntryRow>, key: EntryKey, row: EntryRow)
    requires EntryHistories(revisions, entries) && Records(revisions, r, row.record)
    requires forall k | k in entries && entries[k].record.id == row.record.id :: k == key
    requires key in entries ==> SnapshotOf(r.snapshot, entries[key].record)
    requires key !in entries ==> History(revisions, EntryEntity, row.record.id) == []
    ensures EntryHistories(revisions + [r], entries[key := row])
    ensures row.record.revisionNo == (if key in entries then entries[key].record.revisionNo + 1 else 1)
  {
    if key in entries {
      assert EntryHistory(revisions, entries[key].record);
    }
    RecordedRow(revisions, r, row.record);
    hide Records, SnapshotOf;
    forall k | k in entries && k != key ensures EntryHistory(revisions + [r], entries[k].record) {
      OtherHistory(revisions, r, entries[k].record);
    }
  }

  lemma OtherHistory(revisions: seq<Revision>, r: Revision, record: EntryRecord)
    requires EntryHistory(revisions, record) && r.entityId != record.id
    ensures EntryHistory(revisions + [r], record)
  {
    HistoryAppend(revisions, r, EntryEntity, record.id);
  }

  /** The same for a pack row. */
  lemma PackRecorded(revisions: seq<Revision>, r: Revision, packs: map<PackKey, PackRecord>, key: PackKey, p: PackRecord)
    requires PackHistories(revisions, packs)
    requires r.entity.PackEntity? && r.entityId == p.id && r.no == p.revisionNo == MaxRevision(revisions, PackEntity, p.id) + 1
    requires r.snapshot.PackSnapshot? && r.snapshot.pack.(revisionNo := p.revisionNo) == p
    requires forall k | k in packs && packs[k].id == p.id :: k == key
    requires if key in packs then packs[key].id == p.id else History(revisions, PackEntity, p.id) == []
    ensures PackHistories(revisions + [r], packs[key := p])
    ensures p.revisionNo == (if key in packs then packs[key].revisionNo + 1 else 1)
  {
    MaxOfNumbered(revisions, PackEntity, p.id);
    HistoryAppend(revisions, r, PackEntity, p.id);
    forall k | k in packs && k != key ensures PackHistory(revisions + [r], packs[k]) {
      HistoryAppend(revisions, r, PackEntity, packs[k].id);
    }
  }

  // ---------- the full-text table ----------

  lemma {:induction false} RemoveDocsShape(fts: seq<Doc>, id: Id)
    requires DocsDistinct(fts)
    ensures DocsDistinct(RemoveDocs(fts, id))
    ensures forall d :: d in RemoveDocs(fts, id) <==> d in fts && d.entryId != id
  {
    if fts != [] {
      var n := |fts| - 1;
      var front, last := fts[..n], fts[n];
      assert fts == front + [last];
      RemoveDocsShape(front, id);
      var kept := RemoveDocs(front, id);
      forall i | 0 <= i < |kept| ensures kept[i].entryId != last.entryId {
        assert kept[i] in front;
      }
      if last.entryId == id {
        assert RemoveDocs(fts, id) == kept;
      } else {
        assert RemoveDocs(fts, id) == kept + [last];
      }
    }
  }

  lemma RemovalKeepsIndex(entries: map<EntryKey, EntryRow>, key: EntryKey, row: EntryRow, fts: seq<Doc>)
    requires Indexed(entries, fts) && row.record.status.Deleted?
    requires key in entries && entries[key].record.id == row.record.id
    requires forall k | k in entries :: DocOf(entries[k].record).key == k
    requires forall k | k in entries && entries[k].record.id == row.record.id :: k == key
    ensures Indexed(entries[key := row], RemoveDocs(fts, row.record.id))
  {
    var fts' := RemoveDocs(fts, row.record.id);
    RemoveDocsShape(fts, row.record.id);
    forall i | 0 <= i < |fts'| ensures DocOfActive(entries[key := row], fts'[i]) {
      assert fts'[i] in fts;
    }
    forall k | k in entries && k != key && entries[k].record.status.Active? ensures HasDoc(fts', entries[k].record) {
      assert HasDoc(fts, entries[k].record);
    }
  }

  lemma UpsertKeepsIndex(entries: map<EntryKey, EntryRow>, key: EntryKey, row: EntryRow, fts: seq<Doc>)
    requires Indexed(entries, fts) && row.record.status.Active? && DocOf(row.record).key == key
    requires forall k | k in entries :: DocOf(entries[k].record).key == k
    requires forall k | k in entries :: entries[k].record.id == row.record.id <==> k == key
    ensures Indexed(entries[key := row], UpsertDoc(fts, row.record))
  {
    var kept := RemoveDocs(fts, row.record.id);
    var fts' := kept + [DocOf(row.record)];
    RemoveDocsShape(fts, row.record.id);
    forall i | 0 <= i < |fts'| ensures DocOfActive(entries[key := row], fts'[i]) {
      if i < |kept| { assert kept[i] in fts; }
    }
    forall k | k in entries && k != key && entries[k].record.status.Active? ensures HasDoc(fts', entries[k].record) {
      assert HasDoc(fts, entries[k].record);
      assert DocOf(entries[k].record) in kept;
    }
    forall i | 0 <= i < |kept| ensures kept[i].entryId != row.record.id {
      assert kept[i] in kept;
    }
  }
}
