/** Going back to an earlier revision of an entry. */
module Reverts {
  import opened Prelude
  import opened Model
  import opened Database
  import opened Operations
  import opened Histories
  import opened Invariant
  import opened Writes
  import opened Runs
  import opened Stamps
  import opened Bundles

  // The snapshot of revision `no` of an entry.
  ghost function SnapshotIn(revisions: seq<Revision>, r: EntryRecord, no: nat): EntryRecord
    requires EntryHistory(revisions, r) && 1 <= no <= r.revisionNo
  {
    var h := History(revisions, EntryEntity, r.id);
    assert SnapshotOf(h[no - 1].snapshot, r);
    h[no - 1].snapshot.entry
  }

  ghost function SnapshotAt(db: DB, key: EntryKey, no: nat): EntryRecord
    requires Valid(db) && key in db.entries && 1 <= no <= db.entries[key].record.revisionNo
  {
    SnapshotIn(db.revisions, db.entries[key].record, no)
  }

  lemma RowFacts(db: DB, key: EntryKey)
    requires Valid(db) && key in db.entries
    ensures EntryHistory(db.revisions, db.entries[key].record) && EntryShape(key, db.entries[key], db.packs, db.nextId)
    ensures db.entries[key].record.revisionNo > 0
  {
  }

  lemma FindSnapshot(revisions: seq<Revision>, r: EntryRecord, no: nat)
    requires EntryHistory(revisions, r)
    ensures var at := RevisionIndex(revisions, EntryEntity, r.id, no);
            (at.Some? <==> 1 <= no <= r.revisionNo) &&
            (at.Some? ==> revisions[at.value].snapshot == EntrySnapshot(SnapshotIn(revisions, r, no)) &&
                          SnapshotIn(revisions, r, no).key == r.key)
  {
    FindInNumbered(revisions, EntryEntity, r.id, no);
    if 1 <= no <= r.revisionNo {
      assert SnapshotOf(History(revisions, EntryEntity, r.id)[no - 1].snapshot, r);
    }
  }

  // The part of `RevertTarget` that follows once the entry is known.
  lemma TargetOfSelected(db: DB, sel: Selector, no: Option<int>, actor: string, key: EntryKey)
    requires Select(db, sel, actor) == Ok(key) && key in db.entries
    ensures var current := db.entries[key].record;
            var n := Or(no, current.revisionNo - 1);
            (n <= 0 ==> RevertTarget(db, sel, no, actor).Err?) &&
            (n > 0 ==>
              var at := RevisionIndex(db.revisions, EntryEntity, current.id, n);
              (at.None? ==> RevertTarget(db, sel, no, actor).Err?) &&
              (at.Some? && db.revisions[at.value].snapshot.EntrySnapshot? ==>
                RevertTarget(db, sel, no, actor) ==
                Ok((key.pack, db.revisions[at.value].snapshot.entry.(provenance := RevertProvenance(actor, n))))))
  {
    hide Select, RevisionIndex, RevertProvenance;
  }

  /** What revision a revert goes back to, and that its snapshot is of the same entry. */
  lemma TargetIsSnapshot(db: DB, sel: Selector, no: Option<int>, actor: string)
    requires Valid(db) && Select(db, sel, actor).Ok?
    ensures var key := Select(db, sel, actor).value;
            key in db.entries &&
            var rev := db.entries[key].record.revisionNo; var n := Or(no, rev - 1);
            (RevertTarget(db, sel, no, actor).Ok? <==> 1 <= n <= rev) &&
            (1 <= n <= rev ==>
              RevertTarget(db, sel, no, actor).value == (key.pack, SnapshotAt(db, key, n).(provenance := RevertProvenance(actor, n))) &&
              SnapshotAt(db, key, n).key == key.key)
  {
    SelectNormalized(db, sel, actor);
    var key := Select(db, sel, actor).value;
    RowFacts(db, key);
    TargetOfSelected(db, sel, no, actor, key);
    hide Valid, Select, EntryHistory, RevisionIndex, SnapshotIn, RevertProvenance, RevertTarget;
    var current := db.entries[key].record;
    var n := Or(no, current.revisionNo - 1);
    if n > 0 {
      FindSnapshot(db.revisions, current, n);
    }
  }

  /**
   A successful revert restores revision n: the same row shows the content, lock and status of that snapshot
   under the next revision number, nothing else changes, and history is only appended to.
   */
  lemma RevertRestores(db: DB, sel: Selector, no: Option<int>, actor: string)
    requires Valid(db) && RevertEntry(db, sel, no, actor).Done?
    ensures var end := RevertEntry(db, sel, no, actor).db;
            Valid(end) && Select(db, sel, actor).Ok? &&
            var key := Select(db, sel, actor).value;
            key in db.entries &&
            var n := Or(no, db.entries[key].record.revisionNo - 1);
            1 <= n <= db.entries[key].record.revisionNo &&
            Restores(db, end, key, SnapshotAt(db, key, n).(provenance := RevertProvenance(actor, n))) &&
            EntriesSameBut(db, end, key) && SameElsewhere(db, end) && end.packs == db.packs && db.revisions <= end.revisions
  {
    TargetIsSnapshot(db, sel, no, actor);
    SelectNormalized(db, sel, actor);
    var key := Select(db, sel, actor).value;
    var target := RevertTarget(db, sel, no, actor).value;
    RestoreSnapshotSound(db, target.0, target.1, actor);
    RowFacts(db, key);
  }

  /** The last snapshot of an entry shows its row, but for the status and the number, which are settled after it is taken. */
  lemma LastSnapshotIsRow(db: DB, key: EntryKey)
    requires Valid(db) && key in db.entries
    ensures var r := db.entries[key].record;
            r.revisionNo > 0 && SnapshotAt(db, key, r.revisionNo).(status := r.status, revisionNo := r.revisionNo) == r
  {
    RowFacts(db, key);
  }

  // What the last recorded revision of an entry did.
  ghost function LastAction(db: DB, key: EntryKey): string
    requires Valid(db) && key in db.entries
  {
    RowFacts(db, key);
    var h := History(db.revisions, EntryEntity, db.entries[key].record.id);
    h[|h| - 1].action
  }

  /**
   The last snapshot shows the row's status as well exactly if the row is active or a delete took the snapshot:
   not where a revert or an import wrote the row and flipped it to deleted afterwards.
   */
  lemma LastSnapshotShowsStatus(db: DB, key: EntryKey)
    requires Valid(db) && key in db.entries
    ensures var r := db.entries[key].record;
            r.revisionNo > 0 && (SnapshotAt(db, key, r.revisionNo).status == r.status <==> r.status.Active? || LastAction(db, key) == "delete")
  {
    RowFacts(db, key);
    var h := History(db.revisions, EntryEntity, db.entries[key].record.id);
    assert Told(h[|h| - 1]);
  }

  /** The same of every state that a fresh store can reach. */
  lemma ReachableShowsStatus(scan: Scanner, ops: seq<Op>, key: EntryKey)
    requires key in Run(EmptyDB(scan), ops).entries
    ensures var db := Run(EmptyDB(scan), ops); var r := db.entries[key].record;
            Valid(db) && r.revisionNo > 0 && SnapshotAt(db, key, r.revisionNo).(status := r.status, revisionNo := r.revisionNo) == r &&
            (SnapshotAt(db, key, r.revisionNo).status == r.status <==> r.status.Active? || LastAction(db, key) == "delete")
  {
    hide Run, Valid, SnapshotAt, LastAction;
    ReachableIsValid(scan, ops);
    LastSnapshotIsRow(Run(EmptyDB(scan), ops), key);
    LastSnapshotShowsStatus(Run(EmptyDB(scan), ops), key);
  }

  lemma SnapshotsStay(revisions: seq<Revision>, revisions': seq<Revision>, r: EntryRecord, r': EntryRecord, k: nat)
    requires revisions <= revisions' && r.id == r'.id && EntryHistory(revisions, r) && EntryHistory(revisions', r') && 1 <= k <= r.revisionNo
    ensures k <= r'.revisionNo && SnapshotIn(revisions', r', k) == SnapshotIn(revisions, r, k)
  {
    HistoryPrefix(revisions, revisions'[|revisions|..], EntryEntity, r.id);
    assert revisions + revisions'[|revisions|..] == revisions';
  }

  lemma SelectStays(db: DB, mid: DB, sel: Selector, actor: string)
    requires Select(db, sel, actor).Ok? && Select(db, sel, actor).value in mid.entries
    ensures Select(mid, sel, actor) == Select(db, sel, actor)
  {
  }

  // What one default revert does to the row, in the words that two of them are chained by.
  lemma DefaultRevert(db: DB, sel: Selector, actor: string)
    requires Valid(db) && RevertEntry(db, sel, None, actor).Done?
    ensures var end := RevertEntry(db, sel, None, actor).db;
            Valid(end) && Select(db, sel, actor).Ok? &&
            var key := Select(db, sel, actor).value;
            key in db.entries && key in end.entries && Select(end, sel, actor) == Ok(key) &&
            var was, now := db.entries[key].record, end.entries[key].record;
            was.revisionNo > 1 && now.id == was.id && now.revisionNo == was.revisionNo + 1 && db.revisions <= end.revisions &&
            SameContent(InputOf(now), InputOf(SnapshotAt(db, key, was.revisionNo - 1))) &&
            now.status == SnapshotAt(db, key, was.revisionNo - 1).status
  {
    hide Valid, RevertEntry, SnapshotAt, Select, SamePacksBut, SameElsewhere;
    RevertRestores(db, sel, None, actor);
    SelectStays(db, RevertEntry(db, sel, None, actor).db, sel, actor);
  }

  /**
   Two default reverts in a row restore the content fields. The status comes back exactly when the last
   snapshot had recorded it: when the row was active, or deleted by a delete and not by a revert or an import.
   */
  lemma TwoRevertsRestore(db: DB, sel: Selector, actor: string)
    requires Valid(db) && RevertEntry(db, sel, None, actor).Done?
    requires RevertEntry(RevertEntry(db, sel, None, actor).db, sel, None, actor).Done?
    ensures var end := RevertEntry(RevertEntry(db, sel, None, actor).db, sel, None, actor).db;
            Select(db, sel, actor).Ok? &&
            var key := Select(db, sel, actor).value;
            key in db.entries && key in end.entries && db.entries[key].record.revisionNo > 0 &&
            var was, now := db.entries[key].record, end.entries[key].record;
            SameContent(InputOf(now), InputOf(was)) && now.id == was.id && now.revisionNo == was.revisionNo + 2 &&
            (now.status == was.status <==> SnapshotAt(db, key, was.revisionNo).status == was.status) &&
            (now.status == was.status <==> was.status.Active? || LastAction(db, key) == "delete")
  {
    var mid := RevertEntry(db, sel, None, actor).db;
    var key := Select(db, sel, actor).value;
    DefaultRevert(db, sel, actor);
    DefaultRevert(mid, sel, actor);
    RowFacts(db, key);
    RowFacts(mid, key);
    LastSnapshotIsRow(db, key);
    LastSnapshotShowsStatus(db, key);
    hide Valid, RevertEntry, EntryHistory, SnapshotIn, EntryShape, Select, LastAction;
    SnapshotsStay(db.revisions, mid.revisions, db.entries[key].record, mid.entries[key].record, db.entries[key].record.revisionNo);
  }

  // ---------- the status gap ----------

  lemma RestoreRecords(db: DB, pack: PackKey, snapshot: EntryRecord, actor: string)
    requires pack in db.packs && EntryKey(pack, snapshot.key) in db.entries
    ensures var t := RestoreSnapshot(db, pack, snapshot, actor);
            t.Done? ==> exists r: Revision :: t.db.revisions == db.revisions + [r] && ActiveRevisionOf(r, db.entries[EntryKey(pack, snapshot.key)].record.id)
  {
    hide RemoveDocs, UpsertDoc, ContentHash, MaxRevision;
    var t := RestoreSnapshot(db, pack, snapshot, actor);
    if t.Done? {
      var r := t.db.revisions[|db.revisions|];
      assert t.db.revisions == db.revisions + [r] && ActiveRevisionOf(r, db.entries[EntryKey(pack, snapshot.key)].record.id);
    }
  }

  ghost predicate ActiveRevisionOf(r: Revision, id: Id) {
    r.entity.EntryEntity? && r.entityId == id && r.snapshot.EntrySnapshot? && r.snapshot.entry.status.Active?
  }

  /**
   After a revert the row has the status of the revision gone back to, and its last snapshot is active; so the
   snapshot shows the status exactly if that revision was active.
   */
  lemma RevertShowsStatus(db: DB, sel: Selector, no: Option<int>, actor: string)
    requires Valid(db) && RevertEntry(db, sel, no, actor).Done?
    ensures Select(db, sel, actor).Ok? && RevertTarget(db, sel, no, actor).Ok?
    ensures var end := RevertEntry(db, sel, no, actor).db; var key := Select(db, sel, actor).value;
            Valid(end) && key in end.entries &&
            var r, target := end.entries[key].record, RevertTarget(db, sel, no, actor).value.1;
            r.revisionNo > 0 && r.status == target.status && SnapshotAt(end, key, r.revisionNo).status.Active? &&
            (SnapshotAt(end, key, r.revisionNo).status == r.status <==> target.status.Active?)
  {
    hide Valid, RestoreSnapshot, Select, EntryShape, SnapshotAt, SameElsewhere, RevertEntry, EntryHistory, EntriesSameBut, ActiveRevisionOf;
    RevertRestores(db, sel, no, actor);
    TargetIsSnapshot(db, sel, no, actor);
    var end, key := RevertEntry(db, sel, no, actor).db, Select(db, sel, actor).value;
    var target := RevertTarget(db, sel, no, actor).value;
    RowFacts(db, key);
    RowFacts(end, key);
    assert EntryKey(target.0, target.1.key) == key;
    RestoreIs(db, sel, no, actor);
    RestoreRecords(db, target.0, target.1, actor);
    var r: Revision :| end.revisions == db.revisions + [r] && ActiveRevisionOf(r, db.entries[key].record.id);
    LastIsActive(db.revisions, r, end, key);
  }

  lemma RestoreIs(db: DB, sel: Selector, no: Option<int>, actor: string)
    requires RevertTarget(db, sel, no, actor).Ok?
    ensures var target := RevertTarget(db, sel, no, actor).value;
            RevertEntry(db, sel, no, actor) == RestoreSnapshot(db, target.0, target.1, actor)
  {
    hide RestoreSnapshot, RevertTarget;
  }

  lemma LastIsActive(revisions: seq<Revision>, r: Revision, end: DB, key: EntryKey)
    requires Valid(end) && key in end.entries && end.revisions == revisions + [r] && ActiveRevisionOf(r, end.entries[key].record.id)
    ensures end.entries[key].record.revisionNo > 0
    ensures SnapshotAt(end, key, end.entries[key].record.revisionNo).status.Active?
  {
    RowFacts(end, key);
    HistoryAppend(revisions, r, EntryEntity, end.entries[key].record.id);
    hide Valid, EntryShape, Numbered;
  }

  // ---------- the same for imported entries ----------

  function ImportedKey(e: EntryRecord): EntryKey
    requires Normalize(e.scope).Ok?
  {
    KeyOf(Normalize(e.scope).value, e.packName, e.key)
  }

  /**
   After an entry was imported its row has the status it came with, and its last snapshot is active; so the
   snapshot shows the status exactly if the entry came active.
   */
  lemma ImportShowsStatus(db: DB, e: EntryRecord, actor: string)
    requires Valid(db) && ImportEntry(db, e, actor).Done?
    ensures Normalize(e.scope).Ok?
    ensures var end, key := ImportEntry(db, e, actor).db, ImportedKey(e);
            Valid(end) && key in end.entries &&
            var r := end.entries[key].record;
            r.revisionNo > 0 && r.status == e.status && SnapshotAt(end, key, r.revisionNo).status.Active? &&
            (SnapshotAt(end, key, r.revisionNo).status == r.status <==> e.status.Active?)
  {
    hide ApplyEntry, Valid, SnapshotAt, FlipDeleted;
    NormalizeSettles(e.scope);
    var key := ImportedKey(e);
    var a := ApplyEntry(db, key.pack, InputOf(e), actor, e.provenance, None, None, true);
    ApplyEntrySound(db, key.pack, InputOf(e), actor, e.provenance, None, None, true);
    SoundIsValid(db, a.db);
    LastSnapshotShowsStatus(a.db, key);
    if e.status.Deleted? { FlipHidesStatus(a.db, key); }
  }

  lemma SoundIsValid(db: DB, end: DB)
    requires Sound(db, end)
    ensures Valid(end)
  {
  }

  // Flipping the status leaves the snapshots as they are.
  lemma FlipHidesStatus(db: DB, key: EntryKey)
    requires Valid(db) && key in db.entries
    ensures var end := FlipDeleted(db, key);
            Valid(end) && key in end.entries && end.entries[key].record.status.Deleted? &&
            var no := db.entries[key].record.revisionNo;
            no > 0 && end.entries[key].record.revisionNo == no && SnapshotAt(end, key, no) == SnapshotAt(db, key, no)
  {
    FlipKeepsValid(db, key);
    RowFacts(db, key);
    hide RemoveDocs;
  }
}
