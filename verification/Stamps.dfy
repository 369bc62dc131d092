/** Revision numbers are faithful version stamps, over every run and including bundle imports. */
module Stamps {
  import opened Model
  import opened Database
  import opened Histories
  import opened Invariant
  import opened Growth
  import opened Runs

  lemma {:induction false} HistoryOfKept(a: seq<Revision>, b: seq<Revision>, entity: EntityType, id: Id)
    requires |a| == |b| && (forall i | 0 <= i < |a| :: RevisionKept(a[i], b[i])) && !entity.ReviewEntity?
    ensures History(a, entity, id) == History(b, entity, id)
  {
    if a != [] {
      var n := |a| - 1;
      HistoryOfKept(a[..n], b[..n], entity, id);
      assert RevisionKept(a[n], b[n]);
    }
  }

  /** The history of a pack, an entry or the policy is only ever appended to. */
  lemma HistoryOnlyGrows(db: DB, ops: seq<Op>, entity: EntityType, id: Id)
    requires Valid(db) && !entity.ReviewEntity?
    ensures History(db.revisions, entity, id) <= History(Run(db, ops).revisions, entity, id)
  {
    hide Valid, Run, RowsAdvance;
    RunMoves(db, ops);
    var a, b := db.revisions, Run(db, ops).revisions;
    HistoryOfKept(a, b[..|a|], entity, id);
    HistoryPrefix(b[..|a|], b[|a|..], entity, id);
    assert b[..|a|] + b[|a|..] == b;
  }

  /** Without a bundle import the whole revision table is append-only. */
  lemma RevisionsAppendOnly(db: DB, ops: seq<Op>)
    requires Valid(db) && NoRestore(ops)
    ensures db.revisions <= Run(db, ops).revisions
  {
    RunGrows(db, ops);
  }

  /**
   An entry keeps its row and its id for ever; its recorded revisions are exactly 1..current; and two states
   of a run that show the same revision of it show the identical row.
   */
  lemma EntryStamp(db: DB, ops: seq<Op>, k: EntryKey)
    requires Valid(db) && k in db.entries
    ensures var end := Run(db, ops);
            k in end.entries &&
            var was, now := db.entries[k].record, end.entries[k].record;
            now.id == was.id && was.revisionNo <= now.revisionNo &&
            (now.revisionNo == was.revisionNo ==> end.entries[k] == db.entries[k]) &&
            Numbered(History(end.revisions, EntryEntity, now.id)) && |History(end.revisions, EntryEntity, now.id)| == now.revisionNo
  {
    hide Run, Step;
    RunMoves(db, ops);
    var end := Run(db, ops);
    assert EntryAdvances(db.entries[k], end.entries[k]);
    assert EntryHistory(end.revisions, end.entries[k].record);
  }

  /** The id alone identifies the row: the same id and revision in two states of a run is the same row. */
  lemma EntryIdAndRevisionIdentify(db: DB, ops: seq<Op>, j: EntryKey, k: EntryKey)
    requires Valid(db) && j in db.entries && k in Run(db, ops).entries
    requires Run(db, ops).entries[k].record.id == db.entries[j].record.id
    requires Run(db, ops).entries[k].record.revisionNo == db.entries[j].record.revisionNo
    ensures j == k && Run(db, ops).entries[k] == db.entries[j]
  {
    RunMoves(db, ops);
    EntryStamp(db, ops, j);
  }

  /** The same for packs. */
  lemma PackStamp(db: DB, ops: seq<Op>, k: PackKey)
    requires Valid(db) && k in db.packs
    ensures var end := Run(db, ops);
            k in end.packs &&
            var was, now := db.packs[k], end.packs[k];
            now.id == was.id && was.revisionNo <= now.revisionNo &&
            (now.revisionNo == was.revisionNo ==> now == was) &&
            Numbered(History(end.revisions, PackEntity, now.id)) && |History(end.revisions, PackEntity, now.id)| == now.revisionNo
  {
    RunMoves(db, ops);
    var end := Run(db, ops);
    assert PackAdvances(db.packs[k], end.packs[k]);
    assert PackHistory(end.revisions, end.packs[k]);
  }

  /** The same for the review policy. */
  lemma PolicyStamp(db: DB, ops: seq<Op>)
    requires Valid(db)
    ensures var end := Run(db, ops);
            db.policy.revisionNo <= end.policy.revisionNo &&
            (end.policy.revisionNo == db.policy.revisionNo ==> end.policy == db.policy) &&
            Numbered(History(end.revisions, PolicyEntity, POLICY_ID)) &&
            |History(end.revisions, PolicyEntity, POLICY_ID)| == end.policy.revisionNo
  {
    RunMoves(db, ops);
  }

  /** A committed request stays committed with the same result. */
  lemma CommitLogPermanent(db: DB, ops: seq<Op>, id: RequestId)
    requires Valid(db) && id in db.commits
    ensures id in Run(db, ops).commits && Run(db, ops).commits[id] == db.commits[id]
  {
    hide Valid, Run, Step;
    RunMoves(db, ops);
  }

  /** Every state a fresh store can reach satisfies the invariant. */
  lemma ReachableIsValid(scan: Scanner, ops: seq<Op>)
    ensures Valid(Run(EmptyDB(scan), ops))
  {
    EmptyIsValid(scan);
    RunMoves(EmptyDB(scan), ops);
  }
}
