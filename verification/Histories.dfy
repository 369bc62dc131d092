/** The revision table: what its rows say about one entity, and how recording a revision changes that. */
module Histories {
  import opened Model
  import opened Database

  // The revisions of one entity, oldest first.
  ghost function History(revisions: seq<Revision>, entity: EntityType, id: Id): seq<Revision> {
    if revisions == [] then [] else
      var r, h := revisions[|revisions| - 1], History(revisions[..|revisions| - 1], entity, id);
      if r.entity == entity && r.entityId == id then h + [r] else h
  }

  ghost predicate Numbered(h: seq<Revision>) {
    forall i | 0 <= i < |h| :: h[i].no == i + 1
  }

  lemma HistoryAppend(revisions: seq<Revision>, r: Revision, entity: EntityType, id: Id)
    ensures History(revisions + [r], entity, id) ==
            History(revisions, entity, id) + (if r.entity == entity && r.entityId == id then [r] else [])
  {
    assert (revisions + [r])[..|revisions|] == revisions;
  }

  /** On a history numbered 1..n, the MAX that numbers the next revision is n. */
  lemma {:induction false} MaxOfNumbered(revisions: seq<Revision>, entity: EntityType, id: Id)
    requires Numbered(History(revisions, entity, id))
    ensures MaxRevision(revisions, entity, id) == |History(revisions, entity, id)|
  {
    if revisions != [] {
      var front := revisions[..|revisions| - 1];
      var h, hf := History(revisions, entity, id), History(front, entity, id);
      forall i | 0 <= i < |hf| ensures hf[i].no == i + 1 { assert hf[i] == h[i]; }
      MaxOfNumbered(front, entity, id);
      if h != hf { assert h[|hf|].no == |hf| + 1; }
    }
  }

  lemma {:induction false} HistoryMember(revisions: seq<Revision>, entity: EntityType, id: Id, i: nat)
    requires i < |revisions| && revisions[i].entity == entity && revisions[i].entityId == id
    ensures revisions[i] in History(revisions, entity, id)
  {
    var n := |revisions| - 1;
    if i < n {
      HistoryMember(revisions[..n], entity, id, i);
    }
  }

  lemma {:induction false} HistoryInTable(revisions: seq<Revision>, entity: EntityType, id: Id, k: nat)
    requires k < |History(revisions, entity, id)|
    ensures exists i | 0 <= i < |revisions| :: revisions[i] == History(revisions, entity, id)[k]
    ensures History(revisions, entity, id)[k].entity == entity && History(revisions, entity, id)[k].entityId == id
  {
    var n := |revisions| - 1;
    var h := History(revisions[..n], entity, id);
    if k < |h| {
      HistoryInTable(revisions[..n], entity, id, k);
      var i :| 0 <= i < n && revisions[..n][i] == h[k];
      assert revisions[i] == h[k];
    } else {
      assert revisions[n] == History(revisions, entity, id)[k];
    }
  }

  /** Looking a number up in a numbered history finds exactly the revision of that number. */
  lemma FindInNumbered(revisions: seq<Revision>, entity: EntityType, id: Id, no: nat)
    requires Numbered(History(revisions, entity, id))
    ensures var at := RevisionIndex(revisions, entity, id, no); var h := History(revisions, entity, id);
            (at.Some? <==> 1 <= no <= |h|) && (at.Some? ==> revisions[at.value] == h[no - 1])
  {
    var at, h := RevisionIndex(revisions, entity, id, no), History(revisions, entity, id);
    if at.Some? {
      HistoryMember(revisions, entity, id, at.value);
      var k :| 0 <= k < |h| && h[k] == revisions[at.value];
      assert k == no - 1;
    } else if 1 <= no <= |h| {
      HistoryInTable(revisions, entity, id, no - 1);
    }
  }

  lemma {:induction false} HistoryReplace(revisions: seq<Revision>, at: nat, r: Revision, entity: EntityType, id: Id)
    requires at < |revisions| && r.entity == revisions[at].entity != entity
    ensures History(revisions[at := r], entity, id) == History(revisions, entity, id)
  {
    var n := |revisions| - 1;
    if at < n {
      assert revisions[at := r][..n] == revisions[..n][at := r];
      HistoryReplace(revisions[..n], at, r, entity, id);
    } else {
      assert revisions[at := r][..n] == revisions[..n];
    }
  }

  /** Upserting a revision of one entity type leaves the histories of the other types alone. */
  lemma HistoryPut(revisions: seq<Revision>, r: Revision, entity: EntityType, id: Id)
    requires r.entity != entity
    ensures History(PutRevision(revisions, r), entity, id) == History(revisions, entity, id)
  {
    var at := RevisionIndex(revisions, r.entity, r.entityId, r.no);
    if at.Some? {
      HistoryReplace(revisions, at.value, r, entity, id);
    } else {
      HistoryAppend(revisions, r, entity, id);
    }
  }

  lemma {:induction false} HistoryEmpty(revisions: seq<Revision>, entity: EntityType, id: Id)
    requires forall i | 0 <= i < |revisions| :: revisions[i].entity == entity ==> revisions[i].entityId != id
    ensures History(revisions, entity, id) == []
  {
    if revisions != [] {
      HistoryEmpty(revisions[..|revisions| - 1], entity, id);
    }
  }

  /** A history only grows when the table is extended. */
  lemma {:induction false} HistoryPrefix(revisions: seq<Revision>, more: seq<Revision>, entity: EntityType, id: Id)
    ensures History(revisions, entity, id) <= History(revisions + more, entity, id)
  {
    if more == [] {
      assert revisions + more == revisions;
    } else {
      var n := |more| - 1;
      assert revisions + more == (revisions + more[..n]) + [more[n]];
      HistoryPrefix(revisions, more[..n], entity, id);
      HistoryAppend(revisions + more[..n], more[n], entity, id);
    }
  }
}
