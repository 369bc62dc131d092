/** Full-text search over the derived index, and what the index promises in every reachable state. */
module Search {
  import opened Prelude
  import opened Model
  import opened Database
  import opened Operations
  import opened Invariant
  import opened Runs
  import opened Stamps
  import opened RunLaws
  import opened Compose
  import Text

  // ---------- derived data ----------

  // Exactly one document shows the row.
  ghost predicate OneDoc(fts: seq<Doc>, r: EntryRecord) {
    exists i | 0 <= i < |fts| :: fts[i] == DocOf(r) && forall j | 0 <= j < |fts| && fts[j].entryId == r.id :: j == i
  }

  ghost predicate NoDoc(fts: seq<Doc>, id: Id) {
    forall j | 0 <= j < |fts| :: fts[j].entryId != id
  }

  lemma DocsFollow(entries: map<EntryKey, EntryRow>, fts: seq<Doc>, k: EntryKey)
    requires Indexed(entries, fts) && k in entries
    requires forall j | j in entries && entries[j].record.id == entries[k].record.id :: j == k
    ensures var r := entries[k].record; if r.status.Active? then OneDoc(fts, r) else NoDoc(fts, r.id)
  {
    var r := entries[k].record;
    if r.status.Active? {
      assert HasDoc(fts, r);
      var i :| 0 <= i < |fts| && fts[i] == DocOf(r);
      forall j | 0 <= j < |fts| && fts[j].entryId == r.id ensures j == i { }
    } else {
      forall j | 0 <= j < |fts| ensures fts[j].entryId != r.id {
        assert DocOfActive(entries, fts[j]);
      }
    }
  }

  lemma DerivedFollows(db: DB, k: EntryKey)
    requires Valid(db) && k in db.entries
    ensures var r := db.entries[k].record;
            (if r.status.Active? then OneDoc(db.fts, r) else NoDoc(db.fts, r.id)) && db.entries[k].contentHash == ContentHash(InputOf(r))
  {
    assert HashCurrent(db.entries[k]);
    DocsFollow(db.entries, db.fts, k);
    hide PackHistories, EntryHistories, PackRows, ReviewRows, Indexed;
  }

  /**
   Derived data never drifts: in every reachable state an active entry has exactly one document, with its
   current text, a deleted one has none, and the stored content hash is the hash of the row.
   */
  lemma DerivedDataNeverDrifts(scan: Scanner, ops: seq<Op>, k: EntryKey)
    requires k in Run(EmptyDB(scan), ops).entries
    ensures var db := Run(EmptyDB(scan), ops); var r := db.entries[k].record;
            (if r.status.Active? then OneDoc(db.fts, r) else NoDoc(db.fts, r.id)) && db.entries[k].contentHash == ContentHash(InputOf(r))
  {
    ReachableIsValid(scan, ops);
    DerivedFollows(Run(EmptyDB(scan), ops), k);
  }

  /** An exact duplicate is always a duplicate by hash as well. */
  lemma ExactDuplicateIsHashDuplicate(db: DB, k: EntryKey, entry: EntryInput, mode: ReviewMode, mode': ReviewMode)
    requires Valid(db) && IsDuplicate(GetEntry(db, k), entry, mode, true)
    ensures IsDuplicate(GetEntry(db, k), entry, mode', false)
  {
    DerivedFollows(db, k);
    SameContentSameHash(InputOf(db.entries[k].record), entry);
  }

  // ---------- search ----------

  lemma IncludedIsEntry(db: DB, scopes: set<ScopeRef>, k: EntryKey)
    requires k in Included(db, scopes, false)
    ensures k in db.entries && db.entries[k].record.status.Active?
  {
  }

  datatype SearchRequest = SearchRequest(query: string, projectScopeId: Option<string>, taskScopeId: Option<string>, limit: nat)

  // Whether the index engine matches a document.
  type Matcher = (string, Doc) -> bool

  // The rows that the join on the entry id finds for one document.
  function Joined(db: DB, d: Doc, scopes: set<ScopeRef>): set<EntryKey> {
    set k | k in Included(db, scopes, false) && db.entries[k].record.id == d.entryId
  }

  // The unranked hits: the table enforces no uniqueness, so nothing here prevents an entry from being hit twice.
  function Hits(db: DB, fts: seq<Doc>, scopes: set<ScopeRef>, query: string, matches: Matcher): seq<EntryKey> {
    if fts == [] then [] else
      var d := fts[|fts| - 1];
      Hits(db, fts[..|fts| - 1], scopes, query, matches) + (if matches(query, d) then InOrder(Joined(db, d, scopes)) else [])
  }

  function SearchScopes(req: SearchRequest): Result<set<ScopeRef>> {
    if Text.Blank(req.query) then Err(Validation)
    else ScopesOf(ComposeRequest(req.projectScopeId, req.taskScopeId, false))
  }

  // An answer is some ranking of the hits, cut off at the limit.
  ghost predicate Answer(db: DB, req: SearchRequest, matches: Matcher, answer: seq<EntryKey>)
    requires SearchScopes(req).Ok?
  {
    exists ranked: seq<EntryKey> ::
      multiset(ranked) == multiset(Hits(db, db.fts, SearchScopes(req).value, req.query, matches)) &&
      answer == (if req.limit < |ranked| then ranked[..req.limit] else ranked)
  }

  // A scan of the rows themselves, without the index.
  function Scan(db: DB, scopes: set<ScopeRef>, query: string, matches: Matcher): set<EntryKey> {
    set k | k in Included(db, scopes, false) && matches(query, DocOf(db.entries[k].record))
  }

  predicate NoRepeats(ks: seq<EntryKey>) {
    forall i, j | 0 <= i < j < |ks| :: ks[i] != ks[j]
  }

  ghost predicate HitsShape(db: DB, fts: seq<Doc>, scopes: set<ScopeRef>, query: string, matches: Matcher, hits: seq<EntryKey>) {
    NoRepeats(hits) && forall k :: k in hits <==> HitOf(db, fts, scopes, query, matches, k)
  }

  ghost predicate HitOf(db: DB, fts: seq<Doc>, scopes: set<ScopeRef>, query: string, matches: Matcher, k: EntryKey) {
    k in Included(db, scopes, false) && exists i | 0 <= i < |fts| :: fts[i].entryId == db.entries[k].record.id && matches(query, fts[i])
  }

  lemma AtMostOne(keys: set<EntryKey>)
    requires forall j, k | j in keys && k in keys :: j == k
    ensures |keys| <= 1
  {
    if keys != {} {
      var k :| k in keys;
      assert keys == {k};
    }
  }

  lemma JoinedIsOne(db: DB, d: Doc, scopes: set<ScopeRef>)
    requires Valid(db)
    ensures var ks := InOrder(Joined(db, d, scopes)); |ks| <= 1 && forall k :: k in ks <==> k in Joined(db, d, scopes)
  {
    AtMostOne(Joined(db, d, scopes));
    InOrderSorts(Joined(db, d, scopes));
  }

  lemma {:induction false} HitsAre(db: DB, fts: seq<Doc>, scopes: set<ScopeRef>, query: string, matches: Matcher)
    requires Valid(db) && DocsDistinct(fts)
    ensures HitsShape(db, fts, scopes, query, matches, Hits(db, fts, scopes, query, matches))
  {
    hide Valid, Included, InOrder;
    if fts != [] {
      var n := |fts| - 1;
      HitsAre(db, fts[..n], scopes, query, matches);
      JoinedIsOne(db, fts[n], scopes);
      HitsStep(db, fts, scopes, query, matches);
    }
  }

  lemma HitsStep(db: DB, fts: seq<Doc>, scopes: set<ScopeRef>, query: string, matches: Matcher)
    requires fts != [] && DocsDistinct(fts)
    requires var ks := InOrder(Joined(db, fts[|fts| - 1], scopes));
             |ks| <= 1 && forall k :: k in ks <==> k in Joined(db, fts[|fts| - 1], scopes)
    requires HitsShape(db, fts[..|fts| - 1], scopes, query, matches, Hits(db, fts[..|fts| - 1], scopes, query, matches))
    ensures HitsShape(db, fts, scopes, query, matches, Hits(db, fts, scopes, query, matches))
  {
    hide Included, InOrder;
    var n := |fts| - 1;
    var front, last := Hits(db, fts[..n], scopes, query, matches), if matches(query, fts[n]) then InOrder(Joined(db, fts[n], scopes)) else [];
    assert Hits(db, fts, scopes, query, matches) == front + last;
    forall k ensures k in front + last <==> HitOf(db, fts, scopes, query, matches, k) {
      HitSplit(db, fts, scopes, query, matches, k);
    }
    forall i | 0 <= i < |front| ensures front[i] !in last {
      assert front[i] in front;
      IncludedIsEntry(db, scopes, front[i]);
      var j :| 0 <= j < n && fts[j].entryId == db.entries[front[i]].record.id;
      assert fts[j].entryId != fts[n].entryId;
    }
  }

  lemma HitSplit(db: DB, fts: seq<Doc>, scopes: set<ScopeRef>, query: string, matches: Matcher, k: EntryKey)
    requires fts != []
    ensures HitOf(db, fts, scopes, query, matches, k) <==>
            HitOf(db, fts[..|fts| - 1], scopes, query, matches, k) ||
            (k in Joined(db, fts[|fts| - 1], scopes) && matches(query, fts[|fts| - 1]))
  {
    hide Included;
    var n := |fts| - 1;
    if HitOf(db, fts[..n], scopes, query, matches, k) {
      IncludedIsEntry(db, scopes, k);
      var i :| 0 <= i < n && fts[..n][i].entryId == db.entries[k].record.id && matches(query, fts[..n][i]);
      assert fts[i] == fts[..n][i];
    }
    if HitOf(db, fts, scopes, query, matches, k) {
      IncludedIsEntry(db, scopes, k);
      var i :| 0 <= i < |fts| && fts[i].entryId == db.entries[k].record.id && matches(query, fts[i]);
      if i < n { assert fts[..n][i] == fts[i]; }
    }
  }

  lemma HitIsScanned(db: DB, scopes: set<ScopeRef>, query: string, matches: Matcher, k: EntryKey)
    requires Valid(db)
    ensures HitOf(db, db.fts, scopes, query, matches, k) <==> k in Scan(db, scopes, query, matches)
  {
    hide Valid, Included;
    if k in Included(db, scopes, false) {
      IncludedIsEntry(db, scopes, k);
      DerivedFollows(db, k);
      var i :| 0 <= i < |db.fts| && db.fts[i] == DocOf(db.entries[k].record) &&
               forall j | 0 <= j < |db.fts| && db.fts[j].entryId == db.entries[k].record.id :: j == i;
    }
  }

  /** The index finds each matching entry exactly once, and exactly the entries that a scan of the rows finds. */
  lemma SearchEqualsScan(db: DB, scopes: set<ScopeRef>, query: string, matches: Matcher)
    requires Valid(db)
    ensures var hits := Hits(db, db.fts, scopes, query, matches);
            NoRepeats(hits) && forall k :: k in hits <==> k in Scan(db, scopes, query, matches)
  {
    HitsAre(db, db.fts, scopes, query, matches);
    hide Valid, Hits, HitOf, Scan;
    forall k ensures k in Hits(db, db.fts, scopes, query, matches) <==> k in Scan(db, scopes, query, matches) {
      HitIsScanned(db, scopes, query, matches, k);
    }
  }

  /**
   Whatever the ranking and the limit, an answer names only entries that composing the same scopes includes, and
   an answer that the limit does not cut names all entries that a scan finds.
   */
  lemma AnswersAreComposed(db: DB, req: SearchRequest, matches: Matcher, answer: seq<EntryKey>)
    requires Valid(db) && SearchScopes(req).Ok? && Answer(db, req, matches, answer)
    ensures forall k | k in answer :: k in Included(db, SearchScopes(req).value, false)
    ensures |answer| < req.limit ==> forall k :: k in answer <==> k in Scan(db, SearchScopes(req).value, req.query, matches)
  {
    hide Valid, Included;
    var scopes := SearchScopes(req).value;
    var hits := Hits(db, db.fts, scopes, req.query, matches);
    SearchEqualsScan(db, scopes, req.query, matches);
    var ranked: seq<EntryKey> :| multiset(ranked) == multiset(hits) &&
                                 answer == (if req.limit < |ranked| then ranked[..req.limit] else ranked);
    forall k ensures k in ranked <==> k in hits {
      assert k in ranked <==> k in multiset(ranked);
      assert k in hits <==> k in multiset(hits);
    }
    forall k | k in answer ensures k in ranked { }
  }

  // ---------- an archived pack comes back as it went ----------

  /**
   Archive a pack, run any operations but bundle imports and its own unarchiving, and unarchive it: its
   composed section is what it was before.
   */
  lemma ArchivedSectionComesBack(db: DB, archive: UpdatePackRequest, ops: seq<Op>, unarchive: UpdatePackRequest,
                                 p: PackKey, req: ComposeRequest)
    requires Valid(db) && p in db.packs && db.packs[p].status.Open? && ScopesOf(req).Ok?
    requires Normalize(archive.scope) == Ok(p.scope) && archive.name == p.name && archive.status == Some(Archived)
    requires Normalize(unarchive.scope) == Ok(p.scope) && unarchive.name == p.name && unarchive.status == Some(Open)
    requires UpdatePack(db, archive).Done?
    requires NoRestore(ops) && forall i | 0 <= i < |ops| :: !Unarchives(ops[i], p)
    requires UpdatePack(Run(UpdatePack(db, archive).db, ops), unarchive).Done?
    ensures var end := UpdatePack(Run(UpdatePack(db, archive).db, ops), unarchive).db;
            SectionOf(ComposeContext(end, req).value.sections, p) == SectionOf(ComposeContext(db, req).value.sections, p)
  {
    hide Valid, SamePack, ComposeContext, UpdatePack, Run, Step, Unarchives, SectionOf;
    var mid := UpdatePack(db, archive).db;
    UpdateStatus(db, archive, p);
    StepSound(db, Update(archive));
    ArchivedPackFrozen(mid, ops, p);
    var late := Run(mid, ops);
    RunGrows(mid, ops);
    SamePackParts(mid, late, p);
    UpdateStatus(late, unarchive, p);
    StepSound(late, Update(unarchive));
    var end := UpdatePack(late, unarchive).db;
    forall k: EntryKey | k.pack == p ensures GetEntry(end, k) == GetEntry(db, k) {
      assert GetEntry(late, k) == GetEntry(mid, k);
    }
    SectionUnchanged(end, db, req, p);
  }

  lemma UpdateStatus(db: DB, req: UpdatePackRequest, p: PackKey)
    requires p in db.packs && Normalize(req.scope) == Ok(p.scope) && req.name == p.name && req.status.Some? && UpdatePack(db, req).Done?
    ensures var end := UpdatePack(db, req).db;
            p in end.packs && end.packs[p].status == req.status.value && end.entries == db.entries && Step(db, Update(req)) == end
  {
    hide MaxRevision, OnlyUnarchives, Normalize, UpdatePack;
    StatusUpdated(db, req, p);
  }

  lemma StatusUpdated(db: DB, req: UpdatePackRequest, p: PackKey)
    requires p in db.packs && Normalize(req.scope) == Ok(p.scope) && req.name == p.name && req.status.Some? && UpdatePack(db, req).Done?
    ensures var end := UpdatePack(db, req).db; p in end.packs && end.packs[p].status == req.status.value && end.entries == db.entries
  {
    hide MaxRevision, OnlyUnarchives, Normalize;
  }

  lemma SamePackParts(a: DB, b: DB, p: PackKey)
    requires SamePack(a, b, p)
    ensures p in b.packs && b.packs[p] == a.packs[p] && forall k: EntryKey | k.pack == p :: GetEntry(b, k) == GetEntry(a, k)
  {
  }
}
