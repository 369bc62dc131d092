/** Exporting a bundle: of the whole store, of some scopes, or of one pack (`export_bundle`). */
module Exporting {
  import opened Prelude
  import opened Model
  import opened Database
  import opened Bundles
  import opened Invariant
  import opened Compose
  import opened RoundTrip
  import Text

  datatype ExportRequest = ExportRequest(
    projectScopeId: Option<string>, taskScopeId: Option<string>, scope: Option<ScopeRef>, packName: Option<string>,
    includeDeleted: bool, includeReviews: bool, includeRuns: bool)

  const EVERYTHING := ExportRequest(None, None, None, None, true, true, true)

  // `export_scope_refs`: no restriction, or the scopes asked for.
  function ExportScopes(req: ExportRequest): Result<Option<set<ScopeRef>>> {
    if req.scope.Some? then
      var scope :- Normalize(req.scope.value);
      Ok(Some({scope}))
    else if req.projectScopeId.None? && req.taskScopeId.None? then Ok(None)
    else
      var scopes :- ScopesOf(ComposeRequest(req.projectScopeId, req.taskScopeId, true));
      Ok(Some(scopes))
  }

  predicate PackMatches(p: PackKey, req: ExportRequest, scopes: Option<set<ScopeRef>>) {
    (scopes.Some? ==> p.scope in scopes.value) && (req.packName.Some? ==> p.name == req.packName.value)
  }

  // A pack is listed under the entry key that no entry can have, so that the order of keys lists packs as well.
  function ExportedPackKeys(db: DB, req: ExportRequest, scopes: Option<set<ScopeRef>>): set<EntryKey> {
    set p | p in db.packs && PackMatches(p, req, scopes) :: EntryKey(p, "")
  }

  function ExportedEntryKeys(db: DB, req: ExportRequest, scopes: Option<set<ScopeRef>>): set<EntryKey> {
    set k | k in db.entries && k.pack in db.packs && PackMatches(k.pack, req, scopes) &&
            (req.includeDeleted || db.entries[k].record.status.Active?)
  }

  function PackRowsOf(db: DB, keys: set<EntryKey>): seq<PackRecord>
    requires forall k | k in keys :: k.pack in db.packs
  {
    if keys == {} then [] else [db.packs[Least(keys).pack]] + PackRowsOf(db, keys - {Least(keys)})
  }

  predicate ReviewMatches(r: ReviewItem, req: ExportRequest, scopes: Option<set<ScopeRef>>) {
    (scopes.Some? ==> r.scope in scopes.value) && (req.packName.Some? ==> r.packName == req.packName.value)
  }

  // `export_run_matches`.
  function RunMatches(run: RunRecord, req: ExportRequest): Result<bool> {
    if req.packName.Some? then Ok(false)
    else if req.scope.Some? then
      var scope :- Normalize(req.scope.value);
      Ok(match scope.kind
         case Global => false
         case Project => run.projectScopeId == Some(scope.id)
         case Task => run.taskScopeId == Some(scope.id))
    else
      var project :- OptionalId(Project, req.projectScopeId);
      var task :- OptionalId(Task, req.taskScopeId);
      Ok(if project.None? && task.None? then true
         else (project.Some? && run.projectScopeId == project) || (task.Some? && run.taskScopeId == task))
  }

  function OptionalId(kind: ScopeKind, raw: Option<string>): Result<Option<string>> {
    if raw.None? then Ok(None)
    else
      var scope :- Normalize(ScopeRef(kind, raw.value));
      Ok(Some(scope.id))
  }

  function ReviewsMatching(reviews: seq<ReviewItem>, req: ExportRequest, scopes: Option<set<ScopeRef>>): seq<ReviewItem> {
    if reviews == [] then [] else
      var n := |reviews| - 1;
      ReviewsMatching(reviews[..n], req, scopes) + (if ReviewMatches(reviews[n], req, scopes) then [reviews[n]] else [])
  }

  function RunsMatching(runs: seq<RunRecord>, req: ExportRequest): Result<seq<RunRecord>> {
    if runs == [] then Ok([]) else
      var n := |runs| - 1;
      var front :- RunsMatching(runs[..n], req);
      var matches :- RunMatches(runs[n], req);
      Ok(front + (if matches then [runs[n]] else []))
  }

  /** The exported bundle; `runs` lists the runs in the order of their start, which the tables here do not hold. */
  function ExportBundle(db: DB, runs: seq<RunRecord>, req: ExportRequest): Result<Bundle> {
    var scopes :- ExportScopes(req);
    var listed :- if req.includeRuns then RunsMatching(runs, req) else Ok([]);
    Ok(Bundle(PackRowsOf(db, ExportedPackKeys(db, req, scopes)), Rows(db, ExportedEntryKeys(db, req, scopes)),
              if req.includeReviews then ReviewsMatching(db.reviews, req, scopes) else [], listed))
  }

  /** The loop of `list_export_reviews`. */
  method ListExportReviews(reviews: seq<ReviewItem>, req: ExportRequest, scopes: Option<set<ScopeRef>>) returns (listed: seq<ReviewItem>)
    ensures listed == ReviewsMatching(reviews, req, scopes)
  {
    listed := [];
    for i := 0 to |reviews|
      invariant listed == ReviewsMatching(reviews[..i], req, scopes)
    {
      assert reviews[..i + 1][..i] == reviews[..i];
      if ReviewMatches(reviews[i], req, scopes) {
        listed := listed + [reviews[i]];
      }
    }
    assert reviews[..|reviews|] == reviews;
  }

  lemma {:induction false} RunsStopped(runs: seq<RunRecord>, req: ExportRequest, n: nat)
    requires n <= |runs| && RunsMatching(runs[..n], req).Err?
    ensures RunsMatching(runs, req) == RunsMatching(runs[..n], req)
  {
    if n < |runs| {
      assert runs[..|runs| - 1][..n] == runs[..n];
      RunsStopped(runs[..|runs| - 1], req, n);
    } else {
      assert runs[..n] == runs;
    }
  }

  /** The loop of `list_export_runs`. */
  method ListExportRuns(runs: seq<RunRecord>, req: ExportRequest) returns (r: Result<seq<RunRecord>>)
    ensures r == RunsMatching(runs, req)
  {
    hide RunMatches;
    var listed := [];
    for i := 0 to |runs|
      invariant RunsMatching(runs[..i], req) == Ok(listed)
    {
      assert runs[..i + 1][..i] == runs[..i] && runs[..i + 1][i] == runs[i];
      var matches := RunMatches(runs[i], req);
      if matches.Err? {
        RunsStopped(runs, req, i + 1);
        return Err(matches.error);
      }
      assert listed + [] == listed;
      if matches.value {
        listed := listed + [runs[i]];
      }
    }
    assert runs[..|runs|] == runs;
    return Ok(listed);
  }

  ghost predicate ListsRuns(db: DB, runs: seq<RunRecord>) {
    RunsFrom(db, runs) && forall id | id in db.runs :: db.runs[id] in runs
  }

  // ---------- every export is a list of rows of the store ----------

  lemma {:induction false} PackRowsFollowKeys(db: DB, keys: set<EntryKey>)
    requires forall k | k in keys :: k.pack in db.packs
    ensures |PackRowsOf(db, keys)| == |InOrder(keys)|
    ensures forall i | 0 <= i < |InOrder(keys)| :: InOrder(keys)[i] in keys && PackRowsOf(db, keys)[i] == db.packs[InOrder(keys)[i].pack]
  {
    if keys != {} { PackRowsFollowKeys(db, keys - {Least(keys)}); }
  }

  lemma AscendingDistinct(keys: set<EntryKey>)
    ensures forall i, j | 0 <= i < j < |InOrder(keys)| :: InOrder(keys)[i] != InOrder(keys)[j]
    ensures forall k :: k in InOrder(keys) <==> k in keys
  {
    InOrderSorts(keys);
    hide KeyLess, InOrder;
    forall i, j | 0 <= i < j < |InOrder(keys)| ensures InOrder(keys)[i] != InOrder(keys)[j] {
      KeyLessTotal(InOrder(keys)[i], InOrder(keys)[j]);
    }
  }

  lemma ListedPackKeys(db: DB, req: ExportRequest, scopes: Option<set<ScopeRef>>)
    ensures forall k | k in ExportedPackKeys(db, req, scopes) :: k.pack in db.packs && k == EntryKey(k.pack, "")
    ensures forall p | p in db.packs && PackMatches(p, req, scopes) :: EntryKey(p, "") in ExportedPackKeys(db, req, scopes)
  {
    hide PackMatches;
  }

  lemma PackRowsFrom(db: DB, req: ExportRequest, scopes: Option<set<ScopeRef>>)
    requires Valid(db)
    ensures forall k | k in ExportedPackKeys(db, req, scopes) :: k.pack in db.packs
    ensures var packs := PackRowsOf(db, ExportedPackKeys(db, req, scopes));
            PacksFrom(db, packs) &&
            forall p | p in db.packs && PackMatches(p, req, scopes) :: p in PackKeys(packs, |packs|) && db.packs[p] in packs
  {
    hide Valid, InOrder, PackMatches, ExportedPackKeys, PackRowsOf;
    ListedPackKeys(db, req, scopes);
    var keys := ExportedPackKeys(db, req, scopes);
    var packs, ks := PackRowsOf(db, keys), InOrder(keys);
    PackRowsFollowKeys(db, keys);
    AscendingDistinct(keys);
    forall i | 0 <= i < |packs| ensures PackKeyOf(packs[i]) == ks[i].pack && ks[i] == EntryKey(ks[i].pack, "") {
      PackAt(db, ks[i].pack);
    }
    forall p | p in db.packs && PackMatches(p, req, scopes) ensures p in PackKeys(packs, |packs|) && db.packs[p] in packs {
      assert EntryKey(p, "") in ks;
      var i :| 0 <= i < |ks| && ks[i] == EntryKey(p, "");
      assert PackKeyOf(packs[i]) == p && packs[i] == db.packs[p];
    }
  }

  lemma PackAt(db: DB, p: PackKey)
    requires Valid(db) && p in db.packs
    ensures PackKeyOf(db.packs[p]) == p
  {
    assert PackShape(p, db.packs[p], db.nextId);
  }

  lemma EntryRowsFrom(db: DB, req: ExportRequest, scopes: Option<set<ScopeRef>>)
    requires Valid(db)
    ensures var es := Rows(db, ExportedEntryKeys(db, req, scopes));
            EntriesFrom(db, es) && (forall i | 0 <= i < |es| :: PackMatches(EntryKeyOf(es[i]).pack, req, scopes)) &&
            forall k | k in ExportedEntryKeys(db, req, scopes) :: db.entries[k].record in es
  {
    hide InOrder, Rows, PackMatches, Valid;
    var keys := ExportedEntryKeys(db, req, scopes);
    var es, ks := Rows(db, keys), InOrder(keys);
    RowsFollowKeys(db, keys);
    AscendingDistinct(keys);
    forall i | 0 <= i < |es| ensures EntryKeyOf(es[i]) == ks[i] { EntryHasPack(db, ks[i]); }
    forall k | k in keys ensures db.entries[k].record in es {
      var i :| 0 <= i < |ks| && ks[i] == k;
      assert es[i] == db.entries[k].record;
    }
  }

  lemma {:induction false} ReviewsMatchingFrom(db: DB, reviews: seq<ReviewItem>, req: ExportRequest, scopes: Option<set<ScopeRef>>)
    requires ReviewsFrom(db, reviews)
    ensures ReviewsFrom(db, ReviewsMatching(reviews, req, scopes))
    ensures forall r :: r in ReviewsMatching(reviews, req, scopes) <==> r in reviews && ReviewMatches(r, req, scopes)
  {
    hide ReviewMatches, ReviewsFrom;
    NoReviewsFrom(db);
    if reviews != [] {
      var n := |reviews| - 1;
      var front := ReviewsMatching(reviews[..n], req, scopes);
      assert reviews == reviews[..n] + [reviews[n]];
      LastReview(db, reviews);
      ReviewsMatchingFrom(db, reviews[..n], req, scopes);
      LastReviewMatching(reviews, req, scopes);
      OneMoreReview(db, front, reviews[n]);
    }
  }

  lemma LastReview(db: DB, reviews: seq<ReviewItem>)
    requires ReviewsFrom(db, reviews) && reviews != []
    ensures var n := |reviews| - 1;
            ReviewsFrom(db, reviews[..n]) && reviews[n] in db.reviews && forall r | r in reviews[..n] :: r.id != reviews[n].id
  {
  }

  lemma LastReviewMatching(reviews: seq<ReviewItem>, req: ExportRequest, scopes: Option<set<ScopeRef>>)
    requires reviews != []
    ensures var n := |reviews| - 1;
            var front := ReviewsMatching(reviews[..n], req, scopes);
            ReviewsMatching(reviews, req, scopes) == if ReviewMatches(reviews[n], req, scopes) then front + [reviews[n]] else front
  {
    hide ReviewMatches;
  }

  lemma OneMoreReview(db: DB, front: seq<ReviewItem>, last: ReviewItem)
    requires ReviewsFrom(db, front) && last in db.reviews && forall r | r in front :: r.id != last.id
    ensures ReviewsFrom(db, front + [last])
  {
    forall i | 0 <= i < |front| ensures front[i].id != last.id { assert front[i] in front; }
  }

  lemma {:induction false} RunsMatchingFrom(db: DB, runs: seq<RunRecord>, req: ExportRequest)
    requires RunsFrom(db, runs) && RunsMatching(runs, req).Ok?
    ensures RunsFrom(db, RunsMatching(runs, req).value)
    ensures forall r | r in RunsMatching(runs, req).value :: r in runs
    ensures forall r | r in runs && RunMatches(r, req) == Ok(true) :: r in RunsMatching(runs, req).value
  {
    hide RunMatches;
    if runs != [] {
      var n := |runs| - 1;
      assert RunsFrom(db, runs[..n]);
      RunsMatchingFrom(db, runs[..n], req);
      var front := RunsMatching(runs[..n], req).value;
      assert runs == runs[..n] + [runs[n]];
      forall i | 0 <= i < |front| ensures front[i].id != runs[n].id {
        assert front[i] in runs[..n];
        var j :| 0 <= j < n && runs[j] == front[i];
      }
    }
  }

  lemma ReviewsFromThemselves(db: DB)
    requires Valid(db)
    ensures ReviewsFrom(db, db.reviews)
  {
  }

  /** Whatever is asked for, an export lists rows of the store, none twice, and with every entry its pack. */
  lemma ExportIsExport(db: DB, runs: seq<RunRecord>, req: ExportRequest)
    requires Valid(db) && RunsFrom(db, runs) && ExportBundle(db, runs, req).Ok?
    ensures Exports(db, ExportBundle(db, runs, req).value)
  {
    hide Valid, PacksFrom, EntriesFrom, ReviewsFrom, RunsFrom, PackRowsOf, Rows, ReviewsMatching, RunsMatching, PackMatches,
         ExportedPackKeys, ExportedEntryKeys, ReviewMatches, RunMatches, PackKeys;
    var scopes := ExportScopes(req).value;
    var b := ExportBundle(db, runs, req).value;
    PackRowsFrom(db, req, scopes);
    EntryRowsFrom(db, req, scopes);
    ReviewsFromThemselves(db);
    NoReviewsFrom(db);
    NoRunsFrom(db);
    ReviewsMatchingFrom(db, db.reviews, req, scopes);
    if req.includeRuns { RunsMatchingFrom(db, runs, req); }
    forall i | 0 <= i < |b.entries| ensures EntryKeyOf(b.entries[i]).pack in PackKeys(b.packs, |b.packs|) {
      ExportedEntryPack(db, b.entries, i);
    }
  }

  lemma ExportedEntryPack(db: DB, es: seq<EntryRecord>, i: nat)
    requires Valid(db) && EntriesFrom(db, es) && i < |es|
    ensures EntryKeyOf(es[i]).pack in db.packs
  {
    EntryHasPack(db, EntryKeyOf(es[i]));
  }

  lemma NoReviewsFrom(db: DB)
    ensures ReviewsFrom(db, [])
  {
  }

  lemma NoRunsFrom(db: DB)
    ensures RunsFrom(db, [])
  {
  }

  /** Asked for everything, it leaves nothing out. */
  lemma ExportOfEverything(db: DB, runs: seq<RunRecord>)
    requires Valid(db) && ListsRuns(db, runs)
    ensures ExportBundle(db, runs, EVERYTHING).Ok? && ExportsAll(db, ExportBundle(db, runs, EVERYTHING).value)
  {
    hide Valid, PacksFrom, EntriesFrom, ReviewsFrom, RunsFrom, PackRowsOf, Rows, ReviewsMatching, PackKeys, Exports;
    RunsAllMatch(runs);
    ExportIsExport(db, runs, EVERYTHING);
    PackRowsFrom(db, EVERYTHING, None);
    EntryRowsFrom(db, EVERYTHING, None);
    ReviewsFromThemselves(db);
    ReviewsMatchingFrom(db, db.reviews, EVERYTHING, None);
    var b := ExportBundle(db, runs, EVERYTHING).value;
    forall k | k in db.entries ensures db.entries[k].record in b.entries {
      EntryHasPack(db, k);
      assert k in ExportedEntryKeys(db, EVERYTHING, None);
    }
  }

  lemma {:induction false} RunsAllMatch(runs: seq<RunRecord>)
    ensures RunsMatching(runs, EVERYTHING) == Ok(runs)
  {
    if runs != [] {
      RunsAllMatch(runs[..|runs| - 1]);
      assert runs == runs[..|runs| - 1] + [runs[|runs| - 1]];
    }
  }

  /** The round trip of the whole store: exported with everything, imported into an empty one, it is the same store again. */
  lemma EverythingComesBack(db: DB, runs: seq<RunRecord>, scan: Scanner, actor: string)
    requires Valid(db) && ListsRuns(db, runs) && !Text.Blank(actor)
    ensures ExportBundle(db, runs, EVERYTHING).Ok?
    ensures var t := ImportBundle(EmptyDB(scan), ExportBundle(db, runs, EVERYTHING).value, actor);
            OnlySecretsFail(t, scan) && (t.Done? ==> Valid(t.db) && SameStore(db, t.db))
  {
    hide Valid, ImportBundle, ExportsAll, ExportBundle, SameStore, OnlySecretsFail;
    ExportOfEverything(db, runs);
    WholeStoreRoundTrip(db, ExportBundle(db, runs, EVERYTHING).value, scan, actor);
  }
}
