/** What a request to compose, search or export is answered with, said in terms of the request and the tables alone. */
module Asked {
  import opened Prelude
  import opened Model
  import opened Database
  import opened Bundles
  import opened Invariant
  import opened Runs
  import opened Stamps
  import opened Compose
  import opened Search
  import opened RoundTrip
  import opened Exporting
  import Text

  // ---------- which scopes are asked for ----------

  predicate IdsGiven(project: Option<string>, task: Option<string>) {
    (project.Some? ==> !Text.Blank(project.value)) && (task.Some? ==> !Text.Blank(task.value))
  }

  // The global scope always, and the project and task scopes whose trimmed ids are given.
  predicate AsksFor(project: Option<string>, task: Option<string>, s: ScopeRef) {
    match s.kind
    case Global => s.id == "global"
    case Project => project.Some? && s.id == Text.Trim(project.value)
    case Task => task.Some? && s.id == Text.Trim(task.value)
  }

  lemma ScopesAre(req: ComposeRequest)
    ensures ScopesOf(req).Ok? <==> IdsGiven(req.projectScopeId, req.taskScopeId)
    ensures ScopesOf(req).Ok? ==> forall s :: s in ScopesOf(req).value <==> AsksFor(req.projectScopeId, req.taskScopeId, s)
  {
    hide Text.Blank, Text.Trim;
  }

  // ---------- composing ----------

  predicate Shows(db: DB, req: ComposeRequest, k: EntryKey) {
    k in db.entries && k.pack in db.packs && AsksFor(req.projectScopeId, req.taskScopeId, k.pack.scope) &&
    db.entries[k].record.status.Active? && (db.packs[k.pack].status.Open? || req.includeArchived)
  }

  predicate LeavesOut(db: DB, req: ComposeRequest, k: EntryKey) {
    k in db.entries && k.pack in db.packs && AsksFor(req.projectScopeId, req.taskScopeId, k.pack.scope) &&
    (db.entries[k].record.status.Deleted? || (db.packs[k.pack].status.Archived? && !req.includeArchived))
  }

  // Global rows come first, then project rows, then task rows; within a kind they go by scope id, pack name and key.
  predicate ComesBefore(a: EntryRecord, b: EntryRecord) {
    if a.scope.kind != b.scope.kind then a.scope.kind.Global? || b.scope.kind.Task?
    else if a.scope.id != b.scope.id then Text.Less(a.scope.id, b.scope.id)
    else if a.packName != b.packName then Text.Less(a.packName, b.packName)
    else Text.Less(a.key, b.key)
  }

  lemma KeyOrder(a: EntryKey, b: EntryKey, ra: EntryRecord, rb: EntryRecord)
    requires KeyLess(a, b) && EntryKeyOf(ra) == a && EntryKeyOf(rb) == b
    ensures ComesBefore(ra, rb)
  {
    Text.LessIrreflexive(a.pack.scope.id);
    Text.LessIrreflexive(a.pack.name);
  }

  // The rows of the entries for which `wanted` holds, each once and in order.
  ghost predicate ListsRows(db: DB, rows: seq<EntryRecord>, wanted: set<EntryKey>) {
    (forall i | 0 <= i < |rows| :: EntryKeyOf(rows[i]) in wanted && EntryKeyOf(rows[i]) in db.entries &&
                                   rows[i] == db.entries[EntryKeyOf(rows[i])].record) &&
    (forall k | k in wanted :: k in db.entries && db.entries[k].record in rows) &&
    (forall i, j | 0 <= i < j < |rows| :: ComesBefore(rows[i], rows[j])) && |rows| == |wanted|
  }

  lemma RowKey(db: DB, k: EntryKey)
    requires Valid(db) && k in db.entries
    ensures EntryKeyOf(db.entries[k].record) == k
  {
    hide Valid;
    EntryHasPack(db, k);
  }

  lemma ListedRows(db: DB, rows: seq<EntryRecord>, keys: set<EntryKey>)
    requires Valid(db) && Lists(db, rows, keys)
    ensures ListsRows(db, rows, keys)
  {
    hide Valid, InOrder, KeyLess, ComesBefore, EntryKeyOf;
    var ks := InOrder(keys);
    forall i | 0 <= i < |rows| ensures EntryKeyOf(rows[i]) == ks[i] { RowKey(db, ks[i]); }
    forall k | k in keys ensures db.entries[k].record in rows {
      assert k in ks;
      var i :| 0 <= i < |ks| && ks[i] == k;
      assert rows[i] == db.entries[k].record;
    }
    forall i, j | 0 <= i < j < |rows| ensures ComesBefore(rows[i], rows[j]) { KeyOrder(ks[i], ks[j], rows[i], rows[j]); }
  }

  lemma IncludedIs(db: DB, req: ComposeRequest, scopes: set<ScopeRef>)
    requires forall s :: s in scopes <==> AsksFor(req.projectScopeId, req.taskScopeId, s)
    ensures Included(db, scopes, req.includeArchived) == set k | k in db.entries && Shows(db, req, k)
    ensures Excluded(db, scopes, req.includeArchived) == set k | k in db.entries && LeavesOut(db, req, k)
  {
    hide AsksFor;
  }

  // One exclusion for each entry left out, with its id, its revision and the reason: deleted, or else in an archived pack.
  ghost predicate ExplainsAll(db: DB, xs: seq<Exclusion>, out: set<EntryKey>) {
    (forall i | 0 <= i < |xs| :: xs[i].key in out && xs[i].key in db.entries &&
       var r := db.entries[xs[i].key].record;
       xs[i] == Exclusion(r.id, xs[i].key, r.revisionNo, if r.status.Deleted? then DeletedEntry else ArchivedPack)) &&
    (forall k | k in out :: exists i | 0 <= i < |xs| :: xs[i].key == k) && |xs| == |out| &&
    forall i, j | 0 <= i < j < |xs| :: xs[i].key != xs[j].key
  }

  lemma ExclusionsExplain(db: DB, xs: seq<Exclusion>, out: set<EntryKey>)
    requires ListsExclusions(db, xs, out)
    ensures ExplainsAll(db, xs, out)
  {
    forall i, j | 0 <= i < j < |xs| ensures xs[i].key != xs[j].key { KeyLessTotal(xs[i].key, xs[j].key); }
  }

  // A section holds rows of its own pack and no others, and every pack has but one.
  ghost predicate SectionsByPack(sections: seq<Section>) {
    (forall i | 0 <= i < |sections| :: sections[i].entries != [] && OfOnePack(sections[i])) &&
    forall i, j | 0 <= i < j < |sections| :: sections[i].scope != sections[j].scope || sections[i].packName != sections[j].packName
  }

  ghost predicate OfOnePack(s: Section) {
    forall i | 0 <= i < |s.entries| :: s.entries[i].scope == s.scope && s.entries[i].packName == s.packName
  }

  lemma {:induction false} OfPackIsOfPack(rows: seq<EntryRecord>, scope: ScopeRef, packName: string)
    ensures forall i | 0 <= i < |OfPack(rows, scope, packName)| ::
              OfPack(rows, scope, packName)[i].scope == scope && OfPack(rows, scope, packName)[i].packName == packName
  {
    if rows != [] { OfPackIsOfPack(rows[..|rows| - 1], scope, packName); }
  }

  lemma GroupedSections(rows: seq<EntryRecord>)
    ensures SectionsByPack(Grouped(rows))
  {
    hide Grouped, OfPack;
    GroupedByPack(rows);
    var sections := Grouped(rows);
    forall i | 0 <= i < |sections| ensures OfOnePack(sections[i]) { OfPackIsOfPack(rows, sections[i].scope, sections[i].packName); }
  }

  /**
   Composing succeeds exactly if no id given is blank. Its sections then hold, pack by pack and in order, the
   rows that are active, in a scope asked for, and in an open pack unless archived ones are wanted; its
   exclusions name the others of these scopes, with the reason; and it counts both.
   */
  lemma ComposeTells(db: DB, req: ComposeRequest)
    requires Valid(db)
    ensures ComposeContext(db, req).Ok? <==> IdsGiven(req.projectScopeId, req.taskScopeId)
    ensures ComposeContext(db, req).Ok? ==>
              var c := ComposeContext(db, req).value;
              var inside, out := set k | k in db.entries && Shows(db, req, k), set k | k in db.entries && LeavesOut(db, req, k);
              SectionsByPack(c.sections) && ListsRows(db, Flatten(c.sections), inside) && ExplainsAll(db, c.exclusions, out) &&
              c.metrics == Metrics(|inside|, |out|) &&
              inside !! out && forall k | k in db.entries :: k in inside || k in out <==> AsksFor(req.projectScopeId, req.taskScopeId, k.pack.scope)
  {
    hide Valid, Shows, LeavesOut, AsksFor, Flatten, Grouped, Rows, Exclusions, Lists, ListsExclusions, CountEntries, Included, Excluded,
         ListsRows, ExplainsAll, SectionsByPack, ScopesOf;
    ScopesAre(req);
    if ScopesOf(req).Ok? {
      IncludedIs(db, req, ScopesOf(req).value);
      ComposeAccounts(db, req);
      ComposeFlattens(db, req);
      var c := ComposeContext(db, req).value;
      ListedRows(db, Flatten(c.sections), Included(db, ScopesOf(req).value, req.includeArchived));
      ExclusionsExplain(db, c.exclusions, Excluded(db, ScopesOf(req).value, req.includeArchived));
      GroupedSections(Rows(db, Included(db, ScopesOf(req).value, req.includeArchived)));
    }
  }

  // ---------- searching ----------

  // What the index holds of an entry: its key, title, value and tags.
  function IndexedAs(k: EntryKey, r: EntryRecord): Doc {
    Doc(r.id, k, if r.title.Some? then r.title.value else "", r.value, r.tags)
  }

  /** In every reachable state the index holds one document of an active entry, as the entry is now, and none of a deleted one. */
  lemma IndexTells(scan: Scanner, ops: seq<Op>, k: EntryKey)
    requires k in Run(EmptyDB(scan), ops).entries
    ensures var db := Run(EmptyDB(scan), ops); var r := db.entries[k].record;
            if r.status.Active? then exists i | 0 <= i < |db.fts| :: db.fts[i] == IndexedAs(k, r) &&
                                                                      forall j | 0 <= j < |db.fts| && db.fts[j].entryId == r.id :: j == i
            else forall j | 0 <= j < |db.fts| :: db.fts[j].entryId != r.id
  {
    hide Run, Valid;
    ReachableIsValid(scan, ops);
    DerivedDataNeverDrifts(scan, ops, k);
    EntryHasPack(Run(EmptyDB(scan), ops), k);
  }

  // An entry that a search of these scopes can find, and whose document the query matches.
  predicate Finds(db: DB, req: SearchRequest, matches: Matcher, k: EntryKey) {
    k in db.entries && k.pack in db.packs && AsksFor(req.projectScopeId, req.taskScopeId, k.pack.scope) &&
    db.entries[k].record.status.Active? && db.packs[k.pack].status.Open? && matches(req.query, IndexedAs(k, db.entries[k].record))
  }

  lemma ScanFinds(db: DB, req: SearchRequest, matches: Matcher)
    requires Valid(db) && SearchScopes(req).Ok?
    ensures Scan(db, SearchScopes(req).value, req.query, matches) == set k | k in db.entries && Finds(db, req, matches, k)
  {
    hide Valid, AsksFor, ScopesOf;
    ScopesAre(ComposeRequest(req.projectScopeId, req.taskScopeId, false));
    forall k | k in db.entries ensures DocOf(db.entries[k].record) == IndexedAs(k, db.entries[k].record) { EntryHasPack(db, k); }
  }

  /**
   Searching succeeds exactly if the query is not blank and no id given is. Its answer names entries that are
   active, in open packs of the scopes asked for, and matched as they are now, none twice: all of them, unless
   there are more than the limit, and then as many as the limit.
   */
  lemma SearchTells(db: DB, req: SearchRequest, matches: Matcher, answer: seq<EntryKey>)
    requires Valid(db)
    ensures SearchScopes(req).Ok? <==> !Text.Blank(req.query) && IdsGiven(req.projectScopeId, req.taskScopeId)
    ensures SearchScopes(req).Ok? && Answer(db, req, matches, answer) ==>
              var found := set k | k in db.entries && Finds(db, req, matches, k);
              (forall i | 0 <= i < |answer| :: answer[i] in found) && NoRepeats(answer) &&
              |answer| == (if |found| <= req.limit then |found| else req.limit) &&
              (|found| <= req.limit ==> forall k | k in found :: k in answer)
  {
    hide Valid, Finds, Scan, Included, ScopesOf, Text.Blank, Hits, NoRepeats;
    ScopesAre(ComposeRequest(req.projectScopeId, req.taskScopeId, false));
    if SearchScopes(req).Ok? && Answer(db, req, matches, answer) {
      var scopes := SearchScopes(req).value;
      var hits := Hits(db, db.fts, scopes, req.query, matches);
      ScanFinds(db, req, matches);
      SearchEqualsScan(db, scopes, req.query, matches);
      var ranked: seq<EntryKey> :| multiset(ranked) == multiset(hits) && answer == (if req.limit < |ranked| then ranked[..req.limit] else ranked);
      Ranked(hits, ranked, Scan(db, scopes, req.query, matches));
      CutOff(ranked, answer, req.limit);
    }
  }

  lemma CutOff(ranked: seq<EntryKey>, answer: seq<EntryKey>, limit: nat)
    requires NoRepeats(ranked) && answer == (if limit < |ranked| then ranked[..limit] else ranked)
    ensures NoRepeats(answer) && forall i | 0 <= i < |answer| :: answer[i] in ranked
  {
  }

  // A ranking of hits without repetition lists the same set without repetition.
  lemma Ranked(hits: seq<EntryKey>, ranked: seq<EntryKey>, found: set<EntryKey>)
    requires multiset(ranked) == multiset(hits) && NoRepeats(hits) && forall k :: k in hits <==> k in found
    ensures NoRepeats(ranked) && |ranked| == |found| && forall k :: k in ranked <==> k in found
  {
    forall k ensures k in ranked <==> k in found {
      assert k in ranked <==> k in multiset(ranked);
      assert k in hits <==> k in multiset(hits);
    }
    OnceEach(hits, found);
    SameCount(hits, ranked);
    forall i, j | 0 <= i < j < |ranked| ensures ranked[i] != ranked[j] {
      if ranked[i] == ranked[j] {
        Twice(ranked, i, j);
        Once(hits, ranked[i]);
      }
    }
  }

  lemma SameCount(a: seq<EntryKey>, b: seq<EntryKey>)
    requires multiset(a) == multiset(b)
    ensures |a| == |b|
  {
    assert |multiset(a)| == |a| && |multiset(b)| == |b|;
  }

  lemma {:induction false} OnceEach(ks: seq<EntryKey>, found: set<EntryKey>)
    requires NoRepeats(ks) && forall k :: k in ks <==> k in found
    ensures |ks| == |found|
  {
    if ks == [] {
      assert found == {};
    } else {
      var n := |ks| - 1;
      assert forall k :: k in ks[..n] <==> k in found - {ks[n]} by {
        forall k ensures k in ks[..n] <==> k in found - {ks[n]} { assert k in ks <==> k in ks[..n] || k == ks[n]; }
      }
      OnceEach(ks[..n], found - {ks[n]});
    }
  }

  lemma Twice(ks: seq<EntryKey>, i: nat, j: nat)
    requires i < j < |ks| && ks[i] == ks[j]
    ensures multiset(ks)[ks[i]] >= 2
  {
    assert ks == ks[..i] + [ks[i]] + ks[i + 1..j] + [ks[j]] + ks[j + 1..];
  }

  lemma {:induction false} Once(ks: seq<EntryKey>, k: EntryKey)
    requires NoRepeats(ks)
    ensures multiset(ks)[k] <= 1
  {
    if ks != [] {
      var n := |ks| - 1;
      assert ks == ks[..n] + [ks[n]];
      Once(ks[..n], k);
      if ks[n] == k { assert k !in ks[..n]; }
    }
  }

  // ---------- exporting ----------

  predicate ScopesGiven(req: ExportRequest) {
    if req.scope.Some? then req.scope.value.kind.Global? || !Text.Blank(req.scope.value.id)
    else IdsGiven(req.projectScopeId, req.taskScopeId)
  }

  // One scope if it is given, else those asked for by ids, else every scope.
  predicate WantsScope(req: ExportRequest, s: ScopeRef) {
    if req.scope.Some? then
      s.kind == req.scope.value.kind && s.id == if s.kind.Global? then "global" else Text.Trim(req.scope.value.id)
    else (req.projectScopeId.None? && req.taskScopeId.None?) || AsksFor(req.projectScopeId, req.taskScopeId, s)
  }

  predicate Wants(req: ExportRequest, p: PackKey) {
    WantsScope(req, p.scope) && (req.packName.Some? ==> p.name == req.packName.value)
  }

  // Runs belong to no pack and to no global scope; they are wanted by project or by task.
  predicate WantsRun(req: ExportRequest, r: RunRecord) {
    req.packName.None? &&
    if req.scope.Some? then
      match req.scope.value.kind
      case Global => false
      case Project => r.projectScopeId == Some(Text.Trim(req.scope.value.id))
      case Task => r.taskScopeId == Some(Text.Trim(req.scope.value.id))
    else (req.projectScopeId.None? && req.taskScopeId.None?) ||
         (req.projectScopeId.Some? && r.projectScopeId == Some(Text.Trim(req.projectScopeId.value))) ||
         (req.taskScopeId.Some? && r.taskScopeId == Some(Text.Trim(req.taskScopeId.value)))
  }

  lemma ExportScopesAre(req: ExportRequest)
    ensures ExportScopes(req).Ok? <==> ScopesGiven(req)
    ensures ExportScopes(req).Ok? ==> forall p: PackKey :: PackMatches(p, req, ExportScopes(req).value) <==> Wants(req, p)
    ensures ExportScopes(req).Ok? ==>
              forall r: ReviewItem :: ReviewMatches(r, req, ExportScopes(req).value) <==> Wants(req, PackKey(r.scope, r.packName))
  {
    hide Text.Blank, Text.Trim, ScopesOf, AsksFor;
    ScopesAre(ComposeRequest(req.projectScopeId, req.taskScopeId, true));
  }

  lemma RunMatchesIs(run: RunRecord, req: ExportRequest)
    requires ScopesGiven(req)
    ensures RunMatches(run, req) == Ok(WantsRun(req, run))
  {
    hide Text.Blank, Text.Trim;
  }

  lemma {:induction false} RunsListed(runs: seq<RunRecord>, req: ExportRequest)
    requires ScopesGiven(req)
    ensures RunsMatching(runs, req).Ok? && forall r :: r in RunsMatching(runs, req).value <==> r in runs && WantsRun(req, r)
  {
    hide RunMatches, WantsRun, ScopesGiven;
    if runs != [] {
      var n := |runs| - 1;
      RunsListed(runs[..n], req);
      RunMatchesIs(runs[n], req);
      assert runs == runs[..n] + [runs[n]];
    }
  }

  lemma EntriesListed(db: DB, req: ExportRequest)
    requires Valid(db) && ExportScopes(req).Ok?
    ensures var keys := ExportedEntryKeys(db, req, ExportScopes(req).value);
            keys == (set k | k in db.entries && Wants(req, k.pack) && (req.includeDeleted || db.entries[k].record.status.Active?)) &&
            ListsRows(db, Rows(db, keys), keys)
  {
    hide Valid, Wants, ExportScopes, PackMatches, Rows, Lists, ListsRows;
    ExportScopesAre(req);
    forall k | k in db.entries ensures k.pack in db.packs { EntryHasPack(db, k); }
    var keys := ExportedEntryKeys(db, req, ExportScopes(req).value);
    RowsList(db, keys);
    ListedRows(db, Rows(db, keys), keys);
  }

  lemma PacksListed(db: DB, req: ExportRequest)
    requires Valid(db) && ExportScopes(req).Ok?
    ensures forall k | k in ExportedPackKeys(db, req, ExportScopes(req).value) :: k.pack in db.packs
    ensures var packs := PackRowsOf(db, ExportedPackKeys(db, req, ExportScopes(req).value));
            PacksFrom(db, packs) && (forall i | 0 <= i < |packs| :: Wants(req, PackKeyOf(packs[i]))) &&
            forall p | p in db.packs && Wants(req, p) :: db.packs[p] in packs
  {
    hide Valid, Wants, ExportScopes, PackMatches, PackRowsOf, InOrder, PackKeys;
    ExportScopesAre(req);
    var scopes := ExportScopes(req).value;
    PackRowsFrom(db, req, scopes);
    PackRowsFollowKeys(db, ExportedPackKeys(db, req, scopes));
    forall p | p in db.packs ensures PackKeyOf(db.packs[p]) == p { PackAt(db, p); }
  }

  /**
   An export succeeds exactly if no scope or id given is blank. It then lists, each once and in order, the
   entries of the packs asked for, deleted ones only where they are wanted; these packs; and, where they are
   wanted, the reviews in these packs and the runs of that project or that task.
   */
  lemma ExportTells(db: DB, runs: seq<RunRecord>, req: ExportRequest)
    requires Valid(db) && RunsFrom(db, runs)
    ensures ExportBundle(db, runs, req).Ok? <==> ScopesGiven(req)
    ensures ExportBundle(db, runs, req).Ok? ==>
              var b := ExportBundle(db, runs, req).value;
              ListsRows(db, b.entries, set k | k in db.entries && Wants(req, k.pack) && (req.includeDeleted || db.entries[k].record.status.Active?)) &&
              PacksFrom(db, b.packs) && (forall i | 0 <= i < |b.packs| :: Wants(req, PackKeyOf(b.packs[i]))) &&
              (forall p | p in db.packs && Wants(req, p) :: db.packs[p] in b.packs) &&
              (forall r :: r in b.reviews <==> req.includeReviews && r in db.reviews && Wants(req, PackKey(r.scope, r.packName))) &&
              (forall r :: r in b.runs <==> req.includeRuns && r in runs && WantsRun(req, r))
  {
    hide Valid, Wants, WantsRun, ExportScopes, PackRowsOf, Rows, ListsRows, PacksFrom, ReviewsMatching, ReviewsFrom, RunsMatching,
         ExportedEntryKeys, ExportedPackKeys, ScopesGiven, ReviewMatches;
    ExportScopesAre(req);
    if ScopesGiven(req) {
      EntriesListed(db, req);
      PacksListed(db, req);
      ReviewsFromThemselves(db);
      ReviewsMatchingFrom(db, db.reviews, req, ExportScopes(req).value);
      RunsListed(runs, req);
    }
  }
}
