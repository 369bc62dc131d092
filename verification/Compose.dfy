/** Composing the context of a scope, its exclusions, and search (`compose_context`, `list_compose_exclusions`, `search_context`). */
module Compose {
  import opened Prelude
  import opened Model
  import opened Database
  import opened Invariant
  import Text

  datatype ComposeRequest = ComposeRequest(projectScopeId: Option<string>, taskScopeId: Option<string>, includeArchived: bool)

  // ---------- ORDER BY: Global, Project, Task, then scope id, pack and key ----------

  function Rank(kind: ScopeKind): nat {
    match kind case Global => 0 case Project => 1 case Task => 2
  }

  predicate PackLess(a: PackKey, b: PackKey) {
    Rank(a.scope.kind) < Rank(b.scope.kind) ||
    (a.scope.kind == b.scope.kind &&
      (Text.Less(a.scope.id, b.scope.id) || (a.scope.id == b.scope.id && Text.Less(a.name, b.name))))
  }

  predicate KeyLess(a: EntryKey, b: EntryKey) {
    PackLess(a.pack, b.pack) || (a.pack == b.pack && Text.Less(a.key, b.key))
  }

  lemma PackLessTotal(a: PackKey, b: PackKey)
    ensures PackLess(a, b) || a == b || PackLess(b, a)
    ensures !(PackLess(a, b) && PackLess(b, a)) && !PackLess(a, a)
  {
    Text.LessTrichotomy(a.scope.id, b.scope.id);
    Text.LessTrichotomy(a.name, b.name);
    Text.LessIrreflexive(a.scope.id);
  }

  lemma PackLessTransitive(a: PackKey, b: PackKey, c: PackKey)
    requires PackLess(a, b) && PackLess(b, c)
    ensures PackLess(a, c)
  {
    if Text.Less(a.scope.id, b.scope.id) && Text.Less(b.scope.id, c.scope.id) { Text.LessTransitive(a.scope.id, b.scope.id, c.scope.id); }
    if Text.Less(a.name, b.name) && Text.Less(b.name, c.name) { Text.LessTransitive(a.name, b.name, c.name); }
  }

  lemma KeyLessTotal(a: EntryKey, b: EntryKey)
    ensures KeyLess(a, b) || a == b || KeyLess(b, a)
    ensures !(KeyLess(a, b) && KeyLess(b, a)) && !KeyLess(a, a)
  {
    PackLessTotal(a.pack, b.pack);
    Text.LessTrichotomy(a.key, b.key);
  }

  lemma KeyLessTransitive(a: EntryKey, b: EntryKey, c: EntryKey)
    requires KeyLess(a, b) && KeyLess(b, c)
    ensures KeyLess(a, c)
  {
    if PackLess(a.pack, b.pack) && PackLess(b.pack, c.pack) { PackLessTransitive(a.pack, b.pack, c.pack); }
    if Text.Less(a.key, b.key) && Text.Less(b.key, c.key) { Text.LessTransitive(a.key, b.key, c.key); }
  }

  predicate IsLeast(m: EntryKey, keys: set<EntryKey>) {
    m in keys && forall k | k in keys :: k == m || KeyLess(m, k)
  }

  lemma {:induction false} LeastExists(keys: set<EntryKey>)
    requires keys != {}
    ensures exists m :: IsLeast(m, keys)
    decreases |keys|
  {
    var k :| k in keys;
    var rest := keys - {k};
    if rest == {} {
      assert forall j | j in keys :: j == k by { assert forall j | j in keys && j != k :: j in rest; }
      assert IsLeast(k, keys);
    } else {
      LeastExists(rest);
      var m :| IsLeast(m, rest);
      KeyLessTotal(k, m);
      if KeyLess(k, m) {
        forall j | j in keys ensures j == k || KeyLess(k, j) {
          if j != k && j != m { KeyLessTransitive(k, m, j); }
        }
        assert IsLeast(k, keys);
      } else {
        assert IsLeast(m, keys);
      }
    }
  }

  lemma OnlyOneLeast(keys: set<EntryKey>)
    ensures forall m, n | IsLeast(m, keys) && IsLeast(n, keys) :: m == n
  {
    forall m, n | IsLeast(m, keys) && IsLeast(n, keys) ensures m == n { KeyLessTotal(m, n); }
  }

  function Least(keys: set<EntryKey>): (m: EntryKey)
    requires keys != {}
    ensures IsLeast(m, keys)
  {
    LeastExists(keys);
    OnlyOneLeast(keys);
    var m :| m in keys && IsLeast(m, keys);
    m
  }

  /** The rows of a query, sorted by the unique key. */
  function InOrder(keys: set<EntryKey>): (r: seq<EntryKey>) {
    if keys == {} then [] else [Least(keys)] + InOrder(keys - {Least(keys)})
  }

  ghost predicate Ascending(ks: seq<EntryKey>) {
    forall i, j | 0 <= i < j < |ks| :: KeyLess(ks[i], ks[j])
  }

  /** InOrder lists exactly the given keys, strictly ascending. */
  lemma {:induction false} InOrderSorts(keys: set<EntryKey>)
    ensures forall k :: k in InOrder(keys) <==> k in keys
    ensures Ascending(InOrder(keys)) && |InOrder(keys)| == |keys|
    decreases |keys|
  {
    if keys != {} {
      var m, rest := Least(keys), InOrder(keys - {Least(keys)});
      InOrderSorts(keys - {m});
      forall i | 0 <= i < |rest| ensures KeyLess(m, rest[i]) {
        assert rest[i] in rest;
      }
    }
  }

  // ---------- which rows ----------

  // `compose_filters`: the scopes a request asks for.
  function ScopesOf(req: ComposeRequest): Result<set<ScopeRef>> {
    var project :- Optional(Project, req.projectScopeId);
    var task :- Optional(Task, req.taskScopeId);
    Ok({ScopeRef(Global, GLOBAL_SCOPE_ID)} + project + task)
  }

  function Optional(kind: ScopeKind, id: Option<string>): Result<set<ScopeRef>> {
    if id.None? then Ok({})
    else
      var scope :- Normalize(ScopeRef(kind, id.value));
      Ok({scope})
  }

  function InScope(db: DB, scopes: set<ScopeRef>): set<EntryKey> {
    set k | k in db.entries && k.pack in db.packs && k.pack.scope in scopes
  }

  predicate Visible(db: DB, k: EntryKey, includeArchived: bool)
    requires k in db.entries && k.pack in db.packs
  {
    db.entries[k].record.status.Active? && (includeArchived || db.packs[k.pack].status.Open?)
  }

  function Included(db: DB, scopes: set<ScopeRef>, includeArchived: bool): set<EntryKey> {
    set k | k in InScope(db, scopes) && Visible(db, k, includeArchived)
  }

  datatype ExclusionReason = DeletedEntry | ArchivedPack

  // The condition of the exclusion query, stated as the source states it.
  function Excluded(db: DB, scopes: set<ScopeRef>, includeArchived: bool): set<EntryKey> {
    set k | k in InScope(db, scopes) &&
            (db.entries[k].record.status.Deleted? || (!includeArchived && db.packs[k.pack].status.Archived?))
  }

  function WhyExcluded(db: DB, k: EntryKey): ExclusionReason
    requires k in db.entries
  {
    if db.entries[k].record.status.Deleted? then DeletedEntry else ArchivedPack
  }

  lemma EntryHasPack(db: DB, k: EntryKey)
    requires Valid(db) && k in db.entries
    ensures k.pack in db.packs && db.entries[k].record.scope == k.pack.scope && db.entries[k].record.packName == k.pack.name
    ensures db.entries[k].record.key == k.key
  {
    assert EntryShape(k, db.entries[k], db.packs, db.nextId);
  }

  /** Compose partitions the scope: every entry of the requested scopes is either included or listed as excluded. */
  lemma ComposePartitions(db: DB, scopes: set<ScopeRef>, includeArchived: bool)
    requires Valid(db)
    ensures var inside, out := Included(db, scopes, includeArchived), Excluded(db, scopes, includeArchived);
            inside !! out && inside + out == (set k | k in db.entries && k.pack.scope in scopes)
    ensures forall k | k in Excluded(db, scopes, includeArchived) ::
              WhyExcluded(db, k).ArchivedPack? ==> !includeArchived && db.packs[k.pack].status.Archived? && db.entries[k].record.status.Active?
  {
    hide Valid;
    forall k | k in db.entries ensures k.pack in db.packs { EntryHasPack(db, k); }
  }

  function Rows(db: DB, keys: set<EntryKey>): (r: seq<EntryRecord>)
    requires keys <= db.entries.Keys
  {
    if keys == {} then [] else [db.entries[Least(keys)].record] + Rows(db, keys - {Least(keys)})
  }

  lemma {:induction false} RowsFollowKeys(db: DB, keys: set<EntryKey>)
    requires keys <= db.entries.Keys
    ensures |Rows(db, keys)| == |InOrder(keys)|
    ensures forall i | 0 <= i < |InOrder(keys)| :: InOrder(keys)[i] in keys && Rows(db, keys)[i] == db.entries[InOrder(keys)[i]].record
  {
    if keys != {} {
      RowsFollowKeys(db, keys - {Least(keys)});
    }
  }

  /** Rows of the same entries are the same, whatever else the tables hold. */
  lemma {:induction false} RowsAlike(a: DB, b: DB, keys: set<EntryKey>)
    requires keys <= a.entries.Keys && keys <= b.entries.Keys && forall k | k in keys :: a.entries[k].record == b.entries[k].record
    ensures Rows(a, keys) == Rows(b, keys)
  {
    if keys != {} { RowsAlike(a, b, keys - {Least(keys)}); }
  }

  // ---------- grouping rows into sections ----------

  datatype Section = Section(scope: ScopeRef, packName: string, entries: seq<EntryRecord>)

  predicate OfSection(s: Section, r: EntryRecord) {
    s.scope == r.scope && s.packName == r.packName
  }

  // Find the section of the row and push to it, or append a new section.
  function AddRow(sections: seq<Section>, r: EntryRecord): seq<Section> {
    if sections == [] then [Section(r.scope, r.packName, [r])]
    else if OfSection(sections[0], r) then [sections[0].(entries := sections[0].entries + [r])] + sections[1..]
    else [sections[0]] + AddRow(sections[1..], r)
  }

  function Grouped(rows: seq<EntryRecord>): seq<Section> {
    if rows == [] then [] else AddRow(Grouped(rows[..|rows| - 1]), rows[|rows| - 1])
  }

  lemma {:induction false} AddRowAt(sections: seq<Section>, r: EntryRecord, at: nat)
    requires at <= |sections| && forall i | 0 <= i < at :: !OfSection(sections[i], r)
    ensures at == |sections| ==> AddRow(sections, r) == sections + [Section(r.scope, r.packName, [r])]
    ensures at < |sections| && OfSection(sections[at], r) ==>
              AddRow(sections, r) == sections[at := sections[at].(entries := sections[at].entries + [r])]
  {
    if at > 0 {
      AddRowAt(sections[1..], r, at - 1);
      assert sections == [sections[0]] + sections[1..];
      if at < |sections| {
        assert sections[at := sections[at].(entries := sections[at].entries + [r])]
            == [sections[0]] + sections[1..][at - 1 := sections[at].(entries := sections[at].entries + [r])];
      }
    }
  }

  /** The grouping loop of `compose_context`. */
  method Group(rows: seq<EntryRecord>) returns (sections: seq<Section>)
    ensures sections == Grouped(rows)
  {
    sections := [];
    for n := 0 to |rows|
      invariant sections == Grouped(rows[..n])
    {
      var row, at := rows[n], 0;
      while at < |sections| && !OfSection(sections[at], row)
        invariant at <= |sections| && forall i | 0 <= i < at :: !OfSection(sections[i], row)
      {
        at := at + 1;
      }
      AddRowAt(sections, row, at);
      if at < |sections| {
        sections := sections[at := sections[at].(entries := sections[at].entries + [row])];
      } else {
        sections := sections + [Section(row.scope, row.packName, [row])];
      }
      assert rows[..n + 1][..n] == rows[..n];
    }
    assert rows[..|rows|] == rows;
  }

  // The rows of one pack, in order.
  function OfPack(rows: seq<EntryRecord>, scope: ScopeRef, packName: string): seq<EntryRecord> {
    if rows == [] then [] else
      var r := rows[|rows| - 1];
      OfPack(rows[..|rows| - 1], scope, packName) + (if r.scope == scope && r.packName == packName then [r] else [])
  }

  predicate DistinctSections(sections: seq<Section>) {
    forall i, j | 0 <= i < j < |sections| :: sections[i].scope != sections[j].scope || sections[i].packName != sections[j].packName
  }

  ghost predicate SectionsOf(sections: seq<Section>, rows: seq<EntryRecord>) {
    DistinctSections(sections) &&
    (forall i | 0 <= i < |sections| :: sections[i].entries == OfPack(rows, sections[i].scope, sections[i].packName) != []) &&
    (forall r | r in rows :: exists i | 0 <= i < |sections| :: OfSection(sections[i], r))
  }

  /** Whatever the rows, each (scope, pack) gets one section, holding exactly its rows in order. */
  lemma {:induction false} GroupedByPack(rows: seq<EntryRecord>)
    ensures SectionsOf(Grouped(rows), rows)
  {
    if rows != [] {
      var n := |rows| - 1;
      GroupedByPack(rows[..n]);
      assert rows == rows[..n] + [rows[n]];
      RowAdded(Grouped(rows[..n]), rows[..n], rows[n]);
    }
  }

  lemma OfPackAppend(rows: seq<EntryRecord>, r: EntryRecord, scope: ScopeRef, packName: string)
    ensures OfPack(rows + [r], scope, packName) ==
            OfPack(rows, scope, packName) + (if r.scope == scope && r.packName == packName then [r] else [])
  {
    assert (rows + [r])[..|rows|] == rows;
  }

  lemma {:induction false} OfPackNone(rows: seq<EntryRecord>, scope: ScopeRef, packName: string)
    requires forall r | r in rows :: !(r.scope == scope && r.packName == packName)
    ensures OfPack(rows, scope, packName) == []
  {
    if rows != [] {
      assert forall r | r in rows[..|rows| - 1] :: r in rows;
      OfPackNone(rows[..|rows| - 1], scope, packName);
    }
  }

  lemma RowAdded(sections: seq<Section>, rows: seq<EntryRecord>, r: EntryRecord)
    requires SectionsOf(sections, rows)
    ensures SectionsOf(AddRow(sections, r), rows + [r])
  {
    var end := AddRow(sections, r);
    if at: nat :| at < |sections| && OfSection(sections[at], r) {
      forall i | 0 <= i < at ensures !OfSection(sections[i], r) { }
      AddRowAt(sections, r, at);
      forall i | 0 <= i < |end| ensures end[i].entries == OfPack(rows + [r], end[i].scope, end[i].packName) != [] {
        OfPackAppend(rows, r, end[i].scope, end[i].packName);
        assert end[i].scope == sections[i].scope && end[i].packName == sections[i].packName;
      }
      SameSections(sections, end, rows, r, at);
    } else {
      AddRowAt(sections, r, |sections|);
      assert end[|sections|] == Section(r.scope, r.packName, [r]);
      forall i | 0 <= i < |end| ensures end[i].entries == OfPack(rows + [r], end[i].scope, end[i].packName) != [] {
        OfPackAppend(rows, r, end[i].scope, end[i].packName);
        if i == |sections| {
          NoRowOf(sections, rows, r);
          OfPackNone(rows, r.scope, r.packName);
        }
      }
      SameSections(sections, end, rows, r, |sections|);
    }
  }

  lemma NoRowOf(sections: seq<Section>, rows: seq<EntryRecord>, r: EntryRecord)
    requires SectionsOf(sections, rows) && forall i | 0 <= i < |sections| :: !OfSection(sections[i], r)
    ensures forall q | q in rows :: !(q.scope == r.scope && q.packName == r.packName)
  {
    forall q | q in rows ensures !(q.scope == r.scope && q.packName == r.packName) {
      var i :| 0 <= i < |sections| && OfSection(sections[i], q);
    }
  }

  lemma SameSections(sections: seq<Section>, end: seq<Section>, rows: seq<EntryRecord>, r: EntryRecord, at: nat)
    requires SectionsOf(sections, rows) && |sections| <= |end| && at < |end| && OfSection(end[at], r)
    requires forall i | 0 <= i < |sections| :: end[i].scope == sections[i].scope && end[i].packName == sections[i].packName
    ensures forall q | q in rows + [r] :: exists i | 0 <= i < |end| :: OfSection(end[i], q)
  {
    forall q | q in rows + [r] ensures exists i | 0 <= i < |end| :: OfSection(end[i], q) {
      if q in rows {
        var i :| 0 <= i < |sections| && OfSection(sections[i], q);
        assert OfSection(end[i], q);
      } else {
        assert OfSection(end[at], q);
      }
    }
  }

  function Flatten(sections: seq<Section>): seq<EntryRecord> {
    if sections == [] then [] else Flatten(sections[..|sections| - 1]) + sections[|sections| - 1].entries
  }

  // Rows of one pack stand together.
  ghost predicate Clustered(rows: seq<EntryRecord>) {
    forall i, j, k | 0 <= i < j < k < |rows| && SamePackOf(rows[i], rows[k]) :: SamePackOf(rows[i], rows[j])
  }

  predicate SamePackOf(a: EntryRecord, b: EntryRecord) {
    a.scope == b.scope && a.packName == b.packName
  }

  lemma PushedToLast(sections: seq<Section>, r: EntryRecord)
    requires sections != [] && DistinctSections(sections) && OfSection(sections[|sections| - 1], r)
    ensures Flatten(AddRow(sections, r)) == Flatten(sections) + [r]
    ensures AddRow(sections, r) != [] && OfSection(AddRow(sections, r)[|AddRow(sections, r)| - 1], r)
  {
    var at := |sections| - 1;
    forall i | 0 <= i < at ensures !OfSection(sections[i], r) { }
    AddRowAt(sections, r, at);
    assert AddRow(sections, r)[..at] == sections[..at];
  }

  lemma PushedAsNew(sections: seq<Section>, r: EntryRecord)
    requires forall i | 0 <= i < |sections| :: !OfSection(sections[i], r)
    ensures Flatten(AddRow(sections, r)) == Flatten(sections) + [r]
    ensures AddRow(sections, r) != [] && OfSection(AddRow(sections, r)[|AddRow(sections, r)| - 1], r)
  {
    AddRowAt(sections, r, |sections|);
    assert AddRow(sections, r)[..|sections|] == sections;
  }

  // The sections built so far, with the next row still to come.
  lemma NextRow(front: seq<EntryRecord>, r: EntryRecord)
    requires Clustered(front + [r]) && (front == [] ==> Grouped(front) == [])
    requires front != [] ==> Grouped(front) != [] && OfSection(Grouped(front)[|Grouped(front)| - 1], front[|front| - 1])
    ensures var end := AddRow(Grouped(front), r);
            Flatten(end) == Flatten(Grouped(front)) + [r] && end != [] && OfSection(end[|end| - 1], r)
  {
    hide Clustered, AddRow, Flatten, SectionsOf, Grouped, DistinctSections;
    var sections := Grouped(front);
    GroupedByPack(front);
    if front != [] && SamePackOf(front[|front| - 1], r) {
      assert DistinctSections(sections) by { Distinct(sections, front); }
      PushedToLast(sections, r);
    } else {
      forall i | 0 <= i < |sections| ensures !OfSection(sections[i], r) {
        if OfSection(sections[i], r) { EarlierRow(sections, front, i, r); }
      }
      PushedAsNew(sections, r);
    }
  }

  lemma Distinct(sections: seq<Section>, rows: seq<EntryRecord>)
    requires SectionsOf(sections, rows)
    ensures DistinctSections(sections)
  {
  }

  /** On clustered rows, as ORDER BY delivers them, the sections flatten back to the rows. */
  lemma {:induction false} GroupedFlattens(rows: seq<EntryRecord>)
    requires Clustered(rows)
    ensures Flatten(Grouped(rows)) == rows
    ensures rows != [] ==> Grouped(rows) != [] && OfSection(Grouped(rows)[|Grouped(rows)| - 1], rows[|rows| - 1])
  {
    if rows != [] {
      var n := |rows| - 1;
      var front, r := rows[..n], rows[n];
      ClusteredFront(rows);
      GroupedFlattens(front);
      assert rows == front + [r];
      hide Clustered, AddRow, Flatten;
      NextRow(front, r);
    }
  }

  lemma ClusteredFront(rows: seq<EntryRecord>)
    requires Clustered(rows) && rows != []
    ensures Clustered(rows[..|rows| - 1])
  {
  }

  lemma {:induction false} MemberOfPack(rows: seq<EntryRecord>, scope: ScopeRef, packName: string)
    requires OfPack(rows, scope, packName) != []
    ensures exists j | 0 <= j < |rows| :: rows[j].scope == scope && rows[j].packName == packName
  {
    var n := |rows| - 1;
    if rows[n].scope != scope || rows[n].packName != packName {
      MemberOfPack(rows[..n], scope, packName);
      var j :| 0 <= j < n && rows[..n][j].scope == scope && rows[..n][j].packName == packName;
      assert rows[j].scope == scope;
    }
  }

  lemma EarlierRow(sections: seq<Section>, front: seq<EntryRecord>, i: nat, r: EntryRecord)
    requires SectionsOf(sections, front) && i < |sections| && OfSection(sections[i], r) && Clustered(front + [r])
    ensures front != [] && SamePackOf(front[|front| - 1], r)
  {
    MemberOfPack(front, r.scope, r.packName);
    var j :| 0 <= j < |front| && front[j].scope == r.scope && front[j].packName == r.packName;
    var rows := front + [r];
    assert SamePackOf(rows[j], rows[|front|]);
    if j < |front| - 1 { assert SamePackOf(rows[j], rows[|front| - 1]); }
  }

  // ---------- the response ----------

  datatype Exclusion = Exclusion(entryId: Id, key: EntryKey, revisionNo: nat, reason: ExclusionReason)

  datatype Metrics = Metrics(includedEntries: nat, excludedEntries: nat)

  datatype Composed = Composed(sections: seq<Section>, exclusions: seq<Exclusion>, metrics: Metrics)

  function ExclusionOf(db: DB, k: EntryKey): Exclusion
    requires k in db.entries
  {
    Exclusion(db.entries[k].record.id, k, db.entries[k].record.revisionNo, WhyExcluded(db, k))
  }

  function Exclusions(db: DB, keys: set<EntryKey>): seq<Exclusion>
    requires keys <= db.entries.Keys
  {
    if keys == {} then [] else [ExclusionOf(db, Least(keys))] + Exclusions(db, keys - {Least(keys)})
  }

  function CountEntries(sections: seq<Section>): nat {
    if sections == [] then 0 else CountEntries(sections[..|sections| - 1]) + |sections[|sections| - 1].entries|
  }

  function ComposeContext(db: DB, req: ComposeRequest): Result<Composed> {
    var scopes :- ScopesOf(req);
    var sections := Grouped(Rows(db, Included(db, scopes, req.includeArchived)));
    var exclusions := Exclusions(db, Excluded(db, scopes, req.includeArchived));
    Ok(Composed(sections, exclusions, Metrics(CountEntries(sections), |exclusions|)))
  }

  lemma {:induction false} ExclusionsFollowKeys(db: DB, keys: set<EntryKey>)
    requires keys <= db.entries.Keys
    ensures |Exclusions(db, keys)| == |InOrder(keys)|
    ensures forall i | 0 <= i < |InOrder(keys)| :: InOrder(keys)[i] in keys && Exclusions(db, keys)[i] == ExclusionOf(db, InOrder(keys)[i])
  {
    hide ExclusionOf;
    if keys != {} { ExclusionsFollowKeys(db, keys - {Least(keys)}); }
  }

  lemma {:induction false} CountIsFlattened(sections: seq<Section>)
    ensures CountEntries(sections) == |Flatten(sections)|
  {
    if sections != [] { CountIsFlattened(sections[..|sections| - 1]); }
  }

  // The exclusions of the keys, each once, in ascending order of the keys, with id, revision and reason.
  ghost predicate ListsExclusions(db: DB, xs: seq<Exclusion>, keys: set<EntryKey>) {
    keys <= db.entries.Keys && |xs| == |keys| && (forall i | 0 <= i < |xs| :: xs[i].key in keys && xs[i] == ExclusionOf(db, xs[i].key)) &&
    (forall i, j | 0 <= i < j < |xs| :: KeyLess(xs[i].key, xs[j].key)) && forall k | k in keys :: exists i | 0 <= i < |xs| :: xs[i].key == k
  }

  lemma ExclusionsList(db: DB, keys: set<EntryKey>)
    requires keys <= db.entries.Keys
    ensures ListsExclusions(db, Exclusions(db, keys), keys)
  {
    hide Exclusions, InOrder, KeyLess, WhyExcluded;
    ExclusionsFollowKeys(db, keys);
    InOrderSorts(keys);
    var xs, ks := Exclusions(db, keys), InOrder(keys);
    forall i | 0 <= i < |xs| ensures xs[i].key == ks[i] && xs[i] == ExclusionOf(db, ks[i]) { }
    forall i, j | 0 <= i < j < |xs| ensures KeyLess(xs[i].key, xs[j].key) { assert KeyLess(ks[i], ks[j]); }
    forall k | k in keys ensures exists i | 0 <= i < |xs| :: xs[i].key == k {
      assert k in ks;
      var i :| 0 <= i < |ks| && ks[i] == k;
      assert xs[i].key == k;
    }
  }

  /**
   What a composed context returns accounts for every entry of the scopes asked for exactly once: its exclusions
   list each excluded entry once, ascending, with its reason; and the entries it counts as included and as
   excluded are together as many as there are entries in the scopes.
   */
  lemma ComposeAccounts(db: DB, req: ComposeRequest)
    requires Valid(db) && ScopesOf(req).Ok?
    ensures var scopes := ScopesOf(req).value; var all := set k | k in db.entries && k.pack.scope in scopes;
            var inside, out := Included(db, scopes, req.includeArchived), Excluded(db, scopes, req.includeArchived);
            ComposeContext(db, req).Ok? && var c := ComposeContext(db, req).value;
            inside !! out && inside + out == all && ListsExclusions(db, c.exclusions, out) &&
            c.metrics == Metrics(|inside|, |out|) && |inside| + |out| == |all|
  {
    hide Valid, Flatten, Grouped, Rows, Exclusions, Lists, ListsExclusions, CountEntries, Included, Excluded;
    var scopes := ScopesOf(req).value;
    var inside, out := Included(db, scopes, req.includeArchived), Excluded(db, scopes, req.includeArchived);
    ComposePartitions(db, scopes, req.includeArchived);
    WithinEntries(db, scopes, req.includeArchived);
    ExclusionsList(db, out);
    HowManyExcluded(db, Exclusions(db, out), out);
    ComposeFlattens(db, req);
    CountIsFlattened(Grouped(Rows(db, inside)));
    HowManyListed(db, Flatten(Grouped(Rows(db, inside))), inside);
    assert |inside + out| == |inside| + |out|;
  }

  lemma WithinEntries(db: DB, scopes: set<ScopeRef>, includeArchived: bool)
    ensures Included(db, scopes, includeArchived) <= db.entries.Keys && Excluded(db, scopes, includeArchived) <= db.entries.Keys
  {
  }

  lemma HowManyExcluded(db: DB, xs: seq<Exclusion>, keys: set<EntryKey>)
    requires ListsExclusions(db, xs, keys)
    ensures |xs| == |keys|
  {
  }

  lemma HowManyListed(db: DB, rows: seq<EntryRecord>, keys: set<EntryKey>)
    requires Lists(db, rows, keys)
    ensures |rows| == |keys|
  {
  }

  lemma AscendingClusters(db: DB, keys: set<EntryKey>)
    requires Valid(db) && keys <= db.entries.Keys
    ensures Clustered(Rows(db, keys))
  {
    hide Valid, Rows, InOrder, KeyLess, PackLess;
    RowsFollowKeys(db, keys);
    InOrderSorts(keys);
    var rows, ks := Rows(db, keys), InOrder(keys);
    forall i, j, k | 0 <= i < j < k < |rows| && SamePackOf(rows[i], rows[k]) ensures SamePackOf(rows[i], rows[j]) {
      EntryHasPack(db, ks[i]);
      EntryHasPack(db, ks[j]);
      EntryHasPack(db, ks[k]);
      BetweenInPack(ks[i], ks[j], ks[k]);
    }
  }

  lemma BetweenInPack(a: EntryKey, b: EntryKey, c: EntryKey)
    requires KeyLess(a, b) && KeyLess(b, c) && a.pack == c.pack
    ensures b.pack == a.pack
  {
    PackLessTotal(a.pack, b.pack);
  }

  // The records of the keys, each once, in ascending order of the keys.
  ghost predicate Lists(db: DB, rows: seq<EntryRecord>, keys: set<EntryKey>) {
    keys <= db.entries.Keys && |rows| == |InOrder(keys)| == |keys| && Ascending(InOrder(keys)) &&
    (forall k :: k in InOrder(keys) <==> k in keys) &&
    forall i | 0 <= i < |rows| :: InOrder(keys)[i] in keys && rows[i] == db.entries[InOrder(keys)[i]].record
  }

  lemma RowsList(db: DB, keys: set<EntryKey>)
    requires keys <= db.entries.Keys
    ensures Lists(db, Rows(db, keys), keys)
  {
    hide Rows, InOrder, KeyLess, Ascending;
    RowsFollowKeys(db, keys);
    InOrderSorts(keys);
  }

  /**
   The composed context lists the included rows, each once, in ascending order of scope kind, scope id, pack and
   key, cut into one section per pack: the sections flatten back to the rows.
   */
  lemma ComposeFlattens(db: DB, req: ComposeRequest)
    requires Valid(db) && ScopesOf(req).Ok?
    ensures var keys := Included(db, ScopesOf(req).value, req.includeArchived);
            ComposeContext(db, req).Ok? && DistinctSections(ComposeContext(db, req).value.sections) &&
            Lists(db, Flatten(ComposeContext(db, req).value.sections), keys)
  {
    hide Valid, Flatten, Grouped, Rows, Clustered, Exclusions, Lists, SectionsOf, DistinctSections;
    var keys := Included(db, ScopesOf(req).value, req.includeArchived);
    AscendingClusters(db, keys);
    GroupedFlattens(Rows(db, keys));
    GroupedByPack(Rows(db, keys));
    Distinct(Grouped(Rows(db, keys)), Rows(db, keys));
    RowsList(db, keys);
  }

  // ---------- one pack's section ----------

  lemma {:induction false} OfPackConcat(a: seq<EntryRecord>, b: seq<EntryRecord>, scope: ScopeRef, packName: string)
    ensures OfPack(a + b, scope, packName) == OfPack(a, scope, packName) + OfPack(b, scope, packName)
  {
    if b == [] {
      assert a + b == a;
    } else {
      assert (a + b)[..|a + b| - 1] == a + b[..|b| - 1];
      OfPackConcat(a, b[..|b| - 1], scope, packName);
    }
  }

  function InPack(keys: set<EntryKey>, p: PackKey): set<EntryKey> {
    set k | k in keys && k.pack == p
  }

  lemma InPackSteps(keys: set<EntryKey>, p: PackKey)
    requires keys != {}
    ensures var m := Least(keys); var rest := InPack(keys - {m}, p);
            if m.pack == p then InPack(keys, p) != {} && Least(InPack(keys, p)) == m && rest == InPack(keys, p) - {m}
            else rest == InPack(keys, p)
  {
    var m := Least(keys);
    if m.pack == p {
      assert IsLeast(m, InPack(keys, p));
      OnlyOneLeast(InPack(keys, p));
    }
  }

  /** The section of a pack depends on the entries of that pack alone. */
  lemma {:induction false} RowsOfPack(db: DB, keys: set<EntryKey>, p: PackKey)
    requires Valid(db) && keys <= db.entries.Keys
    ensures OfPack(Rows(db, keys), p.scope, p.name) == Rows(db, InPack(keys, p))
    decreases |keys|
  {
    hide Valid, InPack, IsLeast;
    if keys == {} {
      assert InPack(keys, p) == {} by { InPackEmpty(p); }
    } else {
      var m, rest := Least(keys), keys - {Least(keys)};
      assert m in keys by { LeastIn(keys); }
      RowsOfPack(db, rest, p);
      EntryHasPack(db, m);
      OfPackConcat([db.entries[m].record], Rows(db, rest), p.scope, p.name);
      InPackSteps(keys, p);
      InPackWithin(keys, p);
    }
  }

  lemma InPackEmpty(p: PackKey)
    ensures InPack({}, p) == {}
  {
  }

  lemma InPackWithin(keys: set<EntryKey>, p: PackKey)
    ensures InPack(keys, p) <= keys
  {
  }

  lemma LeastIn(keys: set<EntryKey>)
    requires keys != {}
    ensures Least(keys) in keys
  {
  }

  // What a composed context says about one pack: the entries of its section, or nothing.
  function SectionOf(sections: seq<Section>, p: PackKey): seq<EntryRecord> {
    if sections == [] then []
    else if sections[0].scope == p.scope && sections[0].packName == p.name then sections[0].entries
    else SectionOf(sections[1..], p)
  }

  lemma {:induction false} SectionFound(sections: seq<Section>, p: PackKey)
    requires DistinctSections(sections)
    ensures forall i | 0 <= i < |sections| && sections[i].scope == p.scope && sections[i].packName == p.name ::
              SectionOf(sections, p) == sections[i].entries
    ensures (forall i | 0 <= i < |sections| :: !(sections[i].scope == p.scope && sections[i].packName == p.name)) ==> SectionOf(sections, p) == []
  {
    if sections != [] {
      SectionFound(sections[1..], p);
      forall i | 0 <= i < |sections| && sections[i].scope == p.scope && sections[i].packName == p.name
        ensures SectionOf(sections, p) == sections[i].entries
      {
        if i > 0 { assert sections[i] == sections[1..][i - 1]; }
      }
    }
  }

  lemma SectionIsOfPack(rows: seq<EntryRecord>, p: PackKey)
    ensures SectionOf(Grouped(rows), p) == OfPack(rows, p.scope, p.name)
  {
    GroupedByPack(rows);
    SectionFound(Grouped(rows), p);
    if forall i | 0 <= i < |Grouped(rows)| :: !(Grouped(rows)[i].scope == p.scope && Grouped(rows)[i].packName == p.name) {
      forall r | r in rows ensures !(r.scope == p.scope && r.packName == p.name) {
        var i :| 0 <= i < |Grouped(rows)| && OfSection(Grouped(rows)[i], r);
      }
      OfPackNone(rows, p.scope, p.name);
    }
  }

  // The pack's entries and its visibility are the same in both states.
  ghost predicate SameSectionInputs(a: DB, b: DB, p: PackKey) {
    p in a.packs && p in b.packs && a.packs[p].status == b.packs[p].status &&
    forall k: EntryKey | k.pack == p :: GetEntry(a, k) == GetEntry(b, k)
  }

  /** A pack whose entries and status are as they were is composed as it was, whatever happened to other packs. */
  lemma SectionUnchanged(a: DB, b: DB, req: ComposeRequest, p: PackKey)
    requires Valid(a) && Valid(b) && SameSectionInputs(a, b, p) && ScopesOf(req).Ok?
    ensures SectionOf(ComposeContext(a, req).value.sections, p) == SectionOf(ComposeContext(b, req).value.sections, p)
  {
    hide Valid, SameSectionInputs, Rows, OfPack, Grouped, SectionOf, ScopesOf, Exclusions;
    var scopes := ScopesOf(req).value;
    var ka, kb := Included(a, scopes, req.includeArchived), Included(b, scopes, req.includeArchived);
    SectionIsOfPack(Rows(a, ka), p);
    SectionIsOfPack(Rows(b, kb), p);
    RowsOfPack(a, ka, p);
    RowsOfPack(b, kb, p);
    SameKeysInPack(a, b, scopes, req.includeArchived, p);
    RowsAlike(a, b, InPack(ka, p));
  }

  lemma SameKeysInPack(a: DB, b: DB, scopes: set<ScopeRef>, includeArchived: bool, p: PackKey)
    requires SameSectionInputs(a, b, p)
    ensures InPack(Included(a, scopes, includeArchived), p) == InPack(Included(b, scopes, includeArchived), p)
    ensures forall k | k in InPack(Included(a, scopes, includeArchived), p) :: k in b.entries && a.entries[k].record == b.entries[k].record
  {
    forall k: EntryKey | k.pack == p
      ensures k in Included(a, scopes, includeArchived) <==> k in Included(b, scopes, includeArchived)
      ensures k in Included(a, scopes, includeArchived) ==> k in b.entries && a.entries[k].record == b.entries[k].record
    {
      assert GetEntry(a, k) == GetEntry(b, k);
    }
  }
}
