/** What importing a bundle does to whatever store it is imported into. */
module Restores {
  import opened Prelude
  import opened Model
  import opened Database
  import opened Operations
  import opened Bundles
  import opened Invariant
  import opened Growth
  import opened Writes
  import opened Runs
  import opened Requests
  import Text

  // ---------- which row of the bundle counts ----------

  // The last of the first n rows that means a given pack, entry, run or review: later rows overwrite earlier ones.
  function LastPack(packs: seq<PackRecord>, n: nat, k: PackKey): Option<PackRecord>
    requires n <= |packs|
  {
    if n == 0 then None
    else if PackMeant(packs[n - 1].scope, packs[n - 1].name) == k then Some(packs[n - 1]) else LastPack(packs, n - 1, k)
  }

  function KeyMeant(e: EntryRecord): EntryKey { EntryKey(PackMeant(e.scope, e.packName), e.key) }

  function LastEntry(es: seq<EntryRecord>, n: nat, k: EntryKey): Option<EntryRecord>
    requires n <= |es|
  {
    if n == 0 then None else if KeyMeant(es[n - 1]) == k then Some(es[n - 1]) else LastEntry(es, n - 1, k)
  }

  function LastRun(runs: seq<RunRecord>, n: nat, id: RunId): Option<RunRecord>
    requires n <= |runs|
  {
    if n == 0 then None else if runs[n - 1].id == id then Some(runs[n - 1]) else LastRun(runs, n - 1, id)
  }

  function LastReview(reviews: seq<ReviewItem>, n: nat, id: Id): Option<ReviewItem>
    requires n <= |reviews|
  {
    if n == 0 then None else if reviews[n - 1].id == id then Some(reviews[n - 1]) else LastReview(reviews, n - 1, id)
  }

  // ---------- packs ----------

  // The row shows the imported pack; a lock reason is kept only together with a lock. A known pack keeps its id.
  ghost predicate PackTaken(was: Option<PackRecord>, p: PackRecord, k: PackKey, now: PackRecord) {
    now.scope == k.scope && now.name == k.name && now.description == p.description && now.metadata == p.metadata &&
    now.status == p.status && now.locked == p.locked && now.lockReason == (if p.locked then p.lockReason else None) &&
    (was.Some? ==> now.id == was.value.id)
  }

  lemma ImportPackStores(db: DB, p: PackRecord, actor: string)
    requires Valid(db) && ImportPack(db, p, actor).Done?
    ensures var k, end := PackMeant(p.scope, p.name), ImportPack(db, p, actor).db;
            end == db.(packs := end.packs, revisions := end.revisions, nextId := end.nextId) &&
            k in end.packs && end.packs == db.packs[k := end.packs[k]] && PackTaken(GetPack(db, k), p, k, end.packs[k])
  {
    hide Valid, MaxRevision, Normalize, Text.Blank;
    ScopeRead(p.scope);
    if PackMeant(p.scope, p.name) in db.packs { PackNamed(db, PackMeant(p.scope, p.name)); }
  }

  ghost predicate PacksTaken(db: DB, end: DB, packs: seq<PackRecord>, n: nat)
    requires n <= |packs|
  {
    forall k: PackKey ::
      match LastPack(packs, n, k)
      case Some(p) => k in end.packs && PackTaken(GetPack(db, k), p, k, end.packs[k])
      case None => GetPack(end, k) == GetPack(db, k)
  }

  lemma PackStep(db: DB, mid: DB, end: DB, packs: seq<PackRecord>, n: nat)
    requires n < |packs| && PacksTaken(db, mid, packs, n)
    requires var k := PackMeant(packs[n].scope, packs[n].name);
             k in end.packs && end.packs == mid.packs[k := end.packs[k]] && PackTaken(GetPack(mid, k), packs[n], k, end.packs[k])
    ensures PacksTaken(db, end, packs, n + 1)
  {
    var k := PackMeant(packs[n].scope, packs[n].name);
    forall j: PackKey
      ensures match LastPack(packs, n + 1, j)
              case Some(p) => j in end.packs && PackTaken(GetPack(db, j), p, j, end.packs[j])
              case None => GetPack(end, j) == GetPack(db, j)
    {
      if j != k { assert GetPack(end, j) == GetPack(mid, j); }
    }
  }

  lemma {:induction false} ImportPacksStore(db: DB, packs: seq<PackRecord>, actor: string, n: nat)
    requires Valid(db) && n <= |packs| && ImportPacks(db, packs, actor, n).Done?
    ensures var end := ImportPacks(db, packs, actor, n).db;
            end == db.(packs := end.packs, revisions := end.revisions, nextId := end.nextId) && PacksTaken(db, end, packs, n) && Valid(end)
  {
    hide Valid, ImportPack, PacksTaken, Advances;
    ImportPacksMove(db, packs, actor, n);
    if n == 0 {
      NoPacksTaken(db, packs);
    } else {
      ImportPacksMove(db, packs, actor, n - 1);
      ImportPacksStore(db, packs, actor, n - 1);
      var mid := ImportPacks(db, packs, actor, n - 1).db;
      ImportPackStores(mid, packs[n - 1], actor);
      PackStep(db, mid, ImportPack(mid, packs[n - 1], actor).db, packs, n - 1);
    }
  }

  lemma NoPacksTaken(db: DB, packs: seq<PackRecord>)
    ensures PacksTaken(db, db, packs, 0)
  {
  }

  // ---------- entries ----------

  // The row shows the imported entry, with its status and provenance. A known entry keeps its id and moves on by one revision or more.
  ghost predicate EntryTaken(was: Option<EntryRow>, e: EntryRecord, k: EntryKey, now: EntryRecord) {
    now == e.(id := now.id, scope := k.pack.scope, revisionNo := now.revisionNo) &&
    (was.Some? ==> now.id == was.value.record.id && now.revisionNo > was.value.record.revisionNo)
  }

  lemma ImportEntryStores(db: DB, e: EntryRecord, actor: string)
    requires Valid(db) && ImportEntry(db, e, actor).Done?
    ensures var k, end := KeyMeant(e), ImportEntry(db, e, actor).db;
            Valid(end) && EntriesSameBut(db, end, k) && SamePacksBut(db, end, k.pack) && SameElsewhere(db, end) && k.pack in end.packs &&
            EntryTaken(GetEntry(db, k), e, k, end.entries[k].record)
  {
    hide Valid, ApplyEntry, Normalize, Grows, Text.Blank, FlipDeleted, SamePacksBut, SameElsewhere, Advances;
    ScopeRead(e.scope);
    NormalizeSettles(e.scope);
    var k := KeyMeant(e);
    var a := ApplyEntry(db, k.pack, InputOf(e), actor, e.provenance, None, None, true);
    ApplyEntrySound(db, k.pack, InputOf(e), actor, e.provenance, None, None, true);
    ImportEntryMoves(db, e, actor);
    RowNamed(a.db, k);
    FlipTakes(db, a.db, k, e);
  }

  lemma FlipTakes(db: DB, mid: DB, k: EntryKey, e: EntryRecord)
    requires WritesAt(db, mid, k, InputOf(e), e.provenance) && k == KeyMeant(e)
    requires var r := mid.entries[k].record; r.scope == k.pack.scope && r.packName == k.pack.name && r.key == k.key
    ensures var end := if e.status.Deleted? then FlipDeleted(mid, k) else mid;
            EntriesSameBut(db, end, k) && SamePacksBut(db, end, k.pack) && SameElsewhere(db, end) && k.pack in end.packs &&
            EntryTaken(GetEntry(db, k), e, k, end.entries[k].record)
  {
    hide SamePacksBut;
    if e.status.Deleted? { FlipAfterWriteFrame(db, mid, k, InputOf(e), e.provenance); }
  }

  ghost predicate EntriesTaken(db: DB, end: DB, es: seq<EntryRecord>, n: nat)
    requires n <= |es|
  {
    forall k: EntryKey ::
      match LastEntry(es, n, k)
      case Some(e) => k in end.entries && EntryTaken(GetEntry(db, k), e, k, end.entries[k].record)
      case None => GetEntry(end, k) == GetEntry(db, k)
  }

  // Packs stay as they are; those that entries lacked are there now, with default governance.
  ghost predicate PacksFilledIn(db: DB, end: DB, es: seq<EntryRecord>, n: nat)
    requires n <= |es|
  {
    (forall p | p in db.packs :: p in end.packs && end.packs[p] == db.packs[p]) &&
    forall p | p in end.packs && p !in db.packs :: IsDefaultPack(end.packs[p]) && exists i | 0 <= i < n :: KeyMeant(es[i]).pack == p
  }

  lemma EntryStep(db: DB, mid: DB, end: DB, es: seq<EntryRecord>, n: nat)
    requires n < |es| && EntriesTaken(db, mid, es, n)
    requires EntriesSameBut(mid, end, KeyMeant(es[n])) && EntryTaken(GetEntry(mid, KeyMeant(es[n])), es[n], KeyMeant(es[n]), end.entries[KeyMeant(es[n])].record)
    ensures EntriesTaken(db, end, es, n + 1)
  {
    var k := KeyMeant(es[n]);
    forall j: EntryKey
      ensures match LastEntry(es, n + 1, j)
              case Some(e) => j in end.entries && EntryTaken(GetEntry(db, j), e, j, end.entries[j].record)
              case None => GetEntry(end, j) == GetEntry(db, j)
    {
      if j != k { assert GetEntry(end, j) == GetEntry(mid, j); } else { assert GetEntry(mid, k).None? ==> GetEntry(db, k).None?; }
    }
  }

  lemma FillStep(db: DB, mid: DB, end: DB, es: seq<EntryRecord>, n: nat)
    requires n < |es| && PacksFilledIn(db, mid, es, n) && SamePacksBut(mid, end, KeyMeant(es[n]).pack)
    ensures PacksFilledIn(db, end, es, n + 1)
  {
    hide IsDefaultPack;
    forall p | p in end.packs && p !in db.packs ensures IsDefaultPack(end.packs[p]) && exists i | 0 <= i < n + 1 :: KeyMeant(es[i]).pack == p {
      if p in mid.packs {
        var i :| 0 <= i < n && KeyMeant(es[i]).pack == p;
      } else {
        assert KeyMeant(es[n]).pack == p;
      }
    }
  }

  lemma {:induction false} ImportEntriesStore(db: DB, es: seq<EntryRecord>, actor: string, n: nat)
    requires Valid(db) && n <= |es| && ImportEntries(db, es, actor, n).Done?
    ensures var end := ImportEntries(db, es, actor, n).db;
            Valid(end) && SameElsewhere(db, end) && EntriesTaken(db, end, es, n) && PacksFilledIn(db, end, es, n)
  {
    hide Valid, ImportEntry, EntriesTaken, PacksFilledIn, SamePacksBut, EntryTaken;
    if n == 0 {
      NoEntriesTaken(db, es);
    } else {
      ImportEntriesStore(db, es, actor, n - 1);
      var mid := ImportEntries(db, es, actor, n - 1).db;
      var end := ImportEntry(mid, es[n - 1], actor).db;
      ImportEntryStores(mid, es[n - 1], actor);
      EntryStep(db, mid, end, es, n - 1);
      FillStep(db, mid, end, es, n - 1);
    }
  }

  lemma NoEntriesTaken(db: DB, es: seq<EntryRecord>)
    ensures EntriesTaken(db, db, es, 0) && PacksFilledIn(db, db, es, 0)
  {
  }

  // ---------- runs and reviews ----------

  ghost predicate RunsTaken(db: DB, end: DB, runs: seq<RunRecord>, n: nat)
    requires n <= |runs|
  {
    forall id: RunId ::
      match LastRun(runs, n, id)
      case Some(r) => id in end.runs && end.runs[id] == r
      case None => (id in end.runs <==> id in db.runs) && (id in db.runs ==> end.runs[id] == db.runs[id])
  }

  lemma {:induction false} ImportRunsStore(db: DB, runs: seq<RunRecord>, n: nat)
    requires n <= |runs| && ImportRuns(db, runs, n).Done?
    ensures var end := ImportRuns(db, runs, n).db; end == db.(runs := end.runs, nextId := end.nextId) && RunsTaken(db, end, runs, n)
  {
    hide Text.Blank;
    if n > 0 { ImportRunsStore(db, runs, n - 1); }
  }

  // The review as an import stores it: with its scope as it is meant, and at revision 1 at least.
  ghost predicate ReviewTaken(r: ReviewItem, now: ReviewItem) {
    now == r.(scope := ScopeMeant(r.scope), revisionNo := if r.revisionNo < 1 then 1 else r.revisionNo)
  }

  // Each review listed is where its id was, or else behind the others; no other review changes or moves.
  ghost predicate ReviewsTaken(db: DB, end: DB, reviews: seq<ReviewItem>, n: nat)
    requires n <= |reviews|
  {
    |db.reviews| <= |end.reviews| &&
    (forall i | 0 <= i < |end.reviews| ::
       match LastReview(reviews, n, end.reviews[i].id)
       case Some(r) => ReviewTaken(r, end.reviews[i])
       case None => i < |db.reviews| && end.reviews[i] == db.reviews[i]) &&
    (forall i | 0 <= i < |db.reviews| :: end.reviews[i].id == db.reviews[i].id) &&
    forall i | 0 <= i < n :: exists j | 0 <= j < |end.reviews| :: end.reviews[j].id == reviews[i].id
  }

  lemma ImportReviewStores(db: DB, r: ReviewItem, actor: string)
    requires ImportReview(db, r, actor).Done?
    ensures var end := ImportReview(db, r, actor).db; var at := ReviewIndex(db.reviews, r.id);
            OnlyReviewsChange(db, end) &&
            exists now: ReviewItem :: ReviewTaken(r, now) && end.reviews == if at.Some? then db.reviews[at.value := now] else db.reviews + [now]
  {
    hide Text.Blank, InputValid, Normalize, PutRevision, ReviewIndex, ReviewRevision;
    ScopeRead(r.scope);
    assert ReviewTaken(r, StoredReview(r));
  }

  ghost predicate DistinctIds(reviews: seq<ReviewItem>) {
    forall i, j | 0 <= i < j < |reviews| :: reviews[i].id != reviews[j].id
  }

  lemma ValidIds(db: DB)
    requires Valid(db)
    ensures DistinctIds(db.reviews)
  {
    assert ReviewRows(db.reviews, db.nextId);
  }

  lemma ReviewStep(db: DB, mid: DB, end: DB, reviews: seq<ReviewItem>, n: nat, now: ReviewItem)
    requires n < |reviews| && ReviewsTaken(db, mid, reviews, n) && DistinctIds(mid.reviews) && ReviewTaken(reviews[n], now)
    requires var at := ReviewIndex(mid.reviews, reviews[n].id);
             end.reviews == if at.Some? then mid.reviews[at.value := now] else mid.reviews + [now]
    ensures ReviewsTaken(db, end, reviews, n + 1)
  {
    hide ReviewTaken;
    assert now.id == reviews[n].id by { TakenId(reviews[n], now); }
    var at := ReviewIndex(mid.reviews, reviews[n].id);
    assert end.reviews[if at.Some? then at.value else |mid.reviews|].id == reviews[n].id;
    forall i | 0 <= i < |end.reviews|
      ensures match LastReview(reviews, n + 1, end.reviews[i].id)
              case Some(r) => ReviewTaken(r, end.reviews[i])
              case None => i < |db.reviews| && end.reviews[i] == db.reviews[i]
    {
      if end.reviews[i].id != reviews[n].id {
        assert i < |mid.reviews| && end.reviews[i] == mid.reviews[i];
      } else {
        assert end.reviews[i] == now;
      }
    }
    forall i | 0 <= i < n + 1 ensures exists j | 0 <= j < |end.reviews| :: end.reviews[j].id == reviews[i].id {
      if i < n {
        var j :| 0 <= j < |mid.reviews| && mid.reviews[j].id == reviews[i].id;
        assert end.reviews[j].id == mid.reviews[j].id;
      }
    }
  }

  lemma TakenId(r: ReviewItem, now: ReviewItem)
    requires ReviewTaken(r, now)
    ensures now.id == r.id
  {
  }

  lemma {:induction false} ImportReviewsStore(db: DB, reviews: seq<ReviewItem>, actor: string, n: nat)
    requires Valid(db) && n <= |reviews| && ImportReviews(db, reviews, actor, n).Done?
    ensures var end := ImportReviews(db, reviews, actor, n).db; OnlyReviewsChange(db, end) && ReviewsTaken(db, end, reviews, n)
  {
    hide Valid, ImportReview, ReviewsTaken, Advances, ReviewTaken, ReviewIndex;
    if n == 0 {
      NoReviewsTaken(db, reviews);
    } else {
      ImportReviewsStore(db, reviews, actor, n - 1);
      ImportReviewsMove(db, reviews, actor, n - 1);
      var mid := ImportReviews(db, reviews, actor, n - 1).db;
      var end := ImportReview(mid, reviews[n - 1], actor).db;
      ValidIds(mid);
      ImportReviewStores(mid, reviews[n - 1], actor);
      var at := ReviewIndex(mid.reviews, reviews[n - 1].id);
      var now :| ReviewTaken(reviews[n - 1], now) && end.reviews == if at.Some? then mid.reviews[at.value := now] else mid.reviews + [now];
      ReviewStep(db, mid, end, reviews, n - 1, now);
    }
  }

  lemma NoReviewsTaken(db: DB, reviews: seq<ReviewItem>)
    ensures ReviewsTaken(db, db, reviews, 0)
  {
  }

  // ---------- the whole bundle ----------

  // What holds of the packs: those of the bundle as it lists them, those that only its entries name as default packs, and no other new ones.
  ghost predicate PacksAfter(db: DB, end: DB, b: Bundle) {
    forall k: PackKey ::
      match LastPack(b.packs, |b.packs|, k)
      case Some(p) => k in end.packs && PackTaken(GetPack(db, k), p, k, end.packs[k])
      case None =>
        if k in db.packs then GetPack(end, k) == GetPack(db, k)
        else k in end.packs ==> IsDefaultPack(end.packs[k]) && exists i | 0 <= i < |b.entries| :: KeyMeant(b.entries[i]).pack == k
  }

  lemma PacksTogether(db: DB, mid: DB, late: DB, b: Bundle)
    requires PacksTaken(db, mid, b.packs, |b.packs|) && PacksFilledIn(mid, late, b.entries, |b.entries|)
    ensures PacksAfter(db, late, b)
  {
    hide IsDefaultPack, PackTaken, LastPack;
    forall k: PackKey
      ensures match LastPack(b.packs, |b.packs|, k)
              case Some(p) => k in late.packs && PackTaken(GetPack(db, k), p, k, late.packs[k])
              case None =>
                if k in db.packs then GetPack(late, k) == GetPack(db, k)
                else k in late.packs ==> IsDefaultPack(late.packs[k]) && exists i | 0 <= i < |b.entries| :: KeyMeant(b.entries[i]).pack == k
    {
      assert LastPack(b.packs, |b.packs|, k).None? ==> GetPack(mid, k) == GetPack(db, k);
    }
  }

  /**
   Importing a bundle into any store overwrites exactly what the bundle lists: each pack, entry, run and review
   is afterwards as the last of its rows in the bundle says, under the id it had if it was known; a pack that only
   entries name is there with default governance; and everything else is as it was.
   */
  lemma ImportOverwrites(db: DB, b: Bundle, actor: string)
    requires Valid(db) && ImportBundle(db, b, actor).Done?
    ensures var end := ImportBundle(db, b, actor).db;
            Valid(end) && PacksAfter(db, end, b) && EntriesTaken(db, end, b.entries, |b.entries|) && RunsTaken(db, end, b.runs, |b.runs|) &&
            ReviewsTaken(db, end, b.reviews, |b.reviews|) && end.policy == db.policy && end.commits == db.commits && end.scan == db.scan
  {
    hide Valid, ImportPacks, ImportEntries, ImportRuns, ImportReviews, PacksTaken, PacksFilledIn, EntriesTaken, RunsTaken, ReviewsTaken,
         PacksAfter, Advances;
    var p := ImportPacks(db, b.packs, actor, |b.packs|);
    ImportPacksStore(db, b.packs, actor, |b.packs|);
    var e := ImportEntries(p.db, b.entries, actor, |b.entries|);
    ImportEntriesStore(p.db, b.entries, actor, |b.entries|);
    var r := ImportRuns(e.db, b.runs, |b.runs|);
    ImportRunsStore(e.db, b.runs, |b.runs|);
    ImportRunsMove(e.db, b.runs, |b.runs|);
    ImportReviewsStore(r.db, b.reviews, actor, |b.reviews|);
    ImportBundleMoves(db, b, actor);
    var end := ImportBundle(db, b, actor).db;
    PacksTogether(db, p.db, e.db, b);
    SamePacksAfter(db, e.db, end, b);
    SameEntriesTaken(db, p.db, e.db, end, b);
    SameRunsTaken(db, e.db, r.db, end, b);
    SameReviewsTaken(db, r.db, end, b);
  }

  lemma SamePacksAfter(db: DB, late: DB, end: DB, b: Bundle)
    requires PacksAfter(db, late, b) && end.packs == late.packs
    ensures PacksAfter(db, end, b)
  {
    hide IsDefaultPack, PackTaken, LastPack;
    forall k: PackKey ensures GetPack(end, k) == GetPack(late, k) { }
  }

  lemma SameEntriesTaken(db: DB, mid: DB, late: DB, end: DB, b: Bundle)
    requires EntriesTaken(mid, late, b.entries, |b.entries|) && mid.entries == db.entries && end.entries == late.entries
    ensures EntriesTaken(db, end, b.entries, |b.entries|)
  {
    hide EntryTaken, LastEntry;
    forall k: EntryKey ensures GetEntry(mid, k) == GetEntry(db, k) && GetEntry(end, k) == GetEntry(late, k) { }
  }

  lemma SameRunsTaken(db: DB, mid: DB, late: DB, end: DB, b: Bundle)
    requires RunsTaken(mid, late, b.runs, |b.runs|) && mid.runs == db.runs && end.runs == late.runs
    ensures RunsTaken(db, end, b.runs, |b.runs|)
  {
    hide LastRun;
  }

  lemma SameReviewsTaken(db: DB, mid: DB, end: DB, b: Bundle)
    requires ReviewsTaken(mid, end, b.reviews, |b.reviews|) && mid.reviews == db.reviews
    ensures ReviewsTaken(db, end, b.reviews, |b.reviews|)
  {
    hide LastReview, ReviewTaken;
  }
}
