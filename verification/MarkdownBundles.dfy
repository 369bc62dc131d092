/** What a Markdown bundle gives back of the packs and entries it was made from, whatever their order. */
module MarkdownBundles {
  import opened Prelude
  import opened JsonTree
  import opened Model
  import opened Database
  import opened Invariant
  import opened Markdown
  import opened MarkdownLaws
  import opened MarkdownHeadings
  import opened MarkdownRoundTrip
  import opened Compose
  import opened RoundTrip
  import opened Exporting
  import opened Bundles
  import Text

  predicate Belongs(e: EntryRecord, p: PackRecord) {
    e.scope == p.scope && e.packName == p.name
  }

  // No two packs have the same scope and name, and every entry has its pack.
  ghost predicate ProperBundle(packs: seq<PackRecord>, es: seq<EntryRecord>) {
    DistinctPacks(packs) && forall i | 0 <= i < |es| :: HasPack(packs, es[i])
  }

  ghost predicate DistinctPacks(packs: seq<PackRecord>) {
    forall i, j | 0 <= i < j < |packs| :: packs[i].scope != packs[j].scope || packs[i].name != packs[j].name
  }

  ghost predicate HasPack(packs: seq<PackRecord>, e: EntryRecord) {
    exists k | 0 <= k < |packs| :: Belongs(e, packs[k])
  }

  lemma HasPackSplit(packs: seq<PackRecord>, e: EntryRecord)
    requires packs != []
    ensures HasPack(packs, e) <==> Belongs(e, packs[0]) || HasPack(packs[1..], e)
  {
    hide Belongs;
    if HasPack(packs, e) {
      var k :| 0 <= k < |packs| && Belongs(e, packs[k]);
      if k > 0 { assert packs[1..][k - 1] == packs[k]; }
    }
    if HasPack(packs[1..], e) {
      var k :| 0 <= k < |packs[1..]| && Belongs(e, packs[1..][k]);
      assert packs[k + 1] == packs[1..][k];
    }
  }

  lemma DistinctTail(packs: seq<PackRecord>)
    requires packs != [] && DistinctPacks(packs)
    ensures DistinctPacks(packs[1..]) && forall e | Belongs(e, packs[0]) :: !HasPack(packs[1..], e)
  {
    assert forall i | 0 <= i < |packs[1..]| :: packs[1..][i] == packs[i + 1];
  }

  // What an import restores of an entry: everything but id, status, provenance and revision number.
  predicate Restored(d: Durable, e: EntryRecord) {
    d.scope == e.scope && d.packName == e.packName && d.key == e.key && d.title == e.title && d.kind == e.kind &&
    d.value == e.value && d.tags == e.tags && d.locked == e.locked && d.metadata == e.metadata
  }

  // The imported packs are distinct, and they are the packs of the imported entries.
  ghost predicate PacksOfEntries(r: Imported) {
    (forall i, j | 0 <= i < j < |r.packs| :: r.packs[i] != r.packs[j]) &&
    (forall i | 0 <= i < |r.entries| :: PackName(r.entries[i].scope, r.entries[i].packName) in r.packs) &&
    forall i | 0 <= i < |r.packs| :: exists k | 0 <= k < |r.entries| :: r.packs[i] == PackName(r.entries[k].scope, r.entries[k].packName)
  }

  lemma {:induction false} PacksOfIs(ds: seq<Durable>)
    ensures PacksOfEntries(Imported(PacksOf(ds), ds))
  {
    if ds != [] {
      var n := |ds| - 1;
      PacksOfIs(ds[..n]);
      var front, p := PacksOf(ds[..n]), PackName(ds[n].scope, ds[n].packName);
      assert forall i | 0 <= i < n :: ds[..n][i] == ds[i];
      assert PacksOf(ds) == if p in front then front else front + [p];
      forall i | 0 <= i < |PacksOf(ds)| ensures exists k | 0 <= k < |ds| :: PacksOf(ds)[i] == PackName(ds[k].scope, ds[k].packName) {
        if i < |front| {
          var k :| 0 <= k < n && front[i] == PackName(ds[..n][k].scope, ds[..n][k].packName);
        } else {
          assert PacksOf(ds)[i] == PackName(ds[n].scope, ds[n].packName);
        }
      }
    }
  }

  /** Whatever text is imported, its packs are distinct and exactly those of its entries, of which there is at least one. */
  lemma ImportedPacks(c: Codec, text: string)
    ensures ImportText(c, text).Ok? ==> ImportText(c, text).value.entries != [] && PacksOfEntries(ImportText(c, text).value)
  {
    hide ParseEntries, PacksOf, PacksOfEntries;
    if ParseEntries(c, text).Ok? { PacksOfIs(ParseEntries(c, text).value); }
  }

  // ---------- the export lists each entry once, under its own pack ----------

  function TextOfParts(c: Codec, packs: seq<PackRecord>, parts: seq<seq<EntryRecord>>): string
    requires |parts| == |packs|
  {
    if packs == [] then "" else Heading(packs[0]) + EntriesText(c, parts[0]) + TextOfParts(c, packs[1..], parts[1..])
  }

  function AllParts(parts: seq<seq<EntryRecord>>): seq<EntryRecord> {
    if parts == [] then [] else parts[0] + AllParts(parts[1..])
  }

  // The entries, each as often as it is given, dealt out to the packs they belong to.
  ghost predicate DealtOut(packs: seq<PackRecord>, es: seq<EntryRecord>, parts: seq<seq<EntryRecord>>) {
    |parts| == |packs| && multiset(AllParts(parts)) == multiset(es) &&
    forall i, j | 0 <= i < |parts| && 0 <= j < |parts[i]| :: Belongs(parts[i][j], packs[i])
  }

  function Parts(packs: seq<PackRecord>, es: seq<EntryRecord>): seq<seq<EntryRecord>> {
    if packs == [] then [] else [EntriesOf(packs[0], es)] + Parts(packs[1..], es)
  }

  lemma {:induction false} PartsAre(c: Codec, packs: seq<PackRecord>, es: seq<EntryRecord>)
    ensures |Parts(packs, es)| == |packs| && AllParts(Parts(packs, es)) == Exported(packs, es)
    ensures TextOfParts(c, packs, Parts(packs, es)) == PacksText(c, packs, es)
    ensures forall i | 0 <= i < |packs| :: Parts(packs, es)[i] == EntriesOf(packs[i], es)
  {
    hide EntriesOf, EntriesText, Heading;
    if packs != [] {
      PartsAre(c, packs[1..], es);
      assert Parts(packs, es)[1..] == Parts(packs[1..], es);
    }
  }

  lemma {:induction false} EntriesOfBelong(p: PackRecord, es: seq<EntryRecord>)
    ensures forall j | 0 <= j < |EntriesOf(p, es)| :: Belongs(EntriesOf(p, es)[j], p)
  {
    if es != [] { EntriesOfBelong(p, es[1..]); }
  }

  // How often an entry of its own is exported.
  lemma {:induction false} ExportedCons(packs: seq<PackRecord>, es: seq<EntryRecord>)
    requires es != [] && DistinctPacks(packs)
    ensures multiset(Exported(packs, es)) ==
            multiset(Exported(packs, es[1..])) + (if HasPack(packs, es[0]) then multiset{es[0]} else multiset{})
    decreases |packs|
  {
    hide HasPack, DistinctPacks, Exported;
    ExportedStep(packs, es);
    ExportedStep(packs, es[1..]);
    if packs == [] {
      NoPack(es[0]);
    } else {
      HasPackSplit(packs, es[0]);
      DistinctTail(packs);
      ExportedCons(packs[1..], es);
    }
  }

  lemma NoPack(e: EntryRecord)
    ensures !HasPack([], e)
  {
  }

  lemma ExportedStep(packs: seq<PackRecord>, es: seq<EntryRecord>)
    ensures Exported(packs, es) == if packs == [] then [] else EntriesOf(packs[0], es) + Exported(packs[1..], es)
  {
    hide EntriesOf;
  }

  lemma {:induction false} ExportedNone(packs: seq<PackRecord>)
    ensures Exported(packs, []) == []
  {
    if packs != [] { ExportedNone(packs[1..]); }
  }

  /** An export lists every entry of the bundle exactly as often as it is there. */
  lemma {:induction false} ExportedOnce(packs: seq<PackRecord>, es: seq<EntryRecord>)
    requires ProperBundle(packs, es)
    ensures multiset(Exported(packs, es)) == multiset(es)
    decreases |es|
  {
    hide Exported, HasPack, DistinctPacks;
    if es == [] {
      ExportedNone(packs);
    } else {
      assert forall i | 0 <= i < |es[1..]| :: es[1..][i] == es[i + 1];
      ExportedOnce(packs, es[1..]);
      ExportedCons(packs, es);
      assert es == [es[0]] + es[1..];
    }
  }

  /** The exported text has one heading for each pack, with the entries under it that belong to it and no others. */
  lemma ExportDealsOut(c: Codec, packs: seq<PackRecord>, es: seq<EntryRecord>)
    requires ProperBundle(packs, es)
    ensures exists parts: seq<seq<EntryRecord>> :: DealtOut(packs, es, parts) && ExportText(c, packs, es) == TITLE + TextOfParts(c, packs, parts)
  {
    hide EntriesOf, PacksText, TextOfParts, AllParts, Belongs, Exported;
    PartsAre(c, packs, es);
    ExportedOnce(packs, es);
    forall i | 0 <= i < |packs| ensures forall j | 0 <= j < |EntriesOf(packs[i], es)| :: Belongs(EntriesOf(packs[i], es)[j], packs[i]) {
      EntriesOfBelong(packs[i], es);
    }
    assert DealtOut(packs, es, Parts(packs, es));
  }

  // ---------- entries listed pack by pack ----------

  // The entries follow the order of the packs: first those of the first pack, and so on.
  ghost predicate PackByPack(packs: seq<PackRecord>, es: seq<EntryRecord>) {
    if packs == [] then es == []
    else exists n: nat :: AllBelong(packs[0], es, n) && PackByPack(packs[1..], es[n..])
  }

  ghost predicate AllBelong(p: PackRecord, es: seq<EntryRecord>, n: nat) {
    n <= |es| && forall i | 0 <= i < n :: Belongs(es[i], p)
  }

  lemma {:induction false} EntriesOfConcat(p: PackRecord, a: seq<EntryRecord>, b: seq<EntryRecord>)
    ensures EntriesOf(p, a + b) == EntriesOf(p, a) + EntriesOf(p, b)
  {
    if a == [] {
      assert a + b == b;
    } else {
      assert (a + b)[1..] == a[1..] + b;
      EntriesOfConcat(p, a[1..], b);
    }
  }

  lemma {:induction false} EntriesOfAll(p: PackRecord, es: seq<EntryRecord>)
    requires forall i | 0 <= i < |es| :: Belongs(es[i], p)
    ensures EntriesOf(p, es) == es
  {
    if es != [] { EntriesOfAll(p, es[1..]); }
  }

  lemma {:induction false} EntriesOfNone(p: PackRecord, es: seq<EntryRecord>)
    requires forall i | 0 <= i < |es| :: !Belongs(es[i], p)
    ensures EntriesOf(p, es) == []
  {
    if es != [] { EntriesOfNone(p, es[1..]); }
  }

  ghost predicate NoneHasPack(packs: seq<PackRecord>, es: seq<EntryRecord>) {
    forall i | 0 <= i < |es| :: !HasPack(packs, es[i])
  }

  lemma {:induction false} ExportedSkips(packs: seq<PackRecord>, front: seq<EntryRecord>, back: seq<EntryRecord>)
    requires NoneHasPack(packs, front)
    ensures Exported(packs, front + back) == Exported(packs, back)
    decreases |packs|
  {
    hide HasPack, Exported, EntriesOf, Belongs;
    ExportedStep(packs, front + back);
    ExportedStep(packs, back);
    if packs != [] {
      forall i | 0 <= i < |front| ensures !Belongs(front[i], packs[0]) && !HasPack(packs[1..], front[i]) { HasPackSplit(packs, front[i]); }
      EntriesOfConcat(packs[0], front, back);
      EntriesOfNone(packs[0], front);
      ExportedSkips(packs[1..], front, back);
    }
  }

  lemma PackByPackStep(packs: seq<PackRecord>, es: seq<EntryRecord>)
    ensures packs == [] && PackByPack(packs, es) ==> es == []
    ensures packs != [] && PackByPack(packs, es) ==> exists n: nat :: AllBelong(packs[0], es, n) && PackByPack(packs[1..], es[n..])
  {
    hide AllBelong;
  }

  lemma {:induction false} LaterBelong(packs: seq<PackRecord>, es: seq<EntryRecord>)
    requires PackByPack(packs, es)
    ensures forall i | 0 <= i < |es| :: HasPack(packs, es[i])
    decreases |packs|
  {
    hide Belongs, HasPack, PackByPack;
    PackByPackStep(packs, es);
    if packs != [] {
      var n: nat :| AllBelong(packs[0], es, n) && PackByPack(packs[1..], es[n..]);
      LaterBelong(packs[1..], es[n..]);
      forall i | 0 <= i < |es| ensures HasPack(packs, es[i]) {
        HasPackSplit(packs, es[i]);
        if i >= n { assert HasPack(packs[1..], es[n..][i - n]); }
      }
    }
  }

  /** Entries that follow the order of their packs are exported in the order in which they are. */
  lemma {:induction false} ExportedInOrder(packs: seq<PackRecord>, es: seq<EntryRecord>)
    requires DistinctPacks(packs) && PackByPack(packs, es)
    ensures Exported(packs, es) == es
    decreases |packs|
  {
    hide EntriesOf, HasPack, DistinctPacks, PackByPack, Exported, Belongs;
    PackByPackStep(packs, es);
    ExportedStep(packs, es);
    if packs != [] {
      var n: nat :| AllBelong(packs[0], es, n) && PackByPack(packs[1..], es[n..]);
      var front, back := es[..n], es[n..];
      assert es == front + back;
      DistinctTail(packs);
      LaterBelong(packs[1..], back);
      EntriesOfConcat(packs[0], front, back);
      EntriesOfAll(packs[0], front);
      EntriesOfNone(packs[0], back);
      ExportedSkips(packs[1..], front, back);
      ExportedInOrder(packs[1..], back);
    }
  }

  // ---------- the round trip, for a bundle as it is given ----------

  lemma {:induction false} DurablesAre(es: seq<EntryRecord>)
    ensures |Durables(es)| == |es| && forall i | 0 <= i < |es| :: Durables(es)[i] == DurableOf(es[i])
  {
    if es != [] {
      DurablesAre(es[1..]);
      assert forall i | 0 < i < |es| :: Durables(es)[i] == Durables(es[1..])[i - 1];
    }
  }

  // The imported entries are those given, one for one, though perhaps in another order.
  ghost predicate GivesBack(ds: seq<Durable>, es: seq<EntryRecord>) {
    exists order: seq<EntryRecord> :: multiset(order) == multiset(es) && RestoredAll(ds, order)
  }

  ghost predicate RestoredAll(ds: seq<Durable>, es: seq<EntryRecord>) {
    |ds| == |es| && forall i | 0 <= i < |es| :: Restored(ds[i], es[i])
  }

  lemma RestoredIsDurables(ds: seq<Durable>, es: seq<EntryRecord>)
    ensures RestoredAll(ds, es) <==> ds == Durables(es)
  {
    DurablesAre(es);
    if RestoredAll(ds, es) {
      forall i | 0 <= i < |es| ensures ds[i] == Durables(es)[i] { assert Restored(ds[i], es[i]); }
    }
  }

  lemma SurvivalIsOfMembers(c: Codec, a: seq<EntryRecord>, b: seq<EntryRecord>)
    requires multiset(a) == multiset(b)
    ensures AllSurvive(c, a) <==> AllSurvive(c, b)
    ensures a == [] <==> b == []
  {
    hide Survives;
    if AllSurvive(c, a) { SurvivorsOf(c, a, b); }
    if AllSurvive(c, b) { SurvivorsOf(c, b, a); }
    assert |multiset(a)| == |a| && |multiset(b)| == |b|;
  }

  lemma SurvivorsOf(c: Codec, a: seq<EntryRecord>, b: seq<EntryRecord>)
    requires multiset(a) == multiset(b) && AllSurvive(c, a)
    ensures AllSurvive(c, b)
  {
    hide Survives;
    forall i | 0 <= i < |b| ensures Survives(c, b[i]) {
      assert b[i] in multiset(b);
      assert b[i] in a;
    }
  }

  /**
   Markdown round trip of a bundle whose packs are distinct and include those of its entries. If there is an entry,
   no heading holds the begin marker, and every entry survives, the import gives every entry back exactly once, with
   exactly their packs. Where the entries follow the order of the packs, it gives them back in that order if and only
   if those conditions hold.
   */
  lemma BundleComesBack(c: Codec, packs: seq<PackRecord>, es: seq<EntryRecord>)
    requires Lawful(c) && AllStorable(es) && ProperBundle(packs, es)
    ensures var r := ImportText(c, ExportText(c, packs, es)); var sound := AllSurvive(c, es) && es != [] && QuietHeadings(packs);
            (sound ==> r.Ok? && GivesBack(r.value.entries, es)) &&
            (PackByPack(packs, es) ==> (r.Ok? && RestoredAll(r.value.entries, es) <==> sound)) &&
            (r.Ok? ==> PacksOfEntries(r.value))
  {
    hide Lawful, AllSurvive, QuietHeadings, ExportText, PacksOfEntries, Exported, RestoredAll, ProperBundle, PacksOf, PackByPack,
         ParseEntries, AllStorable;
    var order := Exported(packs, es);
    var text := ExportText(c, packs, es);
    MarkdownRoundTrip.MarkdownRoundTrip(c, packs, es);
    ImportedPacks(c, text);
    OnceInOrder(packs, es);
    SurvivalIsOfMembers(c, order, es);
    RestoredIsDurables(Durables(order), order);
    var r := ImportText(c, text);
    if r.Ok? { RestoredIsDurables(r.value.entries, es); }
  }

  lemma OnceInOrder(packs: seq<PackRecord>, es: seq<EntryRecord>)
    requires ProperBundle(packs, es)
    ensures multiset(Exported(packs, es)) == multiset(es) && (PackByPack(packs, es) ==> Exported(packs, es) == es)
  {
    hide Exported, HasPack, DistinctPacks, PackByPack;
    ExportedOnce(packs, es);
    if PackByPack(packs, es) { ExportedInOrder(packs, es); }
  }

  // ---------- and for a bundle that a store has exported ----------

  function PackKeyFor(e: EntryRecord): PackKey { PackKey(e.scope, e.packName) }

  ghost predicate PacksAscend(packs: seq<PackRecord>) {
    forall i, j | 0 <= i < j < |packs| :: PackLess(PackKeyOf(packs[i]), PackKeyOf(packs[j]))
  }

  ghost predicate EntriesAscend(es: seq<EntryRecord>) {
    forall i, j | 0 <= i < j < |es| :: PackLess(PackKeyFor(es[i]), PackKeyFor(es[j])) || PackKeyFor(es[i]) == PackKeyFor(es[j])
  }

  function Leading(p: PackRecord, es: seq<EntryRecord>): nat {
    if es == [] || !Belongs(es[0], p) then 0 else 1 + Leading(p, es[1..])
  }

  lemma {:induction false} LeadingBelong(p: PackRecord, es: seq<EntryRecord>)
    ensures AllBelong(p, es, Leading(p, es)) && (Leading(p, es) < |es| ==> !Belongs(es[Leading(p, es)], p))
  {
    if es != [] && Belongs(es[0], p) {
      LeadingBelong(p, es[1..]);
      assert forall i | 0 < i < |es| :: es[i] == es[1..][i - 1];
    }
  }

  lemma HasPackAbove(packs: seq<PackRecord>, e: EntryRecord)
    requires packs != [] && PacksAscend(packs) && HasPack(packs[1..], e)
    ensures PackLess(PackKeyOf(packs[0]), PackKeyFor(e))
  {
    hide PackLess;
    var k :| 0 <= k < |packs[1..]| && Belongs(e, packs[1..][k]);
    assert packs[k + 1] == packs[1..][k];
  }

  // Behind the entries of the first pack there are only entries of later packs.
  lemma RestIsLater(packs: seq<PackRecord>, es: seq<EntryRecord>, n: nat)
    requires packs != [] && PacksAscend(packs) && EntriesAscend(es) && forall i | 0 <= i < |es| :: HasPack(packs, es[i])
    requires n <= |es| && (n < |es| ==> !Belongs(es[n], packs[0]))
    ensures forall i | n <= i < |es| :: HasPack(packs[1..], es[i])
  {
    hide HasPack, PackLess, PacksAscend;
    forall i | n <= i < |es| ensures HasPack(packs[1..], es[i]) {
      HasPackSplit(packs, es[i]);
      HasPackSplit(packs, es[n]);
      if Belongs(es[i], packs[0]) {
        HasPackAbove(packs, es[n]);
        PackLessTotal(PackKeyFor(es[n]), PackKeyFor(es[i]));
      }
    }
  }

  lemma {:induction false} SortedIsPackByPack(packs: seq<PackRecord>, es: seq<EntryRecord>)
    requires PacksAscend(packs) && EntriesAscend(es) && forall i | 0 <= i < |es| :: HasPack(packs, es[i])
    ensures PackByPack(packs, es)
    decreases |packs|
  {
    hide HasPack, PackLess, Belongs, AllBelong;
    if packs == [] {
      if es != [] { NoPack(es[0]); }
    } else {
      var n := Leading(packs[0], es);
      LeadingBelong(packs[0], es);
      LeadingWithin(packs[0], es);
      RestIsLater(packs, es, n);
      assert forall i | 0 <= i < |es[n..]| :: es[n..][i] == es[n + i];
      assert forall i | 0 <= i < |packs[1..]| :: packs[1..][i] == packs[i + 1];
      SortedIsPackByPack(packs[1..], es[n..]);
    }
  }

  lemma {:induction false} LeadingWithin(p: PackRecord, es: seq<EntryRecord>)
    ensures Leading(p, es) <= |es|
  {
    if es != [] { LeadingWithin(p, es[1..]); }
  }

  lemma PackKeysDiffer(packs: seq<PackRecord>)
    requires PacksAscend(packs)
    ensures DistinctPacks(packs)
  {
    hide PackLess;
    forall i, j | 0 <= i < j < |packs| ensures packs[i].scope != packs[j].scope || packs[i].name != packs[j].name {
      PackLessTotal(PackKeyOf(packs[i]), PackKeyOf(packs[j]));
    }
  }

  lemma PackOrder(p: PackKey, q: PackKey)
    requires KeyLess(EntryKey(p, ""), EntryKey(q, ""))
    ensures PackLess(p, q)
  {
    Text.LessIrreflexive("");
  }

  lemma ExportedPacksAscend(db: DB, req: ExportRequest, scopes: Option<set<ScopeRef>>)
    requires Valid(db)
    ensures forall k | k in ExportedPackKeys(db, req, scopes) :: k.pack in db.packs
    ensures PacksAscend(PackRowsOf(db, ExportedPackKeys(db, req, scopes)))
  {
    hide Valid, PackMatches, PackRowsOf, InOrder, KeyLess, PackLess, PackKeyOf, ExportedPackKeys;
    ListedPackKeys(db, req, scopes);
    var keys := ExportedPackKeys(db, req, scopes);
    var packs, ks := PackRowsOf(db, keys), InOrder(keys);
    PackRowsFollowKeys(db, keys);
    InOrderSorts(keys);
    forall i | 0 <= i < |packs| ensures PackKeyOf(packs[i]) == ks[i].pack && ks[i] == EntryKey(ks[i].pack, "") { PackAt(db, ks[i].pack); }
    forall i, j | 0 <= i < j < |packs| ensures PackLess(PackKeyOf(packs[i]), PackKeyOf(packs[j])) { PackOrder(ks[i].pack, ks[j].pack); }
  }

  lemma RowsAscend(db: DB, keys: set<EntryKey>)
    requires Valid(db) && keys <= db.entries.Keys
    ensures EntriesAscend(Rows(db, keys))
  {
    hide Valid, Rows, InOrder, PackLess;
    RowsFollowKeys(db, keys);
    InOrderSorts(keys);
    var rows, ks := Rows(db, keys), InOrder(keys);
    forall i | 0 <= i < |rows| ensures PackKeyFor(rows[i]) == ks[i].pack { EntryHasPack(db, ks[i]); }
    assert forall i, j | 0 <= i < j < |rows| :: KeyLess(ks[i], ks[j]);
  }

  lemma ExportedHavePacks(db: DB, b: Bundle)
    requires Exports(db, b)
    ensures forall i | 0 <= i < |b.entries| :: HasPack(b.packs, b.entries[i])
  {
    hide PacksFrom, EntriesFrom, ReviewsFrom, RunsFrom;
    forall i | 0 <= i < |b.entries| ensures HasPack(b.packs, b.entries[i]) {
      var k :| 0 <= k < |b.packs| && PackKeyOf(b.packs[k]) == EntryKeyOf(b.entries[i]).pack;
      assert Belongs(b.entries[i], b.packs[k]);
    }
  }

  /** Every bundle that a store exports lists distinct packs, the packs of its entries, and the entries pack by pack. */
  lemma ExportIsPackByPack(db: DB, runs: seq<RunRecord>, req: ExportRequest)
    requires Valid(db) && RunsFrom(db, runs) && ExportBundle(db, runs, req).Ok?
    ensures var b := ExportBundle(db, runs, req).value; ProperBundle(b.packs, b.entries) && PackByPack(b.packs, b.entries)
  {
    hide Valid, RunsFrom, Exports, PackRowsOf, Rows, ExportedPackKeys, ReviewsMatching, RunsMatching, PacksAscend, EntriesAscend, DistinctPacks, HasPack,
         PackByPack, PackMatches;
    var scopes, b := ExportScopes(req).value, ExportBundle(db, runs, req).value;
    ExportIsExport(db, runs, req);
    ExportedPacksAscend(db, req, scopes);
    RowsAscend(db, ExportedEntryKeys(db, req, scopes));
    ExportedHavePacks(db, b);
    PackKeysDiffer(b.packs);
    SortedIsPackByPack(b.packs, b.entries);
  }

  /**
   A store's Markdown bundle gives its entries back, in order and in every field it holds, if and only if there is
   one, no heading of a pack holds the begin marker, and every entry survives.
   */
  lemma StoreComesBack(c: Codec, db: DB, runs: seq<RunRecord>, req: ExportRequest)
    requires Lawful(c) && Valid(db) && RunsFrom(db, runs) && ExportBundle(db, runs, req).Ok? && AllStorable(ExportBundle(db, runs, req).value.entries)
    ensures var b := ExportBundle(db, runs, req).value; var r := ImportText(c, ExportText(c, b.packs, b.entries));
            (r.Ok? && RestoredAll(r.value.entries, b.entries) <==> b.entries != [] && QuietHeadings(b.packs) && AllSurvive(c, b.entries)) &&
            (r.Ok? ==> PacksOfEntries(r.value))
  {
    hide Lawful, Valid, ExportBundle, ExportText, RestoredAll, PacksOfEntries, AllSurvive, QuietHeadings, ProperBundle, PackByPack, AllStorable,
         RunsFrom, ImportText;
    ExportIsPackByPack(db, runs, req);
    var b := ExportBundle(db, runs, req).value;
    BundleComesBack(c, b.packs, b.entries);
  }

  // ---------- what the text looks like, and what else is read ----------

  lemma OneEntryText(c: Codec, p: PackRecord, e: EntryRecord)
    requires Belongs(e, p)
    ensures ExportText(c, [p], [e]) == TITLE + Heading(p) + EntryText(c, e)
  {
    hide Heading, EntryText;
    assert [e][1..] == [] && [p][1..] == [];
    assert EntriesOf(p, [e]) == [e];
    assert EntriesText(c, [e][1..]) == "";
    assert EntriesText(c, [e]) == EntryText(c, e) + "" == EntryText(c, e);
    assert PacksText(c, [p][1..], [e]) == "";
    assert PacksText(c, [p], [e]) == Heading(p) + EntryText(c, e) + "" == Heading(p) + EntryText(c, e);
    assert TITLE + (Heading(p) + EntryText(c, e)) == TITLE + Heading(p) + EntryText(c, e);
  }

  lemma HeadingSample(p: PackRecord)
    requires p.scope == ScopeRef(Project, "p") && p.name == "main" && p.description == Some("About.")
    ensures Heading(p) == "## Pack `main` (project:p)\n\nAbout.\n\n"
  {
  }

  lemma EntrySample(c: Codec, e: EntryRecord)
    requires e.scope == ScopeRef(Project, "p") && e.packName == "main"
    requires e.key == "k" && e.title.None? && e.kind == "note" && e.value == Markdown("Text.") && e.tags == ["t"] && e.locked && e.metadata == Object([])
    ensures EntryText(c, e) ==
            "<!-- UCM_ENTRY" + " " +
            c.compact(Object([Field("format", Str("markdown")), Field("key", Str("k")), Field("kind", Str("note")), Field("locked", Bool(true)),
                              Field("metadata", Object([])), Field("pack_name", Str("main")), Field("scope_id", Str("p")),
                              Field("scope_kind", Str("project")), Field("tags", Array([Str("t")])), Field("title", Null)])) +
            " " + "-->" + "\n" + "Text.\n" + "<!-- /UCM_ENTRY -->" + "\n\n"
  {
    assert StrAll(["t"]) == [Str("t")];
    assert Lines("Text.") == "Text.\n";
  }

  /** For instance: a pack of a project with a description, and one entry in it. */
  lemma ExportSample(c: Codec, p: PackRecord, e: EntryRecord)
    requires p.scope == e.scope == ScopeRef(Project, "p") && p.name == e.packName == "main" && p.description == Some("About.")
    requires e.key == "k" && e.title.None? && e.kind == "note" && e.value == Markdown("Text.") && e.tags == ["t"] && e.locked && e.metadata == Object([])
    ensures ExportText(c, [p], [e]) ==
            "# Universal Context Export\n\n" + "## Pack `main` (project:p)\n\nAbout.\n\n" +
            ("<!-- UCM_ENTRY" + " " +
             c.compact(Object([Field("format", Str("markdown")), Field("key", Str("k")), Field("kind", Str("note")), Field("locked", Bool(true)),
                               Field("metadata", Object([])), Field("pack_name", Str("main")), Field("scope_id", Str("p")),
                               Field("scope_kind", Str("project")), Field("tags", Array([Str("t")])), Field("title", Null)])) +
             " " + "-->" + "\n" + "Text.\n" + "<!-- /UCM_ENTRY -->" + "\n\n")
  {
    hide Heading, EntryText, ExportText;
    OneEntryText(c, p, e);
    HeadingSample(p);
    EntrySample(c, e);
  }

  lemma GetOne(name: string, v: Json, other: string)
    ensures Get(Object([]), other).None?
    ensures Get(Object([Field(name, v)]), other) == if name == other then Some(v) else None
  {
    assert [Field(name, v)][1..] == [];
  }

  // The one member that the header has, and those it has not.
  lemma OnlyKind(kind: string)
    ensures var m := Object([Field("scope_kind", Str(kind))]);
            AsStr(Get(m, "scope_kind")) == Some(kind) &&
            forall other | |other| != |"scope_kind"| :: Get(m, other).None?
  {
    hide Get;
    GetOne("scope_kind", Str(kind), "scope_kind");
    forall other: string | |other| != |"scope_kind"| ensures Get(Object([Field("scope_kind", Str(kind))]), other).None? {
      GetOne("scope_kind", Str(kind), other);
    }
  }

  /** Of what an entry's header may lack, only the scope is needed: the rest has defaults. */
  lemma HeaderDefaults(c: Codec, kind: string, body: string)
    ensures ReadEntry(c, Object([]), body).Err?
    ensures ReadEntry(c, Object([Field("scope_kind", Str(kind))]), body) ==
            if kind == "global" then Ok(Durable(ScopeRef(Global, "global"), "main", "entry", None, "note", Markdown(body), [], false, Object([])))
            else Err(Validation)
  {
    hide Get, KindOf, Normalize, ReadValue;
    var m := Object([Field("scope_kind", Str(kind))]);
    GetOne("scope_kind", Str(kind), "scope_kind");
    OnlyKind(kind);
    assert KindOf(kind) == if kind == "global" then Ok(Global) else if kind == "project" then Ok(Project)
                           else if kind == "task" then Ok(Task) else Err(Validation) by {
      KindCases(kind);
    }
    NoId();
    MarkdownRead(c, body);
  }

  lemma KindCases(kind: string)
    ensures KindOf(kind) == if kind == "global" then Ok(Global) else if kind == "project" then Ok(Project)
                            else if kind == "task" then Ok(Task) else Err(Validation)
  {
  }

  lemma NoId()
    ensures Normalize(ScopeRef(Global, "")) == Ok(ScopeRef(Global, "global"))
    ensures Normalize(ScopeRef(Project, "")) == Err(Validation) && Normalize(ScopeRef(Task, "")) == Err(Validation)
  {
    Text.TrimIsTight("");
  }

  lemma MarkdownRead(c: Codec, body: string)
    ensures ReadValue(c, "markdown", body) == Ok(Markdown(body))
  {
    assert "markdown"[0] == 'm';
  }
}
