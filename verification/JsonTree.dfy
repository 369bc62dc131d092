/**
 JSON values as ordered trees and their canonical form (keys sorted at every level). `Meaning` is an
 order-free reference: objects become maps.
 */
module JsonTree {
  import opened Text

  datatype Json =
    | Null
    | Bool(b: bool)
    | Number(n: int)
    | Str(s: string)
    | Array(items: seq<Json>)
    | Object(fields: seq<Field>)

  datatype Field = Field(name: string, value: Json)

  datatype Tree =
    | Leaf(json: Json)
    | Items(items: seq<Tree>)
    | Members(members: map<string, Tree>)

  const EMPTY_OBJECT := Object([])

  predicate DistinctNames(fields: seq<Field>) {
    forall i, j | 0 <= i < j < |fields| :: fields[i].name != fields[j].name
  }

  // An object never holds a key twice.
  predicate WellFormed(j: Json) {
    match j
    case Array(items) => forall i | 0 <= i < |items| :: WellFormed(items[i])
    case Object(fields) => DistinctNames(fields) && forall i | 0 <= i < |fields| :: WellFormed(fields[i].value)
    case _ => true
  }

  predicate Sorted(fields: seq<Field>) {
    forall i, j | 0 <= i < j < |fields| :: !Less(fields[j].name, fields[i].name)
  }

  predicate CanonicalOrder(j: Json) {
    match j
    case Array(items) => forall i | 0 <= i < |items| :: CanonicalOrder(items[i])
    case Object(fields) => Sorted(fields) && forall i | 0 <= i < |fields| :: CanonicalOrder(fields[i].value)
    case _ => true
  }

  // ---------- sorting by key ----------

  function Insert(f: Field, fields: seq<Field>): (r: seq<Field>)
    ensures multiset(r) == multiset(fields) + multiset{f}
  {
    if fields == [] || Less(f.name, fields[0].name) then
      [f] + fields
    else
      assert fields == [fields[0]] + fields[1..];
      [fields[0]] + Insert(f, fields[1..])
  }

  // A stable sort by key, as `entries.sort_by`.
  function SortByKey(fields: seq<Field>): (r: seq<Field>)
    ensures multiset(r) == multiset(fields)
  {
    if fields == [] then [] else
      var n := |fields| - 1;
      assert fields == fields[..n] + [fields[n]];
      Insert(fields[n], SortByKey(fields[..n]))
  }

  lemma {:induction false} InsertSorted(f: Field, fields: seq<Field>)
    requires Sorted(fields)
    ensures Sorted(Insert(f, fields))
  {
    if fields == [] {
    } else if Less(f.name, fields[0].name) {
      forall j | 0 <= j < |fields| ensures !Less(fields[j].name, f.name) {
        if Less(fields[j].name, f.name) {
          LessTransitive(fields[j].name, f.name, fields[0].name);
          LessIrreflexive(fields[0].name);
        }
      }
    } else {
      var rest := Insert(f, fields[1..]);
      InsertSorted(f, fields[1..]);
      forall j | 0 <= j < |rest| ensures !Less(rest[j].name, fields[0].name) {
        assert rest[j] in multiset(rest);
        assert rest[j] == f || rest[j] in fields[1..];
      }
    }
  }

  lemma {:induction false} SortByKeySorts(fields: seq<Field>)
    ensures Sorted(SortByKey(fields))
  {
    if fields != [] {
      var n := |fields| - 1;
      SortByKeySorts(fields[..n]);
      InsertSorted(fields[n], SortByKey(fields[..n]));
    }
  }

  lemma SortKeepsMembers(fields: seq<Field>)
    ensures |SortByKey(fields)| == |fields|
    ensures forall f :: f in SortByKey(fields) <==> f in fields
  {
    assert |multiset(fields)| == |fields| && |multiset(SortByKey(fields))| == |SortByKey(fields)|;
    forall f ensures f in SortByKey(fields) <==> f in fields {
      assert f in SortByKey(fields) <==> f in multiset(SortByKey(fields));
    }
  }

  lemma {:induction false} InsertDistinct(f: Field, fields: seq<Field>)
    requires DistinctNames(fields) && forall i | 0 <= i < |fields| :: fields[i].name != f.name
    ensures DistinctNames(Insert(f, fields))
  {
    if fields != [] && !Less(f.name, fields[0].name) {
      var rest := Insert(f, fields[1..]);
      InsertDistinct(f, fields[1..]);
      forall j | 0 <= j < |rest| ensures rest[j].name != fields[0].name {
        assert rest[j] in multiset(rest);
        assert rest[j] == f || rest[j] in fields[1..];
      }
    }
  }

  lemma {:induction false} SortDistinct(fields: seq<Field>)
    requires DistinctNames(fields)
    ensures DistinctNames(SortByKey(fields))
  {
    if fields != [] {
      var n := |fields| - 1;
      var shorter := SortByKey(fields[..n]);
      SortDistinct(fields[..n]);
      SortKeepsMembers(fields[..n]);
      forall i | 0 <= i < |shorter| ensures shorter[i].name != fields[n].name {
        assert shorter[i] in fields[..n];
      }
      InsertDistinct(fields[n], shorter);
    }
  }

  // ---------- the canonical form ----------

  function Canonicalize(j: Json): (r: Json) {
    match j
    case Array(items) => Array(seq(|items|, i requires 0 <= i < |items| => Canonicalize(items[i])))
    case Object(fields) =>
      var sorted := SortByKey(fields);
      SortKeepsMembers(fields);
      assert forall i | 0 <= i < |sorted| :: sorted[i] in fields;
      Object(seq(|sorted|, i requires 0 <= i < |sorted| => Field(sorted[i].name, Canonicalize(sorted[i].value))))
    case other => other
  }

  function MeaningOfFields(fields: seq<Field>): (m: map<string, Tree>)
    ensures forall name :: name in m <==> exists i | 0 <= i < |fields| :: fields[i].name == name
  {
    if fields == [] then map[] else
      var n := |fields| - 1;
      MeaningOfFields(fields[..n])[fields[n].name := Meaning(fields[n].value)]
  }

  function Meaning(j: Json): Tree {
    match j
    case Array(items) => Items(seq(|items|, i requires 0 <= i < |items| => Meaning(items[i])))
    case Object(fields) => Members(MeaningOfFields(fields))
    case other => Leaf(other)
  }

  lemma {:induction false} MeaningAt(fields: seq<Field>, i: nat)
    requires DistinctNames(fields) && i < |fields|
    ensures fields[i].name in MeaningOfFields(fields) && MeaningOfFields(fields)[fields[i].name] == Meaning(fields[i].value)
  {
    var n := |fields| - 1;
    if i < n {
      MeaningAt(fields[..n], i);
      assert fields[..n][i] == fields[i];
    }
  }

  /** Two objects that hold the same members, with values of the same meaning, mean the same. */
  lemma SameMembersSameMeaning(a: seq<Field>, b: seq<Field>)
    requires DistinctNames(a) && DistinctNames(b) && forall f :: f in a <==> f in b
    ensures MeaningOfFields(a) == MeaningOfFields(b)
  {
    forall name | name in MeaningOfFields(a)
      ensures name in MeaningOfFields(b) && MeaningOfFields(b)[name] == MeaningOfFields(a)[name]
    {
      var i :| 0 <= i < |a| && a[i].name == name;
      assert a[i] in b;
      var k :| 0 <= k < |b| && b[k] == a[i];
      MeaningAt(a, i);
      MeaningAt(b, k);
    }
    forall name | name in MeaningOfFields(b) ensures name in MeaningOfFields(a) {
      var i :| 0 <= i < |b| && b[i].name == name;
      assert b[i] in a;
    }
  }

  predicate HasName(fields: seq<Field>, name: string) {
    exists i | 0 <= i < |fields| :: fields[i].name == name
  }

  function CanonicalField(f: Field): Field {
    Field(f.name, Canonicalize(f.value))
  }

  /** Canonicalising keeps every key and every value, and sorts every object. */
  lemma {:induction false} CanonicalizeKeepsMeaning(j: Json)
    requires WellFormed(j)
    ensures Meaning(Canonicalize(j)) == Meaning(j)
    ensures WellFormed(Canonicalize(j)) && CanonicalOrder(Canonicalize(j))
    decreases j
  {
    match j
    case Array(items) =>
      forall i | 0 <= i < |items| { CanonicalizeKeepsMeaning(items[i]); }
      assert Meaning(Canonicalize(j)).items == Meaning(j).items;
    case Object(fields) =>
      forall f | f in fields ensures GoodField(f) { CanonicalizeKeepsMeaning(f.value); }
      CanonicalFields(fields);
    case _ =>
  }

  ghost predicate GoodField(f: Field) {
    Meaning(Canonicalize(f.value)) == Meaning(f.value) &&
    WellFormed(Canonicalize(f.value)) && CanonicalOrder(Canonicalize(f.value))
  }

  lemma CanonicalFields(fields: seq<Field>)
    requires DistinctNames(fields) && forall f | f in fields :: GoodField(f)
    ensures Meaning(Canonicalize(Object(fields))) == Meaning(Object(fields))
    ensures WellFormed(Canonicalize(Object(fields))) && CanonicalOrder(Canonicalize(Object(fields)))
  {
    hide SortByKey, Less, MeaningOfFields;
    var sorted, out := SortByKey(fields), Canonicalize(Object(fields)).fields;
    SortKeepsMembers(fields);
    SortByKeySorts(fields);
    SortDistinct(fields);
    forall i | 0 <= i < |out| ensures out[i] == CanonicalField(sorted[i]) && GoodField(sorted[i]) {
      assert sorted[i] in fields;
    }
    MappedFieldsMeanTheSame(sorted, out);
    PermutedFieldsMeanTheSame(fields);
  }

  lemma {:induction false} MappedFieldsMeanTheSame(a: seq<Field>, b: seq<Field>)
    requires |a| == |b| && forall i | 0 <= i < |a| :: b[i].name == a[i].name && Meaning(b[i].value) == Meaning(a[i].value)
    ensures MeaningOfFields(a) == MeaningOfFields(b)
  {
    if a != [] {
      MappedFieldsMeanTheSame(a[..|a| - 1], b[..|a| - 1]);
    }
  }

  lemma PermutedFieldsMeanTheSame(fields: seq<Field>)
    requires DistinctNames(fields)
    ensures MeaningOfFields(SortByKey(fields)) == MeaningOfFields(fields)
  {
    SortKeepsMembers(fields);
    SortDistinct(fields);
    SameMembersSameMeaning(SortByKey(fields), fields);
  }

  /** Two strictly sorted lists of keys over the same set of keys are the same list. */
  lemma {:induction false} SortedNamesAgree(a: seq<Field>, b: seq<Field>)
    requires Sorted(a) && Sorted(b) && DistinctNames(a) && DistinctNames(b)
    requires forall name :: HasName(a, name) <==> HasName(b, name)
    ensures |a| == |b| && forall i | 0 <= i < |a| :: a[i].name == b[i].name
  {
    assert a != [] ==> HasName(a, a[0].name) && HasName(b, a[0].name);
    assert b != [] ==> HasName(b, b[0].name) && HasName(a, b[0].name);
    if a != [] && b != [] {
      var k :| 0 <= k < |b| && b[k].name == a[0].name;
      var m :| 0 <= m < |a| && a[m].name == b[0].name;
      LessTrichotomy(a[0].name, b[0].name);
      assert a[0].name == b[0].name;
      forall name ensures HasName(a[1..], name) <==> HasName(b[1..], name) {
        NameInTail(a, b, name);
        NameInTail(b, a, name);
      }
      SortedNamesAgree(a[1..], b[1..]);
      forall i | 0 <= i < |a| ensures a[i].name == b[i].name {
        if i > 0 { assert a[1..][i - 1].name == b[1..][i - 1].name; }
      }
    }
  }

  lemma NameInTail(a: seq<Field>, b: seq<Field>, name: string)
    requires DistinctNames(a) && DistinctNames(b) && a != [] && b != [] && a[0].name == b[0].name
    requires HasName(a, name) ==> HasName(b, name)
    ensures HasName(a[1..], name) ==> HasName(b[1..], name)
  {
    if HasName(a[1..], name) {
      var i :| 0 <= i < |a[1..]| && a[1..][i].name == name;
      assert a[i + 1].name == name;
      var k :| 0 <= k < |b| && b[k].name == name;
      assert a[0].name != a[i + 1].name;
      assert b[1..][k - 1].name == name;
    }
  }

  /** The canonical form depends on the meaning alone. */
  lemma {:induction false} CanonicalByMeaning(a: Json, b: Json)
    requires WellFormed(a) && WellFormed(b) && Meaning(a) == Meaning(b)
    ensures Canonicalize(a) == Canonicalize(b)
    decreases a
  {
    match a
    case Array(items) =>
      assert |items| == |Meaning(a).items| == |b.items|;
      forall i | 0 <= i < |items| ensures Canonicalize(items[i]) == Canonicalize(b.items[i]) {
        assert Meaning(a).items[i] == Meaning(b).items[i];
        CanonicalByMeaning(items[i], b.items[i]);
      }
      assert Canonicalize(a).items == Canonicalize(b).items;
    case Object(fields) =>
      SortedFieldsAgree(fields, b.fields);
      SortKeepsMembers(fields);
      SortKeepsMembers(b.fields);
      forall i | 0 <= i < |SortByKey(fields)|
        ensures CanonicalField(SortByKey(fields)[i]) == CanonicalField(SortByKey(b.fields)[i])
      {
        assert SortByKey(fields)[i] in fields && SortByKey(b.fields)[i] in b.fields;
        CanonicalByMeaning(SortByKey(fields)[i].value, SortByKey(b.fields)[i].value);
      }
      CanonicalObject(fields);
      CanonicalObject(b.fields);
      assert Canonicalize(a).fields == Canonicalize(b).fields;
    case _ =>
  }

  lemma SortedFieldsAgree(a: seq<Field>, b: seq<Field>)
    requires DistinctNames(a) && DistinctNames(b) && MeaningOfFields(a) == MeaningOfFields(b)
    ensures |SortByKey(a)| == |SortByKey(b)|
    ensures forall i | 0 <= i < |SortByKey(a)| :: SortByKey(a)[i].name == SortByKey(b)[i].name
    ensures forall i | 0 <= i < |SortByKey(a)| :: Meaning(SortByKey(a)[i].value) == Meaning(SortByKey(b)[i].value)
  {
    var sa, sb := SortByKey(a), SortByKey(b);
    SortByKeySorts(a);
    SortByKeySorts(b);
    SortDistinct(a);
    SortDistinct(b);
    PermutedFieldsMeanTheSame(a);
    PermutedFieldsMeanTheSame(b);
    forall name ensures HasName(sa, name) <==> HasName(sb, name) {
      assert HasName(sa, name) <==> name in MeaningOfFields(sa);
      assert HasName(sb, name) <==> name in MeaningOfFields(sb);
    }
    SortedNamesAgree(sa, sb);
    forall i | 0 <= i < |sa| ensures Meaning(sa[i].value) == Meaning(sb[i].value) {
      MeaningAt(sa, i);
      MeaningAt(sb, i);
    }
  }

  lemma CanonicalObject(fields: seq<Field>)
    ensures Canonicalize(Object(fields)).Object?
    ensures |Canonicalize(Object(fields)).fields| == |SortByKey(fields)|
    ensures forall i | 0 <= i < |SortByKey(fields)| :: Canonicalize(Object(fields)).fields[i] == CanonicalField(SortByKey(fields)[i])
  {
    SortKeepsMembers(fields);
  }

  /** Two values have the same canonical form exactly when they differ in key order alone; once is enough. */
  lemma CanonicalIffSameMeaning(a: Json, b: Json)
    requires WellFormed(a) && WellFormed(b)
    ensures Canonicalize(a) == Canonicalize(b) <==> Meaning(a) == Meaning(b)
    ensures Canonicalize(Canonicalize(a)) == Canonicalize(a)
  {
    CanonicalizeKeepsMeaning(a);
    CanonicalizeKeepsMeaning(b);
    if Meaning(a) == Meaning(b) { CanonicalByMeaning(a, b); }
    CanonicalByMeaning(Canonicalize(a), a);
  }
}
