/** When the content hash, which decides duplicates outside Strict mode, tells entries apart. */
module HashLaws {
  import opened Prelude
  import opened JsonTree
  import opened JsonText
  import opened Model
  import opened Database
  import opened Operations
  import opened Invariant
  import Text

  // ---------- what equal hashes say ----------

  lemma LettersTell(a: string, b: string)
    requires Letters(a) == Letters(b)
    ensures a == b
  {
    assert |a| == |Letters(a)| == |b|;
    forall i | 0 <= i < |a| ensures a[i] == b[i] { assert Letters(a)[i] == Letters(b)[i]; }
  }

  // The digest is the one symbol that is no letter, so it stands at the same place in equal hashes.
  lemma HashParts(a: string, p: Symbol, b: string, c: string, q: Symbol, d: string)
    requires p.Digest? && q.Digest? && Letters(a) + [p] + Letters(b) == Letters(c) + [q] + Letters(d)
    ensures a == c && p == q && b == d
  {
    var s, t := Letters(a) + [p] + Letters(b), Letters(c) + [q] + Letters(d);
    assert s[|a|] == p && t[|c|] == q;
    assert forall i | 0 <= i < |t| && i != |c| :: t[i].Letter?;
    assert |a| == |c|;
    assert s[..|a|] == Letters(a) && t[..|c|] == Letters(c);
    assert s[|a| + 1..] == Letters(b) && t[|c| + 1..] == Letters(d);
    LettersTell(a, c);
    LettersTell(b, d);
  }

  /** Two hashes are equal exactly if the texts before the digest, the digests, and the texts behind it are. */
  lemma HashTells(a: EntryInput, b: EntryInput)
    ensures ContentHash(a) == ContentHash(b) <==>
            Text.Trim(a.key) + Text.Trim(a.kind) + TrimmedTitle(a) == Text.Trim(b.key) + Text.Trim(b.kind) + TrimmedTitle(b) &&
            NormalizedText(a.value) == NormalizedText(b.value) &&
            TrimmedTags(a.tags) + Print(a.metadata) == TrimmedTags(b.tags) + Print(b.metadata)
  {
    hide Text.Trim, TrimmedTitle, TrimmedTags, NormalizedText, Letters, Print;
    if ContentHash(a) == ContentHash(b) {
      HashParts(Text.Trim(a.key) + Text.Trim(a.kind) + TrimmedTitle(a), NormalizedHash(a.value), TrimmedTags(a.tags) + Print(a.metadata),
                Text.Trim(b.key) + Text.Trim(b.kind) + TrimmedTitle(b), NormalizedHash(b.value), TrimmedTags(b.tags) + Print(b.metadata));
    }
  }

  // ---------- when equal hashes mean equal content ----------

  predicate TightTags(tags: seq<string>) {
    forall i | 0 <= i < |tags| :: Text.Tight(tags[i])
  }

  // What separators and the lock, had they been hashed, would have told.
  function Conditions(a: EntryInput, b: EntryInput): seq<bool> {
    [|a.kind| == |b.kind|,
     a.title.Some? == b.title.Some?,
     |a.tags| == |b.tags|,
     forall i | 0 <= i < |a.tags| && i < |b.tags| :: |a.tags[i]| == |b.tags[i]|,
     a.locked == b.locked,
     Text.Tight(a.kind) && Text.Tight(b.kind),
     (a.title.Some? ==> Text.Tight(a.title.value)) && (b.title.Some? ==> Text.Tight(b.title.value)),
     (a.value.Markdown? ==> Text.Tight(a.value.body)) && (b.value.Markdown? ==> Text.Tight(b.value.body)),
     TightTags(a.tags) && TightTags(b.tags)]
  }

  predicate Comparable(a: EntryInput, b: EntryInput) {
    forall i | 0 <= i < |Conditions(a, b)| :: Conditions(a, b)[i]
  }

  lemma ComparableMeans(a: EntryInput, b: EntryInput)
    requires Comparable(a, b)
    ensures |a.kind| == |b.kind| && a.title.Some? == b.title.Some? && a.locked == b.locked && |a.tags| == |b.tags|
    ensures forall i | 0 <= i < |a.tags| :: |a.tags[i]| == |b.tags[i]|
    ensures Text.Tight(a.kind) && Text.Tight(b.kind) && TightTags(a.tags) && TightTags(b.tags)
    ensures a.title.Some? ==> Text.Tight(a.title.value) && Text.Tight(b.title.value)
    ensures (a.value.Markdown? ==> Text.Tight(a.value.body)) && (b.value.Markdown? ==> Text.Tight(b.value.body))
  {
    var cs := Conditions(a, b);
    assert cs[0] && cs[1] && cs[2] && cs[3] && cs[4] && cs[5] && cs[6] && cs[7] && cs[8];
  }

  lemma ValueTells(v: EntryValue, w: EntryValue)
    requires NormalizedText(v) == NormalizedText(w)
    requires (v.Markdown? ==> Text.Tight(v.body)) && (w.Markdown? ==> Text.Tight(w.body))
    ensures v == w
  {
    assert NormalizedText(v)[0] == if v.Markdown? then 'm' else 'j';
    assert NormalizedText(w)[0] == if w.Markdown? then 'm' else 'j';
    hide Text.Trim, Print;
    if v.Markdown? {
      Text.TrimIsTight(v.body);
      Text.TrimIsTight(w.body);
      Behind("markdown:", v.body, w.body);
    } else {
      Behind("json:", Print(v.json), Print(w.json));
      PrintTells(v.json, w.json);
    }
  }

  // Tags of the same lengths take up the same room, and can be told from the text they make.
  lemma {:induction false} TagsTell(a: seq<string>, b: seq<string>)
    requires |a| == |b| && TightTags(a) && TightTags(b) && forall i | 0 <= i < |a| :: |a[i]| == |b[i]|
    ensures |TrimmedTags(a)| == |TrimmedTags(b)| && (TrimmedTags(a) == TrimmedTags(b) ==> a == b)
  {
    hide Text.Trim, Text.Tight;
    if a != [] {
      var n := |a| - 1;
      TagsTell(a[..n], b[..n]);
      Text.TrimIsTight(a[n]);
      Text.TrimIsTight(b[n]);
      var s, t := TrimmedTags(a), TrimmedTags(b);
      assert s[..|s| - |a[n]|] == TrimmedTags(a[..n]) && t[..|t| - |b[n]|] == TrimmedTags(b[..n]);
      assert s[|s| - |a[n]|..] == a[n] && t[|t| - |b[n]|..] == b[n];
      assert a == a[..n] + [a[n]] && b == b[..n] + [b[n]];
    }
  }

  lemma SameSplit(a: string, x: string, b: string, y: string)
    requires a + x == b + y && |a| == |b|
    ensures a == b && x == y
  {
    assert a == (a + x)[..|a|] && b == (b + y)[..|a|];
    Behind(a, x, y);
  }

  /**
   Of two entries under one key that are comparable, equal hash means equal content, and the other way round.
   Comparable: kinds, titles and tags of the same lengths and number, locks alike, and no white space around
   any of the hashed fields.
   */
  lemma HashMeansContent(a: EntryInput, b: EntryInput)
    requires a.key == b.key && Comparable(a, b)
    ensures ContentHash(a) == ContentHash(b) <==> SameContent(a, b)
  {
    if ContentHash(a) == ContentHash(b) {
      HashTells(a, b);
      ComparableMeans(a, b);
      hide Comparable, ContentHash, TrimmedTags, Text.Trim, Text.Tight, Print, NormalizedText;
      ValueTells(a.value, b.value);
      TagsTell(a.tags, b.tags);
      SameSplit(TrimmedTags(a.tags), Print(a.metadata), TrimmedTags(b.tags), Print(b.metadata));
      PrintTells(a.metadata, b.metadata);
      FrontTells(a, b);
    } else if SameContent(a, b) {
      SameContentSameHash(a, b);
    }
  }

  lemma FrontTells(a: EntryInput, b: EntryInput)
    requires a.key == b.key && |a.kind| == |b.kind| && Text.Tight(a.kind) && Text.Tight(b.kind) && a.title.Some? == b.title.Some?
    requires a.title.Some? ==> Text.Tight(a.title.value) && Text.Tight(b.title.value)
    requires Text.Trim(a.key) + Text.Trim(a.kind) + TrimmedTitle(a) == Text.Trim(b.key) + Text.Trim(b.kind) + TrimmedTitle(b)
    ensures a.kind == b.kind && a.title == b.title
  {
    Text.TrimIsTight(a.kind);
    Text.TrimIsTight(b.kind);
    if a.title.Some? {
      Text.TrimIsTight(a.title.value);
      Text.TrimIsTight(b.title.value);
    }
    hide Text.Trim, Text.Tight;
    var k := Text.Trim(a.key);
    SameSplit(k + a.kind, TrimmedTitle(a), k + b.kind, TrimmedTitle(b));
    Behind(k, a.kind, b.kind);
  }

  /** What the store asks then comes to the same, whether it compares hashes or contents. */
  lemma HashDuplicateIsExact(db: DB, k: EntryKey, entry: EntryInput, mode: ReviewMode)
    requires Valid(db) && k in db.entries && entry.key == k.key && Comparable(InputOf(db.entries[k].record), entry)
    ensures IsDuplicate(GetEntry(db, k), entry, mode, false) <==> IsDuplicate(GetEntry(db, k), entry, mode, true)
  {
    assert HashCurrent(db.entries[k]);
    HashMeansContent(InputOf(db.entries[k].record), entry);
  }

  // ---------- with the digits of the value digest written out ----------

  const DIGEST_LENGTH := 64

  // A digest function as far as two texts are concerned: fixed length, no white space, and no collision of the two.
  ghost predicate Digests(digest: string -> string, s: string, t: string) {
    |digest(s)| == |digest(t)| == DIGEST_LENGTH && (digest(s) == digest(t) ==> s == t) &&
    forall i | 0 <= i < DIGEST_LENGTH :: !Text.IsSpace(digest(s)[i]) && !Text.IsSpace(digest(t)[i])
  }

  // The very text the hasher is fed.
  function SpelledHash(digest: string -> string, e: EntryInput): string {
    (Text.Trim(e.key) + Text.Trim(e.kind) + TrimmedTitle(e)) + (digest(NormalizedText(e.value)) + (TrimmedTags(e.tags) + Print(e.metadata)))
  }

  /** The same holds of the very text that is hashed, if the titles are of one length as well. */
  lemma SpelledHashMeansContent(digest: string -> string, a: EntryInput, b: EntryInput)
    requires a.key == b.key && Comparable(a, b) && Digests(digest, NormalizedText(a.value), NormalizedText(b.value))
    requires a.title.Some? && b.title.Some? ==> |a.title.value| == |b.title.value|
    ensures SpelledHash(digest, a) == SpelledHash(digest, b) <==> SameContent(a, b)
  {
    if SpelledHash(digest, a) == SpelledHash(digest, b) {
      ComparableMeans(a, b);
      FrontsAsLong(a, b);
      hide Comparable, ContentHash, TrimmedTags, TrimmedTitle, Text.Trim, Text.Tight, Print, NormalizedText, Letters;
      var x, y := TrimmedTags(a.tags) + Print(a.metadata), TrimmedTags(b.tags) + Print(b.metadata);
      SameSplit(Text.Trim(a.key) + Text.Trim(a.kind) + TrimmedTitle(a), digest(NormalizedText(a.value)) + x,
                Text.Trim(b.key) + Text.Trim(b.kind) + TrimmedTitle(b), digest(NormalizedText(b.value)) + y);
      SameSplit(digest(NormalizedText(a.value)), x, digest(NormalizedText(b.value)), y);
      HashTells(a, b);
      HashMeansContent(a, b);
    }
  }

  lemma FrontsAsLong(a: EntryInput, b: EntryInput)
    requires a.key == b.key && |a.kind| == |b.kind| && Text.Tight(a.kind) && Text.Tight(b.kind) && a.title.Some? == b.title.Some?
    requires a.title.Some? ==> Text.Tight(a.title.value) && Text.Tight(b.title.value) && |a.title.value| == |b.title.value|
    ensures |Text.Trim(a.key) + Text.Trim(a.kind) + TrimmedTitle(a)| == |Text.Trim(b.key) + Text.Trim(b.kind) + TrimmedTitle(b)|
  {
    Text.TrimIsTight(a.kind);
    Text.TrimIsTight(b.kind);
    if a.title.Some? {
      Text.TrimIsTight(a.title.value);
      Text.TrimIsTight(b.title.value);
    }
    hide Text.Trim, Text.Tight;
  }

  /** And that is needed: a title and a tag may spell out digests, and make entries with different values hash alike. */
  lemma SpelledDigestsCollide(digest: string -> string, key: string, body: string, body': string)
    requires body != body' && Text.Tight(body) && Text.Tight(body')
    requires Digests(digest, NormalizedText(Markdown(body)), NormalizedText(Markdown(body')))
    ensures var d, d' := digest(NormalizedText(Markdown(body))), digest(NormalizedText(Markdown(body')));
            var a := EntryInput(key, Some(""), "a", Markdown(body), [d'], EMPTY_OBJECT, false, None);
            var b := EntryInput(key, Some(d), "a", Markdown(body'), [], EMPTY_OBJECT, false, None);
            SpelledHash(digest, a) == SpelledHash(digest, b) && !SameContent(a, b)
  {
    var d, d' := digest(NormalizedText(Markdown(body))), digest(NormalizedText(Markdown(body')));
    Padded("");
    Padded(d);
    Padded(d');
    OneTag(d');
    hide Text.Trim, NormalizedText, Print, TrimmedTags;
    TitleIsDigest(Text.Trim(key) + Text.Trim("a"), d, d', Print(EMPTY_OBJECT));
  }

  lemma TitleIsDigest(k: string, d: string, d': string, m: string)
    ensures k + "" + (d + (d' + m)) == k + d + (d' + ("" + m))
  {
    assert k + "" == k && "" + m == m;
  }

  // ---------- none of the conditions can be spared ----------

  function Sample(key: string, title: Option<string>, kind: string, body: string, tags: seq<string>, locked: bool): EntryInput {
    EntryInput(key, title, kind, Markdown(body), tags, EMPTY_OBJECT, locked, None)
  }

  // Two entries that meet every condition but one.
  function Pair(key: string, i: nat): (EntryInput, EntryInput) {
    match i
    case 0 => (Sample(key, Some("c"), "ab", "", [], false), Sample(key, Some("bc"), "a", "", [], false))
    case 1 => (Sample(key, None, "a", "", [], false), Sample(key, Some(""), "a", "", [], false))
    case 2 => (Sample(key, None, "a", "", [], false), Sample(key, None, "a", "", [""], false))
    case 3 => (Sample(key, None, "a", "", ["b", "cd"], false), Sample(key, None, "a", "", ["bc", "d"], false))
    case 4 => (Sample(key, None, "a", "", [], false), Sample(key, None, "a", "", [], true))
    case 5 => (Sample(key, None, "a ", "", [], false), Sample(key, None, " a", "", [], false))
    case 6 => (Sample(key, Some("b "), "a", "", [], false), Sample(key, Some(" b"), "a", "", [], false))
    case 7 => (Sample(key, None, "a", " ", [], false), Sample(key, None, "a", "", [], false))
    case _ => (Sample(key, None, "a", "", ["b "], false), Sample(key, None, "a", "", [" b"], false))
  }

  /**
   Fields are hashed without separators and trimmed, and the lock is not hashed: under every key there are, for
   each of the conditions, two valid entries that meet all the others and hash alike, but differ.
   */
  lemma NoConditionSpared(key: string, i: nat)
    requires !Text.Blank(key) && i < 9
    ensures var (a, b) := Pair(key, i);
            a.key == key && b.key == key && InputValid(a) && InputValid(b) && !SameContent(a, b) && ContentHash(a) == ContentHash(b) &&
            |Conditions(a, b)| == 9 && forall j | 0 <= j < 9 && j != i :: Conditions(a, b)[j]
  {
    hide ContentHash, Text.Trim, Conditions, Text.Blank;
    PairHashesAlike(key, i);
    PairConditions(key, i);
    PairValid(key, i);
  }

  /** For instance, whatever the body: where the kind ends and the title begins does not show. */
  lemma EqualHashIsNotSameContent(key: string, body: string)
    ensures exists a: EntryInput, b: EntryInput ::
      a.key == key && b.key == key && a.kind != b.kind && a.title != b.title &&
      ContentHash(a) == ContentHash(b) && !SameContent(a, b)
  {
    var a, b := Sample(key, Some("c"), "ab", body, [], false), Sample(key, Some("bc"), "a", body, [], false);
    HashTells(a, b);
    Shifted(Text.Trim(key));
    hide ContentHash, Text.Trim;
    assert a.kind != b.kind;
  }

  lemma PairValid(key: string, i: nat)
    requires !Text.Blank(key)
    ensures InputValid(Pair(key, i).0) && InputValid(Pair(key, i).1)
  {
    Padded("a");
    Padded("ab");
    hide Text.Trim;
  }

  lemma PairConditions(key: string, i: nat)
    requires i < 9
    ensures var (a, b) := Pair(key, i); |Conditions(a, b)| == 9 && forall j | 0 <= j < 9 && j != i :: Conditions(a, b)[j]
  {
    hide Text.IsSpace;
    NoSpaces();
    var (a, b) := Pair(key, i);
    forall j | 0 <= j < 9 && j != i ensures Conditions(a, b)[j] { }
  }

  lemma NoSpaces()
    ensures !Text.IsSpace('a') && !Text.IsSpace('b') && !Text.IsSpace('c') && !Text.IsSpace('d')
  {
  }

  lemma PairHashesAlike(key: string, i: nat)
    ensures ContentHash(Pair(key, i).0) == ContentHash(Pair(key, i).1)
  {
    var (a, b) := Pair(key, i);
    HashTells(a, b);
    hide Text.Trim, ContentHash, Print, TrimmedTags;
    Padded("");
    match i {
      case 0 => Shifted(Text.Trim(key));
      case 2 => OneTag("");
      case 3 => TwoTags();
      case 5 => assert "a" + " " == "a " && " " + "a" == " a"; Padded("a");
      case 6 => assert "b" + " " == "b " && " " + "b" == " b"; Padded("b");
      case 7 => assert "" + " " == " "; Padded("");
      case 1 =>
      case 4 =>
      case _ => assert "b" + " " == "b " && " " + "b" == " b"; Padded("b"); OneTag("b "); OneTag(" b");
    }
  }

  lemma Shifted(k: string)
    ensures k + Text.Trim("ab") + Text.Trim("c") == k + Text.Trim("a") + Text.Trim("bc")
  {
    Padded("a");
    Padded("ab");
    Padded("c");
    Padded("bc");
    hide Text.Trim;
    assert "ab" + "c" == "a" + "bc";
    assert k + "ab" + "c" == k + ("ab" + "c") && k + "a" + "bc" == k + ("a" + "bc");
  }

  lemma OneTag(t: string)
    ensures TrimmedTags([t]) == Text.Trim(t) && TrimmedTags([]) == ""
  {
    hide Text.Trim;
    assert [t][..0] == [];
    assert TrimmedTags([]) + Text.Trim(t) == Text.Trim(t);
  }

  lemma TwoTags()
    ensures TrimmedTags(["b", "cd"]) == TrimmedTags(["bc", "d"])
  {
    Padded("b");
    Padded("bc");
    Padded("cd");
    Padded("d");
    hide Text.Trim;
    OneTag("b");
    OneTag("bc");
    assert ["b", "cd"][..1] == ["b"] && ["bc", "d"][..1] == ["bc"];
    assert "b" + "cd" == "bc" + "d";
  }

  // A text without white space, and the same text with a space on one side.
  lemma Padded(t: string)
    requires forall i | 0 <= i < |t| :: !Text.IsSpace(t[i])
    ensures Text.Trim(t) == t && Text.Trim(t + " ") == t && Text.Trim(" " + t) == t
  {
    Text.TrimIsTight(t);
    Text.TrimPadded("", t, " ");
    Text.TrimPadded(" ", t, "");
    assert "" + t + " " == t + " " && " " + t + "" == " " + t;
  }
}
