/** The canonical form behind fingerprints: previews that differ in key order alone have the same fingerprint. */
module Fingerprints {
  import opened JsonTree
  import opened Model
  import opened Text

  // ---------- values that are in order already ----------

  lemma {:induction false} InsertLast(f: Field, fields: seq<Field>)
    requires forall i | 0 <= i < |fields| :: !Less(f.name, fields[i].name)
    ensures Insert(f, fields) == fields + [f]
  {
    if fields != [] {
      InsertLast(f, fields[1..]);
      assert fields == [fields[0]] + fields[1..];
    }
  }

  lemma {:induction false} SortedStays(fields: seq<Field>)
    requires Sorted(fields)
    ensures SortByKey(fields) == fields
  {
    hide Less, Insert;
    if fields != [] {
      var n := |fields| - 1;
      assert forall i | 0 <= i < n :: fields[..n][i] == fields[i];
      SortedStays(fields[..n]);
      InsertLast(fields[n], fields[..n]);
      assert fields == fields[..n] + [fields[n]];
    }
  }

  /** The library keeps the keys of an object in order, so that what it holds is its own canonical form. */
  lemma {:induction false} OrderedIsCanonical(j: Json)
    requires CanonicalOrder(j)
    ensures Canonicalize(j) == j
    decreases j
  {
    match j
    case Array(items) =>
      forall i | 0 <= i < |items| ensures Canonicalize(items[i]) == items[i] { OrderedIsCanonical(items[i]); }
      assert Canonicalize(j).items == items;
    case Object(fields) =>
      SortedStays(fields);
      forall i | 0 <= i < |fields| ensures CanonicalField(fields[i]) == fields[i] { OrderedIsCanonical(fields[i].value); }
      CanonicalObject(fields);
      assert Canonicalize(j).fields == fields;
    case _ =>
  }

  // ---------- previews ----------

  function CanonicalValue(v: EntryValue): EntryValue {
    match v
    case JsonValue(json) => JsonValue(Canonicalize(json))
    case Markdown(_) => v
  }

  function CanonicalCandidate(c: Candidate): Candidate {
    c.(entry := c.entry.(value := CanonicalValue(c.entry.value), metadata := Canonicalize(c.entry.metadata)))
  }

  function CanonicalCandidates(cs: seq<Candidate>): seq<Candidate> {
    seq(|cs|, i requires 0 <= i < |cs| => CanonicalCandidate(cs[i]))
  }

  // What is hashed: the actor, and the preview with every object in canonical order.
  function CanonicalFingerprint(actor: string, p: Preview): Fingerprint {
    Fingerprint(actor, p.(candidates := CanonicalCandidates(p.candidates)))
  }

  predicate WellFormedCandidate(c: Candidate) {
    WellFormed(c.entry.metadata) && (c.entry.value.JsonValue? ==> WellFormed(c.entry.value.json))
  }

  predicate OrderedCandidate(c: Candidate) {
    CanonicalOrder(c.entry.metadata) && (c.entry.value.JsonValue? ==> CanonicalOrder(c.entry.value.json))
  }

  // The candidates differ in the order of keys at most.
  predicate SameCandidate(c: Candidate, d: Candidate) {
    c.(entry := d.entry) == d && c.entry.(value := d.entry.value, metadata := d.entry.metadata) == d.entry &&
    Meaning(c.entry.metadata) == Meaning(d.entry.metadata) &&
    if c.entry.value.JsonValue? && d.entry.value.JsonValue? then Meaning(c.entry.value.json) == Meaning(d.entry.value.json)
    else c.entry.value == d.entry.value
  }

  predicate SamePreview(p: Preview, q: Preview) {
    p.(candidates := q.candidates) == q && |p.candidates| == |q.candidates| &&
    forall i | 0 <= i < |p.candidates| :: SameCandidate(p.candidates[i], q.candidates[i])
  }

  lemma CandidatesTell(c: Candidate, d: Candidate)
    requires WellFormedCandidate(c) && WellFormedCandidate(d)
    ensures CanonicalCandidate(c) == CanonicalCandidate(d) <==> SameCandidate(c, d)
  {
    hide Canonicalize, Meaning;
    CanonicalIffSameMeaning(c.entry.metadata, d.entry.metadata);
    if c.entry.value.JsonValue? && d.entry.value.JsonValue? { CanonicalIffSameMeaning(c.entry.value.json, d.entry.value.json); }
  }

  /** Two previews have the same fingerprint exactly if actor and content agree, the order of keys aside. */
  lemma FingerprintIgnoresKeyOrder(actor: string, p: Preview, actor': string, q: Preview)
    requires (forall i | 0 <= i < |p.candidates| :: WellFormedCandidate(p.candidates[i])) &&
             forall i | 0 <= i < |q.candidates| :: WellFormedCandidate(q.candidates[i])
    ensures CanonicalFingerprint(actor, p) == CanonicalFingerprint(actor', q) <==> actor == actor' && SamePreview(p, q)
  {
    hide CanonicalCandidate, SameCandidate, WellFormedCandidate;
    var a, b := CanonicalCandidates(p.candidates), CanonicalCandidates(q.candidates);
    forall i | 0 <= i < |a| && i < |b| ensures a[i] == b[i] <==> SameCandidate(p.candidates[i], q.candidates[i]) {
      CandidatesTell(p.candidates[i], q.candidates[i]);
    }
    assert a == b <==> |a| == |b| && forall i | 0 <= i < |a| :: a[i] == b[i];
  }

  /** Of what the library holds, the fingerprint is the preview itself: this is what the store compares. */
  lemma FingerprintIsPreview(actor: string, p: Preview)
    requires forall i | 0 <= i < |p.candidates| :: OrderedCandidate(p.candidates[i])
    ensures CanonicalFingerprint(actor, p) == Fingerprint(actor, p)
  {
    forall i | 0 <= i < |p.candidates| ensures CanonicalCandidate(p.candidates[i]) == p.candidates[i] {
      var e := p.candidates[i].entry;
      assert OrderedCandidate(p.candidates[i]);
      OrderedIsCanonical(e.metadata);
      if e.value.JsonValue? { OrderedIsCanonical(e.value.json); }
    }
    assert CanonicalCandidates(p.candidates) == p.candidates;
  }
}
