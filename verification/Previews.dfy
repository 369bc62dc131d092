/** What a source import shows before it is applied, and what its report says afterwards. */
module Previews {
  import opened Prelude
  import opened Model
  import opened Database
  import opened Operations
  import opened SourceImport
  import opened Invariant
  import opened Growth
  import opened Writes
  import opened Governance
  import opened Runs
  import opened Effects
  import opened Requests
  import opened Commits
  import opened ImportLaws
  import opened ImportLog
  import Text

  // ---------- the preview ----------

  function Destination(req: ImportRequest): PackKey {
    PackMeant(req.destination, if req.packName.Some? then req.packName.value else "main")
  }

  function ShownFirst(req: ImportRequest, e: EntryInput): Write
    requires e.provenance.Some?
  {
    ShownEntryWrite(EntryKey(Destination(req), e.key), req.actor, e, e.provenance.value, None, None)
  }

  predicate ParsedGood(db: DB, req: ImportRequest, p: ParsedCandidate) {
    InputValid(p.entry) && p.entry.provenance.Some? && !db.scan(ShownFirst(req, p.entry))
  }

  // What an import needs: who does it, where it goes, and at least one candidate, each valid and passed by the scanner.
  predicate ImportGiven(db: DB, req: ImportRequest) {
    !Text.Blank(req.actor) && ScopeGiven(req.destination) && !Text.Blank(Destination(req).name) && req.parsed != [] &&
    forall i | 0 <= i < |req.parsed| :: ParsedGood(db, req, req.parsed[i])
  }

  // New if no active entry has the key, identical if one says exactly the same, and else differing.
  predicate Compares(db: DB, key: EntryKey, e: EntryInput, d: ImportDisposition) {
    match d
    case New => !ActiveAt(db, key)
    case Identical => ActiveAt(db, key) && SameContent(InputOf(db.entries[key].record), e)
    case Differing => ActiveAt(db, key) && !SameContent(InputOf(db.entries[key].record), e)
  }

  // A candidate shows what was parsed, the entry there is, and how the two compare.
  predicate CandidateShows(db: DB, pack: PackKey, i: nat, p: ParsedCandidate, c: Candidate) {
    var key := EntryKey(pack, p.entry.key);
    c.index == i && c.documentIndex == p.documentIndex && c.sourcePath == p.sourcePath && c.sourceKind == p.sourceKind && c.entry == p.entry &&
    Compares(db, key, p.entry, c.disposition) &&
    c.existingId == (if key in db.entries then Some(db.entries[key].record.id) else None) &&
    c.existingRevision == (if key in db.entries then Some(db.entries[key].record.revisionNo) else None)
  }

  // What a candidate is warned about: what the parser says, then what is there already, then what its pack will not take.
  ghost predicate WarnedOf(db: DB, pack: PackKey, p: ParsedCandidate, c: Candidate) {
    |c.warnings| >= |p.warnings| && (forall i | 0 <= i < |p.warnings| :: c.warnings[i] == FromParser(p.warnings[i])) &&
    c.warnings[|p.warnings|..] ==
      (match c.disposition case New => [] case Identical => [IdenticalExists] case Differing => [OtherContentExists]) +
      PackWarnings(db, pack, c.disposition.Identical?)
  }

  function PackWarnings(db: DB, pack: PackKey, nothingNew: bool): seq<Warning> {
    if ArchivedAt(db, pack) then [PackIsArchived]
    else if pack in db.packs && db.packs[pack].locked && !nothingNew then [PackIsLocked] else []
  }

  lemma CandidateBuilt(db: DB, req: ImportRequest, i: nat, p: ParsedCandidate)
    ensures var pack := Destination(req); var r := BuildCandidate(db, req.actor, pack, GovernanceOf(db, pack), i, p);
            (r.Ok? <==> ParsedGood(db, req, p)) &&
            (r.Ok? ==> CandidateShows(db, pack, i, p, r.value))
  {
    hide InputValid, SameContent, CandidateWarnings;
  }

  lemma CandidateWarned(db: DB, req: ImportRequest, i: nat, p: ParsedCandidate)
    ensures var pack := Destination(req); var r := BuildCandidate(db, req.actor, pack, GovernanceOf(db, pack), i, p);
            r.Ok? ==> WarnedOf(db, pack, p, r.value)
  {
    hide InputValid, SameContent, Classify, CandidateWarnings, PackWarnings;
    var pack := Destination(req);
    var r := BuildCandidate(db, req.actor, pack, GovernanceOf(db, pack), i, p);
    if r.Ok? { WarningsAre(db, pack, p.warnings, r.value.disposition); }
  }

  lemma WarningsAre(db: DB, pack: PackKey, parsed: seq<string>, d: ImportDisposition)
    ensures var ws := CandidateWarnings(parsed, d, GovernanceOf(db, pack));
            |ws| >= |parsed| && (forall i | 0 <= i < |parsed| :: ws[i] == FromParser(parsed[i])) &&
            ws[|parsed|..] == (match d case New => [] case Identical => [IdenticalExists] case Differing => [OtherContentExists]) +
                              PackWarnings(db, pack, d.Identical?)
  {
  }

  lemma {:induction false} CandidatesBuilt(db: DB, req: ImportRequest, parsed: seq<ParsedCandidate>)
    ensures BuildCandidates(db, req.actor, Destination(req), GovernanceOf(db, Destination(req)), parsed).Ok? <==>
            forall i | 0 <= i < |parsed| :: ParsedGood(db, req, parsed[i])
  {
    hide BuildCandidate, ParsedGood, Destination, GovernanceOf;
    if parsed != [] {
      var n := |parsed| - 1;
      CandidatesBuilt(db, req, parsed[..n]);
      CandidateBuilt(db, req, n, parsed[n]);
      assert forall i | 0 <= i < n :: parsed[..n][i] == parsed[i];
      LastGood(db, req, parsed);
    }
  }

  lemma LastGood(db: DB, req: ImportRequest, parsed: seq<ParsedCandidate>)
    requires parsed != []
    ensures var n := |parsed| - 1;
            (forall i | 0 <= i < |parsed| :: ParsedGood(db, req, parsed[i])) <==>
            (forall i | 0 <= i < n :: ParsedGood(db, req, parsed[..n][i])) && ParsedGood(db, req, parsed[n])
  {
    hide ParsedGood;
    assert forall i | 0 <= i < |parsed| - 1 :: parsed[..|parsed| - 1][i] == parsed[i];
  }

  lemma Prepared(req: ImportRequest)
    ensures Prepare(req) == if !Text.Blank(req.actor) && ScopeGiven(req.destination) && !Text.Blank(Destination(req).name) && req.parsed != []
                            then Ok(Destination(req)) else Err(Validation)
  {
    hide Text.Blank, Normalize;
    ScopeRead(req.destination);
  }

  // What a preview shows of policy and destination, and when it may be applied: to a pack that takes writes, no key twice.
  ghost predicate PreviewShows(db: DB, req: ImportRequest, p: Preview) {
    var pack := Destination(req);
    p.destination == pack.scope && p.packName == pack.name && p.mode == db.policy.mode &&
    p.pack == (if pack in db.packs
               then PackGovernance(true, Some(db.packs[pack].status), db.packs[pack].locked, db.packs[pack].lockReason, Some(db.packs[pack].revisionNo))
               else PackGovernance(false, None, false, None, None)) &&
    |p.candidates| == |req.parsed| &&
    (p.applyAllowed <==> !ArchivedAt(db, pack) &&
                         forall i, j | 0 <= i < j < |req.parsed| :: req.parsed[i].entry.key != req.parsed[j].entry.key)
  }

  // Its own warnings: what the parser says, then which keys are given twice, then what the pack will not take.
  ghost predicate PreviewWarns(db: DB, req: ImportRequest, p: Preview) {
    var pack, n := Destination(req), |req.parserWarnings|;
    |p.warnings| >= n && (forall i | 0 <= i < n :: p.warnings[i] == FromParser(req.parserWarnings[i])) &&
    exists keys: set<string> ::
      (forall key :: key in keys <==> exists i, j | 0 <= i < j < |req.parsed| :: req.parsed[i].entry.key == key && req.parsed[j].entry.key == key) &&
      p.warnings[n..] == (if keys != {} then [SharedKeys(keys)] else []) +
                         PackWarnings(db, pack, forall i | 0 <= i < |p.candidates| :: p.candidates[i].disposition.Identical?)
  }

  // The candidates and the parts of a preview, as they are put together.
  lemma PreviewParts(db: DB, req: ImportRequest)
    requires Prepare(req) == Ok(Destination(req))
    ensures var pack := Destination(req);
            var cs := BuildCandidates(db, req.actor, pack, GovernanceOf(db, pack), req.parsed);
            (PreviewImport(db, req).Ok? <==> cs.Ok?) &&
            (cs.Ok? ==>
              var p := PreviewImport(db, req).value;
              p == Preview(pack.scope, pack.name, db.policy.mode, GovernanceOf(db, pack), cs.value, p.warnings, p.applyAllowed) &&
              (p.applyAllowed <==> RepeatedKeys(cs.value) == {} && !ArchivedAt(db, pack)) &&
              p.warnings == FromParserAll(req.parserWarnings) +
                            ((if RepeatedKeys(cs.value) != {} then [SharedKeys(RepeatedKeys(cs.value))] else []) +
                             PackWarnings(db, pack, AllIdentical(cs.value))))
  {
    hide Prepare, BuildCandidates, Destination, RepeatedKeys, AllIdentical, FromParserAll;
    var pack := Destination(req);
    var cs := BuildCandidates(db, req.actor, pack, GovernanceOf(db, pack), req.parsed);
    if cs.Ok? {
      Regroup(FromParserAll(req.parserWarnings), if RepeatedKeys(cs.value) != {} then [SharedKeys(RepeatedKeys(cs.value))] else [],
              PackWarnings(db, pack, AllIdentical(cs.value)));
    }
  }

  lemma Regroup(a: seq<Warning>, b: seq<Warning>, c: seq<Warning>)
    ensures a + b + c == a + (b + c)
  {
  }

  lemma KeysRepeated(parsed: seq<ParsedCandidate>, cs: seq<Candidate>)
    requires |cs| == |parsed| && forall i | 0 <= i < |cs| :: cs[i].entry == parsed[i].entry
    ensures forall key :: key in RepeatedKeys(cs) <==> exists i, j | 0 <= i < j < |parsed| :: parsed[i].entry.key == key && parsed[j].entry.key == key
    ensures RepeatedKeys(cs) == {} <==> forall i, j | 0 <= i < j < |parsed| :: parsed[i].entry.key != parsed[j].entry.key
  {
    forall key ensures key in RepeatedKeys(cs) <==> exists i, j | 0 <= i < j < |parsed| :: parsed[i].entry.key == key && parsed[j].entry.key == key {
      if key in RepeatedKeys(cs) {
        var i, j :| 0 <= i < j < |cs| && cs[i].entry.key == cs[j].entry.key == key;
        assert parsed[i].entry.key == key && parsed[j].entry.key == key;
      }
      if i, j :| 0 <= i < j < |parsed| && parsed[i].entry.key == key && parsed[j].entry.key == key {
        assert cs[i].entry.key == cs[j].entry.key && cs[j].entry.key == key;
      }
    }
    if i, j :| 0 <= i < j < |parsed| && parsed[i].entry.key == parsed[j].entry.key {
      assert cs[i].entry.key == cs[j].entry.key;
      assert cs[j].entry.key in RepeatedKeys(cs);
    }
  }

  lemma PreviewIsShown(db: DB, req: ImportRequest)
    requires Prepare(req) == Ok(Destination(req)) && PreviewImport(db, req).Ok?
    ensures PreviewShows(db, req, PreviewImport(db, req).value) && PreviewWarns(db, req, PreviewImport(db, req).value)
  {
    hide Prepare, BuildCandidate, BuildCandidates, Destination, PreviewImport, RepeatedKeys, ArchivedAt, PackWarnings;
    PreviewParts(db, req);
    var pack := Destination(req);
    var cs := BuildCandidates(db, req.actor, pack, GovernanceOf(db, pack), req.parsed).value;
    forall i | 0 <= i < |cs| ensures cs[i].entry == req.parsed[i].entry { EntryShown(db, req, i, req.parsed[i]); }
    KeysRepeated(req.parsed, cs);
    var p, n := PreviewImport(db, req).value, |req.parserWarnings|;
    assert p.warnings[n..] == (if RepeatedKeys(cs) != {} then [SharedKeys(RepeatedKeys(cs))] else []) + PackWarnings(db, pack, AllIdentical(cs));
  }

  lemma EntryShown(db: DB, req: ImportRequest, i: nat, p: ParsedCandidate)
    ensures var pack := Destination(req); var r := BuildCandidate(db, req.actor, pack, GovernanceOf(db, pack), i, p);
            r.Ok? ==> r.value.entry == p.entry
  {
    hide InputValid, SameContent, CandidateWarnings, Destination;
  }

  /**
   A preview is given exactly if all that an import needs is there. It shows the destination, the policy and each
   candidate as they are, what stands where the candidate would go and how the two compare, and every warning.
   */
  lemma PreviewTells(db: DB, req: ImportRequest)
    ensures PreviewImport(db, req).Ok? <==> ImportGiven(db, req)
    ensures PreviewImport(db, req).Ok? ==>
              var p := PreviewImport(db, req).value;
              PreviewShows(db, req, p) && PreviewWarns(db, req, p) &&
              forall i | 0 <= i < |p.candidates| ::
                CandidateShows(db, Destination(req), i, req.parsed[i], p.candidates[i]) && WarnedOf(db, Destination(req), req.parsed[i], p.candidates[i])
  {
    hide Prepare, BuildCandidate, GovernanceOf, Destination, ParsedGood, ArchivedAt, CandidateShows, WarnedOf, PreviewShows, PreviewWarns, BuildPreview;
    Prepared(req);
    CandidatesBuilt(db, req, req.parsed);
    if Prepare(req).Ok? { PreviewParts(db, req); }
    if PreviewImport(db, req).Ok? {
      var p := PreviewImport(db, req).value;
      PreviewIsShown(db, req);
      forall i | 0 <= i < |p.candidates|
        ensures CandidateShows(db, Destination(req), i, req.parsed[i], p.candidates[i]) && WarnedOf(db, Destination(req), req.parsed[i], p.candidates[i])
      {
        CandidateBuilt(db, req, i, req.parsed[i]);
        CandidateWarned(db, req, i, req.parsed[i]);
      }
    }
  }

  // ---------- the report ----------

  function With(items: seq<ImportItem>, d: Disposition): set<nat> {
    set i: nat | i < |items| && items[i].disposition == d
  }

  lemma {:induction false} CountIs(items: seq<ImportItem>, d: Disposition)
    ensures Count(items, d) == |With(items, d)|
  {
    hide With;
    WithStep(items, d);
    if items != [] { CountIs(items[..|items| - 1], d); }
  }

  lemma WithStep(items: seq<ImportItem>, d: Disposition)
    ensures items == [] ==> With(items, d) == {}
    ensures items != [] ==>
              var n := |items| - 1; |With(items, d)| == |With(items[..n], d)| + (if items[n].disposition == d then 1 else 0)
  {
    if items != [] {
      var n := |items| - 1;
      var more: set<nat> := if items[n].disposition == d then {n} else {};
      assert With(items, d) == With(items[..n], d) + more && n !in With(items[..n], d);
    }
  }

  /** The report of an apply counts its items by what became of them, and names the entries and reviews they name. */
  lemma ReportTells(db: DB, req: ImportRequest)
    requires ApplyImport(db, req).Done?
    ensures var r := ApplyImport(db, req).value;
            r.appliedCount == |With(r.items, Applied)| && r.pendingCount == |With(r.items, Held)| &&
            r.rejectedCount == |With(r.items, Refused)| && r.skippedCount == |With(r.items, Duplicate)| + |With(r.items, Refused)| &&
            r.importedCount == r.appliedCount + r.pendingCount &&
            PreviewImport(db, req).Ok? && r.candidateCount == |PreviewImport(db, req).value.candidates|
    ensures var r := ApplyImport(db, req).value;
            (forall id :: id in r.entryIds <==> exists i | 0 <= i < |r.items| :: r.items[i].disposition.Applied? && r.items[i].entryId == Some(id)) &&
            (forall id :: id in r.reviewIds <==> exists i | 0 <= i < |r.items| :: r.items[i].reviewId == Some(id)) &&
            (forall key :: key in r.entryKeys <==>
               exists i | 0 <= i < |r.items| :: (r.items[i].disposition.Applied? || r.items[i].disposition.Held?) && r.items[i].entryKey == key)
  {
    hide PreviewImport, ApplyCandidates, Count;
    var items := ApplyImport(db, req).value.items;
    CountIs(items, Applied);
    CountIs(items, Held);
    CountIs(items, Refused);
    CountIs(items, Duplicate);
  }

  // The entry or the review that an item names is the one that its candidate led to, or that was there already.
  ghost predicate NamesWhatIs(db: DB, end: DB, p: Preview, i: nat, item: ImportItem)
    requires i < |p.candidates|
  {
    var c := p.candidates[i]; var key := CandidateKey(p, c);
    match item.disposition
    case Applied => key in end.entries && item.entryId == Some(end.entries[key].record.id) && item.reviewId.None?
    case Held => item.entryId.None? && item.reviewId.Some? && item.reason.Some? && item.reason.value.Review? &&
                 ReviewWaits(end, item.reviewId.value, key, c.entry, RecordOf(GetEntry(db, key)), item.reason.value.reason)
    case Duplicate => item.entryId == c.existingId && item.reviewId.None?
    case Refused => false
  }

  lemma NameKept(db: DB, mid: DB, end: DB, p: Preview, i: nat, item: ImportItem)
    requires i < |p.candidates| && NamesWhatIs(db, mid, p, i, item) && AgentSound(mid, end)
    ensures NamesWhatIs(db, end, p, i, item)
  {
    hide MatchesPending, Valid, Writable;
    var key := CandidateKey(p, p.candidates[i]);
    if item.disposition.Applied? { assert EntryAdvances(mid.entries[key], end.entries[key]); }
    if item.disposition.Held? { WaitsOn(mid, end, item.reviewId.value, key, p.candidates[i].entry, RecordOf(GetEntry(db, key)), item.reason.value.reason); }
  }

  lemma WaitsOn(mid: DB, end: DB, id: Id, key: EntryKey, e: EntryInput, existing: Option<EntryRecord>, reason: ReviewReason)
    requires ReviewWaits(mid, id, key, e, existing, reason) && mid.reviews <= end.reviews
    ensures ReviewWaits(end, id, key, e, existing, reason)
  {
    hide MatchesPending;
    var i :| 0 <= i < |mid.reviews| && mid.reviews[i].id == id && MatchesPending(mid.reviews[i], key, e, existing, reason);
    assert end.reviews[i] == mid.reviews[i];
  }

  // One candidate that is new to the log, committed from tables where its entry is as it was previewed.
  lemma CandidateNames(db: DB, mid: DB, actor: string, p: Preview, n: nat)
    requires Valid(mid) && n < |p.candidates| && Destined(mid, p) && Foretold(mid, actor, p, p.candidates[n])
    requires GetEntry(mid, CandidateKey(p, p.candidates[n])) == GetEntry(db, CandidateKey(p, p.candidates[n]))
    requires !p.candidates[n].disposition.Identical? && IdAt(actor, p, n) !in mid.commits
    ensures var u := ApplyCandidate(mid, actor, p, p.candidates[n]);
            u.Done? && !u.value.disposition.Refused? && !u.value.disposition.Duplicate? ==> NamesWhatIs(db, u.db, p, n, u.value)
  {
    hide Valid, CommitWork, CommitProposal, Destined, Foretold, Tells, SameContent, Fated, AlreadyThere, Reviewable, ExistingShape, NamesWhatIs;
    var c := p.candidates[n];
    assert c.entry.provenance.Some? && Normalized(p.destination) by { FirstFacts(mid, actor, p, c); }
    SentIsReviewable(mid, actor, p, c);
    if ApplyCandidate(mid, actor, p, c).Done? {
      CandidateCommitIs(mid, actor, p, c);
      var e, id, o := SentEntry(actor, p, c), CandidateRequestId(actor, p, c), CommitCandidate(mid, actor, p, c);
      ItemTellsTruth(mid, id, None, PackOf(p), e, actor, e.provenance.value, true);
      ProposalMeets(mid, id, None, PackOf(p), e, actor, e.provenance.value, mid.policy.mode, true);
      ToldNames(db, mid, o.db, ApplyCandidate(mid, actor, p, c).db, p, n, e, o.value, ApplyCandidate(mid, actor, p, c).value);
    }
  }

  lemma ToldNames(db: DB, mid: DB, told: DB, end: DB, p: Preview, n: nat, e: EntryInput, item: CommitItem, shown: ImportItem)
    requires n < |p.candidates| && e.provenance.Some? && SameContent(e, p.candidates[n].entry)
    requires Tells(mid, told, CandidateKey(p, p.candidates[n]), e, e.provenance.value, item)
    requires GetEntry(mid, CandidateKey(p, p.candidates[n])) == GetEntry(db, CandidateKey(p, p.candidates[n]))
    requires end.entries == told.entries && end.reviews == told.reviews
    requires shown.disposition == item.disposition && shown.reason == item.reason && shown.entryId == item.entryId && shown.reviewId == item.reviewId
    requires (item.disposition.Applied? ==> item.reviewId.None?) && (item.disposition.Held? ==> item.entryId.None?)
    ensures shown.disposition.Applied? || shown.disposition.Held? ==> NamesWhatIs(db, end, p, n, shown)
  {
    hide Writable, SamePacksBut;
  }

  lemma IdenticalNames(db: DB, mid: DB, actor: string, p: Preview, n: nat)
    requires n < |p.candidates| && p.candidates[n].disposition.Identical?
    ensures var u := ApplyCandidate(mid, actor, p, p.candidates[n]);
            u.Done? && u.db == mid && NamesWhatIs(db, mid, p, n, u.value)
  {
    hide CommitWork, ReviewWaits;
  }

  lemma ForeseenIs(db: DB, p: Preview, i: nat)
    requires i < |p.candidates| && !p.candidates[i].disposition.Identical?
    ensures FateAt(db, p, i).disposition.Applied? || FateAt(db, p, i).disposition.Held?
  {
  }

  lemma {:induction false} FreshNames(db: DB, actor: string, p: Preview, n: nat)
    requires Valid(db) && Seen(db, actor, p) && Fresh(db, actor, p) && n <= |p.candidates|
    ensures var t := ApplyCandidates(db, actor, p, n);
            t.Done? ==> |t.value| == n && forall i | 0 <= i < n :: NamesWhatIs(db, t.db, p, i, t.value[i])
  {
    hide Valid, ApplyCandidate, AgentSound, Seen, Fresh, PartDone, NamesWhatIs, FateAt, Destined, Foretold;
    FreshCandidates(db, actor, p, n);
    if n > 0 {
      FreshNames(db, actor, p, n - 1);
      FreshCandidates(db, actor, p, n - 1);
      var t := ApplyCandidates(db, actor, p, n - 1);
      if t.Done? {
        var u := ApplyCandidate(t.db, actor, p, p.candidates[n - 1]);
        ScanKept(db, t.db);
        if u.Done? {
          NextNames(db, t.db, actor, p, n - 1);
          ApplyCandidateSound(t.db, actor, p, p.candidates[n - 1]);
          forall i | 0 <= i < n - 1 ensures NamesWhatIs(db, u.db, p, i, t.value[i]) { NameKept(db, t.db, u.db, p, i, t.value[i]); }
        }
      }
    }
  }

  lemma NextNames(db: DB, mid: DB, actor: string, p: Preview, n: nat)
    requires Valid(mid) && n < |p.candidates| && Seen(db, actor, p) && Fresh(db, actor, p) && PartDone(db, mid, actor, p, n) && mid.scan == db.scan
    ensures var u := ApplyCandidate(mid, actor, p, p.candidates[n]); u.Done? ==> NamesWhatIs(db, u.db, p, n, u.value)
  {
    hide Valid, ApplyCandidate, AgentSound, Fresh, NamesWhatIs, FateAt, Foretold, Outcomes, SameBeyond, LoggedTo, Destined, Seen;
    if p.candidates[n].disposition.Identical? {
      IdenticalNames(db, mid, actor, p, n);
    } else {
      NextUntouched(db, mid, actor, p, n);
      NextIsNew(db, mid, actor, p, n);
      CandidateNames(db, mid, actor, p, n);
      NextCandidate(db, mid, actor, p, n);
      ForeseenIs(db, p, n);
    }
  }

  /**
   An apply that is not answered from the log names what there is: an applied item names the entry of its key, a
   held one a review that waits with exactly this proposal over the entry there was, and a duplicate the entry there is.
   */
  lemma ImportNames(db: DB, req: ImportRequest)
    requires Healthy(db) && ApplyImport(db, req).Done? && PreviewImport(db, req).Ok? && Fresh(db, req.actor, PreviewImport(db, req).value)
    ensures var t, p := ApplyImport(db, req), PreviewImport(db, req).value;
            |t.value.items| == |p.candidates| && forall i | 0 <= i < |p.candidates| :: NamesWhatIs(db, t.db, p, i, t.value.items[i])
  {
    hide PreviewImport, ApplyCandidates, Seen, Fresh, NamesWhatIs, Valid, LogOk, Imported, AgentSound, Count, ItemsAs;
    ImportOutcome(db, req);
    var p := PreviewImport(db, req).value;
    FreshNames(db, req.actor, p, |p.candidates|);
  }
}
