/** What the source import promises: see each candidate foretold, lose no update, apply nothing twice. */
module ImportLaws {
  import opened Prelude
  import opened Model
  import opened Database
  import opened Operations
  import opened SourceImport
  import opened Invariant
  import opened Growth
  import opened Writes
  import opened Governance
  import Text

  function PackOf(p: Preview): PackKey { PackKey(p.destination, p.packName) }

  function CandidateKey(p: Preview, c: Candidate): EntryKey { EntryKey(PackOf(p), c.entry.key) }

  function RevisionOf(row: Option<EntryRow>): Option<nat> {
    if row.Some? then Some(row.value.record.revisionNo) else None
  }

  datatype Fate = Fate(disposition: Disposition, reason: Option<ItemReason>)

  /** What becomes of a candidate that is not already there, judged by the preview and the row it showed. */
  function Foresee(p: Preview, row: Option<EntryRow>): Fate {
    if p.destination.kind.Global? then Fate(Held, Some(Review(GlobalScope)))
    else if p.pack.locked || (row.Some? && row.value.record.locked) then Fate(Held, Some(Review(Locked)))
    else match p.mode
      case Strict => Fate(Held, Some(Review(if IsActive(row) then Conflicting else StrictPolicy)))
      case Balanced => if IsActive(row) then Fate(Held, Some(Review(Conflicting))) else Fate(Applied, None)
      case Fast => Fate(Applied, None)
  }

  function FateOf(item: CommitItem): Fate { Fate(item.disposition, item.reason) }

  // ---------- what a preview shows ----------

  predicate DistinctKeys(cs: seq<Candidate>) {
    forall i, j | 0 <= i < j < |cs| :: cs[i].entry.key != cs[j].entry.key
  }

  // The preview still describes the destination pack and the policy; a pack the import itself creates is no surprise.
  ghost predicate Destined(db: DB, p: Preview) {
    Normalized(p.destination) && !Text.Blank(p.packName) && p.mode == db.policy.mode &&
    (PackOf(p) in db.packs ==> db.packs[PackOf(p)].status.Open? && db.packs[PackOf(p)].locked == p.pack.locked) &&
    (PackOf(p) !in db.packs ==> !p.pack.locked)
  }

  // The candidate still describes the entry of its key.
  ghost predicate Foretold(db: DB, actor: string, p: Preview, c: Candidate) {
    var row := GetEntry(db, CandidateKey(p, c));
    InputValid(c.entry) && c.entry.provenance.Some? && c.entry.provenance.value.requestId.None? &&
    !db.scan(ShownEntryWrite(CandidateKey(p, c), actor, c.entry, c.entry.provenance.value, None, None)) &&
    c.disposition == Classify(row, c.entry) && c.existingRevision == RevisionOf(row) && c.existingId == IdOf(row)
  }

  lemma PreviewShape(db: DB, req: ImportRequest)
    requires PreviewImport(db, req).Ok?
    ensures var p := PreviewImport(db, req).value;
            Prepare(req) == Ok(PackOf(p)) && Normalized(p.destination) && !Text.Blank(p.packName) && !Text.Blank(req.actor) &&
            p.mode == db.policy.mode && p.pack == GovernanceOf(db, PackOf(p)) && |p.candidates| == |req.parsed| &&
            (p.applyAllowed <==> DistinctKeys(p.candidates) && p.pack.status != Some(Archived)) &&
            forall i | 0 <= i < |p.candidates| ::
              BuildCandidate(db, req.actor, PackOf(p), p.pack, i, req.parsed[i]) == Ok(p.candidates[i])
  {
    NormalizeSettles(req.destination);
    RepeatedOrDistinct(BuildCandidates(db, req.actor, Prepare(req).value, GovernanceOf(db, Prepare(req).value), req.parsed).value);
  }

  lemma RepeatedOrDistinct(cs: seq<Candidate>)
    ensures RepeatedKeys(cs) == {} <==> DistinctKeys(cs)
  {
    if !DistinctKeys(cs) {
      var i, j :| 0 <= i < j < |cs| && cs[i].entry.key == cs[j].entry.key;
      assert cs[j].entry.key in RepeatedKeys(cs);
    }
  }

  lemma PreviewForetells(db: DB, req: ImportRequest, i: nat)
    requires PreviewImport(db, req).Ok? && i < |PreviewImport(db, req).value.candidates|
    ensures var p := PreviewImport(db, req).value;
            Foretold(db, req.actor, p, p.candidates[i]) && p.candidates[i].index == i
  {
    PreviewShape(db, req);
    var p := PreviewImport(db, req).value;
    assert BuildCandidate(db, req.actor, PackOf(p), p.pack, i, req.parsed[i]) == Ok(p.candidates[i]);
  }

  // ---------- the commit of one candidate ----------

  function SentEntry(actor: string, p: Preview, c: Candidate): EntryInput
    requires c.entry.provenance.Some?
  {
    c.entry.(provenance := Some(c.entry.provenance.value.(requestId := Some(CandidateRequestId(actor, p, c)))))
  }

  // The one proposal of a candidate's commit, once its checks have passed.
  function CommitCandidate(db: DB, actor: string, p: Preview, c: Candidate): Tx<CommitItem>
    requires c.entry.provenance.Some?
  {
    var e := SentEntry(actor, p, c);
    CommitProposal(db, CandidateRequestId(actor, p, c), None, PackOf(p), e, actor, e.provenance.value, db.policy.mode, true)
  }

  lemma CandidateCommitIs(db: DB, actor: string, p: Preview, c: Candidate)
    requires c.entry.provenance.Some? && Normalized(p.destination) && CandidateRequestId(actor, p, c) !in db.commits
    requires CommitWork(db, CandidateCommit(actor, p, c), true).Done?
    ensures var t, o := CommitWork(db, CandidateCommit(actor, p, c), true), CommitCandidate(db, actor, p, c);
            o.Done? && t.value.items == [o.value] &&
            t.db == o.db.(commits := o.db.commits[CandidateRequestId(actor, p, c) := t.value])
  {
    hide CommitProposal, Summarize;
    var req := CandidateCommit(actor, p, c);
    assert |req.proposals| == 1;
    assert CommitProposals(db, req, None, db.policy.mode, true, 0) == Done(db, []);
    assert CommitOne(db, req, None, db.policy.mode, true, req.proposals[0]) == CommitCandidate(db, actor, p, c);
    assert CommitProposals(db, req, None, db.policy.mode, true, 1).Done?;
  }

  /** The decision on a candidate is the one foreseen; the scanner has already let it pass. */
  lemma CandidateDecision(db: DB, actor: string, p: Preview, c: Candidate)
    requires Destined(db, p) && Foretold(db, actor, p, c) && !c.disposition.Identical?
    ensures var e := SentEntry(actor, p, c); var key := CandidateKey(p, c); var id := CandidateRequestId(actor, p, c);
            CommitCandidate(db, actor, p, c) ==
              GovernProposal(db, id, None, key, GetPack(db, PackOf(p)), e, actor, e.provenance.value, db.policy.mode, true)
    ensures var fate := Foresee(p, GetEntry(db, CandidateKey(p, c)));
            var verdict := VerdictOn(db, CandidateKey(p, c), SentEntry(actor, p, c), true);
            if fate.disposition.Applied? then verdict == Apply
            else fate.disposition.Held? && verdict.Hold? && fate.reason == Some(Review(verdict.reason))
  {
    var e := SentEntry(actor, p, c);
    assert ShowInput(e) == ShowInput(c.entry);
  }

  ghost predicate HasPending(db: DB, key: EntryKey, entry: EntryInput, existing: Option<EntryRecord>, reason: Option<ItemReason>) {
    reason.Some? && reason.value.Review? &&
    exists i | 0 <= i < |db.reviews| :: MatchesPending(db.reviews[i], key, entry, existing, reason.value.reason)
  }

  // What processing one candidate does to the tables.
  ghost predicate Processed(db: DB, end: DB, p: Preview, c: Candidate) {
    var key, row := CandidateKey(p, c), GetEntry(db, CandidateKey(p, c));
    if Foresee(p, row).disposition.Applied? then EntriesSameBut(db, end, key) && AppliedRow(end, key, c) && NewerRow(row, end, key)
    else end.entries == db.entries && end.packs == db.packs && HasPending(end, key, c.entry, RecordOf(row), Foresee(p, row).reason)
  }

  ghost predicate AppliedRow(db: DB, key: EntryKey, c: Candidate) {
    key in db.entries && db.entries[key].record.status.Active? && SameContent(InputOf(db.entries[key].record), c.entry)
  }

  ghost predicate NewerRow(row: Option<EntryRow>, end: DB, key: EntryKey) {
    key in end.entries && (row.Some? ==> end.entries[key].record.revisionNo > row.value.record.revisionNo)
  }

  lemma ReusedOrInserted(db: DB, id: RequestId, key: EntryKey, e: EntryInput, existing: Option<EntryRecord>, reason: ReviewReason)
    requires Valid(db) && Reviewable(id, key, e) && ExistingShape(existing)
    ensures var t := InsertOrReuseReview(db, id, key, e, existing, reason, true);
            t.Done? ==> OnlyReviewsChange(db, t.db) && t.value in t.db.reviews && MatchesPending(t.value, key, e, existing, reason)
  {
    hide Valid, Grows, InsertReview, MatchesPending;
    InsertReviewSound(db, id, key, e, existing, reason);
  }

  lemma PendingFound(db: DB, r: ReviewItem, key: EntryKey, sent: EntryInput, entry: EntryInput, existing: Option<EntryRecord>,
                     reason: ReviewReason)
    requires r in db.reviews && MatchesPending(r, key, sent, existing, reason) && SameContent(sent, entry)
    ensures HasPending(db, key, entry, existing, Some(Review(reason)))
  {
    var i :| 0 <= i < |db.reviews| && db.reviews[i] == r;
    assert MatchesPending(db.reviews[i], key, entry, existing, reason);
  }

  lemma HeldCandidate(db: DB, actor: string, p: Preview, c: Candidate, reason: ReviewReason)
    requires Valid(db) && Destined(db, p) && Foretold(db, actor, p, c)
    ensures var key, e, id := CandidateKey(p, c), SentEntry(actor, p, c), CandidateRequestId(actor, p, c);
            var t := HoldForReview(db, id, key, e, GetEntry(db, key), reason, true);
            t.Done? ==> OnlyReviewsChange(db, t.db) && FateOf(t.value) == Fate(Held, Some(Review(reason))) &&
                        t.value.entryKey == c.entry.key &&
                        HasPending(t.db, key, c.entry, RecordOf(GetEntry(db, key)), Some(Review(reason)))
  {
    hide Valid, Foretold, Destined, InsertOrReuseReview, OnlyReviewsChange, MatchesPending, HasPending, Reviewable,
         RecordOf, SameContent, ExistingShape;
    SentIsReviewable(db, actor, p, c);
    var key, e, id := CandidateKey(p, c), SentEntry(actor, p, c), CandidateRequestId(actor, p, c);
    var existing := RecordOf(GetEntry(db, key));
    ReusedOrInserted(db, id, key, e, existing, reason);
    var t := InsertOrReuseReview(db, id, key, e, existing, reason, true);
    if t.Done? {
      PendingFound(t.db, t.value, key, e, c.entry, existing, reason);
    }
  }

  lemma SentIsReviewable(db: DB, actor: string, p: Preview, c: Candidate)
    requires Valid(db) && Destined(db, p) && Foretold(db, actor, p, c)
    ensures c.entry.provenance.Some?
    ensures Reviewable(CandidateRequestId(actor, p, c), CandidateKey(p, c), SentEntry(actor, p, c))
    ensures ExistingShape(RecordOf(GetEntry(db, CandidateKey(p, c)))) && SameContent(SentEntry(actor, p, c), c.entry)
  {
    if CandidateKey(p, c) in db.entries { ExistingRowShape(db, CandidateKey(p, c)); }
  }

  lemma AppliedCandidate(db: DB, actor: string, p: Preview, c: Candidate)
    requires Valid(db) && Destined(db, p) && Foretold(db, actor, p, c)
    ensures var key, e, id := CandidateKey(p, c), SentEntry(actor, p, c), CandidateRequestId(actor, p, c);
            var t := ApplyEntry(db, key.pack, e, actor, e.provenance.value, Some(id), None, false);
            t.Done? ==> Destined(t.db, p) && t.db.commits == db.commits &&
                        EntriesSameBut(db, t.db, key) && AppliedRow(t.db, key, c) && NewerRow(GetEntry(db, key), t.db, key)
  {
    hide Valid, Grows, ApplyEntry, InputValid;
    var key, e, id := CandidateKey(p, c), SentEntry(actor, p, c), CandidateRequestId(actor, p, c);
    ApplyEntrySound(db, key.pack, e, actor, e.provenance.value, Some(id), None, false);
  }

  /** A candidate whose id is new to the log meets the fate foreseen, and nothing but its own entry or review is touched. */
  lemma FreshCandidate(db: DB, actor: string, p: Preview, c: Candidate)
    requires Valid(db) && Destined(db, p) && Foretold(db, actor, p, c) && !c.disposition.Identical?
    requires CandidateRequestId(actor, p, c) !in db.commits && ApplyCandidate(db, actor, p, c).Done?
    ensures var t, id, fate := ApplyCandidate(db, actor, p, c), CandidateRequestId(actor, p, c), Foresee(p, GetEntry(db, CandidateKey(p, c)));
            Destined(t.db, p) && Processed(db, t.db, p, c) &&
            id in t.db.commits && t.db.commits == db.commits[id := t.db.commits[id]] && LoggedAs(t.db.commits[id], c, fate) &&
            Fate(t.value.disposition, t.value.reason) == fate && t.value.index == c.index && t.value.entryKey == c.entry.key
  {
    hide Valid, CommitWork, GovernProposal, CommitCandidate, Foretold, SentEntry;
    assert c.entry.provenance.Some? && Normalized(p.destination) by { FirstFacts(db, actor, p, c); }
    CandidateCommitIs(db, actor, p, c);
    CommittedCandidate(db, actor, p, c);
  }

  lemma FirstFacts(db: DB, actor: string, p: Preview, c: Candidate)
    requires Destined(db, p) && Foretold(db, actor, p, c)
    ensures c.entry.provenance.Some? && Normalized(p.destination)
  {
  }

  ghost predicate LoggedAs(result: CommitResult, c: Candidate, fate: Fate) {
    |result.items| == 1 && result.items[0].entryKey == c.entry.key && FateOf(result.items[0]) == fate
  }

  lemma AppliedNeedsNoReason(p: Preview, row: Option<EntryRow>)
    ensures Foresee(p, row).disposition.Applied? ==> Foresee(p, row).reason.None?
  {
  }

  lemma CommittedCandidate(db: DB, actor: string, p: Preview, c: Candidate)
    requires Valid(db) && Destined(db, p) && Foretold(db, actor, p, c) && !c.disposition.Identical?
    ensures var o, fate := CommitCandidate(db, actor, p, c), Foresee(p, GetEntry(db, CandidateKey(p, c)));
            o.Done? ==> Destined(o.db, p) && Processed(db, o.db, p, c) && o.db.commits == db.commits &&
                        FateOf(o.value) == fate && o.value.entryKey == c.entry.key
  {
    hide Foresee, Valid, CommitCandidate, Decide, IsDuplicate, ApplyEntry, HoldForReview, AppliedRow, NewerRow, HasPending, Foretold;
    FirstFacts(db, actor, p, c);
    CandidateDecision(db, actor, p, c);
    var key := CandidateKey(p, c);
    AppliedNeedsNoReason(p, GetEntry(db, key));
    var verdict := VerdictOn(db, key, SentEntry(actor, p, c), true);
    if verdict.Hold? {
      HeldCandidate(db, actor, p, c, verdict.reason);
    } else {
      AppliedCandidate(db, actor, p, c);
    }
  }

  // ---------- all candidates, one after the other ----------

  function IdAt(actor: string, p: Preview, i: nat): RequestId
    requires i < |p.candidates|
  {
    CandidateRequestId(actor, p, p.candidates[i])
  }

  // A preview as taken in these tables.
  ghost predicate Seen(db: DB, actor: string, p: Preview) {
    Destined(db, p) && DistinctKeys(p.candidates) &&
    forall i | 0 <= i < |p.candidates| :: Foretold(db, actor, p, p.candidates[i]) && p.candidates[i].index == i
  }

  ghost predicate Fresh(db: DB, actor: string, p: Preview) {
    forall i | 0 <= i < |p.candidates| && !p.candidates[i].disposition.Identical? :: IdAt(actor, p, i) !in db.commits
  }

  /** The fate of every candidate, as the preview state alone determines it. */
  function FateAt(db: DB, p: Preview, i: nat): Fate
    requires i < |p.candidates|
  {
    var c := p.candidates[i];
    if c.disposition.Identical? then Fate(Duplicate, None) else Foresee(p, GetEntry(db, CandidateKey(p, c)))
  }

  // What the import has done about one candidate, between the state it was previewed in and a later one.
  ghost predicate Outcome(db: DB, end: DB, p: Preview, i: nat)
    requires i < |p.candidates|
  {
    var c := p.candidates[i];
    var key, fate := CandidateKey(p, c), FateAt(db, p, i);
    if fate.disposition.Applied? then AppliedRow(end, key, c) && NewerRow(GetEntry(db, key), end, key)
    else GetEntry(end, key) == GetEntry(db, key) &&
         (fate.disposition.Held? ==> HasPending(end, key, c.entry, RecordOf(GetEntry(db, key)), fate.reason))
  }

  ghost predicate Outcomes(db: DB, end: DB, p: Preview, n: nat)
    requires n <= |p.candidates|
  {
    forall i | 0 <= i < n :: Outcome(db, end, p, i)
  }

  function KeysTo(p: Preview, n: nat): set<EntryKey>
    requires n <= |p.candidates|
  {
    set i | 0 <= i < n :: CandidateKey(p, p.candidates[i])
  }

  ghost predicate SameBeyond(db: DB, end: DB, keys: set<EntryKey>) {
    forall k: EntryKey :: k !in keys ==> GetEntry(end, k) == GetEntry(db, k)
  }

  ghost predicate LoggedTo(db: DB, end: DB, actor: string, p: Preview, n: nat)
    requires n <= |p.candidates|
  {
    LoggedEach(db, end.commits, actor, p, n) && LoggedOnly(db.commits, end.commits, actor, p, n)
  }

  ghost predicate LoggedEach(db: DB, log: map<RequestId, CommitResult>, actor: string, p: Preview, n: nat)
    requires n <= |p.candidates|
  {
    forall i | 0 <= i < n && !p.candidates[i].disposition.Identical? ::
      IdAt(actor, p, i) in log && LoggedAs(log[IdAt(actor, p, i)], p.candidates[i], FateAt(db, p, i))
  }

  ghost predicate LoggedOnly(before: map<RequestId, CommitResult>, log: map<RequestId, CommitResult>, actor: string, p: Preview, n: nat)
    requires n <= |p.candidates|
  {
    forall id | id in log && id !in before :: OfCandidate(id, actor, p, n)
  }

  ghost predicate OfCandidate(id: RequestId, actor: string, p: Preview, n: nat)
    requires n <= |p.candidates|
  {
    exists i | 0 <= i < n :: !p.candidates[i].disposition.Identical? && id == IdAt(actor, p, i)
  }

  ghost predicate ItemsAs(db: DB, p: Preview, items: seq<ImportItem>) {
    |items| <= |p.candidates| &&
    forall i | 0 <= i < |items| :: Fate(items[i].disposition, items[i].reason) == FateAt(db, p, i) && items[i].index == i &&
                                   items[i].entryKey == p.candidates[i].entry.key
  }

  lemma StillForetold(db: DB, mid: DB, actor: string, p: Preview, c: Candidate)
    requires Foretold(db, actor, p, c) && mid.scan == db.scan && GetEntry(mid, CandidateKey(p, c)) == GetEntry(db, CandidateKey(p, c))
    ensures Foretold(mid, actor, p, c)
  {
  }

  lemma OutcomeKept(db: DB, mid: DB, end: DB, p: Preview, n: nat, i: nat)
    requires i < n < |p.candidates| && DistinctKeys(p.candidates) && Outcome(db, mid, p, i)
    requires Processed(mid, end, p, p.candidates[n]) && mid.reviews <= end.reviews
    ensures Outcome(db, end, p, i)
  {
    var c := p.candidates[i];
    var key := CandidateKey(p, c);
    assert key != CandidateKey(p, p.candidates[n]);
    assert GetEntry(end, key) == GetEntry(mid, key);
    if FateAt(db, p, i).disposition.Held? {
      PendingKept(mid, end, key, c.entry, RecordOf(GetEntry(db, key)), FateAt(db, p, i).reason);
    }
  }

  lemma PendingKept(mid: DB, end: DB, key: EntryKey, entry: EntryInput, existing: Option<EntryRecord>, reason: Option<ItemReason>)
    requires HasPending(mid, key, entry, existing, reason) && mid.reviews <= end.reviews
    ensures HasPending(end, key, entry, existing, reason)
  {
    var i :| 0 <= i < |mid.reviews| && MatchesPending(mid.reviews[i], key, entry, existing, reason.value.reason);
    assert MatchesPending(end.reviews[i], key, entry, existing, reason.value.reason);
  }

  ghost predicate PartDone(db: DB, mid: DB, actor: string, p: Preview, n: nat)
    requires n <= |p.candidates|
  {
    Destined(mid, p) && Outcomes(db, mid, p, n) && SameBeyond(db, mid, KeysTo(p, n)) && LoggedTo(db, mid, actor, p, n)
  }

  lemma NextUntouched(db: DB, mid: DB, actor: string, p: Preview, n: nat)
    requires Seen(db, actor, p) && n < |p.candidates| && SameBeyond(db, mid, KeysTo(p, n)) && mid.scan == db.scan
    ensures GetEntry(mid, CandidateKey(p, p.candidates[n])) == GetEntry(db, CandidateKey(p, p.candidates[n]))
    ensures Foretold(mid, actor, p, p.candidates[n])
  {
    var key := CandidateKey(p, p.candidates[n]);
    assert key !in KeysTo(p, n);
    StillForetold(db, mid, actor, p, p.candidates[n]);
  }

  lemma OutcomesExtended(db: DB, mid: DB, end: DB, p: Preview, n: nat)
    requires n < |p.candidates| && DistinctKeys(p.candidates) && Outcomes(db, mid, p, n) && mid.reviews <= end.reviews
    requires Processed(mid, end, p, p.candidates[n]) && !p.candidates[n].disposition.Identical?
    requires GetEntry(mid, CandidateKey(p, p.candidates[n])) == GetEntry(db, CandidateKey(p, p.candidates[n]))
    ensures Outcomes(db, end, p, n + 1)
  {
    forall i | 0 <= i < n + 1 ensures Outcome(db, end, p, i) {
      if i < n { OutcomeKept(db, mid, end, p, n, i); }
    }
  }

  lemma BeyondExtended(db: DB, mid: DB, end: DB, p: Preview, n: nat)
    requires n < |p.candidates| && SameBeyond(db, mid, KeysTo(p, n)) && Processed(mid, end, p, p.candidates[n])
    ensures SameBeyond(db, end, KeysTo(p, n + 1))
  {
    var key := CandidateKey(p, p.candidates[n]);
    assert key in KeysTo(p, n + 1);
    assert KeysTo(p, n) <= KeysTo(p, n + 1);
  }

  lemma IdsDiffer(db: DB, actor: string, p: Preview, n: nat)
    requires n < |p.candidates| && Seen(db, actor, p)
    ensures forall i | 0 <= i < n :: IdAt(actor, p, i) != IdAt(actor, p, n)
  {
    forall i | 0 <= i < n ensures IdAt(actor, p, i) != IdAt(actor, p, n) {
      assert p.candidates[i].index == i && p.candidates[n].index == n;
    }
  }

  lemma EachExtended(db: DB, log: map<RequestId, CommitResult>, log': map<RequestId, CommitResult>, actor: string, p: Preview, n: nat)
    requires n < |p.candidates| && LoggedEach(db, log, actor, p, n) && forall i | 0 <= i < n :: IdAt(actor, p, i) != IdAt(actor, p, n)
    requires var id := IdAt(actor, p, n);
             id in log' && log' == log[id := log'[id]] && LoggedAs(log'[id], p.candidates[n], FateAt(db, p, n))
    ensures LoggedEach(db, log', actor, p, n + 1)
  {
    hide FateAt, LoggedAs, IdAt;
  }

  lemma OnlyExtended(before: map<RequestId, CommitResult>, log: map<RequestId, CommitResult>, log': map<RequestId, CommitResult>,
                     actor: string, p: Preview, n: nat)
    requires n < |p.candidates| && LoggedOnly(before, log, actor, p, n) && !p.candidates[n].disposition.Identical?
    requires var id := IdAt(actor, p, n); id in log' && log' == log[id := log'[id]]
    ensures LoggedOnly(before, log', actor, p, n + 1)
  {
    hide IdAt, OfCandidate;
    forall k | k in log' && k !in before ensures OfCandidate(k, actor, p, n + 1) {
      OfOneMore(k, actor, p, n);
    }
  }

  lemma LogExtended(db: DB, mid: DB, end: DB, actor: string, p: Preview, n: nat)
    requires n < |p.candidates| && Seen(db, actor, p) && LoggedTo(db, mid, actor, p, n) && !p.candidates[n].disposition.Identical?
    requires var id := IdAt(actor, p, n);
             id in end.commits && end.commits == mid.commits[id := end.commits[id]] &&
             LoggedAs(end.commits[id], p.candidates[n], FateAt(db, p, n))
    ensures LoggedTo(db, end, actor, p, n + 1)
  {
    hide Seen, FateAt, LoggedAs, IdAt, OfCandidate, LoggedEach, LoggedOnly;
    IdsDiffer(db, actor, p, n);
    EachExtended(db, mid.commits, end.commits, actor, p, n);
    OnlyExtended(db.commits, mid.commits, end.commits, actor, p, n);
  }

  lemma OfOneMore(id: RequestId, actor: string, p: Preview, n: nat)
    requires n < |p.candidates|
    ensures OfCandidate(id, actor, p, n) ==> OfCandidate(id, actor, p, n + 1)
    ensures !p.candidates[n].disposition.Identical? && id == IdAt(actor, p, n) ==> OfCandidate(id, actor, p, n + 1)
  {
  }

  lemma NextIsNew(db: DB, mid: DB, actor: string, p: Preview, n: nat)
    requires n < |p.candidates| && Seen(db, actor, p) && LoggedTo(db, mid, actor, p, n) && Fresh(db, actor, p)
    requires !p.candidates[n].disposition.Identical?
    ensures IdAt(actor, p, n) !in mid.commits
  {
    IdsDiffer(db, actor, p, n);
  }

  lemma IdenticalSkipped(db: DB, mid: DB, actor: string, p: Preview, n: nat)
    requires n < |p.candidates| && Seen(db, actor, p) && PartDone(db, mid, actor, p, n) && mid.scan == db.scan
    requires p.candidates[n].disposition.Identical?
    ensures PartDone(db, mid, actor, p, n + 1)
  {
    NextUntouched(db, mid, actor, p, n);
    assert KeysTo(p, n) <= KeysTo(p, n + 1);
    forall i | 0 <= i < n + 1 ensures Outcome(db, mid, p, i) {
      if i == n { assert FateAt(db, p, n) == Fate(Duplicate, None); }
    }
  }

  lemma CandidateProcessed(db: DB, mid: DB, actor: string, p: Preview, n: nat)
    requires Valid(mid) && n < |p.candidates| && Seen(db, actor, p) && Fresh(db, actor, p) && PartDone(db, mid, actor, p, n)
    requires mid.scan == db.scan && !p.candidates[n].disposition.Identical?
    ensures var u := ApplyCandidate(mid, actor, p, p.candidates[n]);
            u.Done? ==> PartDone(db, u.db, actor, p, n + 1) && Fate(u.value.disposition, u.value.reason) == FateAt(db, p, n) &&
                        u.value.index == n && u.value.entryKey == p.candidates[n].entry.key
  {
    var c := p.candidates[n];
    var u := ApplyCandidate(mid, actor, p, c);
    if u.Done? {
      NextUntouched(db, mid, actor, p, n);
      NextIsNew(db, mid, actor, p, n);
      FreshCandidate(mid, actor, p, c);
      ApplyCandidateSound(mid, actor, p, c);
      assert mid.reviews <= u.db.reviews;
      assert c.index == n;
      hide Valid, Grows, AgentChange, ApplyCandidate, Processed, Outcomes, LoggedTo, SameBeyond, Foretold, Fresh, KeysTo, LoggedAs,
           DistinctKeys, Destined, Foresee;
      OutcomesExtended(db, mid, u.db, p, n);
      BeyondExtended(db, mid, u.db, p, n);
      LogExtended(db, mid, u.db, actor, p, n);
    }
  }

  /** Processed in sequence, each candidate meets the fate its preview foretold, although the first write may create the pack. */
  lemma {:induction false} FreshCandidates(db: DB, actor: string, p: Preview, n: nat)
    requires Valid(db) && Seen(db, actor, p) && Fresh(db, actor, p) && n <= |p.candidates|
    ensures var t := ApplyCandidates(db, actor, p, n);
            t.Done? ==> AgentSound(db, t.db) && PartDone(db, t.db, actor, p, n) && |t.value| == n && ItemsAs(db, p, t.value)
  {
    hide Valid, PartDone, ApplyCandidate, AgentSound, Fresh, FateAt, Seen;
    ApplyCandidatesSound(db, actor, p, n);
    if n == 0 {
      NothingDone(db, actor, p);
    } else {
      FreshCandidates(db, actor, p, n - 1);
      ApplyCandidatesSound(db, actor, p, n - 1);
      var t := ApplyCandidates(db, actor, p, n - 1);
      if t.Done? {
        ScanKept(db, t.db);
        NextCandidate(db, t.db, actor, p, n - 1);
      }
    }
  }

  lemma ScanKept(db: DB, end: DB)
    requires AgentSound(db, end)
    ensures end.scan == db.scan && Valid(end)
  {
  }

  lemma NothingDone(db: DB, actor: string, p: Preview)
    requires Seen(db, actor, p)
    ensures PartDone(db, db, actor, p, 0)
  {
  }

  lemma NextCandidate(db: DB, mid: DB, actor: string, p: Preview, n: nat)
    requires Valid(mid) && n < |p.candidates| && Seen(db, actor, p) && Fresh(db, actor, p) && PartDone(db, mid, actor, p, n)
    requires mid.scan == db.scan
    ensures var u := ApplyCandidate(mid, actor, p, p.candidates[n]);
            u.Done? ==> PartDone(db, u.db, actor, p, n + 1) && Fate(u.value.disposition, u.value.reason) == FateAt(db, p, n) &&
                        u.value.index == n && u.value.entryKey == p.candidates[n].entry.key
  {
    if p.candidates[n].disposition.Identical? {
      IdenticalSkipped(db, mid, actor, p, n);
      assert p.candidates[n].index == n;
      hide Valid, PartDone, CommitWork;
    } else {
      CandidateProcessed(db, mid, actor, p, n);
    }
  }
}
