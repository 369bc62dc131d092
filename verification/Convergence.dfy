/** Applying a source import a second time settles nothing new. */
module Convergence {
  import opened Prelude
  import opened Model
  import opened Database
  import opened Operations
  import opened SourceImport
  import opened Invariant
  import opened Growth
  import opened Governance
  import opened Runs
  import opened ImportLaws
  import opened ImportLog
  import opened ImportPromises
  import Text

  // All tables but the commit log are the same.
  ghost predicate SameButLog(a: DB, b: DB) {
    b == a.(commits := b.commits)
  }

  // ---------- the second preview ----------

  lemma {:induction false} BuildAgain(db: DB, end: DB, actor: string, pack: PackKey, gov: PackGovernance, gov': PackGovernance,
                                      parsed: seq<ParsedCandidate>)
    requires end.scan == db.scan && BuildCandidates(db, actor, pack, gov, parsed).Ok?
    ensures BuildCandidates(end, actor, pack, gov', parsed).Ok?
  {
    if parsed != [] {
      var n := |parsed| - 1;
      BuildAgain(db, end, actor, pack, gov, gov', parsed[..n]);
      hide Classify, CandidateWarnings;
      assert BuildCandidate(db, actor, pack, gov, n, parsed[n]).Ok?;
      assert BuildCandidate(end, actor, pack, gov', n, parsed[n]).Ok?;
    }
  }

  ghost predicate SameProposals(p: Preview, q: Preview) {
    q.destination == p.destination && q.packName == p.packName && |q.candidates| == |p.candidates| &&
    forall i | 0 <= i < |p.candidates| :: q.candidates[i].entry == p.candidates[i].entry
  }

  lemma PreviewSucceedsAgain(db: DB, end: DB, req: ImportRequest)
    requires PreviewImport(db, req).Ok? && end.scan == db.scan
    ensures PreviewImport(end, req).Ok?
  {
    hide BuildCandidates, RepeatedKeys, AllIdentical;
    var pack := Prepare(req).value;
    BuildAgain(db, end, req.actor, pack, GovernanceOf(db, pack), GovernanceOf(end, pack), req.parsed);
  }

  lemma PreviewAgain(db: DB, end: DB, req: ImportRequest)
    requires PreviewImport(db, req).Ok? && end.scan == db.scan
    ensures PreviewImport(end, req).Ok? && SameProposals(PreviewImport(db, req).value, PreviewImport(end, req).value)
  {
    hide PreviewImport, BuildCandidates, Prepare, GovernanceOf, DistinctKeys, Classify, CandidateWarnings, InputValid;
    PreviewSucceedsAgain(db, end, req);
    PreviewShape(db, req);
    PreviewShape(end, req);
    var p, q := PreviewImport(db, req).value, PreviewImport(end, req).value;
    forall i | 0 <= i < |p.candidates| ensures q.candidates[i].entry == p.candidates[i].entry {
      assert BuildCandidate(db, req.actor, PackOf(p), p.pack, i, req.parsed[i]) == Ok(p.candidates[i]);
      assert BuildCandidate(end, req.actor, PackOf(q), q.pack, i, req.parsed[i]) == Ok(q.candidates[i]);
    }
  }

  lemma AllowedAgain(db: DB, end: DB, req: ImportRequest)
    requires PreviewImport(db, req).Ok? && end.scan == db.scan && end.policy == db.policy
    requires PreviewImport(db, req).value.applyAllowed && Destined(end, PreviewImport(db, req).value)
    ensures PreviewImport(end, req).Ok? && PreviewImport(end, req).value.applyAllowed
    ensures PreviewImport(end, req).value.mode == PreviewImport(db, req).value.mode
    ensures PreviewImport(end, req).value.pack.locked == PreviewImport(db, req).value.pack.locked
  {
    PreviewAgain(db, end, req);
    PreviewShape(db, req);
    PreviewShape(end, req);
    hide PreviewImport, BuildCandidates, Prepare;
  }

  // Nothing is left to do about candidate i: it is there already, or its review is pending.
  ghost predicate Quiet(end: DB, q: Preview, i: nat)
    requires i < |q.candidates|
  {
    var c := q.candidates[i];
    var row := GetEntry(end, CandidateKey(q, c));
    c.disposition.Identical? ||
    (Foresee(q, row).disposition.Held? && HasPending(end, CandidateKey(q, c), c.entry, RecordOf(row), Foresee(q, row).reason))
  }

  lemma QuietAfterwards(db: DB, end: DB, actor: string, p: Preview, q: Preview, i: nat)
    requires Seen(db, actor, p) && Seen(end, actor, q) && SameProposals(p, q) && i < |p.candidates| && Outcome(db, end, p, i)
    requires q.mode == p.mode && q.pack.locked == p.pack.locked
    ensures Quiet(end, q, i)
    ensures !q.candidates[i].disposition.Identical? ==> !p.candidates[i].disposition.Identical?
  {
    assert Foretold(db, actor, p, p.candidates[i]) && Foretold(end, actor, q, q.candidates[i]);
  }

  // ---------- the second apply ----------

  lemma ShownAlike(actor: string, p: Preview, q: Preview, i: nat)
    requires SameProposals(p, q) && i < |p.candidates|
    ensures ShownCommit(CandidateCommit(actor, p, p.candidates[i])) == ShownCommit(CandidateCommit(actor, q, q.candidates[i]))
  {
    var a, b := CandidateCommit(actor, p, p.candidates[i]), CandidateCommit(actor, q, q.candidates[i]);
    assert ShowProposals(a.proposals) == ShowProposals(b.proposals);
  }

  lemma {:induction false} FirstShown(db: DB, actor: string, p: Preview, n: nat, i: nat)
    requires Valid(db) && i < n <= |p.candidates| && ApplyCandidates(db, actor, p, n).Done?
    requires !p.candidates[i].disposition.Identical?
    ensures !db.scan(ShownCommit(CandidateCommit(actor, p, p.candidates[i])))
  {
    hide Valid, Grows, AgentChange, ShownCommit, CandidateCommit;
    ApplyCandidatesSound(db, actor, p, n - 1);
    if i < n - 1 {
      FirstShown(db, actor, p, n - 1, i);
    } else {
      ScanKept(db, ApplyCandidates(db, actor, p, n - 1).db);
    }
  }

  lemma PendingIsFound(db: DB, id: RequestId, key: EntryKey, sent: EntryInput, entry: EntryInput, existing: Option<EntryRow>, reason: ReviewReason)
    requires HasPending(db, key, entry, RecordOf(existing), Some(Review(reason))) && SameContent(sent, entry)
    ensures var t := HoldForReview(db, id, key, sent, existing, reason, true); t.Done? && t.db == db
  {
    var i :| 0 <= i < |db.reviews| && MatchesPending(db.reviews[i], key, entry, RecordOf(existing), reason);
    assert MatchesPending(db.reviews[i], key, sent, RecordOf(existing), reason);
    assert FindPending(db.reviews, key, sent, RecordOf(existing), reason).Some?;
  }

  lemma QuietCommit(db: DB, actor: string, q: Preview, i: nat)
    requires i < |q.candidates| && Destined(db, q) && Foretold(db, actor, q, q.candidates[i]) && Quiet(db, q, i)
    requires !q.candidates[i].disposition.Identical?
    ensures var o := CommitCandidate(db, actor, q, q.candidates[i]); o.Done? && o.db == db
  {
    var c := q.candidates[i];
    var key := CandidateKey(q, c);
    CandidateDecision(db, actor, q, c);
    var verdict := VerdictOn(db, key, SentEntry(actor, q, c), true);
    PendingIsFound(db, CandidateRequestId(actor, q, c), key, SentEntry(actor, q, c), c.entry, GetEntry(db, key), verdict.reason);
    hide CommitCandidate, HoldForReview, Decide, Foretold, Destined, HasPending, Foresee;
  }

  lemma CommitSucceeds(db: DB, actor: string, p: Preview, c: Candidate)
    requires c.entry.provenance.Some? && Normalized(p.destination) && !Text.Blank(p.packName) && InputValid(c.entry) && !Text.Blank(actor)
    requires !db.scan(ShownCommit(CandidateCommit(actor, p, c))) && CandidateRequestId(actor, p, c) !in db.commits
    requires CommitCandidate(db, actor, p, c).Done?
    ensures var t := CommitWork(db, CandidateCommit(actor, p, c), true);
            t.Done? && |t.value.items| == 1 && SameButLog(CommitCandidate(db, actor, p, c).db, t.db) &&
            forall id | id in t.db.commits :: id in CommitCandidate(db, actor, p, c).db.commits || id == CandidateRequestId(actor, p, c)
  {
    hide CommitProposal, Summarize, ShownCommit;
    var req := CandidateCommit(actor, p, c);
    assert CommitProposals(db, req, None, db.policy.mode, true, 0) == Done(db, []);
    assert CommitOne(db, req, None, db.policy.mode, true, req.proposals[0]) == CommitCandidate(db, actor, p, c);
    assert CommitProposals(db, req, None, db.policy.mode, true, 1).Done?;
  }

  // An answer from the log has an item to report.
  ghost predicate Reportable(db: DB, actor: string, q: Preview, i: nat)
    requires i < |q.candidates|
  {
    IdAt(actor, q, i) in db.commits ==> db.commits[IdAt(actor, q, i)].items != []
  }

  lemma QuietCandidate(db: DB, actor: string, q: Preview, i: nat)
    requires i < |q.candidates| && Destined(db, q) && Foretold(db, actor, q, q.candidates[i]) && Quiet(db, q, i) && !Text.Blank(actor)
    requires !q.candidates[i].disposition.Identical? ==> !db.scan(ShownCommit(CandidateCommit(actor, q, q.candidates[i])))
    requires Reportable(db, actor, q, i)
    ensures var u := ApplyCandidate(db, actor, q, q.candidates[i]);
            u.Done? && SameButLog(db, u.db) &&
            forall id | id in u.db.commits ::
              id in db.commits || (id == IdAt(actor, q, i) && !q.candidates[i].disposition.Identical?)
  {
    var c := q.candidates[i];
    if !c.disposition.Identical? {
      if IdAt(actor, q, i) in db.commits {
        hide ShownCommit, CommitProposals, Quiet;
      } else {
        QuietCommit(db, actor, q, i);
        CommitSucceeds(db, actor, q, c);
        hide CommitWork, CommitCandidate, ShownCommit, Quiet, Destined;
      }
    }
  }

  // What the second apply relies on, candidate by candidate.
  ghost predicate AllQuiet(end: DB, actor: string, q: Preview) {
    forall i | 0 <= i < |q.candidates| ::
      Quiet(end, q, i) && (!q.candidates[i].disposition.Identical? ==> !end.scan(ShownCommit(CandidateCommit(actor, q, q.candidates[i]))))
  }

  lemma StillQuiet(end: DB, mid: DB, actor: string, q: Preview, i: nat)
    requires Seen(end, actor, q) && AllQuiet(end, actor, q) && SameButLog(end, mid) && i < |q.candidates|
    ensures Destined(mid, q) && Foretold(mid, actor, q, q.candidates[i]) && Quiet(mid, q, i)
    ensures !q.candidates[i].disposition.Identical? ==> !mid.scan(ShownCommit(CandidateCommit(actor, q, q.candidates[i])))
  {
    hide Foresee, ShownCommit, MatchesPending, Classify;
    var c := q.candidates[i];
    assert Quiet(end, q, i);
    assert GetEntry(mid, CandidateKey(q, c)) == GetEntry(end, CandidateKey(q, c));
  }

  lemma StillReportable(end: DB, mid: DB, actor: string, q: Preview, n: nat)
    requires LogOk(end) && Seen(end, actor, q) && n < |q.candidates| && LoggedOnly(end.commits, mid.commits, actor, q, n)
    requires forall id | id in end.commits :: id in mid.commits && mid.commits[id] == end.commits[id]
    ensures Reportable(mid, actor, q, n)
  {
    IdsDiffer(end, actor, q, n);
    var id := IdAt(actor, q, n);
    if id in mid.commits {
      if id in end.commits { LoggedItem(end, actor, q, n); }
    }
  }

  lemma {:induction false} QuietCandidates(end: DB, actor: string, q: Preview, n: nat)
    requires Healthy(end) && Seen(end, actor, q) && AllQuiet(end, actor, q) && !Text.Blank(actor) && n <= |q.candidates|
    ensures var t := ApplyCandidates(end, actor, q, n);
            t.Done? && SameButLog(end, t.db) && LoggedOnly(end.commits, t.db.commits, actor, q, n)
  {
    hide Seen, AllQuiet, Valid, LogOk, ApplyCandidate, OfCandidate, Destined, Foretold, Quiet, ShownCommit;
    if n > 0 {
      QuietCandidates(end, actor, q, n - 1);
      var t := ApplyCandidates(end, actor, q, n - 1);
      StillQuiet(end, t.db, actor, q, n - 1);
      LogOnlyGrows(end, actor, q, n - 1);
      StillReportable(end, t.db, actor, q, n - 1);
      QuietCandidate(t.db, actor, q, n - 1);
      var u := ApplyCandidate(t.db, actor, q, q.candidates[n - 1]);
      forall id | id in u.db.commits && id !in end.commits ensures OfCandidate(id, actor, q, n) {
        OfOneMore(id, actor, q, n - 1);
      }
    }
  }

  lemma LogOnlyGrows(db: DB, actor: string, q: Preview, n: nat)
    requires Valid(db) && n <= |q.candidates| && ApplyCandidates(db, actor, q, n).Done?
    ensures var t := ApplyCandidates(db, actor, q, n);
            forall id | id in db.commits :: id in t.db.commits && t.db.commits[id] == db.commits[id]
  {
    ApplyCandidatesSound(db, actor, q, n);
  }

  lemma TablesAfterImport(db: DB, end: DB, actor: string, p: Preview)
    requires AgentSound(db, end) && PartDone(db, end, actor, p, |p.candidates|)
    ensures Valid(end) && end.scan == db.scan && end.policy == db.policy && Destined(end, p)
    ensures forall i | 0 <= i < |p.candidates| :: Outcome(db, end, p, i)
  {
    hide Valid, LoggedTo, SameBeyond, Outcome;
  }

  lemma QuietAfterImport(db: DB, end: DB, req: ImportRequest)
    requires Healthy(db) && ApplyImport(db, req).Done? && end == ApplyImport(db, req).db && PreviewImport(db, req).Ok?
    requires PartDone(db, end, req.actor, PreviewImport(db, req).value, |PreviewImport(db, req).value.candidates|)
    ensures PreviewImport(end, req).Ok? && PreviewImport(end, req).value.applyAllowed
    ensures Seen(end, req.actor, PreviewImport(end, req).value) && AllQuiet(end, req.actor, PreviewImport(end, req).value)
  {
    hide ApplyImport, AgentSound, Imported, PreviewImport, ItemsAs, PartDone, Seen, SameProposals, Outcome, Quiet, ShownCommit,
         Destined, ApplyCandidates, Valid, LogOk;
    ImportOutcome(db, req);
    ImportFacts(db, req);
    var p := PreviewImport(db, req).value;
    TablesAfterImport(db, end, req.actor, p);
    AllowedAgain(db, end, req);
    PreviewAgain(db, end, req);
    SeenPreview(end, req);
    var q := PreviewImport(end, req).value;
    SameCount(p, q);
    forall i | 0 <= i < |q.candidates|
      ensures Quiet(end, q, i) && (!q.candidates[i].disposition.Identical? ==> !end.scan(ShownCommit(CandidateCommit(req.actor, q, q.candidates[i]))))
    {
      QuietAfterwards(db, end, req.actor, p, q, i);
      ShownAlike(req.actor, p, q, i);
      if !q.candidates[i].disposition.Identical? { FirstShown(db, req.actor, p, |p.candidates|, i); }
    }
  }

  lemma SameCount(p: Preview, q: Preview)
    requires SameProposals(p, q)
    ensures |q.candidates| == |p.candidates|
  {
  }

  lemma ImportFacts(db: DB, req: ImportRequest)
    requires ApplyImport(db, req).Done?
    ensures PreviewImport(db, req).Ok? && PreviewImport(db, req).value.applyAllowed && !Text.Blank(req.actor)
    ensures var p := PreviewImport(db, req).value;
            ApplyCandidates(db, req.actor, p, |p.candidates|).Done? &&
            ApplyCandidates(db, req.actor, p, |p.candidates|).db == ApplyImport(db, req).db
  {
    hide ApplyCandidates, BuildPreview, Report;
  }

  lemma ImportSucceeds(db: DB, req: ImportRequest)
    requires PreviewImport(db, req).Ok? && PreviewImport(db, req).value.applyAllowed
    requires req.expected.None? || req.expected.value == Fingerprint(req.actor, PreviewImport(db, req).value)
    requires var p := PreviewImport(db, req).value; ApplyCandidates(db, req.actor, p, |p.candidates|).Done?
    ensures var p := PreviewImport(db, req).value;
            ApplyImport(db, req).Done? && ApplyImport(db, req).db == ApplyCandidates(db, req.actor, p, |p.candidates|).db
  {
    hide ApplyCandidates, PreviewImport, Report;
  }

  /**
   The import converges: applied a second time, with no fingerprint or a refreshed one, it succeeds, applies
   nothing, and changes no entry, pack, review, revision, document or id; only the log may note new answers,
   because the first apply may have changed the fingerprint.
   */
  lemma ImportConverges(db: DB, req: ImportRequest, expected: Option<Fingerprint>)
    requires Healthy(db) && ApplyImport(db, req).Done?
    requires var end := ApplyImport(db, req).db;
             expected.None? ||
             (PreviewImport(end, req).Ok? && expected.value == Fingerprint(req.actor, PreviewImport(end, req).value))
    ensures var end, again := ApplyImport(db, req).db, req.(expected := expected);
            ApplyImport(end, again).Done? && SameButLog(end, ApplyImport(end, again).db) &&
            ApplyImport(end, again).value.appliedCount == 0
  {
    hide ApplyImport, PreviewImport, Valid, LogOk, AgentSound, ItemsAs, Seen, PartDone, Fresh, AllLogged, ApplyCandidates, AllQuiet;
    var end, again := ApplyImport(db, req).db, req.(expected := expected);
    ImportOutcome(db, req);
    ImportFacts(db, req);
    StepHealthy(db, Import(req));
    ExpectationUnseen(end, req, expected);
    var p := PreviewImport(db, req).value;
    if !PartDone(db, end, req.actor, p, |p.candidates|) {
      ImportSucceeds(end, again);
    } else {
      QuietAfterImport(db, end, req);
      var q := PreviewImport(end, req).value;
      QuietCandidates(end, req.actor, q, |q.candidates|);
      ImportSucceeds(end, again);
    }
    NothingApplied(end, again);
  }

  lemma ExpectationUnseen(db: DB, req: ImportRequest, expected: Option<Fingerprint>)
    ensures PreviewImport(db, req.(expected := expected)) == PreviewImport(db, req)
  {
  }

  lemma NothingApplied(end: DB, again: ImportRequest)
    requires Healthy(end) && ApplyImport(end, again).Done? && SameButLog(end, ApplyImport(end, again).db)
    ensures ApplyImport(end, again).value.appliedCount == 0
  {
    ReportIs(end, again);
    ImportOutcome(end, again);
    var items := ApplyImport(end, again).value.items;
    hide ApplyImport, Healthy, Imported;
    forall i | 0 <= i < |items| ensures !items[i].disposition.Applied? {
      if items[i].disposition.Applied? { AppliedMovesOn(end, again, i); }
    }
    NoneCounted(items, Applied);
  }
}
