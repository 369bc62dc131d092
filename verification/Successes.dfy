/** When the composite operations succeed, where the scanner finds no credential: commits, source imports and bundle imports. */
module Successes {
  import opened Prelude
  import opened Model
  import opened Database
  import opened Operations
  import opened SourceImport
  import opened Bundles
  import opened Invariant
  import opened Growth
  import opened Writes
  import opened Governance
  import opened Runs
  import opened Reviews
  import opened Requests
  import opened Commits
  import opened ImportLaws
  import opened Previews
  import opened Restores
  import Text

  // ---------- commits ----------

  predicate RunGiven(run: Option<RunInput>) {
    run.Some? ==> !Text.Blank(run.value.source) && (run.value.id.Some? && run.value.id.value.Named? ==> !Text.Blank(run.value.id.value.text))
  }

  predicate ProposalGiven(p: Proposal) {
    ScopeGiven(p.scope) && !Text.Blank(p.packName) && InputValid(p.entry)
  }

  lemma WriteSucceeds(db: DB, pack: PackKey, entry: EntryInput, actor: string, p: Provenance, requestId: Option<RequestId>,
                      runId: Option<RunId>, allowArchived: bool)
    requires Silent(db.scan) && !Text.Blank(actor)
    ensures ApplyEntry(db, pack, entry, actor, p, requestId, runId, allowArchived).Done? <==>
            !Text.Blank(pack.name) && InputValid(entry) && (allowArchived || (pack in db.packs ==> db.packs[pack].status.Open?))
  {
    hide EnsureDefaultPack, WriteEntry, InputValid, Text.Blank, Passes;
    if !Text.Blank(pack.name) {
      var e := EnsureDefaultPack(db, pack, actor);
      EnsurePackSucceeds(db, pack, actor);
      AllPass(db, PackRecords(pack, actor));
      if e.Done? { WriteEntrySucceeds(e.db, EntryKey(pack, entry.key), e.value.id, entry, p, requestId, runId); }
    }
  }

  lemma AllPass(db: DB, shown: set<Write>)
    requires Silent(db.scan)
    ensures Passes(db, shown)
  {
  }

  lemma HoldSucceeds(db: DB, requestId: RequestId, key: EntryKey, entry: EntryInput, existing: Option<EntryRow>, reason: ReviewReason, exact: bool)
    requires Silent(db.scan)
    ensures HoldForReview(db, requestId, key, entry, existing, reason, exact).Done?
  {
    hide MaxRevision, FindPending;
  }

  lemma GovernSucceeds(db: DB, requestId: RequestId, runId: Option<RunId>, key: EntryKey, entry: EntryInput, actor: string, p: Provenance,
                       mode: ReviewMode, exact: bool)
    requires Silent(db.scan) && !Text.Blank(actor) && !Text.Blank(key.pack.name) && InputValid(entry)
    ensures GovernProposal(db, requestId, runId, key, GetPack(db, key.pack), entry, actor, p, mode, exact).Done?
  {
    hide Silent, ApplyEntry, HoldForReview, IsDuplicate, InputValid, Text.Blank;
    WriteSucceeds(db, key.pack, entry, actor, p, Some(requestId), runId, false);
    var existing := GetEntry(db, key);
    match Decide(key.pack.scope.kind, GetPack(db, key.pack), existing, IsDuplicate(existing, entry, mode, exact), mode)
    case Hold(reason) => HoldSucceeds(db, requestId, key, entry, existing, reason, exact);
    case _ =>
  }

  lemma ProposalSucceeds(db: DB, requestId: RequestId, runId: Option<RunId>, pack: PackKey, entry: EntryInput, actor: string, p: Provenance,
                         mode: ReviewMode, exact: bool)
    requires Valid(db) && Silent(db.scan) && !Text.Blank(actor) && !Text.Blank(pack.name) && InputValid(entry) && Normalized(pack.scope)
    ensures CommitProposal(db, requestId, runId, pack, entry, actor, p, mode, exact).Done?
  {
    hide Valid, Silent, GovernProposal, EnsureDefaultPack, InputValid, Text.Blank, Grows;
    if exact {
      GovernSucceeds(db, requestId, runId, EntryKey(pack, entry.key), entry, actor, p, mode, exact);
    } else {
      var e := EnsureDefaultPack(db, pack, actor);
      EnsureSucceeds(db, pack, actor);
      EnsureDefaultPackSound(db, pack, actor);
      GovernSucceeds(e.db, requestId, runId, EntryKey(pack, entry.key), entry, actor, p, mode, exact);
    }
  }

  lemma EnsureSucceeds(db: DB, pack: PackKey, actor: string)
    requires Silent(db.scan) && !Text.Blank(pack.name)
    ensures EnsureDefaultPack(db, pack, actor).Done?
  {
    hide MaxRevision, Text.Blank;
  }

  lemma OneSucceeds(db: DB, req: CommitRequest, runId: Option<RunId>, mode: ReviewMode, exact: bool, p: Proposal)
    requires Valid(db) && Silent(db.scan) && !Text.Blank(req.actor)
    ensures CommitOne(db, req, runId, mode, exact, p).Done? <==> ProposalGiven(p)
  {
    hide Valid, Silent, CommitProposal, InputValid, Text.Blank, Normalize;
    ScopeRead(p.scope);
    if ProposalGiven(p) {
      NormalizeSettles(p.scope);
      ProposalSucceeds(db, req.requestId, runId, PackMeant(p.scope, p.packName), p.entry, req.actor,
                       Or(p.entry.provenance, Provenance(req.actor, "commit_work", None, runId, Some(req.requestId), None)), mode, exact);
    }
  }

  lemma {:induction false} ProposalsSucceed(db: DB, req: CommitRequest, runId: Option<RunId>, exact: bool, n: nat)
    requires Valid(db) && Silent(db.scan) && !Text.Blank(req.actor) && GoodRequestId(req.requestId) && n <= |req.proposals|
    ensures CommitProposals(db, req, runId, db.policy.mode, exact, n).Done? <==> forall i | 0 <= i < n :: ProposalGiven(req.proposals[i])
  {
    hide Valid, Silent, AgentSound, CommitOne, GoodRequestId, ProposalGiven, Text.Blank;
    if n > 0 {
      ProposalsSucceed(db, req, runId, exact, n - 1);
      CommitProposalsSound(db, req, runId, exact, n - 1);
      var t := CommitProposals(db, req, runId, db.policy.mode, exact, n - 1);
      if t.Done? {
        SamePolicy(db, t.db);
        SameScanner(db, t.db);
        OneSucceeds(t.db, req, runId, db.policy.mode, exact, req.proposals[n - 1]);
      }
    }
  }

  lemma SameScanner(db: DB, end: DB)
    requires AgentSound(db, end)
    ensures end.scan == db.scan
  {
  }

  /**
   A commit that the scanner finds nothing in succeeds exactly if request id, actor and at least one proposal are
   given, and either its id is in the log or its run and each of its proposals are complete and valid.
   */
  lemma CommitSucceeds(db: DB, req: CommitRequest, exact: bool)
    requires Valid(db) && Silent(db.scan)
    ensures CommitWork(db, req, exact).Done? <==>
            GoodRequestId(req.requestId) && !Text.Blank(req.actor) && req.proposals != [] &&
            (req.requestId in db.commits || (RunGiven(req.run) && forall i | 0 <= i < |req.proposals| :: ProposalGiven(req.proposals[i])))
  {
    hide Valid, CommitProposals, Summarize, ProposalGiven, AgentSound, Text.Blank, EnsureRun;
    if req.run.Some? { RunSucceeds(db, req.run.value); }
    CommitRunSound(db, req.run);
    var r := CommitRun(db, req.run);
    if r.Done? && !Text.Blank(req.actor) && GoodRequestId(req.requestId) {
      RunFrame(db, r.db);
      ProposalsSucceed(r.db, req, r.value, exact, |req.proposals|);
    }
  }

  // ---------- source imports ----------

  lemma CandidateSucceeds(db: DB, actor: string, p: Preview, c: Candidate)
    requires Valid(db) && Silent(db.scan) && LogTells(db.commits) && !Text.Blank(actor)
    requires ScopeGiven(p.destination) && !Text.Blank(p.packName) && InputValid(c.entry)
    ensures var u := ApplyCandidate(db, actor, p, c); u.Done? && Valid(u.db) && u.db.scan == db.scan && LogTells(u.db.commits)
  {
    hide Valid, Silent, CommitWork, LogTells, AgentSound, Text.Blank, InputValid;
    var req := CandidateCommit(actor, p, c);
    assert req.proposals[0].entry.key == c.entry.key && req.proposals[0].entry.kind == c.entry.kind;
    SameInput(c.entry, req.proposals[0].entry);
    CommitSucceeds(db, req, true);
    if !c.disposition.Identical? {
      CommitWorkSound(db, req, true);
      CommitKeepsTelling(db, req, true);
      ItemsThere(db, req);
      SamePolicy(db, CommitWork(db, req, true).db);
      SameScanner(db, CommitWork(db, req, true).db);
    }
  }

  lemma SameInput(a: EntryInput, b: EntryInput)
    requires a.key == b.key && a.kind == b.kind && InputValid(a)
    ensures InputValid(b)
  {
  }

  lemma ItemsThere(db: DB, req: CommitRequest)
    requires Valid(db) && LogTells(db.commits) && CommitWork(db, req, true).Done?
    ensures CommitWork(db, req, true).value.items != []
  {
    hide Valid, CommitWork;
    if req.requestId in db.commits { ResendIsIdempotentFor(db, req, true); } else { CommitStatusTells(db, req, true); }
  }

  lemma {:induction false} CandidatesSucceed(db: DB, actor: string, p: Preview, n: nat)
    requires Valid(db) && Silent(db.scan) && LogTells(db.commits) && !Text.Blank(actor) && n <= |p.candidates|
    requires ScopeGiven(p.destination) && !Text.Blank(p.packName) && forall i | 0 <= i < |p.candidates| :: InputValid(p.candidates[i].entry)
    ensures var t := ApplyCandidates(db, actor, p, n); t.Done? && Valid(t.db) && t.db.scan == db.scan && LogTells(t.db.commits)
  {
    hide Valid, Silent, ApplyCandidate, LogTells, Text.Blank, InputValid, ScopeGiven;
    if n > 0 {
      CandidatesSucceed(db, actor, p, n - 1);
      CandidateSucceeds(ApplyCandidates(db, actor, p, n - 1).db, actor, p, p.candidates[n - 1]);
    }
  }

  /**
   A source import that the scanner finds nothing in succeeds exactly if all that an import needs is there, the
   preview is the one that was expected, if one was, and it may be applied: the pack takes writes and no key is given twice.
   */
  lemma ImportSucceeds(db: DB, req: ImportRequest)
    requires Valid(db) && Silent(db.scan) && LogTells(db.commits)
    ensures ApplyImport(db, req).Done? <==>
            ImportGiven(db, req) && PreviewImport(db, req).Ok? &&
            (req.expected.Some? ==> req.expected == Some(Fingerprint(req.actor, PreviewImport(db, req).value))) &&
            !ArchivedAt(db, Destination(req)) && forall i, j | 0 <= i < j < |req.parsed| :: req.parsed[i].entry.key != req.parsed[j].entry.key
  {
    hide Valid, Silent, PreviewImport, ApplyCandidates, Report, LogTells, CandidateShows, WarnedOf, PreviewWarns, ArchivedAt,
         Text.Blank, InputValid, ShownFirst;
    PreviewTells(db, req);
    if ImportGiven(db, req) {
      var p := PreviewImport(db, req).value;
      forall i | 0 <= i < |p.candidates| ensures InputValid(p.candidates[i].entry) { CandidateIs(db, req, p, i); }
      GivenTwice(req.destination);
      CandidatesSucceed(db, req.actor, p, |p.candidates|);
    }
  }

  lemma CandidateIs(db: DB, req: ImportRequest, p: Preview, i: nat)
    requires i < |p.candidates| == |req.parsed| && CandidateShows(db, Destination(req), i, req.parsed[i], p.candidates[i])
    ensures p.candidates[i].entry == req.parsed[i].entry
  {
  }

  lemma GivenTwice(scope: ScopeRef)
    ensures ScopeGiven(scope) ==> ScopeGiven(ScopeMeant(scope))
  {
    Text.TrimIsTight(scope.id);
    Text.TrimIsTight(Text.Trim(scope.id));
  }

  // ---------- bundle imports ----------

  predicate PackGiven(p: PackRecord) { ScopeGiven(p.scope) && !Text.Blank(p.name) }

  predicate EntryGiven(e: EntryRecord) { ScopeGiven(e.scope) && !Text.Blank(e.packName) && InputValid(InputOf(e)) }

  predicate RunRowGiven(r: RunRecord) { !Text.Blank(r.source) && (r.id.Named? ==> !Text.Blank(r.id.text)) }

  // A review needs all that names it and what it is about.
  predicate ReviewGiven(r: ReviewItem) {
    (r.requestId.ByClient? ==> !Text.Blank(r.requestId.text)) && ScopeGiven(r.scope) && !Text.Blank(r.packName) && !Text.Blank(r.entryKey) &&
    InputValid(r.proposed) &&
    (r.existing.Some? ==> ScopeGiven(r.existing.value.scope) && !Text.Blank(r.existing.value.packName) && !Text.Blank(r.existing.value.key))
  }

  lemma PackSucceeds(db: DB, p: PackRecord, actor: string)
    requires Silent(db.scan) && !Text.Blank(actor)
    ensures ImportPack(db, p, actor).Done? <==> PackGiven(p)
    ensures ImportPack(db, p, actor).Done? ==> ImportPack(db, p, actor).db.scan == db.scan
  {
    hide MaxRevision, Text.Blank, Normalize;
    ScopeRead(p.scope);
  }

  lemma {:induction false} PacksSucceed(db: DB, packs: seq<PackRecord>, actor: string, n: nat)
    requires Silent(db.scan) && !Text.Blank(actor) && n <= |packs|
    ensures var t := ImportPacks(db, packs, actor, n); (t.Done? <==> forall i | 0 <= i < n :: PackGiven(packs[i])) && (t.Done? ==> t.db.scan == db.scan)
  {
    hide Silent, ImportPack, PackGiven, Text.Blank;
    if n > 0 {
      PacksSucceed(db, packs, actor, n - 1);
      var t := ImportPacks(db, packs, actor, n - 1);
      if t.Done? { PackSucceeds(t.db, packs[n - 1], actor); }
    }
  }

  lemma EntrySucceeds(db: DB, e: EntryRecord, actor: string)
    requires Valid(db) && Silent(db.scan) && !Text.Blank(actor)
    ensures ImportEntry(db, e, actor).Done? <==> EntryGiven(e)
  {
    hide Valid, Silent, ApplyEntry, InputValid, Text.Blank, Normalize, FlipDeleted;
    ScopeRead(e.scope);
    WriteSucceeds(db, PackMeant(e.scope, e.packName), InputOf(e), actor, e.provenance, None, None, true);
  }

  lemma {:induction false} EntriesSucceed(db: DB, es: seq<EntryRecord>, actor: string, n: nat)
    requires Valid(db) && Silent(db.scan) && !Text.Blank(actor) && n <= |es|
    ensures ImportEntries(db, es, actor, n).Done? <==> forall i | 0 <= i < n :: EntryGiven(es[i])
  {
    hide Valid, Silent, ImportEntry, EntryGiven, Text.Blank, EntriesTaken, PacksFilledIn;
    if n > 0 {
      EntriesSucceed(db, es, actor, n - 1);
      var t := ImportEntries(db, es, actor, n - 1);
      if t.Done? {
        ImportEntriesStore(db, es, actor, n - 1);
        EntrySucceeds(t.db, es[n - 1], actor);
      }
    }
  }

  lemma {:induction false} RunsSucceed(db: DB, runs: seq<RunRecord>, n: nat)
    requires Silent(db.scan) && n <= |runs|
    ensures var t := ImportRuns(db, runs, n); (t.Done? <==> forall i | 0 <= i < n :: RunRowGiven(runs[i])) && (t.Done? ==> t.db.scan == db.scan)
  {
    hide Text.Blank;
    if n > 0 { RunsSucceed(db, runs, n - 1); }
  }

  lemma ReviewSucceeds(db: DB, r: ReviewItem, actor: string)
    requires Silent(db.scan) && !Text.Blank(actor)
    ensures ImportReview(db, r, actor).Done? <==> ReviewGiven(r)
    ensures ImportReview(db, r, actor).Done? ==> ImportReview(db, r, actor).db.scan == db.scan
  {
    hide Text.Blank, InputValid, Normalize, PutRevision, ReviewIndex, ReviewRevision, StoredReview;
    ScopeRead(r.scope);
    if r.existing.Some? { ScopeRead(r.existing.value.scope); }
  }

  lemma {:induction false} ReviewsSucceed(db: DB, reviews: seq<ReviewItem>, actor: string, n: nat)
    requires Silent(db.scan) && !Text.Blank(actor) && n <= |reviews|
    ensures var t := ImportReviews(db, reviews, actor, n); (t.Done? <==> forall i | 0 <= i < n :: ReviewGiven(reviews[i])) && (t.Done? ==> t.db.scan == db.scan)
  {
    hide Silent, ImportReview, ReviewGiven, Text.Blank;
    if n > 0 {
      ReviewsSucceed(db, reviews, actor, n - 1);
      var t := ImportReviews(db, reviews, actor, n - 1);
      if t.Done? { ReviewSucceeds(t.db, reviews[n - 1], actor); }
    }
  }

  /** A bundle that the scanner finds nothing in is imported exactly if the actor is given and every row of it is complete. */
  lemma BundleSucceeds(db: DB, b: Bundle, actor: string)
    requires Valid(db) && Silent(db.scan)
    ensures ImportBundle(db, b, actor).Done? <==>
            !Text.Blank(actor) && (forall i | 0 <= i < |b.packs| :: PackGiven(b.packs[i])) &&
            (forall i | 0 <= i < |b.entries| :: EntryGiven(b.entries[i])) && (forall i | 0 <= i < |b.runs| :: RunRowGiven(b.runs[i])) &&
            forall i | 0 <= i < |b.reviews| :: ReviewGiven(b.reviews[i])
  {
    hide Valid, Silent, ImportPacks, ImportEntries, ImportRuns, ImportReviews, PackGiven, EntryGiven, RunRowGiven, ReviewGiven, Text.Blank,
         Advances, EntriesTaken, PacksFilledIn;
    if !Text.Blank(actor) {
      PacksSucceed(db, b.packs, actor, |b.packs|);
      var p := ImportPacks(db, b.packs, actor, |b.packs|);
      if p.Done? {
        ImportPacksMove(db, b.packs, actor, |b.packs|);
        EntriesSucceed(p.db, b.entries, actor, |b.entries|);
        var e := ImportEntries(p.db, b.entries, actor, |b.entries|);
        if e.Done? {
          ImportEntriesStore(p.db, b.entries, actor, |b.entries|);
          RunsSucceed(e.db, b.runs, |b.runs|);
          var r := ImportRuns(e.db, b.runs, |b.runs|);
          if r.Done? { ReviewsSucceed(r.db, b.reviews, actor, |b.reviews|); }
        }
      }
    }
  }
}
