/** The commit log entries of the source import, as an invariant of whole runs. */
module ImportLog {
  import opened Prelude
  import opened Model
  import opened Database
  import opened Operations
  import opened SourceImport
  import opened Bundles
  import opened Invariant
  import opened Growth
  import opened Writes
  import opened Governance
  import opened Runs
  import opened Reviews
  import opened ImportLaws

  // All candidates of a preview are logged together, or none is.
  ghost predicate AllLogged(log: map<RequestId, CommitResult>, actor: string, p: Preview) {
    forall i | 0 <= i < |p.candidates| && !p.candidates[i].disposition.Identical? :: IdAt(actor, p, i) in log
  }

  // As long as the entry is still at the revision the preview showed, the log holds the fate foreseen, and
  // that is not Applied: what was applied has moved the entry on.
  ghost predicate LogEntryOk(result: CommitResult, p: Preview, c: Candidate, row: Option<EntryRow>) {
    |result.items| == 1 && result.items[0].entryKey == c.entry.key &&
    (c.existingRevision.Some? ==> row.Some? && row.value.record.revisionNo >= c.existingRevision.value) &&
    (RevisionOf(row) == c.existingRevision ==>
       FateOf(result.items[0]) == Foresee(p, row) && !result.items[0].disposition.Applied?)
  }

  ghost predicate LogOk(db: DB) {
    forall id | id in db.commits && id.ByImport? ::
      LogEntryOk(db.commits[id], id.fingerprint.preview, id.candidate,
                 GetEntry(db, CandidateKey(id.fingerprint.preview, id.candidate))) &&
      AllLogged(db.commits, id.fingerprint.actor, id.fingerprint.preview)
  }

  /** The invariant of the store together with what its log says about source imports. */
  ghost predicate Healthy(db: DB) {
    Valid(db) && LogOk(db)
  }

  ghost predicate NoNewImports(db: DB, db': DB) {
    forall id | id in db'.commits && id.ByImport? :: id in db.commits
  }

  lemma EntryKeepsOk(result: CommitResult, p: Preview, c: Candidate, row: Option<EntryRow>, row': Option<EntryRow>)
    requires LogEntryOk(result, p, c, row)
    requires row.Some? ==> row'.Some? && EntryAdvances(row.value, row'.value)
    ensures LogEntryOk(result, p, c, row')
  {
  }

  lemma OldEntriesOk(db: DB, db': DB, id: RequestId)
    requires LogOk(db) && RowsAdvance(db, db') && id in db.commits && id.ByImport?
    ensures id in db'.commits &&
            LogEntryOk(db'.commits[id], id.fingerprint.preview, id.candidate,
                       GetEntry(db', CandidateKey(id.fingerprint.preview, id.candidate))) &&
            AllLogged(db'.commits, id.fingerprint.actor, id.fingerprint.preview)
  {
    var key := CandidateKey(id.fingerprint.preview, id.candidate);
    EntryKeepsOk(db.commits[id], id.fingerprint.preview, id.candidate, GetEntry(db, key), GetEntry(db', key));
  }

  lemma LogKept(db: DB, db': DB)
    requires LogOk(db) && RowsAdvance(db, db') && NoNewImports(db, db')
    ensures LogOk(db')
  {
    forall id | id in db'.commits && id.ByImport?
      ensures LogEntryOk(db'.commits[id], id.fingerprint.preview, id.candidate,
                         GetEntry(db', CandidateKey(id.fingerprint.preview, id.candidate))) &&
              AllLogged(db'.commits, id.fingerprint.actor, id.fingerprint.preview)
    {
      OldEntriesOk(db, db', id);
    }
  }

  // ---------- the import itself ----------

  lemma SeenPreview(db: DB, req: ImportRequest)
    requires PreviewImport(db, req).Ok? && PreviewImport(db, req).value.applyAllowed
    ensures Seen(db, req.actor, PreviewImport(db, req).value)
  {
    hide PreviewImport, Prepare, BuildCandidate, Foretold, DistinctKeys;
    PreviewShape(db, req);
    var p := PreviewImport(db, req).value;
    forall i | 0 <= i < |p.candidates| ensures Foretold(db, req.actor, p, p.candidates[i]) && p.candidates[i].index == i {
      PreviewForetells(db, req, i);
    }
  }

  lemma FreshOrLogged(db: DB, actor: string, p: Preview)
    requires LogOk(db)
    ensures Fresh(db, actor, p) || AllLogged(db.commits, actor, p)
  {
    if !Fresh(db, actor, p) {
      var i :| 0 <= i < |p.candidates| && !p.candidates[i].disposition.Identical? && IdAt(actor, p, i) in db.commits;
      assert IdAt(actor, p, i).ByImport?;
    }
  }

  lemma LoggedItem(db: DB, actor: string, p: Preview, i: nat)
    requires LogOk(db) && Seen(db, actor, p) && i < |p.candidates| && IdAt(actor, p, i) in db.commits
    ensures var res := db.commits[IdAt(actor, p, i)];
            |res.items| == 1 && res.items[0].entryKey == p.candidates[i].entry.key && !res.items[0].disposition.Applied? &&
            (!p.candidates[i].disposition.Identical? ==> FateOf(res.items[0]) == FateAt(db, p, i))
  {
    var id := IdAt(actor, p, i);
    assert id.ByImport? && id.fingerprint.preview == p && id.candidate == p.candidates[i];
    assert Foretold(db, actor, p, p.candidates[i]);
  }

  lemma CachedCandidate(db: DB, actor: string, p: Preview, i: nat)
    requires LogOk(db) && Seen(db, actor, p) && i < |p.candidates|
    requires p.candidates[i].disposition.Identical? || IdAt(actor, p, i) in db.commits
    ensures var u := ApplyCandidate(db, actor, p, p.candidates[i]);
            u.Done? ==> u.db == db && Fate(u.value.disposition, u.value.reason) == FateAt(db, p, i) && u.value.index == i &&
                        u.value.entryKey == p.candidates[i].entry.key
  {
    assert p.candidates[i].index == i;
    if !p.candidates[i].disposition.Identical? { LoggedItem(db, actor, p, i); }
    hide LogOk, Seen, FateAt, CommitProposals;
  }

  /** When the log already has the candidates, an apply answers from the log and changes nothing. */
  lemma {:induction false} CachedCandidates(db: DB, actor: string, p: Preview, n: nat)
    requires LogOk(db) && Seen(db, actor, p) && AllLogged(db.commits, actor, p) && n <= |p.candidates|
    ensures var t := ApplyCandidates(db, actor, p, n); t.Done? ==> t.db == db && |t.value| == n && ItemsAs(db, p, t.value)
  {
    hide LogOk, Seen, ApplyCandidate, FateAt;
    if n > 0 {
      CachedCandidates(db, actor, p, n - 1);
      CachedCandidate(db, actor, p, n - 1);
    }
  }

  lemma NewEntryOk(db: DB, end: DB, actor: string, p: Preview, i: nat)
    requires Seen(db, actor, p) && PartDone(db, end, actor, p, |p.candidates|)
    requires i < |p.candidates| && !p.candidates[i].disposition.Identical?
    ensures IdAt(actor, p, i) in end.commits
    ensures LogEntryOk(end.commits[IdAt(actor, p, i)], p, p.candidates[i], GetEntry(end, CandidateKey(p, p.candidates[i])))
    ensures AllLogged(end.commits, actor, p)
  {
    assert Foretold(db, actor, p, p.candidates[i]);
    hide Destined, SameBeyond, HasPending, Foresee, Classify, Foretold, Seen;
    assert LoggedAs(end.commits[IdAt(actor, p, i)], p.candidates[i], FateAt(db, p, i));
    assert Outcome(db, end, p, i);
    AllLoggedOf(db, end, actor, p);
    EntryOkOf(db, end, actor, p, i);
  }

  lemma AllLoggedOf(db: DB, end: DB, actor: string, p: Preview)
    requires LoggedTo(db, end, actor, p, |p.candidates|)
    ensures AllLogged(end.commits, actor, p)
  {
    hide LoggedOnly, LoggedAs, FateAt;
  }

  lemma EntryOkOf(db: DB, end: DB, actor: string, p: Preview, i: nat)
    requires i < |p.candidates| && !p.candidates[i].disposition.Identical? && IdAt(actor, p, i) in end.commits
    requires LoggedAs(end.commits[IdAt(actor, p, i)], p.candidates[i], FateAt(db, p, i)) && Outcome(db, end, p, i)
    requires p.candidates[i].existingRevision == RevisionOf(GetEntry(db, CandidateKey(p, p.candidates[i])))
    ensures LogEntryOk(end.commits[IdAt(actor, p, i)], p, p.candidates[i], GetEntry(end, CandidateKey(p, p.candidates[i])))
  {
    hide HasPending, AppliedRow;
  }

  lemma ImportedLogOk(db: DB, end: DB, actor: string, p: Preview)
    requires LogOk(db) && RowsAdvance(db, end) && Seen(db, actor, p) && PartDone(db, end, actor, p, |p.candidates|)
    ensures LogOk(end)
  {
    hide LogEntryOk, AllLogged, Seen;
    forall id | id in end.commits && id.ByImport?
      ensures LogEntryOk(end.commits[id], id.fingerprint.preview, id.candidate,
                         GetEntry(end, CandidateKey(id.fingerprint.preview, id.candidate))) &&
              AllLogged(end.commits, id.fingerprint.actor, id.fingerprint.preview)
    {
      if id in db.commits {
        OldEntriesOk(db, end, id);
      } else {
        assert OfCandidate(id, actor, p, |p.candidates|);
        var i :| 0 <= i < |p.candidates| && !p.candidates[i].disposition.Identical? && id == IdAt(actor, p, i);
        NewEntryOk(db, end, actor, p, i);
      }
    }
  }

  // What an apply has done: from the log alone, or candidate by candidate.
  ghost predicate Imported(db: DB, end: DB, actor: string, p: Preview) {
    (end == db && AllLogged(db.commits, actor, p)) || (Fresh(db, actor, p) && PartDone(db, end, actor, p, |p.candidates|))
  }

  /** The two ways an apply can go, and the items both report. */
  lemma ImportOutcome(db: DB, req: ImportRequest)
    requires Healthy(db) && ApplyImport(db, req).Done?
    ensures var t, p := ApplyImport(db, req), PreviewImport(db, req);
            p.Ok? && p.value.applyAllowed && Seen(db, req.actor, p.value) && AgentSound(db, t.db) &&
            Imported(db, t.db, req.actor, p.value) && |t.value.items| == |p.value.candidates| && ItemsAs(db, p.value, t.value.items)
  {
    var p := PreviewImport(db, req).value;
    SeenPreview(db, req);
    ApplyImportSound(db, req);
    FreshOrLogged(db, req.actor, p);
    if Fresh(db, req.actor, p) {
      FreshCandidates(db, req.actor, p, |p.candidates|);
    } else {
      CachedCandidates(db, req.actor, p, |p.candidates|);
    }
  }

  lemma ImportKeepsLog(db: DB, req: ImportRequest)
    requires Healthy(db)
    ensures LogOk(ApplyImport(db, req).After(db))
  {
    if ApplyImport(db, req).Done? {
      ImportOutcome(db, req);
      var end, p := ApplyImport(db, req).db, PreviewImport(db, req).value;
      if end != db { ImportedLogOk(db, end, req.actor, p); }
    }
  }

  // ---------- the other operations log no source import ----------

  lemma WriteKeepsLog(db: DB, key: EntryKey, packId: Id, entry: EntryInput, p: Provenance,
                      requestId: Option<RequestId>, runId: Option<RunId>)
    ensures var t := WriteEntry(db, key, packId, entry, p, requestId, runId); t.Done? ==> t.db.commits == db.commits
  {
  }

  lemma ApplyKeepsLog(db: DB, pack: PackKey, entry: EntryInput, actor: string, p: Provenance,
                      requestId: Option<RequestId>, runId: Option<RunId>, allowArchived: bool)
    ensures var t := ApplyEntry(db, pack, entry, actor, p, requestId, runId, allowArchived);
            t.Done? ==> t.db.commits == db.commits
  {
    hide EnsureDefaultPack, WriteEntry;
    EnsureDefaultPackFrame(db, pack, actor);
    var e := EnsureDefaultPack(db, pack, actor);
    if e.Done? { WriteKeepsLog(e.db, EntryKey(pack, entry.key), e.value.id, entry, p, requestId, runId); }
  }

  lemma CommitLogsItself(db: DB, req: CommitRequest, exact: bool)
    requires Valid(db)
    ensures var t := CommitWork(db, req, exact); t.Done? ==> forall id | id in t.db.commits :: id in db.commits || id == req.requestId
  {
    if CommitWork(db, req, exact).Done? && req.requestId !in db.commits {
      var r := CommitRun(db, req.run);
      CommitRunSound(db, req.run);
      CommitProposalsSound(r.db, req, r.value, exact, |req.proposals|);
    }
  }

  lemma BundleKeepsLog(db: DB, b: Bundle, actor: string)
    ensures ImportBundle(db, b, actor).Done? ==> ImportBundle(db, b, actor).db.commits == db.commits
  {
    PacksKeepLog(db, b.packs, actor, |b.packs|);
    var p := ImportPacks(db, b.packs, actor, |b.packs|);
    if p.Done? {
      EntriesKeepLog(p.db, b.entries, actor, |b.entries|);
      var e := ImportEntries(p.db, b.entries, actor, |b.entries|);
      if e.Done? {
        RunsKeepLog(e.db, b.runs, |b.runs|);
        var r := ImportRuns(e.db, b.runs, |b.runs|);
        if r.Done? { ReviewsKeepLog(r.db, b.reviews, actor, |b.reviews|); }
      }
    }
  }

  lemma PackKeepsLog(db: DB, p: PackRecord, actor: string)
    ensures var t := ImportPack(db, p, actor); t.Done? ==> t.db.commits == db.commits
  {
    hide MaxRevision, Normalize;
  }

  lemma {:induction false} PacksKeepLog(db: DB, packs: seq<PackRecord>, actor: string, n: nat)
    requires n <= |packs|
    ensures var t := ImportPacks(db, packs, actor, n); t.Done? ==> t.db.commits == db.commits
  {
    hide ImportPack;
    if n > 0 {
      PacksKeepLog(db, packs, actor, n - 1);
      var t := ImportPacks(db, packs, actor, n - 1);
      if t.Done? { PackKeepsLog(t.db, packs[n - 1], actor); }
    }
  }

  lemma {:induction false} EntriesKeepLog(db: DB, entries: seq<EntryRecord>, actor: string, n: nat)
    requires n <= |entries|
    ensures var t := ImportEntries(db, entries, actor, n); t.Done? ==> t.db.commits == db.commits
  {
    hide ApplyEntry;
    if n > 0 {
      EntriesKeepLog(db, entries, actor, n - 1);
      var t, e := ImportEntries(db, entries, actor, n - 1), entries[n - 1];
      if t.Done? && Normalize(e.scope).Ok? {
        ApplyKeepsLog(t.db, PackKey(Normalize(e.scope).value, e.packName), InputOf(e), actor, e.provenance, None, None, true);
      }
    }
  }

  lemma {:induction false} RunsKeepLog(db: DB, runs: seq<RunRecord>, n: nat)
    requires n <= |runs|
    ensures var t := ImportRuns(db, runs, n); t.Done? ==> t.db.commits == db.commits
  {
    if n > 0 { RunsKeepLog(db, runs, n - 1); }
  }

  lemma {:induction false} ReviewsKeepLog(db: DB, reviews: seq<ReviewItem>, actor: string, n: nat)
    requires n <= |reviews|
    ensures var t := ImportReviews(db, reviews, actor, n); t.Done? ==> t.db.commits == db.commits
  {
    hide ImportReview;
    if n > 0 {
      ReviewsKeepLog(db, reviews, actor, n - 1);
      var t := ImportReviews(db, reviews, actor, n - 1);
      if t.Done? { ImportReviewFrame(t.db, reviews[n - 1], actor); }
    }
  }

  lemma RevertKeepsLog(db: DB, sel: Selector, no: Option<int>, actor: string)
    ensures RevertEntry(db, sel, no, actor).Done? ==> RevertEntry(db, sel, no, actor).db.commits == db.commits
  {
    hide RevertTarget, ApplyEntry;
    if RevertTarget(db, sel, no, actor).Ok? {
      var pack, snapshot := RevertTarget(db, sel, no, actor).value.0, RevertTarget(db, sel, no, actor).value.1;
      ApplyKeepsLog(db, pack, InputOf(snapshot), actor, snapshot.provenance, None, None, false);
    }
  }

  lemma ProposedKeepsLog(db: DB, r: ReviewItem, actor: string, source: string, note: Option<string>)
    ensures var t := ApplyProposed(db, r, actor, source, note); t.Done? ==> t.db.commits == db.commits
  {
    hide ApplyEntry;
    var p := ApprovalProvenance(r, actor, source, note);
    ApplyKeepsLog(db, PackKey(r.scope, r.packName), r.proposed, actor, p, Some(r.requestId), p.runId, false);
  }

  lemma ApproveKeepsLog(db: DB, id: Id, actor: string, note: Option<string>)
    ensures ApproveReview(db, id, actor, note).Done? ==> ApproveReview(db, id, actor, note).db.commits == db.commits
  {
    hide ApplyProposed, MaxRevision;
    if PendingReview(db, id, actor).Ok? {
      ProposedKeepsLog(db, db.reviews[PendingReview(db, id, actor).value], actor, "review_approve", note);
    }
  }

  lemma EditAndApproveKeepsLog(db: DB, id: Id, f: EditFields, actor: string, note: Option<string>)
    ensures EditAndApproveReview(db, id, f, actor, note).Done? ==> EditAndApproveReview(db, id, f, actor, note).db.commits == db.commits
  {
    hide ApplyProposed, MaxRevision, EditedEntry;
    if PendingReview(db, id, actor).Ok? && EditedReview(db, db.reviews[PendingReview(db, id, actor).value], f).Ok? {
      var r := EditedReview(db, db.reviews[PendingReview(db, id, actor).value], f).value;
      ProposedKeepsLog(db, r, actor, "review_edit_and_approve", note);
    }
  }

  lemma PutKeepsLog(db: DB, req: PutRequest)
    ensures PutEntry(db, req).Done? ==> PutEntry(db, req).db.commits == db.commits
  {
    hide ApplyEntry;
    if Normalize(req.scope).Ok? {
      ApplyKeepsLog(db, PackKey(Normalize(req.scope).value, req.packName), req.entry, req.actor,
                    Or(req.entry.provenance, SystemProvenance(req.actor, "manual_put")), None, None, false);
    }
  }

  lemma CreateKeepsLog(db: DB, req: CreatePackRequest)
    ensures CreatePack(db, req).Done? ==> CreatePack(db, req).db.commits == db.commits
  {
    hide MaxRevision, Normalize;
  }

  lemma UpdateKeepsLog(db: DB, req: UpdatePackRequest)
    ensures UpdatePack(db, req).Done? ==> UpdatePack(db, req).db.commits == db.commits
  {
    hide MaxRevision, UpdatedPack, Normalize;
  }

  lemma DeleteKeepsLog(db: DB, sel: Selector, actor: string)
    requires Valid(db) && DeleteEntry(db, sel, actor).Done?
    ensures DeleteEntry(db, sel, actor).db.commits == db.commits
  {
    hide DeleteRow, Valid, Select;
    SelectNormalized(db, sel, actor);
    DeleteRowSound(db, Select(db, sel, actor).value, actor);
  }

  /** Only commits and source imports write the log. */
  lemma OthersKeepLog(db: DB, op: Op)
    requires Valid(db) && !op.Import? && !op.Commit?
    ensures Step(db, op).commits == db.commits
  {
    hide Valid, PutEntry, DeleteEntry, RevertEntry, CreatePack, UpdatePack, SetPolicy, EnsureRun,
         ApproveReview, RejectReview, EditReview, EditAndApproveReview, ImportBundle;
    match op
    case Put(req) => PutKeepsLog(db, req);
    case Revert(sel, no, actor) => RevertKeepsLog(db, sel, no, actor);
    case Approve(id, actor, note) => ApproveKeepsLog(db, id, actor, note);
    case EditAndApprove(id, f, actor, note) => EditAndApproveKeepsLog(db, id, f, actor, note);
    case Restore(b, actor) => BundleKeepsLog(db, b, actor);
    case Delete(sel, actor) => if DeleteEntry(db, sel, actor).Done? { DeleteKeepsLog(db, sel, actor); }
    case Create(req) => CreateKeepsLog(db, req);
    case Update(req) => UpdateKeepsLog(db, req);
    case Policy(mode, metadata, actor) => SetPolicySound(db, mode, metadata, actor);
    case StartRun(input) => EnsureRunSound(db, input);
    case Reject(id, actor, note) => RejectWritesNothing(db, id, actor, note);
    case Edit(id, f, actor) => EditWritesNothing(db, id, f, actor);
  }

  lemma OthersLogNoImport(db: DB, op: Op)
    requires Valid(db) && !op.Import?
    ensures NoNewImports(db, Step(db, op))
  {
    if op.Commit? {
      CommitLogsItself(db, CommitOf(op), false);
    } else {
      OthersKeepLog(db, op);
    }
  }

  // The log gains no id of a client.
  ghost predicate NoNewClients(db: DB, db': DB) {
    forall id | id in db'.commits && id.ByClient? :: id in db.commits
  }

  lemma {:induction false} CandidatesLogNoClient(db: DB, actor: string, p: Preview, n: nat)
    requires Valid(db) && n <= |p.candidates|
    ensures var t := ApplyCandidates(db, actor, p, n); t.Done? ==> NoNewClients(db, t.db)
  {
    hide CommitWork, Valid, Grows, AgentChange;
    if n > 0 {
      CandidatesLogNoClient(db, actor, p, n - 1);
      ApplyCandidatesSound(db, actor, p, n - 1);
      var t := ApplyCandidates(db, actor, p, n - 1);
      if t.Done? { CommitLogsItself(t.db, CandidateCommit(actor, p, p.candidates[n - 1]), true); }
    }
  }

  /** A source import logs only ids of its own making. */
  lemma ImportLogsNoClient(db: DB, req: ImportRequest)
    requires Valid(db)
    ensures ApplyImport(db, req).Done? ==> NoNewClients(db, ApplyImport(db, req).db)
  {
    hide PreviewImport, ApplyCandidates, Report;
    if PreviewImport(db, req).Ok? {
      var p := PreviewImport(db, req).value;
      CandidatesLogNoClient(db, req.actor, p, |p.candidates|);
    }
  }

  /** The log invariant holds throughout every run. */
  lemma StepHealthy(db: DB, op: Op)
    requires Healthy(db)
    ensures Healthy(Step(db, op))
  {
    hide Valid, LogOk, ApplyImport, NoNewImports, PackAdvances, EntryAdvances;
    StepSound(db, op);
    if op.Import? {
      ImportKeepsLog(db, op.import_);
    } else {
      OthersLogNoImport(db, op);
      LogKept(db, Step(db, op));
    }
  }

  lemma {:induction false} RunHealthy(db: DB, ops: seq<Op>)
    requires Healthy(db)
    ensures Healthy(Run(db, ops))
  {
    hide Step, Healthy;
    if ops != [] {
      RunHealthy(db, ops[..|ops| - 1]);
      StepHealthy(Run(db, ops[..|ops| - 1]), ops[|ops| - 1]);
    }
  }

  lemma EmptyIsHealthy(scan: Scanner)
    ensures Healthy(EmptyDB(scan))
  {
    EmptyIsValid(scan);
  }

  /** Every state that a fresh store can reach is healthy, as the promises of the import ask for. */
  lemma ReachableIsHealthy(scan: Scanner, ops: seq<Op>)
    ensures Healthy(Run(EmptyDB(scan), ops))
  {
    hide Run, Healthy;
    EmptyIsHealthy(scan);
    RunHealthy(EmptyDB(scan), ops);
  }
}
