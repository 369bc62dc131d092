/** What a commit answers: the decision on each proposal, the items in their order, and the status that sums them up. */
module Commits {
  import opened Prelude
  import opened JsonTree
  import opened Model
  import opened Database
  import opened Operations
  import opened SourceImport
  import opened Bundles
  import opened Invariant
  import opened Growth
  import opened Writes
  import opened Governance
  import opened Runs
  import opened ImportLog
  import opened HashLaws
  import opened Effects
  import JsonText
  import Text

  // ---------- the status ----------

  /** What the status says about the items: all went through, all wait, all were refused, or neither. */
  ghost predicate StatusTells(r: CommitResult) {
    r.items != [] &&
    (r.status.AllApplied? <==> forall i | 0 <= i < |r.items| :: r.items[i].disposition.Applied? || r.items[i].disposition.Duplicate?) &&
    (r.status.AllPending? <==> forall i | 0 <= i < |r.items| :: r.items[i].disposition.Held?) &&
    (r.status.AllRejected? <==> forall i | 0 <= i < |r.items| :: r.items[i].disposition.Refused?) &&
    !r.status.Spooled?
  }

  lemma SummaryTells(id: RequestId, runId: Option<RunId>, items: seq<CommitItem>)
    requires items != []
    ensures StatusTells(CommitResult(id, Summarize(items), runId, items))
  {
    assert items[0] in items;
  }

  // The parts a commit that is new to the log is made of.
  lemma CommitParts(db: DB, req: CommitRequest, exact: bool)
    requires CommitWork(db, req, exact).Done? && req.requestId !in db.commits
    ensures var t, r := CommitWork(db, req, exact), CommitRun(db, req.run);
            r.Done? && req.proposals != [] && GoodRequestId(req.requestId) && !Text.Blank(req.actor) &&
            var c := CommitProposals(r.db, req, r.value, db.policy.mode, exact, |req.proposals|);
            c.Done? && t.value == CommitResult(req.requestId, Summarize(c.value), r.value, c.value) &&
            t.db == c.db.(commits := c.db.commits[req.requestId := t.value])
  {
    hide CommitRun, CommitProposals, Summarize;
  }

  /** The answer to a commit that is new to the log has an item for each proposal, and a status that tells what they say. */
  lemma CommitStatusTells(db: DB, req: CommitRequest, exact: bool)
    requires Valid(db) && CommitWork(db, req, exact).Done? && req.requestId !in db.commits
    ensures var r := CommitWork(db, req, exact).value;
            r.requestId == req.requestId && |r.items| == |req.proposals| > 0 && StatusTells(r)
  {
    hide CommitWork, CommitRun, CommitProposals, Summarize, StatusTells, Valid, AgentSound, ProposalSound;
    CommitParts(db, req, exact);
    CommitRunSound(db, req.run);
    var r := CommitRun(db, req.run);
    RunFrame(db, r.db);
    CommitProposalsSound(r.db, req, r.value, exact, |req.proposals|);
    var items := CommitProposals(r.db, req, r.value, db.policy.mode, exact, |req.proposals|).value;
    SummaryTells(req.requestId, r.value, items);
  }

  lemma RunFrame(db: DB, mid: DB)
    requires AgentSound(db, mid)
    ensures Valid(mid) && mid.policy == db.policy
  {
  }

  // ---------- over whole runs ----------

  // Every answer in the log tells what its items say, under its own id.
  ghost predicate LogTells(log: map<RequestId, CommitResult>) {
    forall id | id in log :: log[id].requestId == id && StatusTells(log[id])
  }

  lemma CommitKeepsTelling(db: DB, req: CommitRequest, exact: bool)
    requires Valid(db) && LogTells(db.commits) && CommitWork(db, req, exact).Done?
    ensures LogTells(CommitWork(db, req, exact).db.commits)
  {
    hide CommitWork, StatusTells, Valid, AgentChange, Grows;
    if req.requestId in db.commits {
      ResendIsIdempotentFor(db, req, exact);
    } else {
      CommitStatusTells(db, req, exact);
      CommitWorkSound(db, req, exact);
      CommitLogsItself(db, req, exact);
      LogKeptBy(db, CommitWork(db, req, exact).db);
    }
  }

  lemma ResendIsIdempotentFor(db: DB, req: CommitRequest, exact: bool)
    requires CommitWork(db, req, exact).Done? && req.requestId in db.commits
    ensures CommitWork(db, req, exact) == Done(db, db.commits[req.requestId])
  {
    hide CommitRun, CommitProposals;
  }

  lemma LogKeptBy(db: DB, end: DB)
    requires AgentSound(db, end)
    ensures forall id | id in db.commits :: id in end.commits && end.commits[id] == db.commits[id]
  {
  }

  lemma {:induction false} CandidatesKeepTelling(db: DB, actor: string, p: Preview, n: nat)
    requires Valid(db) && LogTells(db.commits) && n <= |p.candidates|
    ensures var t := ApplyCandidates(db, actor, p, n); t.Done? ==> LogTells(t.db.commits)
  {
    hide CommitWork, Valid, LogTells, AgentSound, CandidateCommit;
    if n > 0 {
      CandidatesKeepTelling(db, actor, p, n - 1);
      ApplyCandidatesSound(db, actor, p, n - 1);
      var t := ApplyCandidates(db, actor, p, n - 1);
      if t.Done? {
        SamePolicy(db, t.db);
        var req := CandidateCommit(actor, p, p.candidates[n - 1]);
        if CommitWork(t.db, req, true).Done? { CommitKeepsTelling(t.db, req, true); }
      }
    }
  }

  lemma ImportKeepsTelling(db: DB, req: ImportRequest)
    requires Valid(db) && LogTells(db.commits)
    ensures ApplyImport(db, req).Done? ==> LogTells(ApplyImport(db, req).db.commits)
  {
    hide PreviewImport, ApplyCandidates, Report, LogTells, Valid;
    if PreviewImport(db, req).Ok? {
      var p := PreviewImport(db, req).value;
      CandidatesKeepTelling(db, req.actor, p, |p.candidates|);
    }
  }

  lemma StepKeepsTelling(db: DB, op: Op)
    requires Valid(db) && LogTells(db.commits)
    ensures LogTells(Step(db, op).commits)
  {
    hide Valid, LogTells, CommitWork, ApplyImport, PutEntry, DeleteEntry, RevertEntry, CreatePack, UpdatePack, SetPolicy, EnsureRun,
         ApproveReview, RejectReview, EditReview, EditAndApproveReview, ImportBundle;
    match op
    case Commit(_, _, _, _) => if CommitWork(db, CommitOf(op), false).Done? { CommitKeepsTelling(db, CommitOf(op), false); }
    case Import(req) => ImportKeepsTelling(db, req);
    case _ => OthersKeepLog(db, op);
  }

  lemma {:induction false} RunKeepsTelling(db: DB, ops: seq<Op>)
    requires Valid(db) && LogTells(db.commits)
    ensures LogTells(Run(db, ops).commits)
  {
    hide Valid, LogTells, Step, Advances;
    if ops != [] {
      var n := |ops| - 1;
      RunKeepsTelling(db, ops[..n]);
      RunMoves(db, ops[..n]);
      StepKeepsTelling(Run(db, ops[..n]), ops[n]);
    }
  }

  /** In every reachable store every logged answer, and so every replayed one, has a status that tells what its items say. */
  lemma LoggedStatusTells(scan: Scanner, ops: seq<Op>, id: RequestId)
    requires id in Run(EmptyDB(scan), ops).commits
    ensures var r := Run(EmptyDB(scan), ops).commits[id]; r.requestId == id && StatusTells(r)
  {
    hide Run, Valid, StatusTells;
    EmptyIsValid(scan);
    RunKeepsTelling(EmptyDB(scan), ops);
  }

  // ---------- the decision on one proposal ----------

  // The fields that are hashed agree, as texts: those before the value, the value, and those behind it.
  predicate HashedAlike(a: EntryInput, b: EntryInput) {
    Text.Trim(a.key) + Text.Trim(a.kind) + TrimmedTitle(a) == Text.Trim(b.key) + Text.Trim(b.kind) + TrimmedTitle(b) &&
    NormalizedText(a.value) == NormalizedText(b.value) &&
    TrimmedTags(a.tags) + JsonText.Print(a.metadata) == TrimmedTags(b.tags) + JsonText.Print(b.metadata)
  }

  predicate ActiveAt(db: DB, key: EntryKey) {
    key in db.entries && db.entries[key].record.status.Active?
  }

  // An active entry already says what the proposal says: exactly, where exactness is asked for, or else as far as it is hashed.
  predicate AlreadyThere(db: DB, key: EntryKey, entry: EntryInput, exact: bool) {
    ActiveAt(db, key) &&
    if exact then SameContent(InputOf(db.entries[key].record), entry) else HashedAlike(InputOf(db.entries[key].record), entry)
  }

  predicate LockedAt(db: DB, key: EntryKey) {
    (key.pack in db.packs && db.packs[key.pack].locked) || (key in db.entries && db.entries[key].record.locked)
  }

  predicate ArchivedAt(db: DB, pack: PackKey) {
    pack in db.packs && db.packs[pack].status.Archived?
  }

  // What is to become of a proposal that the scanner passes.
  function Fated(db: DB, key: EntryKey, there: bool, mode: ReviewMode): Verdict {
    if ArchivedAt(db, key.pack) then Refuse
    else if there && (mode.Strict? || (!key.pack.scope.kind.Global? && !LockedAt(db, key))) then Skip
    else if key.pack.scope.kind.Global? then Hold(GlobalScope)
    else if LockedAt(db, key) then Hold(Locked)
    else if mode.Strict? then Hold(if ActiveAt(db, key) then Conflicting else StrictPolicy)
    else if mode.Balanced? && ActiveAt(db, key) then Hold(Conflicting)
    else Apply
  }

  // The item reports that verdict.
  predicate Reports(item: CommitItem, v: Verdict) {
    match v
    case Refuse => item.disposition.Refused? && item.reason == Some(Because(Error.Conflict)) && item.reviewId.None?
    case Skip => item.disposition.Duplicate? && item.reason.None? && item.reviewId.None?
    case Hold(reason) => item.disposition.Held? && item.reason == Some(Review(reason)) && item.entryId.None? && item.reviewId.Some?
    case Apply => item.disposition.Applied? && item.reason.None? && item.entryId.Some? && item.reviewId.None?
  }

  lemma DuplicateIsThere(db: DB, key: EntryKey, entry: EntryInput, mode: ReviewMode, exact: bool)
    requires Valid(db)
    ensures IsDuplicate(GetEntry(db, key), entry, mode, exact) <==> AlreadyThere(db, key, entry, mode.Strict? || exact)
  {
    hide Valid, ContentHash, HashedAlike, SameContent;
    if key in db.entries {
      RowHash(db, key);
      HashTells(InputOf(db.entries[key].record), entry);
      HashedMeans(InputOf(db.entries[key].record), entry);
    }
  }

  lemma HashedMeans(a: EntryInput, b: EntryInput)
    ensures HashedAlike(a, b) <==> ContentHash(a) == ContentHash(b)
  {
    hide ContentHash, Text.Trim, TrimmedTitle, TrimmedTags, NormalizedText, JsonText.Print;
    HashTells(a, b);
  }

  lemma RowHash(db: DB, key: EntryKey)
    requires Valid(db) && key in db.entries
    ensures db.entries[key].contentHash == ContentHash(InputOf(db.entries[key].record))
  {
    assert HashCurrent(db.entries[key]);
  }

  lemma DecideIsFated(db: DB, key: EntryKey, there: bool, mode: ReviewMode)
    requires there ==> ActiveAt(db, key)
    ensures Decide(key.pack.scope.kind, GetPack(db, key.pack), GetEntry(db, key), there, mode) == Fated(db, key, there, mode)
  {
  }

  lemma GovernReports(db: DB, requestId: RequestId, runId: Option<RunId>, key: EntryKey, entry: EntryInput, actor: string,
                      provenance: Provenance, mode: ReviewMode, exact: bool)
    requires Valid(db)
    ensures var t := GovernProposal(db, requestId, runId, key, GetPack(db, key.pack), entry, actor, provenance, mode, exact);
            t.Done? ==> Reports(t.value, Fated(db, key, AlreadyThere(db, key, entry, mode.Strict? || exact), mode))
  {
    hide Valid, IsDuplicate, InsertOrReuseReview, ApplyEntry, Decide, Fated, HashedAlike, SameContent;
    DuplicateIsThere(db, key, entry, mode, exact);
    DecideIsFated(db, key, AlreadyThere(db, key, entry, mode.Strict? || exact), mode);
  }

  /**
   What a proposal meets with, case by case: refused if the scanner finds a credential or the pack is archived;
   a duplicate if an active entry already says the same, outside Strict mode and the exact imports as far as it
   is hashed; held in the global scope, under a lock, in Strict mode, and in Balanced mode over an active entry;
   and applied in every other case.
   */
  lemma ProposalMeets(db: DB, requestId: RequestId, runId: Option<RunId>, pack: PackKey, entry: EntryInput, actor: string,
                      provenance: Provenance, mode: ReviewMode, exact: bool)
    requires Valid(db) && Normalized(pack.scope)
    ensures var key := EntryKey(pack, entry.key); var t := CommitProposal(db, requestId, runId, pack, entry, actor, provenance, mode, exact);
            t.Done? ==>
              if db.scan(ShownEntryWrite(key, actor, entry, provenance, Some(requestId), runId))
              then t.value.disposition.Refused? && t.value.reason == Some(Because(SecretDetected)) && t.value.reviewId.None?
              else Reports(t.value, Fated(db, key, AlreadyThere(db, key, entry, mode.Strict? || exact), mode))
  {
    hide Valid, GovernProposal, AlreadyThere, Reports, EnsureDefaultPack, Grows;
    var key := EntryKey(pack, entry.key);
    if exact {
      GovernReports(db, requestId, runId, key, entry, actor, provenance, mode, exact);
    } else {
      var e := EnsureDefaultPack(db, pack, actor);
      EnsureDefaultPackSound(db, pack, actor);
      if e.Done? {
        GovernReports(e.db, requestId, runId, key, entry, actor, provenance, mode, exact);
        SameFate(db, e.db, key, entry, mode, exact);
      }
    }
  }

  // A pack inserted with default governance decides nothing.
  lemma SameFate(db: DB, mid: DB, key: EntryKey, entry: EntryInput, mode: ReviewMode, exact: bool)
    requires SamePacksBut(db, mid, key.pack) && mid.entries == db.entries
    ensures AlreadyThere(mid, key, entry, mode.Strict? || exact) == AlreadyThere(db, key, entry, mode.Strict? || exact)
    ensures forall there :: Fated(mid, key, there, mode) == Fated(db, key, there, mode)
  {
    hide HashedAlike, SameContent;
  }

  // ---------- all proposals, one after the other ----------

  // The proposal as it is read: its scope normalised, its own provenance or else that of the commit.
  ghost predicate Reads(req: CommitRequest, runId: Option<RunId>, p: Proposal, key: EntryKey, provenance: Provenance) {
    Normalize(p.scope) == Ok(key.pack.scope) && key.pack.name == p.packName && key.key == p.entry.key &&
    provenance == (if p.entry.provenance.Some? then p.entry.provenance.value
                   else Provenance(req.actor, "commit_work", None, runId, Some(req.requestId), None))
  }

  // What the item of one proposal says is so, between the tables before it and those after it.
  ghost predicate Answers(req: CommitRequest, runId: Option<RunId>, exact: bool, p: Proposal, before: DB, after: DB, item: CommitItem) {
    exists key: EntryKey, provenance: Provenance ::
      Reads(req, runId, p, key, provenance) && Tells(before, after, key, p.entry, provenance, item) &&
      (if before.scan(ShownEntryWrite(key, req.actor, p.entry, provenance, Some(req.requestId), runId))
       then item.disposition.Refused? && item.reason == Some(Because(SecretDetected))
       else Reports(item, Fated(before, key, AlreadyThere(before, key, p.entry, before.policy.mode.Strict? || exact), before.policy.mode)))
  }

  lemma OneAnswers(db: DB, req: CommitRequest, runId: Option<RunId>, exact: bool, p: Proposal)
    requires Valid(db) && GoodRequestId(req.requestId)
    ensures var t := CommitOne(db, req, runId, db.policy.mode, exact, p);
            t.Done? ==> Answers(req, runId, exact, p, db, t.db, t.value)
  {
    hide Valid, CommitProposal, Tells, Fated, AlreadyThere, Reports, GoodRequestId, Normalize, InputValid;
    var t := CommitOne(db, req, runId, db.policy.mode, exact, p);
    if t.Done? {
      var key := KeyOf(Normalize(p.scope).value, p.packName, p.entry.key);
      var provenance := Or(p.entry.provenance, Provenance(req.actor, "commit_work", None, runId, Some(req.requestId), None));
      ReadableProposal(req, p, key);
      ItemTellsTruth(db, req.requestId, runId, key.pack, p.entry, req.actor, provenance, exact);
      ProposalMeets(db, req.requestId, runId, key.pack, p.entry, req.actor, provenance, db.policy.mode, exact);
      assert Reads(req, runId, p, key, provenance);
    }
  }

  lemma ReadableProposal(req: CommitRequest, p: Proposal, key: EntryKey)
    requires GoodRequestId(req.requestId) && Normalize(p.scope).Ok? && !Text.Blank(p.packName) && InputValid(p.entry)
    requires key == KeyOf(Normalize(p.scope).value, p.packName, p.entry.key)
    ensures Reviewable(req.requestId, key, p.entry) && Normalized(key.pack.scope)
  {
    NormalizeSettles(p.scope);
  }

  // The states that the proposals lead through, each answered from where the ones before it left off.
  ghost predicate Chain(req: CommitRequest, runId: Option<RunId>, exact: bool, states: seq<DB>, items: seq<CommitItem>) {
    |states| == |items| + 1 && |items| <= |req.proposals| &&
    forall i | 0 <= i < |items| :: Answers(req, runId, exact, req.proposals[i], states[i], states[i + 1], items[i])
  }

  lemma {:induction false} ProposalsChain(db: DB, req: CommitRequest, runId: Option<RunId>, exact: bool, n: nat) returns (states: seq<DB>)
    requires Valid(db) && GoodRequestId(req.requestId) && n <= |req.proposals|
    ensures var t := CommitProposals(db, req, runId, db.policy.mode, exact, n);
            t.Done? ==> Chain(req, runId, exact, states, t.value) && |t.value| == n && states[0] == db && states[n] == t.db
  {
    hide Valid, AgentSound, CommitOne, GoodRequestId, Answers;
    states := [db];
    if n > 0 {
      states := ProposalsChain(db, req, runId, exact, n - 1);
      CommitProposalsSound(db, req, runId, exact, n - 1);
      var t := CommitProposals(db, req, runId, db.policy.mode, exact, n - 1);
      if t.Done? {
        SamePolicy(db, t.db);
        OneAnswers(t.db, req, runId, exact, req.proposals[n - 1]);
        var u := CommitOne(t.db, req, runId, db.policy.mode, exact, req.proposals[n - 1]);
        if u.Done? { states := states + [u.db]; }
      }
    }
  }

  /**
   The answer to a whole commit: its items answer the proposals in their order, each from the tables that the
   ones before it left, and each tells the truth about its own; then the answer is logged, and nothing else
   happens after them. Before them at most the run was recorded, which the answer names.
   */
  lemma CommitAnswers(db: DB, req: CommitRequest, exact: bool)
    requires Valid(db) && CommitWork(db, req, exact).Done? && req.requestId !in db.commits
    ensures var t := CommitWork(db, req, exact); var n := |req.proposals|;
            |t.value.items| == n &&
            exists states: seq<DB> ::
              Chain(req, t.value.runId, exact, states, t.value.items) && StartsAt(db, req, t.value.runId, states[0]) &&
              t.db == states[n].(commits := db.commits[req.requestId := t.value])
  {
    hide CommitWork, CommitRun, CommitProposals, Summarize, Valid, AgentSound, Answers, StartsAt;
    CommitParts(db, req, exact);
    CommitRunSound(db, req.run);
    RunRecorded(db, req);
    var r := CommitRun(db, req.run);
    RunFrame(db, r.db);
    var states := ProposalsChain(r.db, req, r.value, exact, |req.proposals|);
    CommitProposalsSound(r.db, req, r.value, exact, |req.proposals|);
    assert states[|req.proposals|].commits == db.commits;
  }

  // Before its proposals a commit records its run, under the id given or else a new one.
  ghost predicate StartsAt(db: DB, req: CommitRequest, runId: Option<RunId>, start: DB) {
    start == db.(runs := start.runs, nextId := start.nextId) &&
    if req.run.None? then start == db && runId.None?
    else RunStarted(db, req.run.value, start) && runId.Some? && runId.value in start.runs &&
         (if req.run.value.id.Some? then runId == req.run.value.id else runId.value !in db.runs)
  }

  // At most one run is new; it shows what was given, and no other run changes.
  ghost predicate RunStarted(db: DB, input: RunInput, end: DB) {
    forall id | id in end.runs ::
      if id in db.runs then end.runs[id] == db.runs[id]
      else end.runs[id] == RunRecord(id, input.projectScopeId, input.taskScopeId, input.source, input.metadata)
  }

  lemma RunRecorded(db: DB, req: CommitRequest)
    requires Valid(db)
    ensures var r := CommitRun(db, req.run); r.Done? ==> StartsAt(db, req, r.value, r.db)
  {
    hide Valid, EnsureRun, RunStarted, RunRows;
    RunsKnown(db);
    if req.run.Some? { RunEnsured(db, req.run.value); }
  }

  /** A run is found under its id or else recorded as given, under a new id if none is given; no run that was there changes. */
  lemma RunEnsured(db: DB, input: RunInput)
    requires RunRows(db.runs, db.nextId)
    ensures var t := EnsureRun(db, input);
            t.Done? ==> t.db == db.(runs := t.db.runs, nextId := t.db.nextId) && RunStarted(db, input, t.db) &&
                        t.value.id in t.db.runs && t.value == t.db.runs[t.value.id] && (if input.id.Some? then t.value.id == input.id.value else t.value.id !in db.runs)
  {
    hide Text.Blank;
  }

  lemma RunsKnown(db: DB)
    requires Valid(db)
    ensures RunRows(db.runs, db.nextId)
  {
  }
}
