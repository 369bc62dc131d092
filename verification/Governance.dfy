/**
 What the agent-facing writes (`commit_work` and the source import) may change, whatever they propose:
 the review policy and existing packs never, reviews only by appending, and an entry only where the
 policy mode, its scope and the locks allow it.
 */
module Governance {
  import opened Prelude
  import opened Model
  import opened Database
  import opened Operations
  import opened SourceImport
  import opened Invariant
  import opened Growth
  import opened Writes
  import Text

  // An agent may write this entry without review.
  ghost predicate Writable(db: DB, k: EntryKey, mode: ReviewMode) {
    !mode.Strict? && !k.pack.scope.kind.Global? &&
    (k.pack in db.packs ==> !db.packs[k.pack].locked && db.packs[k.pack].status.Open?) &&
    (k in db.entries ==> !db.entries[k].record.locked && (mode.Balanced? ==> db.entries[k].record.status.Deleted?))
  }

  ghost predicate Untouched(a: DB, b: DB, k: EntryKey) {
    k in a.entries && k in b.entries && b.entries[k] == a.entries[k]
  }

  ghost predicate AgentChange(a: DB, b: DB, mode: ReviewMode) {
    (forall k | k in b.entries :: Untouched(a, b, k) || Writable(a, k, mode)) &&
    (forall k | k in a.entries :: k in b.entries) &&
    (forall p | p in a.packs :: p in b.packs && b.packs[p] == a.packs[p]) &&
    (forall p | p in b.packs && p !in a.packs :: IsDefaultPack(b.packs[p])) &&
    b.policy == a.policy && a.reviews <= b.reviews
  }

  lemma AgentChangeTransitive(a: DB, b: DB, c: DB, mode: ReviewMode)
    requires AgentChange(a, b, mode) && AgentChange(b, c, mode)
    ensures AgentChange(a, c, mode)
  {
    forall k | k in c.entries ensures Untouched(a, c, k) || Writable(a, k, mode) {
      if Untouched(b, c, k) {
        assert Untouched(a, b, k) || Writable(a, k, mode);
      } else {
        assert Writable(b, k, mode);
        if k in b.entries { assert Untouched(a, b, k) || Writable(a, k, mode); }
      }
    }
    forall p | p in c.packs && p !in a.packs ensures IsDefaultPack(c.packs[p]) {
      if p in b.packs { assert c.packs[p] == b.packs[p]; }
    }
  }

  ghost predicate AgentSound(db: DB, db': DB) {
    Sound(db, db') && AgentChange(db, db', db.policy.mode)
  }

  lemma AgentSoundTransitive(a: DB, b: DB, c: DB)
    requires AgentSound(a, b) && AgentSound(b, c)
    ensures AgentSound(a, c)
  {
    GrowsTransitive(a, b, c);
    AgentChangeTransitive(a, b, c, a.policy.mode);
  }

  lemma NoChange(db: DB)
    requires Valid(db)
    ensures AgentSound(db, db)
  {
    hide Valid;
    GrowsReflexive(db);
  }

  // ---------- one proposal ----------

  lemma SamePolicy(db: DB, db': DB)
    requires AgentSound(db, db')
    ensures db'.policy == db.policy && Valid(db')
  {
  }

  ghost predicate ProposalSound(db: DB, db': DB) {
    AgentSound(db, db') && db'.commits == db.commits
  }

  lemma ReviewsOnlyIsProposalSound(db: DB, db': DB)
    requires Sound(db, db') && OnlyReviewsChange(db, db') && db.reviews <= db'.reviews
    ensures ProposalSound(db, db')
  {
  }

  lemma InsertOrReuseSound(db: DB, requestId: RequestId, key: EntryKey, entry: EntryInput, existing: Option<EntryRecord>,
                           reason: ReviewReason, exact: bool)
    requires Valid(db) && Reviewable(requestId, key, entry) && ExistingShape(existing)
    ensures var t := InsertOrReuseReview(db, requestId, key, entry, existing, reason, exact);
            t.Done? ==> ProposalSound(db, t.db)
  {
    var found := if exact then FindPending(db.reviews, key, entry, existing, reason) else None;
    if found.Some? {
      NoChange(db);
    } else {
      var t := InsertReview(db, requestId, key, entry, existing, reason);
      InsertReviewSound(db, requestId, key, entry, existing, reason);
      if t.Done? { ReviewsOnlyIsProposalSound(db, t.db); }
    }
  }

  lemma NoneIsShaped()
    ensures ExistingShape(None)
  {
  }

  lemma HoldSound(db: DB, requestId: RequestId, key: EntryKey, entry: EntryInput, reason: ReviewReason, exact: bool)
    requires Valid(db) && Reviewable(requestId, key, entry)
    ensures var t := HoldForReview(db, requestId, key, entry, GetEntry(db, key), reason, exact);
            t.Done? ==> ProposalSound(db, t.db)
  {
    hide Valid, Reviewable, InsertOrReuseReview, ExistingShape, ProposalSound;
    if key in db.entries { ExistingRowShape(db, key); } else { NoneIsShaped(); }
    InsertOrReuseSound(db, requestId, key, entry, RecordOf(GetEntry(db, key)), reason, exact);
  }

  lemma ExistingRowShape(db: DB, key: EntryKey)
    requires Valid(db) && key in db.entries
    ensures ExistingShape(Some(db.entries[key].record))
  {
    assert EntryShape(key, db.entries[key], db.packs, db.nextId);
    assert PackShape(key.pack, db.packs[key.pack], db.nextId);
  }

  lemma WriteIsAgentChange(db: DB, db': DB, key: EntryKey, entry: EntryInput, provenance: Provenance, mode: ReviewMode)
    requires WritesAt(db, db', key, entry, provenance) && Writable(db, key, mode)
    ensures AgentChange(db, db', mode)
  {
  }

  lemma AppliedSound(db: DB, requestId: RequestId, runId: Option<RunId>, key: EntryKey, entry: EntryInput, actor: string, provenance: Provenance)
    requires Valid(db) && Reviewable(requestId, key, entry) && Writable(db, key, db.policy.mode)
    ensures var t := ApplyEntry(db, key.pack, entry, actor, provenance, Some(requestId), runId, false);
            t.Done? ==> ProposalSound(db, t.db)
  {
    var t := ApplyEntry(db, key.pack, entry, actor, provenance, Some(requestId), runId, false);
    ApplyEntrySound(db, key.pack, entry, actor, provenance, Some(requestId), runId, false);
    if t.Done? { WriteIsAgentChange(db, t.db, key, entry, provenance, db.policy.mode); }
  }

  /** The decision applies a proposal exactly where an agent may write and there is something new to write. */
  lemma DecideRespectsGovernance(db: DB, key: EntryKey, duplicate: bool, mode: ReviewMode)
    ensures Decide(key.pack.scope.kind, GetPack(db, key.pack), GetEntry(db, key), duplicate, mode).Apply?
            <==> Writable(db, key, mode) && !duplicate
  {
  }

  function VerdictOn(db: DB, key: EntryKey, entry: EntryInput, exact: bool): Verdict {
    Decide(key.pack.scope.kind, GetPack(db, key.pack), GetEntry(db, key),
           IsDuplicate(GetEntry(db, key), entry, db.policy.mode, exact), db.policy.mode)
  }

  lemma GovernHold(db: DB, requestId: RequestId, runId: Option<RunId>, key: EntryKey, entry: EntryInput,
                   actor: string, provenance: Provenance, exact: bool)
    requires Valid(db) && Reviewable(requestId, key, entry) && VerdictOn(db, key, entry, exact).Hold?
    ensures var t := GovernProposal(db, requestId, runId, key, GetPack(db, key.pack), entry, actor, provenance, db.policy.mode, exact);
            t.Done? ==> ProposalSound(db, t.db)
  {
    var reason := VerdictOn(db, key, entry, exact).reason;
    assert GovernProposal(db, requestId, runId, key, GetPack(db, key.pack), entry, actor, provenance, db.policy.mode, exact)
        == HoldForReview(db, requestId, key, entry, GetEntry(db, key), reason, exact);
    HoldSound(db, requestId, key, entry, reason, exact);
  }

  lemma GovernApply(db: DB, requestId: RequestId, runId: Option<RunId>, key: EntryKey, entry: EntryInput,
                    actor: string, provenance: Provenance, exact: bool)
    requires Valid(db) && Reviewable(requestId, key, entry) && VerdictOn(db, key, entry, exact).Apply?
    ensures var t := GovernProposal(db, requestId, runId, key, GetPack(db, key.pack), entry, actor, provenance, db.policy.mode, exact);
            t.Done? ==> ProposalSound(db, t.db)
  {
    hide Valid, ApplyEntry, ProposalSound, Reviewable, Writable, Decide, IsDuplicate;
    DecideRespectsGovernance(db, key, IsDuplicate(GetEntry(db, key), entry, db.policy.mode, exact), db.policy.mode);
    AppliedSound(db, requestId, runId, key, entry, actor, provenance);
  }

  lemma GovernProposalSound(db: DB, requestId: RequestId, runId: Option<RunId>, key: EntryKey, entry: EntryInput,
                            actor: string, provenance: Provenance, exact: bool)
    requires Valid(db) && Reviewable(requestId, key, entry)
    ensures var t := GovernProposal(db, requestId, runId, key, GetPack(db, key.pack), entry, actor, provenance, db.policy.mode, exact);
            t.Done? ==> ProposalSound(db, t.db)
  {
    match VerdictOn(db, key, entry, exact)
    case Refuse => NoChange(db);
    case Skip => NoChange(db);
    case Hold(_) => GovernHold(db, requestId, runId, key, entry, actor, provenance, exact);
    case Apply => GovernApply(db, requestId, runId, key, entry, actor, provenance, exact);
  }

  lemma DefaultPackAgentSound(db: DB, pack: PackKey, actor: string)
    requires Valid(db) && Normalized(pack.scope)
    ensures var t := EnsureDefaultPack(db, pack, actor);
            t.Done? ==> ProposalSound(db, t.db) && GetPack(t.db, pack) == Some(t.value) && t.db.policy == db.policy
  {
    var t := EnsureDefaultPack(db, pack, actor);
    EnsureDefaultPackSound(db, pack, actor);
    if t.Done? { PackInsertIsAgentChange(db, t.db, pack, db.policy.mode); }
  }

  lemma PackInsertIsAgentChange(db: DB, db': DB, pack: PackKey, mode: ReviewMode)
    requires SamePacksBut(db, db', pack) && SameElsewhere(db, db') && db'.entries == db.entries
    ensures AgentChange(db, db', mode)
  {
  }

  lemma ProposalSoundTransitive(a: DB, b: DB, c: DB)
    requires ProposalSound(a, b) && ProposalSound(b, c)
    ensures ProposalSound(a, c)
  {
    AgentSoundTransitive(a, b, c);
  }

  lemma GovernInEnsuredPack(db: DB, requestId: RequestId, runId: Option<RunId>, key: EntryKey, entry: EntryInput,
                            actor: string, provenance: Provenance, exact: bool)
    requires Valid(db) && Reviewable(requestId, key, entry)
    ensures var e := EnsureDefaultPack(db, key.pack, actor);
            e.Done? ==>
              var t := GovernProposal(e.db, requestId, runId, key, Some(e.value), entry, actor, provenance, db.policy.mode, exact);
              t.Done? ==> ProposalSound(db, t.db)
  {
    var e := EnsureDefaultPack(db, key.pack, actor);
    if e.Done? {
      DefaultPackAgentSound(db, key.pack, actor);
      GovernProposalSound(e.db, requestId, runId, key, entry, actor, provenance, exact);
      var t := GovernProposal(e.db, requestId, runId, key, Some(e.value), entry, actor, provenance, db.policy.mode, exact);
      if t.Done? { ProposalSoundTransitive(db, e.db, t.db); }
    }
  }

  lemma CommitProposalSound(db: DB, requestId: RequestId, runId: Option<RunId>, pack: PackKey, entry: EntryInput,
                            actor: string, provenance: Provenance, exact: bool)
    requires Valid(db) && Reviewable(requestId, EntryKey(pack, entry.key), entry)
    ensures var t := CommitProposal(db, requestId, runId, pack, entry, actor, provenance, db.policy.mode, exact);
            t.Done? ==> ProposalSound(db, t.db)
  {
    var key := EntryKey(pack, entry.key);
    if db.scan(ShownEntryWrite(key, actor, entry, provenance, Some(requestId), runId)) {
      NoChange(db);
    } else if exact {
      GovernProposalSound(db, requestId, runId, key, entry, actor, provenance, exact);
    } else {
      GovernInEnsuredPack(db, requestId, runId, key, entry, actor, provenance, exact);
    }
  }

  // ---------- a whole commit ----------

  ghost predicate GoodRequestId(id: RequestId) {
    id.ByClient? ==> !Text.Blank(id.text)
  }

  lemma CommitOneSound(db: DB, req: CommitRequest, runId: Option<RunId>, exact: bool, p: Proposal)
    requires Valid(db) && GoodRequestId(req.requestId)
    ensures var t := CommitOne(db, req, runId, db.policy.mode, exact, p);
            t.Done? ==> ProposalSound(db, t.db)
  {
    NormalizeSettles(p.scope);
    match Normalize(p.scope)
    case Err(_) =>
    case Ok(scope) =>
      if !Text.Blank(p.packName) && InputValid(p.entry) {
        var provenance := Or(p.entry.provenance, Provenance(req.actor, "commit_work", None, runId, Some(req.requestId), None));
        CommitProposalSound(db, req.requestId, runId, PackKey(scope, p.packName), p.entry, req.actor, provenance, exact);
      }
  }

  lemma {:induction false} CommitProposalsSound(db: DB, req: CommitRequest, runId: Option<RunId>, exact: bool, n: nat)
    requires Valid(db) && GoodRequestId(req.requestId) && n <= |req.proposals|
    ensures var t := CommitProposals(db, req, runId, db.policy.mode, exact, n);
            t.Done? ==> ProposalSound(db, t.db) && |t.value| == n
  {
    hide Valid, Grows, AgentChange, CommitOne, GoodRequestId;
    if n == 0 {
      NoChange(db);
    } else {
      var t := CommitProposals(db, req, runId, db.policy.mode, exact, n - 1);
      CommitProposalsSound(db, req, runId, exact, n - 1);
      if t.Done? {
        SamePolicy(db, t.db);
        var u := CommitOne(t.db, req, runId, db.policy.mode, exact, req.proposals[n - 1]);
        CommitOneSound(t.db, req, runId, exact, req.proposals[n - 1]);
        if u.Done? { ProposalSoundTransitive(db, t.db, u.db); }
      }
    }
  }

  lemma CommitRunSound(db: DB, run: Option<RunInput>)
    requires Valid(db)
    ensures var t := CommitRun(db, run); t.Done? ==> AgentSound(db, t.db) && t.db == db.(runs := t.db.runs, nextId := t.db.nextId)
  {
    NoChange(db);
    if run.Some? { EnsureRunSound(db, run.value); }
  }

  lemma CommitLogged(db: DB, id: RequestId, result: CommitResult)
    requires Valid(db) && id !in db.commits
    ensures AgentSound(db, db.(commits := db.commits[id := result]))
  {
    IdsMoveOn(db, db.(commits := db.commits[id := result]));
  }

  /** `commit_work` keeps the invariant, only lets tables grow, and stays within what governance allows. */
  lemma CommitWorkSound(db: DB, req: CommitRequest, exact: bool)
    requires Valid(db)
    ensures var t := CommitWork(db, req, exact);
            t.Done? ==> AgentSound(db, t.db) && req.requestId in t.db.commits && t.db.commits[req.requestId] == t.value
  {
    var t := CommitWork(db, req, exact);
    NoChange(db);
    if t.Done? && req.requestId !in db.commits {
      var r := CommitRun(db, req.run);
      CommitRunSound(db, req.run);
      var c := CommitProposals(r.db, req, r.value, db.policy.mode, exact, |req.proposals|);
      CommitProposalsSound(r.db, req, r.value, exact, |req.proposals|);
      AgentSoundTransitive(db, r.db, c.db);
      CommitLogged(c.db, req.requestId, t.value);
      AgentSoundTransitive(db, c.db, t.db);
    }
  }

  // ---------- the source import ----------

  lemma ApplyCandidateSound(db: DB, actor: string, preview: Preview, c: Candidate)
    requires Valid(db)
    ensures var t := ApplyCandidate(db, actor, preview, c); t.Done? ==> AgentSound(db, t.db)
  {
    hide Valid, Grows, AgentChange, CommitWork, CandidateCommit;
    NoChange(db);
    CommitWorkSound(db, CandidateCommit(actor, preview, c), true);
  }

  lemma {:induction false} ApplyCandidatesSound(db: DB, actor: string, preview: Preview, n: nat)
    requires Valid(db) && n <= |preview.candidates|
    ensures var t := ApplyCandidates(db, actor, preview, n); t.Done? ==> AgentSound(db, t.db)
  {
    hide Valid, Grows, AgentChange, ApplyCandidate;
    assert AgentSound(db, db) by { NoChange(db); }
    if n == 0 {
      NoChange(db);
    } else {
      var t := ApplyCandidates(db, actor, preview, n - 1);
      ApplyCandidatesSound(db, actor, preview, n - 1);
      if t.Done? {
        var u := ApplyCandidate(t.db, actor, preview, preview.candidates[n - 1]);
        SamePolicy(db, t.db);
        ApplyCandidateSound(t.db, actor, preview, preview.candidates[n - 1]);
        if u.Done? { AgentSoundTransitive(db, t.db, u.db); }
      }
    }
  }

  /** The same for `apply_source_import`. */
  lemma ApplyImportSound(db: DB, req: ImportRequest)
    requires Valid(db)
    ensures var t := ApplyImport(db, req); t.Done? ==> AgentSound(db, t.db)
  {
    if PreviewImport(db, req).Ok? {
      var preview := PreviewImport(db, req).value;
      ApplyCandidatesSound(db, req.actor, preview, |preview.candidates|);
    }
  }
}
