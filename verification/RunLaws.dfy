/** Safety over whole runs: what agents may change, and what an archived pack keeps. */
module RunLaws {
  import opened Prelude
  import opened Model
  import opened Database
  import opened Operations
  import opened SourceImport
  import opened Invariant
  import opened Growth
  import opened Writes
  import opened Governance
  import opened Runs
  import opened Reviews

  predicate AgentOps(ops: seq<Op>) {
    forall i | 0 <= i < |ops| :: ops[i].Commit? || ops[i].Import?
  }

  lemma {:induction false} AgentRun(db: DB, ops: seq<Op>)
    requires Valid(db) && AgentOps(ops)
    ensures AgentSound(db, Run(db, ops))
  {
    if ops == [] {
      NoChange(db);
    } else {
      var n := |ops| - 1;
      AgentRun(db, ops[..n]);
      var mid := Run(db, ops[..n]);
      AgentStepSound(mid, ops[n]);
      AgentSoundTransitive(db, mid, Run(db, ops));
    }
  }

  lemma AgentStepSound(db: DB, op: Op)
    requires Valid(db) && (op.Commit? || op.Import?)
    ensures AgentSound(db, Step(db, op))
  {
    hide CommitWork, ApplyImport, Valid, Grows, AgentChange;
    NoChange(db);
    match op
    case Commit(_, _, _, _) => CommitWorkSound(db, CommitOf(op), false);
    case Import(req) => ApplyImportSound(db, req);
  }

  ghost predicate Protected(db: DB, k: EntryKey)
    requires k in db.entries
  {
    k.pack.scope.kind.Global? || db.entries[k].record.locked || (k.pack in db.packs && db.packs[k.pack].locked) ||
    (db.policy.mode.Balanced? && db.entries[k].record.status.Active?)
  }

  /**
   Governance over any run of agent steps. Strict changes no entry at all; Balanced changes no active entry;
   in every mode entries of global scope, locked entries and entries of locked packs stay as they are, no
   entry of global scope appears, and existing packs and the policy are untouched.
   */
  lemma AgentsRespectGovernance(db: DB, ops: seq<Op>)
    requires Valid(db) && AgentOps(ops)
    ensures var end := Run(db, ops);
            (db.policy.mode.Strict? ==> end.entries == db.entries) &&
            (forall k | k in db.entries && Protected(db, k) :: Untouched(db, end, k)) &&
            (forall k | k in end.entries && k.pack.scope.kind.Global? :: Untouched(db, end, k)) &&
            (forall p | p in db.packs :: p in end.packs && end.packs[p] == db.packs[p]) &&
            end.policy == db.policy
  {
    AgentRun(db, ops);
    GovernedChange(db, Run(db, ops));
  }

  lemma GovernedChange(db: DB, end: DB)
    requires AgentChange(db, end, db.policy.mode)
    ensures db.policy.mode.Strict? ==> end.entries == db.entries
    ensures forall k | k in db.entries && Protected(db, k) :: Untouched(db, end, k)
    ensures forall k | k in end.entries && k.pack.scope.kind.Global? :: Untouched(db, end, k)
  {
    forall k | k in end.entries ensures Untouched(db, end, k) || Writable(db, k, db.policy.mode) {
    }
    if db.policy.mode.Strict? {
      forall k | k in end.entries ensures k in db.entries && end.entries[k] == db.entries[k] {
        assert Untouched(db, end, k) || Writable(db, k, db.policy.mode);
      }
    }
    forall k | k in db.entries && Protected(db, k) ensures Untouched(db, end, k) {
      assert Untouched(db, end, k) || Writable(db, k, db.policy.mode);
    }
  }

  // ---------- archived packs ----------

  // The pack row and the entries of the pack are the same in both states.
  ghost predicate SamePack(a: DB, b: DB, p: PackKey) {
    p in a.packs && p in b.packs && b.packs[p] == a.packs[p] &&
    forall k: EntryKey | k.pack == p :: (k in a.entries <==> k in b.entries) && (k in a.entries ==> b.entries[k] == a.entries[k])
  }

  predicate Unarchives(op: Op, p: PackKey) {
    op.Update? && Normalize(op.update.scope) == Ok(p.scope) && op.update.name == p.name && OnlyUnarchives(op.update)
  }

  // An entry write elsewhere than in an archived pack leaves that pack alone.
  lemma WriteElsewhere(db: DB, db': DB, p: PackKey, key: EntryKey)
    requires p in db.packs && db.packs[p].status.Archived?
    requires EntriesSameBut(db, db', key) && SamePacksBut(db, db', key.pack) && key.pack in db'.packs && db'.packs[key.pack].status.Open?
    ensures SamePack(db, db', p)
  {
    assert key.pack != p;
  }

  lemma PutFrozen(db: DB, req: PutRequest, p: PackKey)
    requires Valid(db) && p in db.packs && db.packs[p].status.Archived?
    ensures SamePack(db, PutEntry(db, req).After(db), p)
  {
    hide ApplyEntry, Valid;
    NormalizeSettles(req.scope);
    if PutEntry(db, req).Done? {
      var pack := PackKey(Normalize(req.scope).value, req.packName);
      var provenance := Or(req.entry.provenance, SystemProvenance(req.actor, "manual_put"));
      ApplyEntrySound(db, pack, req.entry, req.actor, provenance, None, None, false);
      WriteElsewhere(db, PutEntry(db, req).db, p, EntryKey(pack, req.entry.key));
    }
  }

  lemma DeleteFrozen(db: DB, sel: Selector, actor: string, p: PackKey)
    requires Valid(db) && p in db.packs && db.packs[p].status.Archived?
    ensures SamePack(db, DeleteEntry(db, sel, actor).After(db), p)
  {
    hide DeleteRow, Valid;
    if DeleteEntry(db, sel, actor).Done? {
      var key := Select(db, sel, actor).value;
      DeleteRowSound(db, key, actor);
      WriteElsewhere(db, DeleteEntry(db, sel, actor).db, p, key);
    }
  }

  lemma RevertFrozen(db: DB, sel: Selector, no: Option<int>, actor: string, p: PackKey)
    requires Valid(db) && p in db.packs && db.packs[p].status.Archived?
    ensures SamePack(db, RevertEntry(db, sel, no, actor).After(db), p)
  {
    hide RestoreSnapshot, Valid, Select;
    if RevertEntry(db, sel, no, actor).Done? {
      var target := RevertTarget(db, sel, no, actor).value;
      SelectNormalized(db, sel, actor);
      RestoreSnapshotSound(db, target.0, target.1, actor);
      WriteElsewhere(db, RevertEntry(db, sel, no, actor).db, p, EntryKey(target.0, target.1.key));
    }
  }

  lemma SameTablesSamePack(db: DB, db': DB, p: PackKey)
    requires p in db.packs && p in db'.packs && db'.packs[p] == db.packs[p] && db'.entries == db.entries
    ensures SamePack(db, db', p)
  {
  }

  lemma CreateFrozen(db: DB, req: CreatePackRequest, p: PackKey)
    requires p in db.packs
    ensures SamePack(db, CreatePack(db, req).After(db), p)
  {
    hide RecordRevision, SamePack;
    var t := CreatePack(db, req);
    if t.Done? {
      InsertedPackFrame(db, PackKey(Normalize(req.scope).value, req.name), req, p);
    }
    SameTablesSamePack(db, t.After(db), p);
  }

  lemma InsertedPackFrame(db: DB, key: PackKey, req: CreatePackRequest, p: PackKey)
    requires p in db.packs && key !in db.packs
    ensures var t := EnsurePack(db, key, req.actor, req.description, req.metadata, req.locked, req.lockReason);
            t.Done? ==> p in t.db.packs && t.db.packs[p] == db.packs[p] && t.db.entries == db.entries
  {
  }

  lemma UpdateFrozen(db: DB, req: UpdatePackRequest, p: PackKey)
    requires p in db.packs && db.packs[p].status.Archived? && !Unarchives(Update(req), p)
    ensures SamePack(db, UpdatePack(db, req).After(db), p)
  {
    hide SamePack, UpdatedPack;
    SameTablesSamePack(db, UpdatePack(db, req).After(db), p);
  }

  lemma ApproveFrozen(db: DB, id: Id, actor: string, note: Option<string>, p: PackKey)
    requires Valid(db) && p in db.packs && db.packs[p].status.Archived?
    ensures SamePack(db, ApproveReview(db, id, actor, note).After(db), p)
  {
    hide Valid, ApproveReview, SamePack;
    SamePackItself(db, p);
    if ApproveReview(db, id, actor, note).Done? {
      ApprovalWritesProposal(db, id, actor, note);
      var r := db.reviews[ReviewIndex(db.reviews, id).value];
      WriteElsewhere(db, ApproveReview(db, id, actor, note).db, p, KeyOf(r.scope, r.packName, r.proposed.key));
    }
  }

  lemma EditAndApproveFrozen(db: DB, id: Id, f: EditFields, actor: string, note: Option<string>, p: PackKey)
    requires Valid(db) && p in db.packs && db.packs[p].status.Archived?
    ensures SamePack(db, EditAndApproveReview(db, id, f, actor, note).After(db), p)
  {
    hide Valid, EditAndApproveReview, SamePack, EditedEntry;
    SamePackItself(db, p);
    if EditAndApproveReview(db, id, f, actor, note).Done? {
      EditedApprovalWrites(db, id, f, actor, note);
      var r := db.reviews[ReviewIndex(db.reviews, id).value];
      WriteElsewhere(db, EditAndApproveReview(db, id, f, actor, note).db, p,
                     KeyOf(r.scope, r.packName, EditedEntry(r.proposed, f).key));
    }
  }

  lemma AgentFrozen(db: DB, op: Op, p: PackKey)
    requires Valid(db) && p in db.packs && db.packs[p].status.Archived? && (op.Commit? || op.Import?)
    ensures SamePack(db, Step(db, op), p)
  {
    hide Step, Valid, Sound;
    AgentStepSound(db, op);
    var end := Step(db, op);
    forall k: EntryKey | k.pack == p ensures (k in db.entries <==> k in end.entries) && (k in db.entries ==> end.entries[k] == db.entries[k]) {
      if k in end.entries { assert Untouched(db, end, k) || Writable(db, k, db.policy.mode); }
    }
  }

  lemma StepFrozen(db: DB, op: Op, p: PackKey)
    requires Valid(db) && p in db.packs && db.packs[p].status.Archived? && !op.Restore? && !Unarchives(op, p)
    ensures SamePack(db, Step(db, op), p)
  {
    hide Valid, SamePack, PutEntry, DeleteEntry, RevertEntry, CreatePack, UpdatePack, SetPolicy, EnsureRun, CommitWork,
         ApplyImport, ApproveReview, RejectReview, EditReview, EditAndApproveReview;
    match op
    case Put(req) => PutFrozen(db, req, p);
    case Delete(sel, actor) => DeleteFrozen(db, sel, actor, p);
    case Revert(sel, no, actor) => RevertFrozen(db, sel, no, actor, p);
    case Create(req) => CreateFrozen(db, req, p);
    case Update(req) => UpdateFrozen(db, req, p);
    case Policy(mode, metadata, actor) =>
      SetPolicySound(db, mode, metadata, actor);
      SameTablesSamePack(db, Step(db, op), p);
    case StartRun(input) =>
      EnsureRunSound(db, input);
      SameTablesSamePack(db, Step(db, op), p);
    case Commit(_, _, _, _) => AgentFrozen(db, op, p);
    case Import(_) => AgentFrozen(db, op, p);
    case Approve(id, actor, note) => ApproveFrozen(db, id, actor, note, p);
    case EditAndApprove(id, f, actor, note) => EditAndApproveFrozen(db, id, f, actor, note, p);
    case Reject(id, actor, note) =>
      RejectWritesNothing(db, id, actor, note);
      SameTablesSamePack(db, Step(db, op), p);
    case Edit(id, f, actor) =>
      EditWritesNothing(db, id, f, actor);
      SameTablesSamePack(db, Step(db, op), p);
  }

  /**
   An archived pack is frozen: over any run without a bundle import and without the update that makes it
   active again, neither its row nor any of its entries changes, and no entry joins it.
   */
  lemma {:induction false} ArchivedPackFrozen(db: DB, ops: seq<Op>, p: PackKey)
    requires Valid(db) && p in db.packs && db.packs[p].status.Archived?
    requires NoRestore(ops) && forall i | 0 <= i < |ops| :: !Unarchives(ops[i], p)
    ensures SamePack(db, Run(db, ops), p)
  {
    hide Valid, Grows, Step, Unarchives;
    if ops == [] {
      SamePackItself(db, p);
    } else {
      var n := |ops| - 1;
      ArchivedPackFrozen(db, ops[..n], p);
      RunGrows(db, ops[..n]);
      StepFrozen(Run(db, ops[..n]), ops[n], p);
      SamePackTransitive(db, Run(db, ops[..n]), Run(db, ops), p);
    }
  }

  lemma SamePackItself(db: DB, p: PackKey)
    requires p in db.packs
    ensures SamePack(db, db, p)
  {
  }

  lemma SamePackTransitive(a: DB, b: DB, c: DB, p: PackKey)
    requires SamePack(a, b, p) && SamePack(b, c, p)
    ensures SamePack(a, c, p)
  {
  }

  /** Only one request gets an archived pack out of the archive, and it changes nothing but status and revision. */
  lemma UnarchiveChangesStatusOnly(db: DB, req: UpdatePackRequest, p: PackKey)
    requires Valid(db) && p in db.packs && db.packs[p].status.Archived?
    requires Normalize(req.scope) == Ok(p.scope) && req.name == p.name && UpdatePack(db, req).Done?
    ensures Unarchives(Update(req), p)
    ensures var end := UpdatePack(db, req).db;
            p in end.packs && end.entries == db.entries &&
            end.packs[p].(status := Archived, revisionNo := db.packs[p].revisionNo,
                          lockReason := db.packs[p].lockReason) == db.packs[p] &&
            end.packs[p].status.Open? && end.packs[p].lockReason == (if db.packs[p].locked then db.packs[p].lockReason else None)
  {
    hide Valid, MaxRevision;
  }
}
