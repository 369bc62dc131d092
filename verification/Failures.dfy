/** With which error a request fails, what the scanner is shown, and how a held proposal finds its review. */
module Failures {
  import opened Prelude
  import opened Model
  import opened Database
  import opened Operations
  import opened SourceImport
  import opened Invariant
  import opened Runs
  import opened Requests
  import opened Previews
  import Text

  // ---------- what the scanner is shown ----------

  function ShownAs(p: Provenance): ShownProvenance {
    ShownProvenance(p.actor, p.source, p.sourceRef, p.runId,
                    match p.requestId case Some(ByClient(text)) => Some(text) case _ => None, p.note)
  }

  /**
   The scanner is shown all that a write stores: every field of the entry and of its provenance, and the ids that
   clients choose; of the ids that the source import mints nothing.
   */
  lemma ScannerSees(key: EntryKey, actor: string, e: EntryInput, p: Provenance, requestId: Option<RequestId>, runId: Option<RunId>)
    ensures ShownEntryWrite(key, actor, e, p, requestId, runId) ==
            EntryWrite(key.pack.scope, key.pack.name, actor,
                       ShownInput(EntryInput(e.key, e.title, e.kind, e.value, e.tags, e.metadata, e.locked, None),
                                  if e.provenance.Some? then Some(ShownAs(e.provenance.value)) else None),
                       ShownAs(p), match requestId case Some(ByClient(text)) => Some(text) case _ => None, runId)
  {
  }

  /** Of a whole commit it is shown request id, actor and run, and of each proposal where it goes and what it is called. */
  lemma ScannerSeesCommit(req: CommitRequest)
    ensures ShownCommit(req).CommitMetadata? && ShownCommit(req).actor == req.actor && ShownCommit(req).run == req.run
    ensures ShownCommit(req).requestId == (if req.requestId.ByClient? then Some(req.requestId.text) else None)
    ensures |ShownCommit(req).proposals| == |req.proposals|
    ensures forall i | 0 <= i < |req.proposals| ::
              ShownCommit(req).proposals[i] == ShownProposal(req.proposals[i].scope, req.proposals[i].packName, req.proposals[i].entry.key,
                                                             req.proposals[i].entry.kind, req.proposals[i].entry.locked)
  {
  }

  /** A commit in which the scanner finds a credential at once fails for it, even if its id is in the log. */
  lemma SecretCommitFails(db: DB, req: CommitRequest, exact: bool)
    requires (req.requestId.ByClient? ==> !Text.Blank(req.requestId.text)) && !Text.Blank(req.actor) && req.proposals != []
    requires db.scan(ShownCommit(req))
    ensures CommitWork(db, req, exact) == Fail(SecretDetected)
  {
  }

  // ---------- errors ----------

  // The first of the reasons for which an entry is not written.
  function WriteError(db: DB, pack: PackKey, e: EntryInput, actor: string): Error {
    if Text.Blank(actor) || Text.Blank(pack.name) || !InputValid(e) then Validation
    else if pack in db.packs && db.packs[pack].status.Archived? then Error.Conflict else SecretDetected
  }

  lemma WriteFails(db: DB, pack: PackKey, e: EntryInput, actor: string, p: Provenance, requestId: Option<RequestId>, runId: Option<RunId>)
    requires !db.scan(ShownEntryWrite(EntryKey(pack, e.key), actor, e, p, requestId, runId))
    ensures var t := ApplyEntry(db, pack, e, actor, p, requestId, runId, false); t.Fail? ==> t.error == WriteError(db, pack, e, actor)
  {
    hide MaxRevision, UpsertDoc, ContentHash, InputValid, Text.Blank;
  }

  lemma WriteScanned(db: DB, pack: PackKey, e: EntryInput, actor: string, p: Provenance, requestId: Option<RequestId>, runId: Option<RunId>)
    requires db.scan(ShownEntryWrite(EntryKey(pack, e.key), actor, e, p, requestId, runId))
    ensures ApplyEntry(db, pack, e, actor, p, requestId, runId, false)
            == Fail(if Text.Blank(actor) || Text.Blank(pack.name) || !InputValid(e) then Validation else SecretDetected)
  {
    hide EnsureDefaultPack, WriteEntry, InputValid, Text.Blank;
  }

  /** A put fails as invalid before anything else, for a credential before it looks at the pack, and in conflict for an archived pack. */
  lemma PutFails(db: DB, req: PutRequest)
    requires PutEntry(db, req).Fail?
    ensures var pack := PackMeant(req.scope, req.packName);
            var p := if req.entry.provenance.Some? then req.entry.provenance.value else Provenance(req.actor, "manual_put", None, None, None, None);
            PutEntry(db, req).error ==
              if !ScopeGiven(req.scope) || Text.Blank(req.actor) || Text.Blank(req.packName) || !InputValid(req.entry) then Validation
              else if db.scan(ShownEntryWrite(EntryKey(pack, req.entry.key), req.actor, req.entry, p, None, None)) then SecretDetected
              else if pack in db.packs && db.packs[pack].status.Archived? then Error.Conflict else SecretDetected
  {
    hide ApplyEntry, Normalize, InputValid, Text.Blank, ShownEntryWrite;
    ScopeRead(req.scope);
    var pack, p := PackMeant(req.scope, req.packName), Or(req.entry.provenance, SystemProvenance(req.actor, "manual_put"));
    if db.scan(ShownEntryWrite(EntryKey(pack, req.entry.key), req.actor, req.entry, p, None, None)) {
      WriteScanned(db, pack, req.entry, req.actor, p, None, None);
    } else {
      WriteFails(db, pack, req.entry, req.actor, p, None, None);
    }
  }

  lemma SelectFails(db: DB, sel: Selector, actor: string)
    ensures Select(db, sel, actor).Err? ==> Select(db, sel, actor).error == if SelectorGiven(sel, actor) then NotFound else Validation
  {
    hide Normalize, Text.Blank, Text.Trim;
    ScopeRead(sel.scope);
  }

  /** A delete fails as invalid, then for want of the entry, then in conflict for an archived pack, and last for a credential. */
  lemma DeleteFails(db: DB, sel: Selector, actor: string)
    requires Valid(db) && DeleteEntry(db, sel, actor).Fail?
    ensures DeleteEntry(db, sel, actor).error ==
            if !SelectorGiven(sel, actor) then Validation else if EntryMeant(sel) !in db.entries then NotFound
            else if db.packs[EntryMeant(sel).pack].status.Archived? then Error.Conflict else SecretDetected
  {
    hide Select, MaxRevision, RemoveDocs, Valid;
    Selected(db, sel, actor);
    SelectFails(db, sel, actor);
    if EntryMeant(sel) in db.entries { PackOfEntry(db, EntryMeant(sel)); }
  }

  lemma CreateFails(db: DB, req: CreatePackRequest)
    requires CreatePack(db, req).Fail?
    ensures CreatePack(db, req).error ==
            if !ScopeGiven(req.scope) || Text.Blank(req.actor) || Text.Blank(req.name) then Validation
            else if db.scan(PackWrite(ScopeMeant(req.scope), req.name, req.actor, req.description, req.metadata, req.lockReason)) then SecretDetected
            else if PackMeant(req.scope, req.name) in db.packs then Error.Conflict else SecretDetected
  {
    hide Normalize, MaxRevision, Text.Blank;
    ScopeRead(req.scope);
  }

  lemma UpdateFails(db: DB, req: UpdatePackRequest)
    requires Valid(db) && UpdatePack(db, req).Fail?
    ensures UpdatePack(db, req).error ==
            if !ScopeGiven(req.scope) || Text.Blank(req.actor) || Text.Blank(req.name) then Validation
            else if PackMeant(req.scope, req.name) !in db.packs then NotFound
            else if db.packs[PackMeant(req.scope, req.name)].status.Archived? &&
                    !(req.status == Some(Open) && req.description.None? && req.metadata.None? && req.locked.None? && req.lockReason.None?)
            then Error.Conflict else SecretDetected
  {
    hide Normalize, MaxRevision, Text.Blank, Valid, UpdatedPack;
    ScopeRead(req.scope);
  }

  /** A decision on a review fails as invalid without an actor, for want of the review, and as invalid where it is settled. */
  lemma DecisionFails(db: DB, id: Id, actor: string)
    requires Valid(db) && PendingReview(db, id, actor).Err?
    ensures PendingReview(db, id, actor).error ==
            if Text.Blank(actor) then Validation else if exists i | 0 <= i < |db.reviews| :: db.reviews[i].id == id then Validation else NotFound
    ensures forall note :: ApproveReview(db, id, actor, note) == Fail(PendingReview(db, id, actor).error) == RejectReview(db, id, actor, note)
    ensures forall f :: EditReview(db, id, f, actor) == Fail(PendingReview(db, id, actor).error)
    ensures forall f, note :: EditAndApproveReview(db, id, f, actor, note) == Fail(PendingReview(db, id, actor).error)
  {
    hide Valid, Text.Blank, ApplyProposed, Settle, EditedReview, UpdateReview;
  }

  /** An apply whose fingerprint is not the preview's fails in conflict, before it is asked whether it may be applied. */
  lemma ApplyFails(db: DB, req: ImportRequest)
    requires PreviewImport(db, req).Ok?
    ensures var p := PreviewImport(db, req).value;
            (req.expected.Some? && req.expected != Some(Fingerprint(req.actor, p)) ==> ApplyImport(db, req) == Fail(Error.Conflict)) &&
            (!(req.expected.Some? && req.expected != Some(Fingerprint(req.actor, p))) && !p.applyAllowed ==> ApplyImport(db, req) == Fail(Validation))
  {
    hide PreviewImport, ApplyCandidates;
  }

  /** A preview fails for a credential only where all else that it needs up to that candidate is there. */
  lemma PreviewFails(db: DB, req: ImportRequest)
    requires PreviewImport(db, req).Err?
    ensures PreviewImport(db, req).error == Validation || PreviewImport(db, req).error == SecretDetected
    ensures Text.Blank(req.actor) || !ScopeGiven(req.destination) || Text.Blank(Destination(req).name) || req.parsed == [] ==>
              PreviewImport(db, req).error == Validation
  {
    hide BuildPreview, Prepare, Text.Blank, Destination;
    Prepared(req);
    if Prepare(req).Ok? { BuildFails(db, req); }
  }

  lemma BuildFails(db: DB, req: ImportRequest)
    ensures var r := BuildPreview(db, req, Destination(req)); r.Err? ==> r.error == Validation || r.error == SecretDetected
  {
    hide BuildCandidates, Destination, RepeatedKeys;
    CandidatesFail(db, req, req.parsed);
  }

  lemma {:induction false} CandidatesFail(db: DB, req: ImportRequest, parsed: seq<ParsedCandidate>)
    ensures var r := BuildCandidates(db, req.actor, Destination(req), GovernanceOf(db, Destination(req)), parsed);
            r.Err? ==> r.error == Validation || r.error == SecretDetected
  {
    hide Destination, GovernanceOf, InputValid, Classify, CandidateWarnings;
    if parsed != [] { CandidatesFail(db, req, parsed[..|parsed| - 1]); }
  }

  // ---------- the review of a held proposal ----------

  // A waiting review of the same proposal over the same entry for the same reason.
  predicate SameCase(r: ReviewItem, key: EntryKey, e: EntryInput, existing: Option<EntryRecord>, reason: ReviewReason) {
    r.state.Pending? && r.scope == key.pack.scope && r.packName == key.pack.name && r.entryKey == key.key && r.reason == reason &&
    r.existing == existing &&
    r.proposed.key == e.key && r.proposed.title == e.title && r.proposed.kind == e.kind && r.proposed.value == e.value && r.proposed.tags == e.tags &&
    r.proposed.metadata == e.metadata && r.proposed.locked == e.locked
  }

  lemma MatchesIsSameCase(r: ReviewItem, key: EntryKey, e: EntryInput, existing: Option<EntryRecord>, reason: ReviewReason)
    ensures MatchesPending(r, key, e, existing, reason) <==> SameCase(r, key, e, existing, reason)
  {
  }

  // The first review of the case.
  ghost predicate FirstCase(reviews: seq<ReviewItem>, r: ReviewItem, key: EntryKey, e: EntryInput, existing: Option<EntryRecord>,
                            reason: ReviewReason)
  {
    exists i | 0 <= i < |reviews| :: reviews[i] == r && SameCase(r, key, e, existing, reason) &&
                                     forall j | 0 <= j < i :: !SameCase(reviews[j], key, e, existing, reason)
  }

  lemma AtFirst(reviews: seq<ReviewItem>, key: EntryKey, e: EntryInput, existing: Option<EntryRecord>, reason: ReviewReason)
    requires reviews != [] && SameCase(reviews[0], key, e, existing, reason)
    ensures FirstCase(reviews, reviews[0], key, e, existing, reason)
  {
    hide SameCase;
  }

  lemma LaterFirst(reviews: seq<ReviewItem>, r: ReviewItem, key: EntryKey, e: EntryInput, existing: Option<EntryRecord>, reason: ReviewReason)
    requires reviews != [] && !SameCase(reviews[0], key, e, existing, reason) && FirstCase(reviews[1..], r, key, e, existing, reason)
    ensures FirstCase(reviews, r, key, e, existing, reason)
  {
    hide SameCase;
    var rest := reviews[1..];
    var i :| 0 <= i < |rest| && rest[i] == r && SameCase(r, key, e, existing, reason) &&
             forall j | 0 <= j < i :: !SameCase(rest[j], key, e, existing, reason);
    assert reviews[i + 1] == r && forall j | 0 < j <= i :: reviews[j] == rest[j - 1];
  }

  lemma {:induction false} OldestFound(reviews: seq<ReviewItem>, key: EntryKey, e: EntryInput, existing: Option<EntryRecord>, reason: ReviewReason)
    ensures var f := FindPending(reviews, key, e, existing, reason);
            if f.Some? then FirstCase(reviews, f.value, key, e, existing, reason)
            else forall i | 0 <= i < |reviews| :: !SameCase(reviews[i], key, e, existing, reason)
  {
    hide MatchesPending, SameCase, FirstCase;
    if reviews != [] {
      MatchesIsSameCase(reviews[0], key, e, existing, reason);
      if SameCase(reviews[0], key, e, existing, reason) { AtFirst(reviews, key, e, existing, reason); }
      OldestFound(reviews[1..], key, e, existing, reason);
      if !SameCase(reviews[0], key, e, existing, reason) {
        var f := FindPending(reviews[1..], key, e, existing, reason);
        assert forall i | 0 < i < |reviews| :: reviews[i] == reviews[1..][i - 1];
        if f.Some? { LaterFirst(reviews, f.value, key, e, existing, reason); }
      }
    }
  }

  lemma HasFirst(reviews: seq<ReviewItem>, r: ReviewItem, key: EntryKey, e: EntryInput, existing: Option<EntryRecord>, reason: ReviewReason)
    requires FirstCase(reviews, r, key, e, existing, reason)
    ensures exists i | 0 <= i < |reviews| :: SameCase(reviews[i], key, e, existing, reason)
  {
    hide SameCase;
  }

  /**
   A held proposal of a source import goes to the oldest review that waits for a decision on the same case, and
   changes nothing then; every other held proposal raises a new review, which shows all that it is about.
   */
  lemma HoldStores(db: DB, requestId: RequestId, key: EntryKey, e: EntryInput, existing: Option<EntryRow>, reason: ReviewReason, exact: bool)
    requires HoldForReview(db, requestId, key, e, existing, reason, exact).Done?
    ensures var t := HoldForReview(db, requestId, key, e, existing, reason, exact);
            var was := if existing.Some? then Some(existing.value.record) else None;
            if exact && exists i | 0 <= i < |db.reviews| :: SameCase(db.reviews[i], key, e, was, reason)
            then t.db == db && exists r: ReviewItem :: FirstCase(db.reviews, r, key, e, was, reason) && t.value.reviewId == Some(r.id)
            else |t.db.reviews| == |db.reviews| + 1 && db.reviews <= t.db.reviews && t.value.reviewId == Some(db.nextId) &&
                 var r := t.db.reviews[|db.reviews|];
                 r == ReviewItem(db.nextId, requestId, key.pack.scope, key.pack.name, e.key, Pending, reason, e, was, None, r.revisionNo)
  {
    hide FindPending, MaxRevision, SameCase, FirstCase;
    var was := RecordOf(existing);
    OldestFound(db.reviews, key, e, was, reason);
    if FindPending(db.reviews, key, e, was, reason).Some? {
      HasFirst(db.reviews, FindPending(db.reviews, key, e, was, reason).value, key, e, was, reason);
    }
  }
}
