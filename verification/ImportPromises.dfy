/** The promises of the source import over whole runs. */
module ImportPromises {
  import opened Prelude
  import opened Model
  import opened Database
  import opened SourceImport
  import opened Invariant
  import opened Governance
  import opened Runs
  import opened Stamps
  import opened ImportLaws
  import opened ImportLog

  // ---------- the preview predicts the apply ----------

  lemma {:induction false} CountsAddUp(items: seq<ImportItem>)
    ensures Count(items, Applied) + Count(items, Held) + Count(items, Duplicate) + Count(items, Refused) == |items|
  {
    if items != [] { CountsAddUp(items[..|items| - 1]); }
  }

  lemma {:induction false} NoneCounted(items: seq<ImportItem>, d: Disposition)
    requires forall i | 0 <= i < |items| :: items[i].disposition != d
    ensures Count(items, d) == 0
  {
    if items != [] { NoneCounted(items[..|items| - 1], d); }
  }

  lemma FatesOfItems(db: DB, p: Preview, items: seq<ImportItem>, i: nat)
    requires ItemsAs(db, p, items) && i < |items|
    ensures items[i].disposition.Duplicate? <==> p.candidates[i].disposition.Identical?
    ensures !items[i].disposition.Refused?
  {
    assert Fate(items[i].disposition, items[i].reason) == FateAt(db, p, i);
  }

  lemma ReportCounts(db: DB, p: Preview, items: seq<ImportItem>)
    requires ItemsAs(db, p, items) && |items| == |p.candidates|
    ensures var r := Report(p, items);
            r.appliedCount + r.pendingCount + r.skippedCount == r.candidateCount == |p.candidates| &&
            r.rejectedCount == 0 && r.importedCount == r.appliedCount + r.pendingCount && r.items == items
  {
    forall i | 0 <= i < |items| ensures !items[i].disposition.Refused? { FatesOfItems(db, p, items, i); }
    CountsAddUp(items);
    NoneCounted(items, Refused);
  }

  lemma ReportIs(db: DB, req: ImportRequest)
    requires ApplyImport(db, req).Done?
    ensures ApplyImport(db, req).value == Report(PreviewImport(db, req).value, ApplyImport(db, req).value.items)
  {
    hide PreviewImport, ApplyCandidates, Count;
  }

  /**
   The preview predicts the apply: item i meets the fate that the preview state alone gives candidate i, so it
   is a duplicate exactly when the preview said so; nothing is refused; and the counts add up.
   */
  lemma PreviewPredictsApply(db: DB, req: ImportRequest)
    requires Healthy(db) && ApplyImport(db, req).Done?
    ensures var p, r := PreviewImport(db, req), ApplyImport(db, req).value;
            p.Ok? && |r.items| == |p.value.candidates| && ItemsAs(db, p.value, r.items) &&
            (forall i | 0 <= i < |r.items| :: r.items[i].disposition.Duplicate? <==> p.value.candidates[i].disposition.Identical?) &&
            (forall i | 0 <= i < |r.items| :: !r.items[i].disposition.Refused?) &&
            r.appliedCount + r.pendingCount + r.skippedCount == r.candidateCount == |p.value.candidates| &&
            r.rejectedCount == 0 && r.importedCount == r.appliedCount + r.pendingCount
  {
    ImportOutcome(db, req);
    var p, r := PreviewImport(db, req).value, ApplyImport(db, req).value;
    ReportIs(db, req);
    hide ApplyImport, PreviewImport, Healthy, Imported, ItemsAs, Seen, AgentSound, Report;
    forall i | 0 <= i < |r.items|
      ensures r.items[i].disposition.Duplicate? <==> p.candidates[i].disposition.Identical?
      ensures !r.items[i].disposition.Refused?
    {
      FatesOfItems(db, p, r.items, i);
    }
    ReportCounts(db, p, r.items);
  }

  lemma SameEntrySameFate(db: DB, req: ImportRequest, other: ImportRequest, i: nat, j: nat)
    requires PreviewImport(db, req).Ok? && PreviewImport(db, other).Ok? && Prepare(req) == Prepare(other)
    requires i < |PreviewImport(db, req).value.candidates| && j < |PreviewImport(db, other).value.candidates|
    requires PreviewImport(db, req).value.candidates[i].entry == PreviewImport(db, other).value.candidates[j].entry
    ensures FateAt(db, PreviewImport(db, req).value, i) == FateAt(db, PreviewImport(db, other).value, j)
  {
    hide PreviewImport, Prepare, BuildCandidate, Classify, GovernanceOf, InputValid, DistinctKeys, GetEntry, Foresee;
    PreviewShape(db, req);
    PreviewShape(db, other);
    PreviewForetells(db, req, i);
    PreviewForetells(db, other, j);
    var p, q := PreviewImport(db, req).value, PreviewImport(db, other).value;
    ForeseenAlike(p, q, GetEntry(db, CandidateKey(p, p.candidates[i])));
  }

  lemma ForeseenAlike(p: Preview, q: Preview, row: Option<EntryRow>)
    requires PackOf(p) == PackOf(q) && p.pack == q.pack && p.mode == q.mode
    ensures Foresee(p, row) == Foresee(q, row)
  {
  }

  /**
   Neither the order of the candidates nor their company matters: an entry meets the same fate in whichever
   import of the same destination it stands, at whichever place.
   */
  lemma OrderDoesNotMatter(db: DB, req: ImportRequest, other: ImportRequest, i: nat, j: nat)
    requires Healthy(db) && ApplyImport(db, req).Done? && ApplyImport(db, other).Done? && Prepare(req) == Prepare(other)
    requires i < |req.parsed| && j < |other.parsed| && req.parsed[i].entry == other.parsed[j].entry
    ensures var a, b := ApplyImport(db, req).value.items, ApplyImport(db, other).value.items;
            i < |a| && j < |b| && a[i].disposition == b[j].disposition && a[i].reason == b[j].reason
  {
    ImportOutcome(db, req);
    ImportOutcome(db, other);
    ParsedIsPreviewed(db, req, i);
    ParsedIsPreviewed(db, other, j);
    SameEntrySameFate(db, req, other, i, j);
    hide ApplyImport, PreviewImport, Prepare, Healthy, Imported, FateAt, Seen;
    var a, b := ApplyImport(db, req).value.items, ApplyImport(db, other).value.items;
    assert Fate(a[i].disposition, a[i].reason) == FateAt(db, PreviewImport(db, req).value, i);
    assert Fate(b[j].disposition, b[j].reason) == FateAt(db, PreviewImport(db, other).value, j);
  }

  lemma ParsedIsPreviewed(db: DB, req: ImportRequest, i: nat)
    requires PreviewImport(db, req).Ok? && i < |req.parsed|
    ensures i < |PreviewImport(db, req).value.candidates| && PreviewImport(db, req).value.candidates[i].entry == req.parsed[i].entry
  {
    PreviewShape(db, req);
    var p := PreviewImport(db, req).value;
    assert BuildCandidate(db, req.actor, PackOf(p), p.pack, i, req.parsed[i]) == Ok(p.candidates[i]);
  }

  /** What an apply changes: rows of candidates foretold to be applied, and nothing else among the entries. */
  lemma ApplyWritesForetold(db: DB, req: ImportRequest, k: EntryKey)
    requires Healthy(db) && ApplyImport(db, req).Done? && GetEntry(ApplyImport(db, req).db, k) != GetEntry(db, k)
    ensures var p, end := PreviewImport(db, req).value, ApplyImport(db, req).db;
            exists i | 0 <= i < |p.candidates| :: k == CandidateKey(p, p.candidates[i]) && FateAt(db, p, i).disposition.Applied? &&
                                                  AppliedRow(end, k, p.candidates[i])
  {
    hide Healthy, PreviewImport, ApplyImport, Outcome, FateAt, AppliedRow;
    ImportOutcome(db, req);
    var p, end := PreviewImport(db, req).value, ApplyImport(db, req).db;
    assert PartDone(db, end, req.actor, p, |p.candidates|);
    assert k in KeysTo(p, |p.candidates|);
    var i :| 0 <= i < |p.candidates| && k == CandidateKey(p, p.candidates[i]);
    OutcomeOf(db, end, p, i);
  }

  lemma OutcomeOf(db: DB, end: DB, p: Preview, i: nat)
    requires i < |p.candidates| && Outcome(db, end, p, i)
    ensures var key := CandidateKey(p, p.candidates[i]);
            if FateAt(db, p, i).disposition.Applied? then AppliedRow(end, key, p.candidates[i]) else GetEntry(end, key) == GetEntry(db, key)
  {
    hide FateAt, AppliedRow;
  }

  // ---------- nothing is applied twice ----------

  lemma AppliedMovesOn(db: DB, req: ImportRequest, i: nat)
    requires Healthy(db) && ApplyImport(db, req).Done? && i < |ApplyImport(db, req).value.items|
    requires ApplyImport(db, req).value.items[i].disposition.Applied?
    ensures var p, end := PreviewImport(db, req), ApplyImport(db, req).db;
            p.Ok? && i < |p.value.candidates| && !p.value.candidates[i].disposition.Identical? && FateAt(db, p.value, i).disposition.Applied? &&
            IdAt(req.actor, p.value, i) in end.commits && end.commits[IdAt(req.actor, p.value, i)].items != [] &&
            end.commits[IdAt(req.actor, p.value, i)].items[0].disposition.Applied? && end != db &&
            NewerRow(GetEntry(db, CandidateKey(p.value, p.value.candidates[i])), end, CandidateKey(p.value, p.value.candidates[i]))
  {
    ImportOutcome(db, req);
    var p, end := PreviewImport(db, req).value, ApplyImport(db, req).db;
    var item := ApplyImport(db, req).value.items[i];
    assert Fate(item.disposition, item.reason) == FateAt(db, p, i);
    assert !p.candidates[i].disposition.Identical?;
    if end == db && AllLogged(db.commits, req.actor, p) {
      LoggedItem(db, req.actor, p, i);
      assert false;
    }
    assert LoggedAs(end.commits[IdAt(req.actor, p, i)], p.candidates[i], FateAt(db, p, i));
    assert Outcome(db, end, p, i);
  }

  /**
   A cached Applied result is never replayed: whatever happens after a candidate was applied, no later
   preview, by whichever request, can compute its request id again.
   */
  lemma AppliedNeverRecomputed(db: DB, req: ImportRequest, i: nat, ops: seq<Op>, again: ImportRequest, j: nat)
    requires Healthy(db) && ApplyImport(db, req).Done? && i < |ApplyImport(db, req).value.items|
    requires ApplyImport(db, req).value.items[i].disposition.Applied? && i < |PreviewImport(db, req).value.candidates|
    requires PreviewImport(Run(ApplyImport(db, req).db, ops), again).Ok?
    requires j < |PreviewImport(Run(ApplyImport(db, req).db, ops), again).value.candidates|
    ensures IdAt(again.actor, PreviewImport(Run(ApplyImport(db, req).db, ops), again).value, j)
            != IdAt(req.actor, PreviewImport(db, req).value, i)
  {
    hide Healthy, PreviewImport, ApplyImport, Run, IdAt;
    AppliedIsLogged(db, req, i);
    var mid, id := ApplyImport(db, req).db, IdAt(req.actor, PreviewImport(db, req).value, i);
    RunHealthy(mid, ops);
    HealthyIsValid(mid);
    CommitLogPermanent(mid, ops, id);
    LoggedIsNotApplied(Run(mid, ops), again, j);
  }

  lemma AppliedIsLogged(db: DB, req: ImportRequest, i: nat)
    requires Healthy(db) && ApplyImport(db, req).Done? && i < |ApplyImport(db, req).value.items|
    requires ApplyImport(db, req).value.items[i].disposition.Applied? && i < |PreviewImport(db, req).value.candidates|
    ensures PreviewImport(db, req).Ok?
    ensures var end, id := ApplyImport(db, req).db, IdAt(req.actor, PreviewImport(db, req).value, i);
            Healthy(end) && id in end.commits && end.commits[id].items != [] && end.commits[id].items[0].disposition.Applied?
  {
    hide Healthy, ApplyImport, IdAt, NewerRow, FateAt, Step;
    AppliedMovesOn(db, req, i);
    ImportStep(db, req);
    StepHealthy(db, Import(req));
  }

  /** In no healthy state can a preview compute the id of a candidate that was applied. */
  lemma LoggedIsNotApplied(db: DB, req: ImportRequest, j: nat)
    requires Healthy(db) && PreviewImport(db, req).Ok? && j < |PreviewImport(db, req).value.candidates|
    ensures var id := IdAt(req.actor, PreviewImport(db, req).value, j);
            id in db.commits && db.commits[id].items != [] ==> !db.commits[id].items[0].disposition.Applied?
  {
    PreviewForetells(db, req, j);
    hide Valid, PreviewImport;
    var p := PreviewImport(db, req).value;
    var id := IdAt(req.actor, p, j);
    if id in db.commits {
      assert id.ByImport? && id.fingerprint.preview == p && id.candidate == p.candidates[j];
    }
  }

  // ---------- no lost update ----------

  // Everything a preview of the destination depends on is the same in both states.
  ghost predicate NothingLost(was: DB, now: DB, p: Preview) {
    now.policy.mode == was.policy.mode && GetPack(now, PackOf(p)) == GetPack(was, PackOf(p)) &&
    forall i | 0 <= i < |p.candidates| ::
      GetEntry(now, CandidateKey(p, p.candidates[i])) == GetEntry(was, CandidateKey(p, p.candidates[i]))
  }

  lemma SameRevisionSameRow(db: DB, ops: seq<Op>, k: EntryKey)
    requires Valid(db) && RevisionOf(GetEntry(db, k)) == RevisionOf(GetEntry(Run(db, ops), k))
    ensures GetEntry(Run(db, ops), k) == GetEntry(db, k)
  {
    if k in db.entries { EntryStamp(db, ops, k); }
  }

  lemma SamePreviewed(now: DB, req: ImportRequest, actor: string, p: Preview)
    requires ApplyImport(now, req).Done? && req.expected == Some(Fingerprint(actor, p))
    ensures req.actor == actor && PreviewImport(now, req) == Ok(p)
  {
    hide PreviewImport, ApplyCandidates;
  }

  /**
   No lost update: if an apply carrying the fingerprint of a preview taken in an earlier state succeeds, then
   across whatever ran in between, neither any candidate's entry nor any field of the destination pack changed,
   and the review mode is the same.
   */
  lemma NoLostUpdate(db: DB, previewed: ImportRequest, ops: seq<Op>, req: ImportRequest)
    requires Valid(db) && PreviewImport(db, previewed).Ok? && ApplyImport(Run(db, ops), req).Done?
    requires req.expected == Some(Fingerprint(previewed.actor, PreviewImport(db, previewed).value))
    ensures NothingLost(db, Run(db, ops), PreviewImport(db, previewed).value)
    ensures req.actor == previewed.actor && PreviewImport(Run(db, ops), req) == PreviewImport(db, previewed)
  {
    hide PreviewImport, Prepare, BuildCandidates, ApplyImport, Valid, Run;
    var now, p := Run(db, ops), PreviewImport(db, previewed).value;
    SamePreviewed(now, req, previewed.actor, p);
    PreviewShape(db, previewed);
    PreviewShape(now, req);
    forall i | 0 <= i < |p.candidates|
      ensures GetEntry(now, CandidateKey(p, p.candidates[i])) == GetEntry(db, CandidateKey(p, p.candidates[i]))
    {
      PreviewForetells(db, previewed, i);
      PreviewForetells(now, req, i);
      SameRevisionSameRow(db, ops, CandidateKey(p, p.candidates[i]));
    }
    var pack := PackOf(p);
    assert GovernanceOf(now, pack) == GovernanceOf(db, pack);
    if pack in db.packs { PackStamp(db, ops, pack); }
  }

  /**
   Of two clients that previewed the same state and share a key, at most one can have that key Applied: when
   the second apply succeeds with its fingerprint of that state, the first cannot have applied the key.
   */
  lemma AtMostOneApplied(db: DB, first: ImportRequest, before: seq<Op>, applied: ImportRequest, i: nat,
                         after: seq<Op>, second: ImportRequest, applied': ImportRequest, j: nat)
    requires Healthy(db) && PreviewImport(db, first).Ok? && PreviewImport(db, second).Ok?
    requires var mid := Run(db, before);
             applied.expected == Some(Fingerprint(first.actor, PreviewImport(db, first).value)) &&
             ApplyImport(mid, applied).Done? && i < |ApplyImport(mid, applied).value.items| &&
             ApplyImport(mid, applied).value.items[i].disposition.Applied?
    requires applied'.expected == Some(Fingerprint(second.actor, PreviewImport(db, second).value))
    requires i < |PreviewImport(db, first).value.candidates| && j < |PreviewImport(db, second).value.candidates|
    requires var p, q := PreviewImport(db, first).value, PreviewImport(db, second).value;
             CandidateKey(p, p.candidates[i]) == CandidateKey(q, q.candidates[j])
    ensures ApplyImport(Run(db, before + [Import(applied)] + after), applied').Fail?
  {
    var mid := Run(db, before);
    var end := ApplyImport(mid, applied).db;
    var ops := before + [Import(applied)] + after;
    var now := Run(db, ops);
    hide PreviewImport, ApplyImport, Healthy, Run, Step, Valid, FateAt, IdAt, NothingLost;
    if ApplyImport(now, applied').Done? {
      NoLostUpdate(db, first, before, applied);
      NoLostUpdate(db, second, ops, applied');
      RunHealthy(db, before);
      AppliedMovesOn(mid, applied, i);
      OneAfter(db, before, applied, after);
      StepHealthy(mid, Import(applied));
      ImportStep(mid, applied);
      var p, q := PreviewImport(db, first).value, PreviewImport(db, second).value;
      var key := CandidateKey(p, p.candidates[i]);
      EntryKept(db, now, q, j);
      EntryKept(db, mid, p, i);
      EntryStamp(end, after, key) by { HealthyIsValid(end); }
    }
  }

  lemma EntryKept(db: DB, now: DB, p: Preview, i: nat)
    requires NothingLost(db, now, p) && i < |p.candidates|
    ensures GetEntry(now, CandidateKey(p, p.candidates[i])) == GetEntry(db, CandidateKey(p, p.candidates[i]))
  {
  }

  lemma HealthyIsValid(db: DB)
    requires Healthy(db)
    ensures Valid(db)
  {
  }

  lemma ImportStep(db: DB, req: ImportRequest)
    ensures Step(db, Import(req)) == ApplyImport(db, req).After(db)
  {
    hide ApplyImport;
  }

  lemma RunSnoc(db: DB, ops: seq<Op>, op: Op)
    ensures Run(db, ops + [op]) == Step(Run(db, ops), op)
  {
    hide Step;
    assert (ops + [op])[..|ops|] == ops;
  }

  lemma OneAfter(db: DB, before: seq<Op>, req: ImportRequest, after: seq<Op>)
    requires ApplyImport(Run(db, before), req).Done?
    ensures Run(db, before + [Import(req)] + after) == Run(ApplyImport(Run(db, before), req).db, after)
    ensures Step(Run(db, before), Import(req)) == ApplyImport(Run(db, before), req).db
  {
    hide Run, Step, ApplyImport;
    RunAppend(db, before + [Import(req)], after);
    RunSnoc(db, before, Import(req));
    ImportStep(Run(db, before), req);
  }
}
