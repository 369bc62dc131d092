/** Preview and apply of a source import, the store's optimistic-concurrency write (`store.rs`). */
module SourceImport {
  import opened Prelude
  import opened Model
  import opened Database
  import opened Operations
  import Text

  datatype ImportRequest = ImportRequest(
    destination: ScopeRef, packName: Option<string>, actor: string, parsed: seq<ParsedCandidate>,
    parserWarnings: seq<string>, expected: Option<Fingerprint>)

  // `prepare_source_import`, with the parser's candidates given.
  function Prepare(req: ImportRequest): Result<PackKey> {
    if Text.Blank(req.actor) then Err(Validation)
    else
      var scope :- Normalize(req.destination);
      var name := Or(req.packName, DEFAULT_PACK_NAME);
      if Text.Blank(name) || req.parsed == [] then Err(Validation) else Ok(PackKey(scope, name))
  }

  function GovernanceOf(db: DB, pack: PackKey): PackGovernance {
    if pack in db.packs then
      var p := db.packs[pack];
      PackGovernance(true, Some(p.status), p.locked, p.lockReason, Some(p.revisionNo))
    else PackGovernance(false, None, false, None, None)
  }

  function Classify(existing: Option<EntryRow>, entry: EntryInput): ImportDisposition {
    if !IsActive(existing) then New
    else if SameContent(InputOf(existing.value.record), entry) then Identical
    else Differing
  }

  function FromParserAll(texts: seq<string>): seq<Warning> {
    seq(|texts|, i requires 0 <= i < |texts| => FromParser(texts[i]))
  }

  function CandidateWarnings(parsed: seq<string>, disposition: ImportDisposition, gov: PackGovernance): seq<Warning> {
    FromParserAll(parsed) +
    (match disposition case Identical => [IdenticalExists] case Differing => [OtherContentExists] case New => []) +
    (if gov.status == Some(Archived) then [PackIsArchived]
     else if gov.locked && !disposition.Identical? then [PackIsLocked] else [])
  }

  function BuildCandidate(db: DB, actor: string, pack: PackKey, gov: PackGovernance, index: nat, p: ParsedCandidate): Result<Candidate> {
    var key := EntryKey(pack, p.entry.key);
    if !InputValid(p.entry) || p.entry.provenance.None? then Err(Validation)
    else if db.scan(ShownEntryWrite(key, actor, p.entry, p.entry.provenance.value, None, None)) then Err(SecretDetected)
    else
      var existing := GetEntry(db, key);
      var disposition := Classify(existing, p.entry);
      Ok(Candidate(index, p.documentIndex, p.sourcePath, p.sourceKind, p.entry, disposition, IdOf(existing),
                   if existing.Some? then Some(existing.value.record.revisionNo) else None,
                   CandidateWarnings(p.warnings, disposition, gov)))
  }

  function BuildCandidates(db: DB, actor: string, pack: PackKey, gov: PackGovernance, parsed: seq<ParsedCandidate>): (r: Result<seq<Candidate>>)
    ensures r.Ok? ==> |r.value| == |parsed|
    ensures r.Ok? ==> forall i | 0 <= i < |parsed| :: BuildCandidate(db, actor, pack, gov, i, parsed[i]) == Ok(r.value[i])
  {
    if parsed == [] then Ok([]) else
      var n := |parsed| - 1;
      var front :- BuildCandidates(db, actor, pack, gov, parsed[..n]);
      var last :- BuildCandidate(db, actor, pack, gov, n, parsed[n]);
      Ok(front + [last])
  }

  // Keys that a later candidate repeats.
  function RepeatedKeys(cs: seq<Candidate>): set<string> {
    set i, j | 0 <= i < j < |cs| && cs[i].entry.key == cs[j].entry.key :: cs[j].entry.key
  }

  predicate AllIdentical(cs: seq<Candidate>) {
    forall i | 0 <= i < |cs| :: cs[i].disposition.Identical?
  }

  // `build_source_import_preview`.
  function BuildPreview(db: DB, req: ImportRequest, pack: PackKey): Result<Preview> {
    var gov := GovernanceOf(db, pack);
    var cs :- BuildCandidates(db, req.actor, pack, gov, req.parsed);
    var repeated := RepeatedKeys(cs);
    var archived := gov.status == Some(Archived);
    Ok(Preview(pack.scope, pack.name, db.policy.mode, gov, cs,
               FromParserAll(req.parserWarnings) +
               (if repeated != {} then [SharedKeys(repeated)] else []) +
               (if archived then [PackIsArchived]
                else if gov.locked && !AllIdentical(cs) then [PackIsLocked] else []),
               repeated == {} && !archived))
  }

  function PreviewImport(db: DB, req: ImportRequest): Result<Preview> {
    var pack :- Prepare(req);
    BuildPreview(db, req, pack)
  }

  function CandidateRequestId(actor: string, preview: Preview, c: Candidate): RequestId {
    ByImport(Fingerprint(actor, preview), c)
  }

  // The one-proposal commit that applies a candidate.
  function CandidateCommit(actor: string, preview: Preview, c: Candidate): CommitRequest {
    var id := CandidateRequestId(actor, preview, c);
    var entry := if c.entry.provenance.Some?
                 then c.entry.(provenance := Some(c.entry.provenance.value.(requestId := Some(id)))) else c.entry;
    CommitRequest(id, actor, None, [Proposal(preview.destination, preview.packName, entry)])
  }

  function ApplyCandidate(db: DB, actor: string, preview: Preview, c: Candidate): Tx<ImportItem> {
    if c.disposition.Identical? then
      Done(db, ImportItem(c.index, c.entry.key, Duplicate, None, c.existingId, None))
    else
      var (db1, result) :- CommitWork(db, CandidateCommit(actor, preview, c), true);
      if result.items == [] then Fail(Validation)
      else
        var item := result.items[0];
        Done(db1, ImportItem(c.index, item.entryKey, item.disposition, item.reason, item.entryId, item.reviewId))
  }

  function ApplyCandidates(db: DB, actor: string, preview: Preview, n: nat): Tx<seq<ImportItem>>
    requires n <= |preview.candidates|
  {
    if n == 0 then Done(db, []) else
      var (db1, items) :- ApplyCandidates(db, actor, preview, n - 1);
      var (db2, item) :- ApplyCandidate(db1, actor, preview, preview.candidates[n - 1]);
      Done(db2, items + [item])
  }

  function Count(items: seq<ImportItem>, d: Disposition): nat {
    if items == [] then 0 else Count(items[..|items| - 1], d) + (if items[|items| - 1].disposition == d then 1 else 0)
  }

  datatype ImportResult = ImportResult(
    candidateCount: nat, importedCount: nat, appliedCount: nat, pendingCount: nat, skippedCount: nat,
    rejectedCount: nat, items: seq<ImportItem>, entryIds: set<Id>, reviewIds: set<Id>, entryKeys: set<string>)

  function Report(preview: Preview, items: seq<ImportItem>): ImportResult {
    var applied, pending, rejected := Count(items, Applied), Count(items, Held), Count(items, Refused);
    ImportResult(
      |preview.candidates|, applied + pending, applied, pending, Count(items, Duplicate) + rejected, rejected, items,
      set i | 0 <= i < |items| && items[i].disposition.Applied? && items[i].entryId.Some? :: items[i].entryId.value,
      set i | 0 <= i < |items| && items[i].reviewId.Some? :: items[i].reviewId.value,
      set i | 0 <= i < |items| && (items[i].disposition.Applied? || items[i].disposition.Held?) :: items[i].entryKey)
  }

  // `apply_source_import`: the preview is rebuilt inside the transaction and compared with the expected one.
  function ApplyImport(db: DB, req: ImportRequest): Tx<ImportResult> {
    match PreviewImport(db, req)
    case Err(e) => Fail(e)
    case Ok(preview) =>
      if req.expected.Some? && req.expected.value != Fingerprint(req.actor, preview) then Fail(Error.Conflict)
      else if !preview.applyAllowed then Fail(Validation)
      else
        var (db1, items) :- ApplyCandidates(db, req.actor, preview, |preview.candidates|);
        Done(db1, Report(preview, items))
  }
}
