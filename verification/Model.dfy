/** The records, requests and results of the context store (`model.rs`). */
module Model {
  import opened Prelude
  import opened JsonTree
  import JsonText
  import Text

  type Id = nat

  // ---------- scopes ----------

  datatype ScopeKind = Global | Project | Task

  datatype ScopeRef = ScopeRef(kind: ScopeKind, id: string)

  const GLOBAL_SCOPE_ID := "global"
  const DEFAULT_PACK_NAME := "main"

  function NormalizeId(kind: ScopeKind, raw: string): Option<string> {
    if kind.Global? then Some(GLOBAL_SCOPE_ID)
    else if Text.Blank(raw) then None
    else Some(Text.Trim(raw))
  }

  function Normalize(scope: ScopeRef): Result<ScopeRef> {
    match NormalizeId(scope.kind, scope.id)
    case Some(id) => Ok(ScopeRef(scope.kind, id))
    case None => Err(Validation)
  }

  predicate Normalized(scope: ScopeRef) {
    Normalize(scope) == Ok(scope)
  }

  /** Normalising settles a scope once and for all. */
  lemma NormalizeSettles(scope: ScopeRef)
    ensures Normalize(scope).Ok? ==> Normalized(Normalize(scope).value)
    ensures Normalize(scope).Err? <==> !scope.kind.Global? && Text.Blank(scope.id)
  {
    Text.TrimIsTight(scope.id);
    Text.TrimIsTight(Text.Trim(scope.id));
  }

  // ---------- values, entries, packs ----------

  datatype EntryValue = Markdown(body: string) | JsonValue(json: Json)

  datatype EntryStatus = Active | Deleted
  datatype PackStatus = Open | Archived  // `Open` is the source's `Active`

  datatype Provenance = Provenance(
    actor: string, source: string, sourceRef: Option<string>, runId: Option<RunId>,
    requestId: Option<RequestId>, note: Option<string>)

  datatype RunId = Named(text: string) | Minted(n: Id)

  function SystemProvenance(actor: string, source: string): Provenance {
    Provenance(actor, source, None, None, None, None)
  }

  datatype EntryInput = EntryInput(
    key: string, title: Option<string>, kind: string, value: EntryValue, tags: seq<string>,
    metadata: Json, locked: bool, provenance: Option<Provenance>)

  datatype EntryRecord = EntryRecord(
    id: Id, scope: ScopeRef, packName: string, key: string, title: Option<string>, kind: string,
    value: EntryValue, tags: seq<string>, metadata: Json, provenance: Provenance, locked: bool,
    status: EntryStatus, revisionNo: nat)

  datatype PackRecord = PackRecord(
    id: Id, scope: ScopeRef, name: string, description: Option<string>, metadata: Json,
    status: PackStatus, locked: bool, lockReason: Option<string>, revisionNo: nat)

  function InputOf(r: EntryRecord): EntryInput {
    EntryInput(r.key, r.title, r.kind, r.value, r.tags, r.metadata, r.locked, Some(r.provenance))
  }

  predicate InputValid(e: EntryInput) {
    !Text.Blank(e.key) && !Text.Blank(e.kind)
  }

  /** All durable fields and the lock agree; provenance does not count. */
  predicate SameContent(a: EntryInput, b: EntryInput) {
    a.key == b.key && a.title == b.title && a.kind == b.kind && a.value == b.value &&
    a.tags == b.tags && a.metadata == b.metadata && a.locked == b.locked
  }

  // ---------- hashing: SHA-256 is taken as injective, so a hash is what was fed to the hasher ----------

  // The hasher is fed characters and finished digests. A digest has a fixed length, so it is one symbol here.
  datatype Symbol = Letter(c: char) | Digest(text: string)

  type Hash = seq<Symbol>

  function Letters(s: string): Hash {
    seq(|s|, i requires 0 <= i < |s| => Letter(s[i]))
  }

  function NormalizedText(v: EntryValue): string {
    match v
    case Markdown(body) => "markdown:" + Text.Trim(body)
    case JsonValue(json) => "json:" + JsonText.Print(json)
  }

  function NormalizedHash(v: EntryValue): Symbol {
    Digest(NormalizedText(v))
  }

  function TrimmedTags(tags: seq<string>): string {
    if tags == [] then "" else TrimmedTags(tags[..|tags| - 1]) + Text.Trim(tags[|tags| - 1])
  }

  function TrimmedTitle(e: EntryInput): string {
    if e.title.Some? then Text.Trim(e.title.value) else ""
  }

  // Fields follow each other without separators, and the lock is not among them.
  function ContentHash(e: EntryInput): Hash {
    Letters(Text.Trim(e.key) + Text.Trim(e.kind) + TrimmedTitle(e)) + [NormalizedHash(e.value)] +
    Letters(TrimmedTags(e.tags) + JsonText.Print(e.metadata))
  }

  // ---------- reviews, policy, runs ----------

  datatype ReviewMode = Strict | Balanced | Fast
  datatype ReviewState = Pending | Approved | Rejected
  datatype ReviewReason = GlobalScope | Conflicting | Locked | StrictPolicy

  datatype ReviewItem = ReviewItem(
    id: Id, requestId: RequestId, scope: ScopeRef, packName: string, entryKey: string,
    state: ReviewState, reason: ReviewReason, proposed: EntryInput, existing: Option<EntryRecord>,
    note: Option<string>, revisionNo: nat)

  datatype ReviewPolicy = ReviewPolicy(mode: ReviewMode, metadata: Json, updatedBy: string, revisionNo: nat)

  datatype RunInput = RunInput(
    id: Option<RunId>, projectScopeId: Option<string>, taskScopeId: Option<string>, source: string, metadata: Json)

  datatype RunRecord = RunRecord(
    id: RunId, projectScopeId: Option<string>, taskScopeId: Option<string>, source: string, metadata: Json)

  // ---------- commits ----------

  // Client-chosen request ids and the hashes minted by the source import never coincide; a hash is
  // the canonical value it was computed from.
  datatype RequestId = ByClient(text: string) | ByImport(fingerprint: Fingerprint, candidate: Candidate)

  datatype Proposal = Proposal(scope: ScopeRef, packName: string, entry: EntryInput)

  datatype CommitRequest = CommitRequest(requestId: RequestId, actor: string, run: Option<RunInput>, proposals: seq<Proposal>)

  datatype Disposition = Applied | Held | Duplicate | Refused  // `Held` is the source's `Pending`, `Refused` its `Rejected`

  datatype ItemReason = Because(error: Error) | Review(reason: ReviewReason)

  datatype CommitItem = CommitItem(
    scope: ScopeRef, packName: string, entryKey: string, disposition: Disposition,
    reason: Option<ItemReason>, entryId: Option<Id>, reviewId: Option<Id>)

  datatype CommitStatus = AllApplied | AllPending | Partial | AllRejected | Spooled

  datatype CommitResult = CommitResult(requestId: RequestId, status: CommitStatus, runId: Option<RunId>, items: seq<CommitItem>)

  // ---------- source import ----------

  datatype ParsedEntry = ParsedEntry(
    documentIndex: nat, sourcePath: Option<string>, sourceKind: string, entry: EntryInput, warnings: seq<string>)

  // The parser never fills in the request id of the provenance it builds.
  type ParsedCandidate = p: ParsedEntry | p.entry.provenance.Some? ==> p.entry.provenance.value.requestId.None?
    witness ParsedEntry(0, None, "", EntryInput("", None, "", Markdown(""), [], Null, false, None), [])

  datatype ImportDisposition = New | Identical | Differing  // `Identical` is the source's `Duplicate`, `Differing` its `Conflict`

  datatype Warning =
    | FromParser(text: string) | IdenticalExists | OtherContentExists | PackIsArchived | PackIsLocked
    | SharedKeys(keys: set<string>)

  datatype Candidate = Candidate(
    index: nat, documentIndex: nat, sourcePath: Option<string>, sourceKind: string, entry: EntryInput,
    disposition: ImportDisposition, existingId: Option<Id>, existingRevision: Option<nat>, warnings: seq<Warning>)

  datatype PackGovernance = PackGovernance(
    exists_: bool, status: Option<PackStatus>, locked: bool, lockReason: Option<string>, revisionNo: Option<nat>)

  datatype Preview = Preview(
    destination: ScopeRef, packName: string, mode: ReviewMode, pack: PackGovernance,
    candidates: seq<Candidate>, warnings: seq<Warning>, applyAllowed: bool)

  datatype Fingerprint = Fingerprint(actor: string, preview: Preview)

  datatype ImportItem = ImportItem(
    index: nat, entryKey: string, disposition: Disposition, reason: Option<ItemReason>,
    entryId: Option<Id>, reviewId: Option<Id>)

  // ---------- what the credential scanner is shown before anything is stored ----------

  // Hashes minted by the source import are hidden from the scanner: hexadecimal text is not credential-shaped.
  function Shown(id: Option<RequestId>): Option<string> {
    if id.Some? && id.value.ByClient? then Some(id.value.text) else None
  }

  datatype ShownProvenance = ShownProvenance(
    actor: string, source: string, sourceRef: Option<string>, runId: Option<RunId>,
    requestId: Option<string>, note: Option<string>)

  function ShowProvenance(p: Provenance): ShownProvenance {
    ShownProvenance(p.actor, p.source, p.sourceRef, p.runId, Shown(p.requestId), p.note)
  }

  datatype ShownInput = ShownInput(content: EntryInput, provenance: Option<ShownProvenance>)

  function ShowInput(e: EntryInput): ShownInput {
    ShownInput(e.(provenance := None),
               if e.provenance.Some? then Some(ShowProvenance(e.provenance.value)) else None)
  }

  datatype Write =
    | EntryWrite(scope: ScopeRef, packName: string, actor: string, entry: ShownInput,
                 provenance: ShownProvenance, requestId: Option<string>, runId: Option<RunId>)
    | PackWrite(scope: ScopeRef, name: string, actor: string, description: Option<string>, metadata: Json,
                lockReason: Option<string>)
    | RunWrite(input: RunInput)
    | ReviewWrite(review: ReviewItem)
    | ReviewTransition(review: ReviewItem, actor: string)
    | CommitMetadata(requestId: Option<string>, actor: string, run: Option<RunInput>, proposals: seq<ShownProposal>)
    | CommitBody(request: CommitRequest)
    | PolicyWrite(mode: ReviewMode, metadata: Json, actor: string)
    | RevisionMetadata(provenance: ShownProvenance, requestId: Option<string>, runId: Option<RunId>)

  datatype ShownProposal = ShownProposal(scope: ScopeRef, packName: string, key: string, kind: string, locked: bool)

  function ShowProposals(ps: seq<Proposal>): seq<ShownProposal> {
    seq(|ps|, i requires 0 <= i < |ps| =>
      ShownProposal(ps[i].scope, ps[i].packName, ps[i].entry.key, ps[i].entry.kind, ps[i].entry.locked))
  }

  /** The scanner: true when the text it is shown contains a credential. */
  type Scanner = Write -> bool

  /** Entries that agree exactly hash alike, whatever their provenance. */
  lemma SameContentSameHash(a: EntryInput, b: EntryInput)
    requires SameContent(a, b)
    ensures ContentHash(a) == ContentHash(b)
  {
  }
}
