/** The clients, the network, the spool directory and the daemon as one state machine. */
module Protocol {
  import opened Prelude
  import opened Model
  import opened Database
  import opened Operations
  import opened Invariant
  import opened Runs
  import opened Delivery

  type Path = string

  datatype Request = Request(id: string, actor: string, from: Option<RunInput>, proposals: seq<Proposal>)

  function OpOf(r: Request): Op { Commit(r.id, r.actor, r.from, r.proposals) }

  // A spool file holds a request, unless writing it was cut short; a link or a directory may stand in its place.
  datatype File = Envelope(req: Request) | Junk | NotRegular

  datatype Fault = Transport | Spawn | Timeout | Io | BadJson | Core | Remote

  datatype Origin = Fresh | FromSpool(path: Path)

  datatype Answer = Committed(result: CommitResult) | SpooledAt(path: Path) | Delivered | Retained | Failed(fault: Fault)

  // Where a call stands: waiting for a reply, starting the daemon, out of luck, answered by the daemon, or done.
  datatype Phase = Trying(attempt: nat) | Restarting | GivingUp(fault: Fault) | Succeeded(result: CommitResult) | Answered(answer: Answer)

  datatype Call = Call(req: Request, origin: Origin, phase: Phase)

  datatype Message = Message(call: nat, attempt: nat, req: Request)

  // The daemon's reply: the result of the commit, or the error it reports.
  datatype Reply = Reply(call: nat, attempt: nat, result: Option<CommitResult>)

  datatype World = World(db: DB, files: map<Path, File>, calls: map<nat, Call>,
                         net: set<Message>, replies: set<Reply>, autostart: bool)

  datatype Event =
    | Other(op: Op)                                 // somebody else uses the store
    | Begin(call: nat, req: Request)                // `commit_work`
    | BeginRetry(call: nat, path: Path)             // `retry_single_spool`
    | Send(call: nat)                               // the request line is on its way
    | Execute(message: Message)                     // the daemon takes it, now, late, or once more
    | Receive(reply: Reply)                         // the reply reaches a client that still waits for it
    | Break(call: nat, fault: Fault)                // the client sees its attempt fail, whatever the daemon did
    | Restarted(call: nat)                          // `ensure_daemon` succeeds
    | RestartFails(call: nat, fault: Fault)
    | Spool(call: nat, id: string, stamp: string, whole: bool)  // `spool_request` at a time, of the request of that id;
                                                    // `whole` is false when the write is cut short
    | Remove(call: nat, removed: bool)              // the retried file is deleted, or deleting it fails
    | Conclude(call: nat)                           // the call returns

  // `sanitize_filename`: other characters than letters, digits, hyphen and underscore become underscores.
  function Sanitize(id: string): string {
    seq(|id|, i requires 0 <= i < |id| => if PlainChar(id[i]) then id[i] else '_')
  }

  predicate PlainChar(c: char) {
    'a' <= c <= 'z' || 'A' <= c <= 'Z' || '0' <= c <= '9' || c == '-' || c == '_'
  }

  // A spool file is named after the time, to the millisecond, and the request id.
  function SpoolName(stamp: string, id: string): Path {
    stamp + "-" + Sanitize(id) + ".json"
  }

  predicate Spoolable(fault: Fault) {
    fault.Transport? || fault.Spawn? || fault.Timeout?
  }

  function Moved(w: World, call: nat, phase: Phase): World
    requires call in w.calls
  {
    w.(calls := w.calls[call := w.calls[call].(phase := phase)])
  }

  // What an attempt that fails leads to: after the first, the daemon is started if the transport failed.
  function AfterBreak(w: World, call: nat, fault: Fault): Phase
    requires call in w.calls && w.calls[call].phase.Trying?
  {
    if fault.Transport? && w.calls[call].phase.attempt == 1 && w.autostart then Restarting else GivingUp(fault)
  }

  function Spooling(w: World, call: nat, path: Path, whole: bool): World
    requires call in w.calls
  {
    var req := w.calls[call].req;
    if w.db.scan(CommitBody(CommitOf(OpOf(req)))) then Moved(w, call, Answered(Failed(Core)))
    else if path in w.files then Moved(w, call, Answered(Failed(Io)))  // `create_new`
    else if whole then Moved(w, call, Answered(SpooledAt(path))).(files := w.files[path := Envelope(req)])
    else Moved(w, call, Answered(Failed(Io))).(files := w.files[path := Junk])
  }

  function Removing(w: World, call: nat, removed: bool): World
    requires call in w.calls && w.calls[call].origin.FromSpool?
  {
    var path := w.calls[call].origin.path;
    if removed && path in w.files then Moved(w, call, Answered(Delivered)).(files := w.files - {path})
    else Moved(w, call, Answered(Failed(Io)))
  }

  function Concluded(c: Call): Phase {
    match c.phase
    case Succeeded(result) => if c.origin.Fresh? then Answered(Committed(result)) else c.phase
    case GivingUp(fault) =>
      if c.origin.FromSpool? then Answered(if fault.Transport? then Retained else Failed(fault))
      else if Spoolable(fault) then c.phase else Answered(Failed(fault))
    case _ => c.phase
  }

  function Executed(w: World, m: Message): World {
    var t := CommitWork(w.db, CommitOf(OpOf(m.req)), false);
    w.(db := Step(w.db, OpOf(m.req)),
       replies := w.replies + {Reply(m.call, m.attempt, if t.Done? then Some(t.value) else None)})
  }

  function Received(w: World, r: Reply): Phase {
    if r.result.Some? then Succeeded(r.result.value) else Answered(Failed(Remote))
  }

  /** One step; an event that cannot happen changes nothing. */
  function Next(w: World, e: Event): World {
    match e
    case Other(op) => w.(db := Step(w.db, op))
    case Begin(call, req) =>
      if call in w.calls then w else w.(calls := w.calls[call := Call(req, Fresh, Trying(1))])
    case BeginRetry(call, path) =>
      if call in w.calls || path !in w.files || !w.files[path].Envelope? then w
      else w.(calls := w.calls[call := Call(w.files[path].req, FromSpool(path), Trying(1))])
    case Send(call) =>
      if call in w.calls && w.calls[call].phase.Trying? then
        w.(net := w.net + {Message(call, w.calls[call].phase.attempt, w.calls[call].req)})
      else w
    case Execute(m) => if m in w.net then Executed(w, m) else w
    case Receive(r) =>
      if r in w.replies && r.call in w.calls && w.calls[r.call].phase == Trying(r.attempt) then Moved(w, r.call, Received(w, r)) else w
    case Break(call, fault) =>
      if call in w.calls && w.calls[call].phase.Trying? then Moved(w, call, AfterBreak(w, call, fault)) else w
    case Restarted(call) =>
      if call in w.calls && w.calls[call].phase.Restarting? then Moved(w, call, Trying(2)) else w
    case RestartFails(call, fault) =>
      if call in w.calls && w.calls[call].phase.Restarting? then Moved(w, call, GivingUp(fault)) else w
    case Spool(call, id, stamp, whole) =>
      if call in w.calls && w.calls[call].origin.Fresh? && w.calls[call].phase.GivingUp? && Spoolable(w.calls[call].phase.fault) &&
         w.calls[call].req.id == id
      then Spooling(w, call, SpoolName(stamp, id), whole) else w
    case Remove(call, removed) =>
      if call in w.calls && w.calls[call].origin.FromSpool? && w.calls[call].phase.Succeeded? then Removing(w, call, removed) else w
    case Conclude(call) =>
      if call in w.calls then Moved(w, call, Concluded(w.calls[call])) else w
  }

  function Play(w: World, events: seq<Event>): World {
    if events == [] then w else Next(Play(w, events[..|events| - 1]), events[|events| - 1])
  }

  // ---------- the operations the daemon carries out ----------

  function OpsOfEvent(w: World, e: Event): seq<Op> {
    match e
    case Other(op) => [op]
    case Execute(m) => if m in w.net then [OpOf(m.req)] else []
    case _ => []
  }

  /** Everything the daemon executes in the course of the events, in order. */
  function Ops(w: World, events: seq<Event>): seq<Op> {
    if events == [] then [] else
      var n := |events| - 1;
      Ops(w, events[..n]) + OpsOfEvent(Play(w, events[..n]), events[n])
  }

  lemma NextRuns(w: World, e: Event)
    ensures Next(w, e).db == Run(w.db, OpsOfEvent(w, e))
  {
    hide Step;
    var ops := OpsOfEvent(w, e);
    if |ops| == 1 {
      assert ops[..0] == [];
      assert Run(w.db, ops) == Step(Run(w.db, []), ops[0]);
    }
  }

  lemma {:induction false} PlayRuns(w: World, events: seq<Event>)
    ensures Play(w, events).db == Run(w.db, Ops(w, events))
  {
    if events != [] {
      var n := |events| - 1;
      PlayRuns(w, events[..n]);
      NextRuns(Play(w, events[..n]), events[n]);
      RunAppend(w.db, Ops(w, events[..n]), OpsOfEvent(Play(w, events[..n]), events[n]));
    }
  }

  /**
   Exactly once: whatever the interleaving of sends, lost replies, resends, late and repeated executions, spooling,
   retries and other operations, the store is the one reached by running each request id once, at its first
   successful execution.
   */
  lemma DeliveredExactlyOnce(w: World, events: seq<Event>)
    requires Valid(w.db)
    ensures var ops := Ops(w, events);
            Play(w, events).db == Run(w.db, FirstOnly(w.db, ops)) && DistinctCommits(FirstOnly(w.db, ops)) &&
            forall id: string :: CommitsWith(FirstOnly(w.db, ops), id) <==>
                                 ByClient(id) in Play(w, events).db.commits && ByClient(id) !in w.db.commits
  {
    hide Run, FirstOnly, DistinctCommits, CommitsWith, Valid;
    PlayRuns(w, events);
    ExactlyOnceEffect(w.db, Ops(w, events));
  }

  // ---------- the protocol invariant ----------

  predicate InLog(db: DB, req: Request) {
    ByClient(req.id) in db.commits
  }

  predicate LoggedAs(db: DB, req: Request, result: CommitResult) {
    InLog(db, req) && db.commits[ByClient(req.id)] == result
  }

  // The request id that a file name belongs to.
  type Owners = map<Path, string>

  predicate Owns(owners: Owners, path: Path, id: string) {
    path in owners && owners[path] == id
  }

  // What a call has been told is in the log, and a request it was told is spooled is on disk or in the log.
  predicate CallOk(db: DB, files: map<Path, File>, owners: Owners, c: Call) {
    (c.phase.Succeeded? ==> LoggedAs(db, c.req, c.phase.result)) &&
    (c.origin.FromSpool? ==> Owns(owners, c.origin.path, c.req.id)) &&
    (c.phase.Answered? ==> AnswerOk(db, files, c.req, c.phase.answer))
  }

  predicate AnswerOk(db: DB, files: map<Path, File>, req: Request, a: Answer) {
    match a
    case Committed(result) => LoggedAs(db, req, result)
    case SpooledAt(path) => (path in files && files[path] == Envelope(req)) || InLog(db, req)
    case Delivered => InLog(db, req)
    case _ => true
  }

  // Every spooled request lies under a name that belongs to its id.
  predicate FilesOwned(files: map<Path, File>, owners: Owners) {
    forall p | p in files && files[p].Envelope? :: Owns(owners, p, files[p].req.id)
  }

  ghost predicate NetOk(w: World) {
    (forall m | m in w.net :: m.call in w.calls && w.calls[m.call].req == m.req) &&
    (forall r | r in w.replies :: r.call in w.calls && (r.result.Some? ==> LoggedAs(w.db, w.calls[r.call].req, r.result.value)))
  }

  ghost predicate CallsOk(w: World, owners: Owners) {
    FilesOwned(w.files, owners) && forall call | call in w.calls :: CallOk(w.db, w.files, owners, w.calls[call])
  }

  ghost predicate WorldOk(w: World, owners: Owners) {
    Valid(w.db) && NetOk(w) && CallsOk(w, owners)
  }

  /** A world in which no client has called yet. */
  function Start(db: DB, files: map<Path, File>, autostart: bool): World {
    World(db, files, map[], {}, {}, autostart)
  }

  lemma StartOk(db: DB, files: map<Path, File>, autostart: bool, owners: Owners)
    requires Valid(db) && FilesOwned(files, owners)
    ensures WorldOk(Start(db, files, autostart), owners)
  {
  }

  // The log has only gained.
  ghost predicate LogGrew(a: DB, b: DB) {
    forall id | id in a.commits :: id in b.commits && b.commits[id] == a.commits[id]
  }

  lemma DbMoves(w: World, db: DB, owners: Owners)
    requires WorldOk(w, owners) && Valid(db) && LogGrew(w.db, db)
    ensures WorldOk(w.(db := db), owners)
  {
    hide Valid;
    var end := w.(db := db);
    forall call | call in end.calls ensures CallOk(end.db, end.files, owners, end.calls[call]) {
      assert CallOk(w.db, w.files, owners, w.calls[call]);
    }
  }

  lemma OtherOk(w: World, op: Op, owners: Owners)
    requires WorldOk(w, owners)
    ensures WorldOk(w.(db := Step(w.db, op)), owners)
  {
    StepMoves(w.db, op);
    DbMoves(w, Step(w.db, op), owners);
  }

  lemma StepMoves(db: DB, op: Op)
    requires Valid(db)
    ensures Valid(Step(db, op)) && LogGrew(db, Step(db, op))
  {
    StepSound(db, op);
  }

  lemma ExecutedOk(w: World, m: Message, owners: Owners)
    requires WorldOk(w, owners) && m in w.net
    ensures WorldOk(Executed(w, m), owners)
  {
    hide Valid, Step, CommitWork, CallOk, FilesOwned;
    OtherOk(w, OpOf(m.req), owners);
    CommittedIsLogged(w.db, m.req);
    assert CallsOk(Executed(w, m), owners);
  }

  lemma CommittedIsLogged(db: DB, req: Request)
    requires Valid(db)
    ensures var t := CommitWork(db, CommitOf(OpOf(req)), false); t.Done? ==> LoggedAs(Step(db, OpOf(req)), req, t.value)
  {
    hide Valid, Step, CommitWork;
    if CommitWork(db, CommitOf(OpOf(req)), false).Done? { StepHealthyLog(db, OpOf(req)); }
  }

  // A call moves to a phase that is in order, and nothing else changes.
  lemma MovedOk(w: World, call: nat, phase: Phase, owners: Owners)
    requires WorldOk(w, owners) && call in w.calls
    requires CallOk(w.db, w.files, owners, w.calls[call].(phase := phase))
    ensures WorldOk(Moved(w, call, phase), owners)
  {
    hide Valid, CallOk;
  }

  lemma ReceivedOk(w: World, r: Reply, owners: Owners)
    requires WorldOk(w, owners) && r in w.replies && r.call in w.calls
    ensures WorldOk(Moved(w, r.call, Received(w, r)), owners)
  {
    assert CallOk(w.db, w.files, owners, w.calls[r.call]);
    MovedOk(w, r.call, Received(w, r), owners);
  }

  // A new file under a free name of its own disturbs no call.
  lemma FileAdded(w: World, path: Path, file: File, owners: Owners)
    requires WorldOk(w, owners) && path !in w.files && (file.Envelope? ==> Owns(owners, path, file.req.id))
    ensures WorldOk(w.(files := w.files[path := file]), owners)
  {
    hide Valid;
    var end := w.(files := w.files[path := file]);
    forall call | call in end.calls ensures CallOk(end.db, end.files, owners, end.calls[call]) {
      assert CallOk(w.db, w.files, owners, w.calls[call]);
    }
  }

  lemma SpoolingOk(w: World, call: nat, path: Path, whole: bool, owners: Owners)
    requires WorldOk(w, owners) && call in w.calls && w.calls[call].origin.Fresh? && w.calls[call].phase.GivingUp?
    requires Owns(owners, path, w.calls[call].req.id)
    ensures WorldOk(Spooling(w, call, path, whole), owners)
  {
    hide Valid, NetOk;
    var req := w.calls[call].req;
    if w.db.scan(CommitBody(CommitOf(OpOf(req)))) {
      MovedOk(w, call, Answered(Failed(Core)), owners);
    } else if path in w.files {
      MovedOk(w, call, Answered(Failed(Io)), owners);
    } else {
      var file := if whole then Envelope(req) else Junk;
      FileAdded(w, path, file, owners);
      MovedOk(w.(files := w.files[path := file]), call, Answered(if whole then SpooledAt(path) else Failed(Io)), owners);
    }
  }

  // A file that lies under a name whose id is in the log may go.
  lemma FileRemoved(w: World, path: Path, req: Request, owners: Owners)
    requires WorldOk(w, owners) && path in w.files && Owns(owners, path, req.id) && InLog(w.db, req)
    ensures WorldOk(w.(files := w.files - {path}), owners)
  {
    hide Valid;
    var end := w.(files := w.files - {path});
    forall call | call in end.calls ensures CallOk(end.db, end.files, owners, end.calls[call]) {
      assert CallOk(w.db, w.files, owners, w.calls[call]);
    }
  }

  lemma RemovingOk(w: World, call: nat, removed: bool, owners: Owners)
    requires WorldOk(w, owners) && call in w.calls && w.calls[call].origin.FromSpool? && w.calls[call].phase.Succeeded?
    ensures WorldOk(Removing(w, call, removed), owners)
  {
    hide Valid, NetOk;
    var path := w.calls[call].origin.path;
    assert CallOk(w.db, w.files, owners, w.calls[call]);
    if removed && path in w.files {
      FileRemoved(w, path, w.calls[call].req, owners);
      MovedOk(w.(files := w.files - {path}), call, Answered(Delivered), owners);
    } else {
      MovedOk(w, call, Answered(Failed(Io)), owners);
    }
  }

  lemma BegunOk(w: World, call: nat, c: Call, owners: Owners)
    requires WorldOk(w, owners) && call !in w.calls && CallOk(w.db, w.files, owners, c)
    ensures WorldOk(w.(calls := w.calls[call := c]), owners)
  {
    hide Valid, CallOk;
  }

  lemma SentOk(w: World, m: Message, owners: Owners)
    requires WorldOk(w, owners) && m.call in w.calls && w.calls[m.call].req == m.req
    ensures WorldOk(w.(net := w.net + {m}), owners)
  {
    hide Valid, CallOk;
  }

  lemma PhaseOnlyOk(w: World, call: nat, phase: Phase, owners: Owners)
    requires WorldOk(w, owners) && call in w.calls && (phase.Trying? || phase.Restarting? || phase.GivingUp?)
    ensures WorldOk(Moved(w, call, phase), owners)
  {
    assert CallOk(w.db, w.files, owners, w.calls[call]);
    MovedOk(w, call, phase, owners);
  }

  lemma ConcludedOk(w: World, call: nat, owners: Owners)
    requires WorldOk(w, owners) && call in w.calls
    ensures WorldOk(Moved(w, call, Concluded(w.calls[call])), owners)
  {
    assert CallOk(w.db, w.files, owners, w.calls[call]);
    MovedOk(w, call, Concluded(w.calls[call]), owners);
  }

  // A spool event uses a name that belongs to the id of its request.
  predicate EventOwned(e: Event, owners: Owners) {
    e.Spool? ==> Owns(owners, SpoolName(e.stamp, e.id), e.id)
  }

  /** Every step keeps the protocol invariant, as long as a name is used for one request id only. */
  lemma NextOk(w: World, e: Event, owners: Owners)
    requires WorldOk(w, owners) && EventOwned(e, owners)
    ensures WorldOk(Next(w, e), owners)
  {
    hide WorldOk, Executed, Spooling, Removing, Concluded, Received, AfterBreak, CommitWork, Step, SpoolName;
    match e
    case Other(op) => OtherOk(w, op, owners);
    case Begin(call, req) => if call !in w.calls { BegunOk(w, call, Call(req, Fresh, Trying(1)), owners); }
    case BeginRetry(call, path) =>
      if call !in w.calls && path in w.files && w.files[path].Envelope? {
        FilesAreOwned(w, owners);
        BegunOk(w, call, Call(w.files[path].req, FromSpool(path), Trying(1)), owners);
      }
    case Send(call) =>
      if call in w.calls && w.calls[call].phase.Trying? { SentOk(w, Message(call, w.calls[call].phase.attempt, w.calls[call].req), owners); }
    case Execute(m) => if m in w.net { ExecutedOk(w, m, owners); }
    case Receive(r) =>
      if r in w.replies && r.call in w.calls && w.calls[r.call].phase == Trying(r.attempt) { ReceivedOk(w, r, owners); }
    case Break(call, fault) =>
      if call in w.calls && w.calls[call].phase.Trying? {
        BreakPhase(w, call, fault);
        PhaseOnlyOk(w, call, AfterBreak(w, call, fault), owners);
      }
    case Restarted(call) => if call in w.calls { PhaseOnlyOk(w, call, Trying(2), owners); }
    case RestartFails(call, fault) => if call in w.calls { PhaseOnlyOk(w, call, GivingUp(fault), owners); }
    case Spool(call, id, stamp, whole) =>
      if call in w.calls && w.calls[call].origin.Fresh? && w.calls[call].phase.GivingUp? && w.calls[call].req.id == id {
        SpoolingOk(w, call, SpoolName(stamp, id), whole, owners);
      }
    case Remove(call, removed) =>
      if call in w.calls && w.calls[call].origin.FromSpool? && w.calls[call].phase.Succeeded? { RemovingOk(w, call, removed, owners); }
    case Conclude(call) => if call in w.calls { ConcludedOk(w, call, owners); }
  }

  lemma FilesAreOwned(w: World, owners: Owners)
    requires WorldOk(w, owners)
    ensures FilesOwned(w.files, owners)
  {
  }

  lemma BreakPhase(w: World, call: nat, fault: Fault)
    requires call in w.calls && w.calls[call].phase.Trying?
    ensures AfterBreak(w, call, fault).Restarting? || AfterBreak(w, call, fault).GivingUp?
  {
  }

  predicate AllOwned(events: seq<Event>, owners: Owners) {
    forall i | 0 <= i < |events| :: EventOwned(events[i], owners)
  }

  lemma {:induction false} PlayOk(w: World, events: seq<Event>, owners: Owners)
    requires WorldOk(w, owners) && AllOwned(events, owners)
    ensures WorldOk(Play(w, events), owners)
  {
    hide WorldOk, Next, EventOwned;
    if events != [] {
      PlayOk(w, events[..|events| - 1], owners);
      NextOk(Play(w, events[..|events| - 1]), events[|events| - 1], owners);
    }
  }

  // ---------- one request id to a name ----------

  /**
   What the clients have to see to: a file name is not used for requests of different ids, be it the name of a
   file that was there before. Using it again for the same id does no harm.
   */
  predicate OneIdPerName(files: map<Path, File>, events: seq<Event>) {
    (forall i, j | 0 <= i < |events| && 0 <= j < |events| && events[i].Spool? && events[j].Spool? &&
                   SpoolName(events[i].stamp, events[i].id) == SpoolName(events[j].stamp, events[j].id) ::
       events[i].id == events[j].id) &&
    forall i | 0 <= i < |events| && events[i].Spool? :: FreeFor(files, SpoolName(events[i].stamp, events[i].id), events[i].id)
  }

  predicate FreeFor(files: map<Path, File>, path: Path, id: string) {
    path in files && files[path].Envelope? ==> files[path].req.id == id
  }

  function OwnersOf(files: map<Path, File>, events: seq<Event>): Owners {
    if events == [] then map p | p in files && files[p].Envelope? :: files[p].req.id
    else
      var e := events[|events| - 1];
      var before := OwnersOf(files, events[..|events| - 1]);
      if e.Spool? then before[SpoolName(e.stamp, e.id) := e.id] else before
  }

  // Each name in it was given by an event, or stood for a file.
  lemma {:induction false} OwnersAre(files: map<Path, File>, events: seq<Event>, p: Path)
    requires p in OwnersOf(files, events)
    ensures (exists i | 0 <= i < |events| :: events[i].Spool? && SpoolName(events[i].stamp, events[i].id) == p && events[i].id == OwnersOf(files, events)[p])
            || (p in files && files[p].Envelope? && files[p].req.id == OwnersOf(files, events)[p])
  {
    hide SpoolName;
    if events != [] {
      var e, front := events[|events| - 1], events[..|events| - 1];
      if !(e.Spool? && SpoolName(e.stamp, e.id) == p) {
        OwnersAre(files, front, p);
        if i :| 0 <= i < |front| && front[i].Spool? && SpoolName(front[i].stamp, front[i].id) == p && front[i].id == OwnersOf(files, front)[p] {
          assert events[i] == front[i];
        }
      }
    }
  }

  lemma {:induction false} OwnersHas(files: map<Path, File>, events: seq<Event>)
    ensures forall i | 0 <= i < |events| && events[i].Spool? :: SpoolName(events[i].stamp, events[i].id) in OwnersOf(files, events)
    ensures forall p | p in files && files[p].Envelope? :: p in OwnersOf(files, events)
  {
    hide SpoolName;
    if events != [] { OwnersHas(files, events[..|events| - 1]); }
  }

  lemma NamesOwned(files: map<Path, File>, events: seq<Event>)
    requires OneIdPerName(files, events)
    ensures FilesOwned(files, OwnersOf(files, events)) && AllOwned(events, OwnersOf(files, events))
  {
    hide SpoolName, OwnersOf;
    var owners := OwnersOf(files, events);
    OwnersHas(files, events);
    forall i | 0 <= i < |events| && events[i].Spool? ensures EventOwned(events[i], owners) {
      OwnersAre(files, events, SpoolName(events[i].stamp, events[i].id));
    }
    forall p | p in files && files[p].Envelope? ensures Owns(owners, p, files[p].req.id) {
      OwnersAre(files, events, p);
      assert Owns(owners, p, owners[p]);
    }
  }

  // ---------- what the clients can rely on ----------

  /**
   At every moment: a call that was told "committed" has its result in the log; a call that was told "spooled"
   has its request on disk or in the log; and a retried file reported delivered has its request in the log.
   */
  lemma AnswersHold(db: DB, files: map<Path, File>, autostart: bool, events: seq<Event>, call: nat)
    requires Valid(db) && OneIdPerName(files, events)
    requires var end := Play(Start(db, files, autostart), events); call in end.calls && end.calls[call].phase.Answered?
    ensures var end := Play(Start(db, files, autostart), events); var c := end.calls[call];
            match c.phase.answer
            case Committed(result) => ByClient(c.req.id) in end.db.commits && end.db.commits[ByClient(c.req.id)] == result
            case SpooledAt(path) => (path in end.files && end.files[path] == Envelope(c.req)) || ByClient(c.req.id) in end.db.commits
            case Delivered => ByClient(c.req.id) in end.db.commits
            case _ => true
  {
    hide Valid, OneIdPerName;
    var owners := OwnersOf(files, events);
    NamesOwned(files, events);
    StartOk(db, files, autostart, owners);
    PlayOk(Start(db, files, autostart), events, owners);
    var end := Play(Start(db, files, autostart), events);
    assert CallOk(end.db, end.files, owners, end.calls[call]);
  }

  // A spooled request lies where it lay, or is in the log.
  ghost predicate RequestKept(a: World, b: World, p: Path)
    requires p in a.files && a.files[p].Envelope?
  {
    (p in b.files && b.files[p] == a.files[p]) || InLog(b.db, a.files[p].req)
  }

  ghost predicate RequestsKept(a: World, b: World) {
    LogGrew(a.db, b.db) && forall p | p in a.files && a.files[p].Envelope? :: RequestKept(a, b, p)
  }

  lemma RequestsKeptTransitive(a: World, b: World, c: World)
    requires RequestsKept(a, b) && RequestsKept(b, c)
    ensures RequestsKept(a, c)
  {
    forall p | p in a.files && a.files[p].Envelope? ensures RequestKept(a, c, p) {
      assert RequestKept(a, b, p);
      if p in b.files && b.files[p] == a.files[p] { assert RequestKept(b, c, p); }
    }
  }

  lemma RemovingKeeps(w: World, call: nat, removed: bool, owners: Owners)
    requires WorldOk(w, owners) && call in w.calls && w.calls[call].origin.FromSpool? && w.calls[call].phase.Succeeded?
    ensures RequestsKept(w, Removing(w, call, removed))
  {
    hide Valid, NetOk;
    assert CallOk(w.db, w.files, owners, w.calls[call]);
  }

  lemma DbKeeps(w: World, b: World)
    requires b.files == w.files && LogGrew(w.db, b.db)
    ensures RequestsKept(w, b)
  {
  }

  lemma SpoolingKeeps(w: World, call: nat, path: Path, whole: bool)
    requires call in w.calls
    ensures RequestsKept(w, Spooling(w, call, path, whole))
  {
  }

  // Most events change neither the store nor the files.
  lemma NextMoves(w: World, e: Event)
    ensures match e
            case Other(op) => Next(w, e).db == Step(w.db, op) && Next(w, e).files == w.files
            case Execute(m) => (Next(w, e).db == w.db || Next(w, e).db == Step(w.db, OpOf(m.req))) && Next(w, e).files == w.files
            case Remove(_, _) => true
            case Spool(_, _, _, _) => true
            case _ => Next(w, e).db == w.db && Next(w, e).files == w.files
  {
    hide CommitWork, Step, Concluded, Received, AfterBreak, Removing, Spooling, SpoolName, OpOf;
  }

  lemma NextKeeps(w: World, e: Event, owners: Owners)
    requires WorldOk(w, owners)
    ensures RequestsKept(w, Next(w, e))
  {
    hide *;
    WorldIsValid(w, owners);
    NextMoves(w, e);
    DbGrewNot(w.db);
    match e
    case Remove(call, removed) => RemoveKeeps(w, call, removed, owners);
    case Spool(call, id, stamp, whole) => SpoolKeeps(w, call, id, stamp, whole);
    case Other(op) =>
      StepMoves(w.db, op);
      DbKeeps(w, Next(w, e));
    case Execute(m) =>
      StepMoves(w.db, OpOf(m.req));
      DbKeeps(w, Next(w, e));
    case _ => DbKeeps(w, Next(w, e));
  }

  lemma RemoveKeeps(w: World, call: nat, removed: bool, owners: Owners)
    requires WorldOk(w, owners)
    ensures RequestsKept(w, Next(w, Remove(call, removed)))
  {
    hide WorldOk, Removing, RequestsKept;
    NothingMoved(w);
    if call in w.calls && w.calls[call].origin.FromSpool? && w.calls[call].phase.Succeeded? { RemovingKeeps(w, call, removed, owners); }
  }

  lemma SpoolKeeps(w: World, call: nat, id: string, stamp: string, whole: bool)
    ensures RequestsKept(w, Next(w, Spool(call, id, stamp, whole)))
  {
    hide Spooling, RequestsKept, SpoolName;
    NothingMoved(w);
    if call in w.calls { SpoolingKeeps(w, call, SpoolName(stamp, id), whole); }
  }

  lemma WorldIsValid(w: World, owners: Owners)
    requires WorldOk(w, owners)
    ensures Valid(w.db)
  {
  }

  lemma DbGrewNot(db: DB)
    ensures LogGrew(db, db)
  {
  }

  lemma {:induction false} PlayKeeps(w: World, events: seq<Event>, owners: Owners)
    requires WorldOk(w, owners) && AllOwned(events, owners)
    ensures RequestsKept(w, Play(w, events))
  {
    hide WorldOk, EventOwned, RequestsKept;
    if events == [] {
      NothingMoved(w);
    } else {
      var n := |events| - 1;
      PlayKeeps(w, events[..n], owners);
      PlayOk(w, events[..n], owners);
      NextKeeps(Play(w, events[..n]), events[n], owners);
      RequestsKeptTransitive(w, Play(w, events[..n]), Play(w, events));
    }
  }

  lemma NothingMoved(w: World)
    ensures RequestsKept(w, w)
  {
  }

  lemma {:induction false} PlayOn(w: World, before: seq<Event>, after: seq<Event>)
    ensures Play(w, before + after) == Play(Play(w, before), after)
  {
    hide Next;
    if after == [] {
      assert before + after == before;
    } else {
      var n := |after| - 1;
      assert (before + after)[..|before| + n] == before + after[..n];
      PlayOn(w, before, after[..n]);
    }
  }

  // What was no spooled request from the start is never taken for one.
  ghost predicate Untouched(w: World, p: Path, file: File) {
    p in w.files && w.files[p] == file && forall call | call in w.calls :: w.calls[call].origin != FromSpool(p)
  }

  lemma StaysUntouched(w: World, e: Event, p: Path, file: File)
    requires Untouched(w, p, file) && !file.Envelope?
    ensures Untouched(Next(w, e), p, file)
  {
    hide Step, CommitWork, SpoolName, Received, Concluded, AfterBreak;
  }

  lemma {:induction false} OthersUntouched(w: World, events: seq<Event>, p: Path, file: File)
    requires Untouched(w, p, file) && !file.Envelope?
    ensures Untouched(Play(w, events), p, file)
  {
    hide Next, Untouched;
    if events != [] {
      OthersUntouched(w, events[..|events| - 1], p, file);
      StaysUntouched(Play(w, events[..|events| - 1]), events[|events| - 1], p, file);
    }
  }

  /**
   No spooled request is lost: from any moment of a run to any later one, a spooled request stays where it lies
   until its id is in the commit log; and files that never were spooled requests are left alone.
   */
  lemma SpoolFilesKept(db: DB, files: map<Path, File>, autostart: bool, before: seq<Event>, after: seq<Event>)
    requires Valid(db) && OneIdPerName(files, before + after)
    ensures var mid, end := Play(Start(db, files, autostart), before), Play(Start(db, files, autostart), before + after);
            (forall p | p in mid.files && mid.files[p].Envelope? ::
              (p in end.files && end.files[p] == mid.files[p]) || ByClient(mid.files[p].req.id) in end.db.commits) &&
            forall p | p in files && !files[p].Envelope? :: p in end.files && end.files[p] == files[p]
  {
    hide Valid, OneIdPerName, OwnersOf, WorldOk, EventOwned, Play;
    var w, owners := Start(db, files, autostart), OwnersOf(files, before + after);
    NamesOwned(files, before + after);
    StartOk(db, files, autostart, owners);
    assert forall i | 0 <= i < |before| :: (before + after)[i] == before[i];
    assert forall i | 0 <= i < |after| :: (before + after)[|before| + i] == after[i];
    PlayOk(w, before, owners);
    PlayKeeps(Play(w, before), after, owners);
    PlayOn(w, before, after);
    var mid, end := Play(w, before), Play(w, before + after);
    forall p | p in mid.files && mid.files[p].Envelope?
      ensures (p in end.files && end.files[p] == mid.files[p]) || ByClient(mid.files[p].req.id) in end.db.commits
    {
      assert RequestKept(mid, end, p);
    }
    forall p | p in files && !files[p].Envelope? ensures p in end.files && end.files[p] == files[p] {
      OthersUntouched(w, before + after, p, files[p]);
    }
  }

  // ---------- when names tell the requests apart, and what happens when they do not ----------

  predicate PlainId(id: string) {
    forall i | 0 <= i < |id| :: PlainChar(id[i])
  }

  /** Two names of one moment are equal exactly if the ids are, once sanitised; plain ids are told apart. */
  lemma NamesTell(stamp: string, id: string, stamp': string, id': string)
    requires |stamp| == |stamp'|
    ensures SpoolName(stamp, id) == SpoolName(stamp', id') <==> stamp == stamp' && Sanitize(id) == Sanitize(id')
    ensures PlainId(id) && PlainId(id') && SpoolName(stamp, id) == SpoolName(stamp', id') ==> id == id'
  {
    var a, b := SpoolName(stamp, id), SpoolName(stamp', id');
    hide PlainChar;
    if a == b {
      assert a[..|stamp|] == stamp && b[..|stamp'|] == stamp';
      assert |Sanitize(id)| == |a| - |stamp| - 6 && |Sanitize(id')| == |b| - |stamp'| - 6;
      assert a[|stamp| + 1..|a| - 5] == Sanitize(id) && b[|stamp'| + 1..|b| - 5] == Sanitize(id');
      if PlainId(id) && PlainId(id') {
        assert |id| == |id'|;
        forall i | 0 <= i < |id| ensures id[i] == id'[i] { assert Sanitize(id)[i] == id[i] && Sanitize(id')[i] == id'[i]; }
      }
    }
  }

  /** A sanitised id is plain and as long as the id, keeps what was plain in it, and is the id itself exactly if that is plain. */
  lemma SanitisedIsPlain(id: string)
    ensures PlainId(Sanitize(id)) && |Sanitize(id)| == |id| && (Sanitize(id) == id <==> PlainId(id))
    ensures forall i | 0 <= i < |id| :: Sanitize(id)[i] == id[i] || (Sanitize(id)[i] == '_' && !PlainChar(id[i]))
    ensures Sanitize("azAZ09-_ .:/") == "azAZ09-_____" && SpoolName("20260102T030405678Z", "a/b") == "20260102T030405678Z-a_b.json"
  {
    assert PlainChar('_');
    if PlainId(id) { assert Sanitize(id) == id; }
    if Sanitize(id) == id { assert forall i | 0 <= i < |id| :: PlainChar(Sanitize(id)[i]); }
    assert Sanitize("azAZ09-_ .:/") == "azAZ09-_____";
    assert Sanitize("a/b") == "a_b";
  }

  predicate SanitisedApart(ids: set<string>) {
    forall a, b | a in ids && b in ids && Sanitize(a) == Sanitize(b) :: a == b
  }

  lemma PlainIdsAreApart(ids: set<string>)
    requires forall id | id in ids :: PlainId(id)
    ensures SanitisedApart(ids)
  {
    hide Sanitize, PlainId;
    forall a, b | a in ids && b in ids && Sanitize(a) == Sanitize(b) ensures a == b { NamesTell("", a, "", b); }
  }

  // The name of a spool file of that id, whenever it was made.
  ghost predicate NamedAfter(path: Path, id: string, length: nat) {
    exists stamp: string :: |stamp| == length && path == SpoolName(stamp, id)
  }

  // A spooled request that was there before: one of the ids, under its name, or under a name that nobody makes.
  ghost predicate FitsIn(path: Path, id: string, ids: set<string>, events: seq<Event>, length: nat) {
    (id in ids && NamedAfter(path, id, length)) ||
    forall i | 0 <= i < |events| && events[i].Spool? :: path != SpoolName(events[i].stamp, events[i].id)
  }

  /**
   So ids that differ once sanitised, as plain ids do, and stamps of one length keep to one id per name, whatever
   the directory holds under such names, or under names that do not clash.
   */
  lemma ApartIdsSuffice(files: map<Path, File>, events: seq<Event>, ids: set<string>, length: nat)
    requires SanitisedApart(ids)
    requires forall i | 0 <= i < |events| && events[i].Spool? :: events[i].id in ids && |events[i].stamp| == length
    requires forall p | p in files && files[p].Envelope? :: FitsIn(p, files[p].req.id, ids, events, length)
    ensures OneIdPerName(files, events)
  {
    hide SpoolName, PlainId, Sanitize;
    forall i, j | 0 <= i < |events| && 0 <= j < |events| && events[i].Spool? && events[j].Spool? &&
                  SpoolName(events[i].stamp, events[i].id) == SpoolName(events[j].stamp, events[j].id)
      ensures events[i].id == events[j].id
    {
      NamesTell(events[i].stamp, events[i].id, events[j].stamp, events[j].id);
    }
    forall i | 0 <= i < |events| && events[i].Spool? ensures FreeFor(files, SpoolName(events[i].stamp, events[i].id), events[i].id) {
      var path := SpoolName(events[i].stamp, events[i].id);
      if path in files && files[path].Envelope? {
        assert FitsIn(path, files[path].req.id, ids, events, length);
        var stamp: string :| |stamp| == length && path == SpoolName(stamp, files[path].req.id);
        NamesTell(events[i].stamp, events[i].id, stamp, files[path].req.id);
      }
    }
  }
}
