/**
 The client's side of the protocol as the program has it: `commit_work`, resending, spooling and `retry_spool`.
 The network is free to lose, delay and break; while a call is under way anybody may use the store.
 */
module Client {
  import opened Prelude
  import opened Model
  import opened Database
  import opened Operations
  import opened SourceImport
  import opened Bundles
  import opened Invariant
  import opened Runs
  import opened Stamps
  import opened Delivery
  import opened Protocol
  import opened Store
  import Text

  // What an attempt to have a request carried out comes to.
  datatype Sent = Replied(result: CommitResult) | Lost(fault: Fault)

  datatype Retry = Gone | Kept | Error(fault: Fault)

  // What comes of looking at one name of the listing.
  datatype Turn = Vanished | NoFile | Tried(retry: Retry)

  datatype Report = Report(attempted: nat, delivered: nat, retained: nat, errors: seq<Path>)

  // The report tells what came of each name: what went wrong, and what is gone.
  ghost predicate Recounts(report: Report, turns: map<Path, Turn>, gone: set<Path>, files: map<Path, File>) {
    (forall p | p in turns :: p in files && !turns[p].Vanished? && (turns[p].NoFile? <==> files[p].NotRegular?)) &&
    (forall p :: p in report.errors <==> p in turns && (turns[p].NoFile? || (turns[p].Tried? && turns[p].retry.Error?))) &&
    (forall p :: p in gone <==> p in turns && turns[p] == Tried(Gone))
  }

  // Each of the names that is a spool file's had its turn.
  ghost predicate Covers(turns: map<Path, Turn>, names: seq<Path>) {
    forall p :: p in turns <==> p in names && IsSpoolName(p)
  }

  lemma NothingCovered(files: map<Path, File>)
    ensures Recounts(Report(0, 0, 0, []), map[], {}, files) && Covers(map[], [])
  {
  }

  lemma Recounted(report: Report, turns: map<Path, Turn>, gone: set<Path>, files: map<Path, File>, name: Path, turn: Turn)
    requires Recounts(report, turns, gone, files) && name !in turns && name in files
    requires !turn.Vanished? && (turn.NoFile? <==> files[name].NotRegular?)
    ensures forall r: Report | r.errors == report.errors + (if turn.NoFile? || turn.retry.Error? then [name] else []) ::
              Recounts(r, turns[name := turn], if turn == Tried(Gone) then gone + {name} else gone, files)
  {
  }

  lemma CoversNext(turns: map<Path, Turn>, names: seq<Path>, i: nat, turn: Turn)
    requires i < |names| && Covers(turns, names[..i])
    ensures Covers(if IsSpoolName(names[i]) then turns[names[i] := turn] else turns, names[..i + 1])
  {
    hide IsSpoolName;
    assert names[..i + 1] == names[..i] + [names[i]];
  }

  lemma NotCovered(turns: map<Path, Turn>, names: seq<Path>, name: Path)
    requires Covers(turns, names) && name !in names
    ensures name !in turns
  {
  }

  predicate IsSpoolName(name: Path) {
    |name| > 5 && Text.EndsWith(name, ".json")
  }

  /** What is spooled is found again: the name of a spool file is one that `retry_spool` looks at, whatever its id. */
  lemma SpoolNamesAreTried(stamp: string, id: string)
    ensures IsSpoolName(SpoolName(stamp, id)) && !IsSpoolName(".json") && !IsSpoolName("xx-json") && !IsSpoolName("xx.json~")
  {
    var name := SpoolName(stamp, id);
    assert name[|name| - 5..] == ".json";
  }

  // The spool files that are regular, and those that are not, among the names.
  function Regular(files: map<Path, File>, names: seq<Path>): nat {
    if names == [] then 0 else
      var name := names[|names| - 1];
      Regular(files, names[..|names| - 1]) + (if IsSpoolName(name) && name in files && !files[name].NotRegular? then 1 else 0)
  }

  function Irregular(files: map<Path, File>, names: seq<Path>): nat {
    if names == [] then 0 else
      var name := names[|names| - 1];
      Irregular(files, names[..|names| - 1]) + (if IsSpoolName(name) && name in files && files[name].NotRegular? then 1 else 0)
  }

  // ---------- the listing of the spool directory ----------

  predicate Ascending(names: seq<Path>) {
    forall i, j | 0 <= i < j < |names| :: Text.Less(names[i], names[j])
  }

  function InsertName(name: Path, names: seq<Path>): (r: seq<Path>)
    ensures multiset(r) == multiset(names) + multiset{name}
  {
    if names == [] || Text.Less(name, names[0]) then [name] + names
    else
      assert names == [names[0]] + names[1..];
      [names[0]] + InsertName(name, names[1..])
  }

  lemma {:induction false} InsertedAscending(name: Path, names: seq<Path>)
    requires Ascending(names) && name !in names
    ensures Ascending(InsertName(name, names))
  {
    if names == [] {
    } else if Text.Less(name, names[0]) {
      forall j | 0 <= j < |names| ensures Text.Less(name, names[j]) {
        if j > 0 { Text.LessTransitive(name, names[0], names[j]); }
      }
    } else {
      var rest := InsertName(name, names[1..]);
      InsertedAscending(name, names[1..]);
      Text.LessTrichotomy(name, names[0]);
      forall j | 0 <= j < |rest| ensures Text.Less(names[0], rest[j]) {
        assert rest[j] in multiset(rest);
        assert rest[j] == name || rest[j] in names[1..];
      }
    }
  }

  lemma InsertedMembers(name: Path, names: seq<Path>, p: Path)
    ensures p in InsertName(name, names) <==> p == name || p in names
  {
    assert p in InsertName(name, names) <==> p in multiset(InsertName(name, names));
  }

  // ---------- what other clients may do to the spool directory meanwhile ----------

  type Log = map<RequestId, CommitResult>

  // A spooled request stays where it lies until its id is in the log; new files lie under names of their ids;
  // and nobody makes or removes links and directories.
  predicate Meanwhile(owners: Owners, a: map<Path, File>, b: map<Path, File>, log: Log) {
    FilesOwned(b, owners) &&
    (forall p | p in a && a[p].Envelope? :: (p in b && b[p] == a[p]) || ByClient(a[p].req.id) in log) &&
    (forall p | p in a && a[p].NotRegular? :: p in b && b[p].NotRegular?) &&
    (forall p | p in b && b[p].NotRegular? :: p in a && a[p].NotRegular?)
  }

  lemma MeanwhileThen(owners: Owners, a: map<Path, File>, b: map<Path, File>, c: map<Path, File>, log: Log, log': Log)
    requires Meanwhile(owners, a, b, log) && Meanwhile(owners, b, c, log') && forall id | id in log :: id in log'
    ensures Meanwhile(owners, a, c, log')
  {
  }

  lemma LogOnlyGrows(db: DB, ops: seq<Op>)
    requires Valid(db)
    ensures forall id | id in db.commits :: id in Run(db, ops).commits && Run(db, ops).commits[id] == db.commits[id]
  {
    forall id | id in db.commits ensures id in Run(db, ops).commits && Run(db, ops).commits[id] == db.commits[id] {
      CommitLogPermanent(db, ops, id);
    }
  }

  // ---------- what the network, the machine and the disk do during a call ----------

  // One attempt: whether the daemon is reached and has the line, whether the line fits a frame, whether the reply
  // comes in time and whole, and whether it can be read.
  datatype Net = Net(connects: bool, fits: bool, answers: bool, legible: bool)

  // Starting the daemon: whether the socket is live already, whether the daemon starts, and whether it is ready in time.
  datatype Machine = Machine(directories: bool, live: bool, spawns: bool, ready: bool)

  // A whole call: a first attempt, perhaps the daemon's start, and then a second attempt.
  datatype Way = Way(directories: bool, first: Net, machine: Machine, second: Net)

  // Spooling: whether the directory is there, and whether the file is written whole.
  datatype Disk = Disk(directory: bool, whole: bool)

  predicate LosesTransport(net: Net) { !net.connects || (net.fits && !net.answers) }

  function DaemonFault(m: Machine, autostart: bool): Option<Fault> {
    if !m.directories then Some(Io) else if m.live then None else if !autostart then Some(Transport)
    else if !m.spawns then Some(Spawn) else if !m.ready then Some(Timeout) else None
  }

  // What comes of one attempt; where nothing goes wrong on the way the daemon decides.
  predicate Comes(net: Net, s: Sent) {
    if LosesTransport(net) then s == Lost(Transport)
    else if !net.fits then s == Lost(Core)
    else if !net.legible then s == Lost(BadJson)
    else s.Replied? || s == Lost(Remote)
  }

  /**
   What comes of a call. It ends with its first attempt unless the transport fails in it and the daemon may be
   started; then it ends with what keeps the daemon from being there, or with the second attempt.
   */
  predicate Leads(way: Way, autostart: bool, s: Sent) {
    if !way.directories then s == Lost(Io)
    else if !LosesTransport(way.first) then Comes(way.first, s)
    else if !autostart then s == Lost(Transport)
    else if DaemonFault(way.machine, autostart).Some? then s == Lost(DaemonFault(way.machine, autostart).value)
    else Comes(way.second, s)
  }

  // The daemon had the request in the course of the operations and refused it.
  ghost predicate TurnedDown(db: DB, ran: seq<Op>, req: Request) {
    exists i | 0 <= i < |ran| :: ran[i] == OpOf(req) && Operations.CommitWork(Run(db, ran[..i]), CommitOf(OpOf(req)), false).Fail?
  }

  lemma TurnedDownThen(db: DB, ran: seq<Op>, more: seq<Op>, req: Request)
    requires TurnedDown(Run(db, ran), more, req)
    ensures TurnedDown(db, ran + more, req)
  {
    hide Run, Operations.CommitWork;
    var i :| 0 <= i < |more| && more[i] == OpOf(req) && Operations.CommitWork(Run(Run(db, ran), more[..i]), CommitOf(OpOf(req)), false).Fail?;
    assert (ran + more)[..|ran| + i] == ran + more[..i];
    RunAppend(db, ran, more[..i]);
    assert (ran + more)[|ran| + i] == OpOf(req);
  }

  lemma TurnedDownBefore(db: DB, ran: seq<Op>, more: seq<Op>, req: Request)
    requires TurnedDown(db, ran, req)
    ensures TurnedDown(db, ran + more, req)
  {
    hide Run, Operations.CommitWork;
    var i :| 0 <= i < |ran| && ran[i] == OpOf(req) && Operations.CommitWork(Run(db, ran[..i]), CommitOf(OpOf(req)), false).Fail?;
    assert (ran + more)[..i] == ran[..i] && (ran + more)[i] == ran[i];
  }

  class ContextClient {
    const store: ContextStore  // behind the daemon's socket
    const autostart: bool
    const owners: Owners       // which request id a name of the spool directory belongs to
    var files: map<Path, File>

    constructor (store: ContextStore, autostart: bool, owners: Owners, files: map<Path, File>)
      ensures this.store == store && this.autostart == autostart && this.owners == owners && this.files == files
    {
      this.store, this.autostart, this.owners, this.files := store, autostart, owners, files;
    }

    ghost predicate Ready()
      reads this, store
    {
      Valid(store.Db()) && FilesOwned(files, owners)
    }

    // The daemon carries out one operation for somebody.
    method Perform(op: Op)
      modifies store
      ensures store.Db() == Step(old(store.Db()), op)
    {
      hide Operations.PutEntry, Operations.DeleteEntry, Operations.RevertEntry, Operations.CreatePack, Operations.UpdatePack,
           Operations.SetPolicy, Operations.CommitWork, Operations.ApproveReview, Operations.RejectReview, Operations.EditReview,
           Operations.EditAndApproveReview, EnsureRun, ApplyImport, ImportBundle;
      match op {
        case Put(req) => var r := store.PutEntry(req);
        case Delete(sel, actor) => var r := store.DeleteEntry(sel, actor);
        case Revert(sel, no, actor) => var r := store.RevertEntry(sel, no, actor);
        case Create(req) => var r := store.CreatePack(req);
        case Update(req) => var r := store.UpdatePack(req);
        case Policy(mode, metadata, actor) => var r := store.SetPolicy(mode, metadata, actor);
        case StartRun(input) => var r := store.CreateRun(input);
        case Commit(_, _, _, _) => var r := store.CommitWork(CommitOf(op));
        case Import(req) => var r := store.ApplySourceImport(req);
        case Approve(id, actor, note) => var r := store.ApproveReview(id, actor, note);
        case Reject(id, actor, note) => var r := store.RejectReview(id, actor, note);
        case Edit(id, f, actor) => var r := store.EditReview(id, f, actor);
        case EditAndApprove(id, f, actor, note) => var r := store.EditAndApproveReview(id, f, actor, note);
        case Restore(b, actor) => var r := store.ImportBundle(b, actor);
      }
    }

    // Time passes: others use the store and the spool directory, and requests sent earlier may arrive only now.
    method OthersRun() returns (ghost ran: seq<Op>)
      requires Ready()
      modifies store, `files
      ensures Ready() && store.Db() == Run(old(store.Db()), ran) && Meanwhile(owners, old(files), files, store.commits)
    {
      hide Valid, Step;
      var ops: seq<Op> := *;
      ran := ops;
      for i := 0 to |ops|
        invariant Valid(store.Db()) && store.Db() == Run(old(store.Db()), ops[..i]) && files == old(files)
      {
        assert ops[..i + 1][..i] == ops[..i];
        StepMoves(store.Db(), ops[i]);
        Perform(ops[i]);
      }
      assert ops[..|ops|] == ops;
      var now: map<Path, File> := *;
      if Meanwhile(owners, files, now, store.commits) { files := now; }
    }

    static lemma StillLogged(db: DB, ops: seq<Op>, req: Request, result: CommitResult)
      requires Valid(db) && LoggedAs(db, req, result)
      ensures LoggedAs(Run(db, ops), req, result)
    {
      CommitLogPermanent(db, ops, ByClient(req.id));
    }

    // The request reaches the daemon, which carries it out.
    method Deliver(req: Request) returns (r: Result<CommitResult>)
      requires Valid(store.Db())
      modifies store
      ensures Valid(store.Db()) && store.Db() == Run(old(store.Db()), [OpOf(req)])
      ensures r.Ok? ==> LoggedAs(store.Db(), req, r.value)
      ensures r.Err? ==> Operations.CommitWork(old(store.Db()), CommitOf(OpOf(req)), false).Fail?
    {
      hide Valid, Operations.CommitWork;
      StepMoves(store.Db(), OpOf(req));
      DeliveredLog(store.Db(), req);
      assert [OpOf(req)][..0] == [];
      assert Run(store.Db(), [OpOf(req)]) == Step(Run(store.Db(), []), OpOf(req));
      r := store.CommitWork(CommitOf(OpOf(req)));
    }

    static lemma DeliveredLog(db: DB, req: Request)
      requires Valid(db)
      ensures var t := Operations.CommitWork(db, CommitOf(OpOf(req)), false);
              t.Done? ==> LoggedAs(Step(db, OpOf(req)), req, t.value)
    {
      if Operations.CommitWork(db, CommitOf(OpOf(req)), false).Done? { StepHealthyLog(db, OpOf(req)); }
    }

    // `transact`: one connection, one request line, one reply line.
    method Transact(req: Request, net: Net) returns (r: Sent, ghost ran: seq<Op>)
      requires Ready()
      modifies store, `files
      ensures Ready() && store.Db() == Run(old(store.Db()), ran) && Meanwhile(owners, old(files), files, store.commits)
      ensures Comes(net, r)
      ensures r.Replied? ==> LoggedAs(store.Db(), req, r.result)
      ensures r == Lost(Remote) ==> TurnedDown(old(store.Db()), ran, req)
    {
      hide Valid, Run, FilesOwned, TurnedDown, Operations.CommitWork;
      ran := OthersRun();
      if !net.connects { return Lost(Transport), ran; }  // no connection, or the write fails before the daemon has the line
      if !net.fits { return Lost(Core), ran; }           // the line is longer than a frame may be
      label Sending:
      ghost var mid := files;
      LogOnlyGrows(store.Db(), [OpOf(req)]);
      var result := Deliver(req);
      if result.Err? { JustTurnedDown(old(store.Db()), ran, req); }
      RunAppend(old(store.Db()), ran, [OpOf(req)]);
      ran := ran + [OpOf(req)];
      label Replied:
      LaterLog(owners, old(files), mid, old@Sending(store.commits), store.commits);
      ghost var later := OthersRun();
      RunAppend(old(store.Db()), ran, later);
      if result.Err? { TurnedDownBefore(old(store.Db()), ran, later, req); }
      ran := ran + later;
      LogOnlyGrows(old@Replied(store.Db()), later);
      MeanwhileThen(owners, old(files), mid, files, old@Replied(store.commits), store.commits);
      if result.Ok? { StillLogged(old@Replied(store.Db()), later, req, result.value); }
      if !net.answers { return Lost(Transport), ran; }  // the reply is lost, late or cut off
      if !net.legible { return Lost(BadJson), ran; }  // the reply cannot be read
      if result.Err? { return Lost(Remote), ran; }
      return Replied(result.value), ran;
    }

    static lemma JustTurnedDown(db: DB, ran: seq<Op>, req: Request)
      requires Operations.CommitWork(Run(db, ran), CommitOf(OpOf(req)), false).Fail?
      ensures TurnedDown(db, ran + [OpOf(req)], req)
    {
      hide Run, Operations.CommitWork;
      assert (ran + [OpOf(req)])[..|ran|] == ran && (ran + [OpOf(req)])[|ran|] == OpOf(req);
    }

    static lemma LaterLog(owners: Owners, a: map<Path, File>, b: map<Path, File>, log: Log, log': Log)
      requires Meanwhile(owners, a, b, log) && forall id | id in log :: id in log'
      ensures Meanwhile(owners, a, b, log')
    {
    }

    // `ensure_daemon`: finds the socket live, or starts the daemon and waits for it.
    method EnsureDaemon(m: Machine) returns (fault: Option<Fault>)
      ensures fault == DaemonFault(m, autostart)
    {
      if !m.directories { return Some(Io); }
      if m.live { return None; }
      if !autostart { return Some(Transport); }
      if !m.spawns { return Some(Spawn); }
      if !m.ready { return Some(Timeout); }
      return None;
    }

    // `send_value`: a request whose transport failed is sent once more after starting the daemon.
    method SendValue(req: Request, way: Way) returns (r: Sent, ghost ran: seq<Op>)
      requires Ready()
      modifies store, `files
      ensures Ready() && store.Db() == Run(old(store.Db()), ran) && Meanwhile(owners, old(files), files, store.commits)
      ensures Leads(way, autostart, r)
      ensures r.Replied? ==> LoggedAs(store.Db(), req, r.result)
      ensures r == Lost(Remote) ==> TurnedDown(old(store.Db()), ran, req)
    {
      hide Valid, Run, FilesOwned, Meanwhile, TurnedDown;
      if !way.directories {
        ran := OthersRun();
        return Lost(Io), ran;
      }
      r, ran := Transact(req, way.first);
      if r.Lost? && r.fault.Transport? && autostart {
        var fault := EnsureDaemon(way.machine);
        if fault.Some? { return Lost(fault.value), ran; }
        label Again:
        ghost var mid := files;
        ghost var more;
        r, more := Transact(req, way.second);
        RunAppend(old(store.Db()), ran, more);
        if r == Lost(Remote) { TurnedDownThen(old(store.Db()), ran, more, req); }
        ran := ran + more;
        LogOnlyGrows(old@Again(store.Db()), more);
        MeanwhileThen(owners, old(files), mid, files, old@Again(store.commits), store.commits);
      }
    }

    // `spool_request`: the file is created anew or not at all; a failing write may leave a torn file.
    method SpoolRequest(req: Request, stamp: string, disk: Disk) returns (fault: Option<Fault>)
      modifies `files
      ensures var name, secret := SpoolName(stamp, req.id), store.scan(CommitBody(CommitOf(OpOf(req))));
              if !disk.directory then fault == Some(Io) && files == old(files)
              else if secret then fault == Some(Core) && files == old(files)
              else if name in old(files) then fault == Some(Io) && files == old(files)
              else if !disk.whole then fault == Some(Io) && (files == old(files) || files == old(files)[name := Junk])
              else fault.None? && files == old(files)[name := Envelope(req)]
    {
      if !disk.directory { return Some(Io); }
      if store.scan(CommitBody(CommitOf(OpOf(req)))) { return Some(Core); }
      var name := SpoolName(stamp, req.id);
      if name in files { return Some(Io); }
      if !disk.whole {
        if * { files := files[name := Junk]; }
        return Some(Io);
      }
      files := files[name := Envelope(req)];
      return None;
    }

    /**
     `commit_work`. Told "committed", the caller finds the result in the log; told "spooled", the request is on
     disk under a free name; the call touches no other file, whatever the others did up to then; and the store
     has only run operations. A reply is passed on; of the faults exactly those of the transport lead to the spool,
     where the request is kept unless it holds a credential, its name is taken or the disk fails; and every other
     fault is passed on. If the name belongs to the request's id, so do all names afterwards.
     */
    method CommitWork(req: Request, stamp: string, way: Way, disk: Disk)
      returns (answer: Answer, ghost ran: seq<Op>, ghost seen: map<Path, File>, ghost sent: Sent)
      requires Ready()
      modifies `files, store
      ensures Valid(store.Db()) && store.Db() == Run(old(store.Db()), ran) && Meanwhile(owners, old(files), seen, store.commits)
      ensures Leads(way, autostart, sent)
      ensures sent.Replied? ==> answer == Committed(sent.result) && LoggedAs(store.Db(), req, sent.result) && files == seen
      ensures sent == Lost(Remote) ==> TurnedDown(old(store.Db()), ran, req)
      ensures sent.Lost? && !(sent.fault.Transport? || sent.fault.Spawn? || sent.fault.Timeout?) ==> answer == Failed(sent.fault) && files == seen
      ensures sent.Lost? && (sent.fault.Transport? || sent.fault.Spawn? || sent.fault.Timeout?) ==>
                var name, secret := SpoolName(stamp, req.id), store.scan(CommitBody(CommitOf(OpOf(req))));
                if disk.directory && !secret && name !in seen && disk.whole then answer == SpooledAt(name) && files == seen[name := Envelope(req)]
                else answer == Failed(if disk.directory && secret then Core else Io) &&
                     (files == seen || (name !in seen && !disk.whole && files == seen[name := Junk]))
      ensures Owns(owners, SpoolName(stamp, req.id), req.id) ==> FilesOwned(files, owners)
    {
      hide Valid, Run, Meanwhile, SpoolName, LoggedAs, Leads, TurnedDown;
      var outcome;
      outcome, ran := SendValue(req, way);
      sent := outcome;
      seen := files;
      match outcome {
        case Replied(result) => return Committed(result), ran, seen, sent;
        case Lost(fault) =>
          if !Spoolable(fault) { return Failed(fault), ran, seen, sent; }
          var failed := SpoolRequest(req, stamp, disk);
          if failed.Some? { return Failed(failed.value), ran, seen, sent; }
          return SpooledAt(SpoolName(stamp, req.id)), ran, seen, sent;
      }
    }

    /**
     `retry_single_spool`, while others may retry the same file. What lies under the name when it is read (`lay`)
     is sent as it is; a reply removes the file, a failing transport keeps it for later, and any other fault is
     reported. It is reported gone only if the id that its name belongs to is in the log, and then it is; and no
     request is lost. `small` is whether the file is within its limit, `removable` whether the disk lets it go.
     */
    method RetrySingle(name: Path, way: Way, small: bool, removable: bool)
      returns (r: Retry, ghost ran: seq<Op>, ghost lay: map<Path, File>, ghost sent: Sent)
      requires Ready()
      modifies `files, store
      ensures Ready() && store.Db() == Run(old(store.Db()), ran) && Meanwhile(owners, old(files), files, store.commits)
      ensures r.Gone? ==> name in owners && ByClient(owners[name]) in store.commits && name !in files
      ensures Meanwhile(owners, old(files), lay, store.commits)
      ensures name !in lay ==> r == Error(Io)
      ensures name in lay && !small ==> r == Error(Core)
      ensures name in lay && small && !lay[name].Envelope? ==> r == Error(BadJson)
      ensures name in lay && small && lay[name].Envelope? ==>
                var req := lay[name].req;
                Leads(way, autostart, sent) && (sent == Lost(Remote) ==> TurnedDown(old(store.Db()), ran, req)) &&
                (sent.Replied? ==> LoggedAs(store.Db(), req, sent.result) &&
                                   (r == Gone || (r == Error(Io) && (removable ==> name !in files)))) &&
                (sent.Replied? && !removable ==> r == Error(Io)) &&
                (sent.Lost? ==> r == if sent.fault.Transport? then Kept else Error(sent.fault))
    {
      hide Valid, Run, Leads, TurnedDown;
      sent := Lost(Io);
      ran := OthersRun();
      lay := files;
      if name !in files { return Error(Io), ran, lay, sent; }  // gone, or not to be read
      if !small { return Error(Core), ran, lay, sent; }
      if !files[name].Envelope? { return Error(BadJson), ran, lay, sent; }
      var req := files[name].req;
      label Read:
      ghost var more;
      var outcome;
      outcome, more := SendValue(req, way);
      sent := outcome;
      if sent == Lost(Remote) { TurnedDownThen(old(store.Db()), ran, more, req); }
      RunAppend(old(store.Db()), ran, more);
      ran := ran + more;
      LogOnlyGrows(old@Read(store.Db()), more);
      LaterLog(owners, old(files), lay, old@Read(store.commits), store.commits);
      MeanwhileThen(owners, old(files), lay, files, old@Read(store.commits), store.commits);
      match outcome {
        case Replied(_) =>
          if name !in files { return Error(Io), ran, lay, sent; }
          if !removable { return Error(Io), ran, lay, sent; }
          SameSort(owners, lay, files, store.commits, name);
          RemovedInLog(owners, old(files), files, store.commits, name);
          files := files - {name};
          return Gone, ran, lay, sent;
        case Lost(fault) =>
          return (if fault.Transport? then Kept else Error(fault)), ran, lay, sent;
      }
    }

    // The file of a logged id may go.
    static lemma RemovedInLog(owners: Owners, a: map<Path, File>, b: map<Path, File>, log: Log, name: Path)
      requires Meanwhile(owners, a, b, log) && FilesOwned(a, owners) && name in b && !b[name].NotRegular?
      requires name in owners && ByClient(owners[name]) in log
      ensures Meanwhile(owners, a, b - {name}, log)
    {
    }

    // The names in the directory, in order.
    method ListSpool() returns (names: seq<Path>)
      ensures Ascending(names) && forall p :: p in names <==> p in files
    {
      names := [];
      var rest := files.Keys;
      while rest != {}
        invariant rest <= files.Keys && Ascending(names) && forall p :: p in names <==> p in files && p !in rest
        decreases |rest|
      {
        var p :| p in rest;
        InsertedAscending(p, names);
        forall q ensures q in InsertName(p, names) <==> q == p || q in names { InsertedMembers(p, names, q); }
        names := InsertName(p, names);
        rest := rest - {p};
      }
    }

    // The names of all files there were, and what they stood for then.
    ghost predicate Listed(names: seq<Path>, before: map<Path, File>) {
      Ascending(names) && forall p :: p in names <==> p in before
    }

    // One turn of `retry_spool` over a name of the listing taken before.
    method RetryListed(name: Path, ghost before: map<Path, File>) returns (turn: Turn, ghost ran: seq<Op>)
      requires Ready() && Meanwhile(owners, before, files, store.commits) && name in before
      modifies `files, store
      ensures Ready() && store.Db() == Run(old(store.Db()), ran) && Meanwhile(owners, before, files, store.commits)
      ensures forall id | id in old(store.commits) :: id in store.commits
      ensures turn.Vanished? ==> name !in files
      ensures !turn.Vanished? ==> (turn.NoFile? <==> before[name].NotRegular?)
      ensures turn == Tried(Gone) ==> name in owners && ByClient(owners[name]) in store.commits
    {
      hide Valid, Run, FilesOwned, Meanwhile;
      ghost var mid := files;
      ran := OthersRun();
      LogOnlyGrows(old(store.Db()), ran);
      MeanwhileThen(owners, before, mid, files, old(store.commits), store.commits);
      if name !in files { return Vanished, ran; }
      SameSort(owners, before, files, store.commits, name);
      if files[name].NotRegular? { return NoFile, ran; }
      label Trying:
      mid := files;
      ghost var more;
      ghost var lay, sent;
      var retry;
      var way: Way, small: bool, removable: bool := *, *, *;
      retry, more, lay, sent := RetrySingle(name, way, small, removable);
      RunAppend(old(store.Db()), ran, more);
      LogOnlyGrows(old@Trying(store.Db()), more);
      MeanwhileThen(owners, before, mid, files, old@Trying(store.commits), store.commits);
      return Tried(retry), ran + more;
    }

    // What one turn adds to the report.
    static method CountTurn(report: Report, name: Path, turn: Turn) returns (r: Report)
      requires !turn.Vanished?
      ensures r.attempted == report.attempted + (if turn.Tried? then 1 else 0)
      ensures r.delivered == report.delivered + (if turn == Tried(Gone) then 1 else 0)
      ensures r.retained == report.retained + (if turn == Tried(Gone) then 0 else 1)
      ensures r.errors == report.errors + (if turn.NoFile? || turn.retry.Error? then [name] else [])
    {
      match turn {
        case NoFile =>
          r := report.(retained := report.retained + 1, errors := report.errors + [name]);
        case Tried(Gone) =>
          r := report.(attempted := report.attempted + 1, delivered := report.delivered + 1);
        case Tried(Kept) =>
          r := report.(attempted := report.attempted + 1, retained := report.retained + 1);
        case Tried(Error(_)) =>
          r := report.(attempted := report.attempted + 1, retained := report.retained + 1, errors := report.errors + [name]);
      }
    }

    /**
     `retry_spool`, while others may do the same. It gives up when the directory cannot be read or a file vanishes
     under its eyes; otherwise every regular spool file of the listing was attempted once, everything listed is
     counted as delivered or retained, the errors name what went wrong (`turns`), and what was delivered was removed,
     with the id of its name in the log. In any case no request is lost.
     */
    method RetrySpool(readable: bool)
      returns (r: Option<Report>, ghost ran: seq<Op>, ghost names: seq<Path>, ghost gone: set<Path>, ghost turns: map<Path, Turn>)
      requires Ready()
      modifies `files, store
      ensures Ready() && store.Db() == Run(old(store.Db()), ran) && Meanwhile(owners, old(files), files, store.commits)
      ensures Listed(names, old(files))
      ensures !readable ==> r.None?
      ensures readable && r.None? ==> exists i | 0 <= i < |names| :: IsSpoolName(names[i]) && names[i] !in files
      ensures r.Some? ==> r.value.attempted == Regular(old(files), names)
      ensures r.Some? ==> r.value.delivered + r.value.retained == r.value.attempted + Irregular(old(files), names)
      ensures r.Some? ==> r.value.delivered == |gone| && |r.value.errors| <= r.value.retained
      ensures r.Some? ==> Recounts(r.value, turns, gone, old(files)) && Covers(turns, names)
      ensures forall p | p in gone :: p in old(files) && p in owners && ByClient(owners[p]) in store.commits
    {
      hide Valid, Run, FilesOwned, Meanwhile, Regular, Irregular, IsSpoolName, Ascending, Recounts, Covers;
      var report := Report(0, 0, 0, []);
      assert Regular(files, []) == 0 && Irregular(files, []) == 0 by { NoNames(files); }
      ran, gone, turns := [], {}, map[];
      ghost var before := files;
      var listing := ListSpool();  // nothing, where the directory does not exist
      names := listing;
      assert Run(store.Db(), []) == store.Db() by { RunNothing(store.Db()); }
      NothingMeanwhile(owners, files, store.commits);
      NothingCovered(files);
      if !readable { return None, ran, names, gone, turns; }
      for i := 0 to |listing|
        invariant Ready() && store.Db() == Run(old(store.Db()), ran) && Meanwhile(owners, before, files, store.commits)
        invariant report.attempted == Regular(before, listing[..i])
        invariant report.delivered + report.retained == report.attempted + Irregular(before, listing[..i])
        invariant report.delivered == |gone| && |report.errors| <= report.retained
        invariant Recounts(report, turns, gone, before) && Covers(turns, listing[..i])
        invariant forall p | p in gone :: p in listing[..i] && p in owners && ByClient(owners[p]) in store.commits
      {
        var name := listing[i];
        CountOne(before, listing, i);
        NewName(listing, i);
        if IsSpoolName(name) {
          ghost var more;
          var turn;
          turn, more := RetryListed(name, before);
          RunAppend(old(store.Db()), ran, more);
          ran := ran + more;
          CoversNext(turns, listing, i, turn);
          NotCovered(turns, listing[..i], name);
          if !turn.Vanished? { Recounted(report, turns, gone, before, name, turn); }
          turns := turns[name := turn];
          if turn.Vanished? { return None, ran, names, gone, turns; }
          report := CountTurn(report, name, turn);
          if turn == Tried(Gone) { gone := gone + {name}; }
        } else {
          CoversNext(turns, listing, i, Vanished);
        }
      }
      assert listing[..|listing|] == listing;
      return Some(report), ran, names, gone, turns;
    }

    static lemma RunNothing(db: DB)
      ensures Run(db, []) == db
    {
    }

    static lemma NothingMeanwhile(owners: Owners, files: map<Path, File>, log: Log)
      requires FilesOwned(files, owners)
      ensures Meanwhile(owners, files, files, log)
    {
    }

    static lemma NewName(names: seq<Path>, i: nat)
      requires Ascending(names) && i < |names|
      ensures names[i] !in names[..i]
    {
      forall j | 0 <= j < i ensures names[j] != names[i] { Text.LessIrreflexive(names[i]); }
    }

    static lemma NoNames(files: map<Path, File>)
      ensures Regular(files, []) == 0 && Irregular(files, []) == 0
    {
    }

    static lemma CountOne(files: map<Path, File>, names: seq<Path>, i: nat)
      requires i < |names|
      ensures names[..i + 1] == names[..i] + [names[i]]
      ensures Regular(files, names[..i + 1]) ==
              Regular(files, names[..i]) + (if IsSpoolName(names[i]) && names[i] in files && !files[names[i]].NotRegular? then 1 else 0)
      ensures Irregular(files, names[..i + 1]) ==
              Irregular(files, names[..i]) + (if IsSpoolName(names[i]) && names[i] in files && files[names[i]].NotRegular? then 1 else 0)
    {
      assert names[..i + 1][..i] == names[..i];
    }

    // What is a link or directory stays one, and nothing else becomes one.
    static lemma SameSort(owners: Owners, a: map<Path, File>, b: map<Path, File>, log: Log, name: Path)
      requires Meanwhile(owners, a, b, log) && name in a && name in b
      ensures a[name].NotRegular? <==> b[name].NotRegular?
    {
    }
  }
}
