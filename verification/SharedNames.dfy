/** What happens when two request ids share the name of a spool file. */
module SharedNames {
  import opened Prelude
  import opened Model
  import opened Database
  import opened Operations
  import opened Invariant
  import opened Governance
  import opened Runs
  import opened Effects
  import opened Protocol

  lemma Two(w: World, a: Event, b: Event)
    ensures Play(w, [a, b]) == Next(Next(w, a), b) && Play(w, [a]) == Next(w, a)
  {
    hide Next;
    assert [a][..0] == [];
    assert Play(w, [a]) == Next(Play(w, []), a);
    assert [a, b][..1] == [a];
  }

  lemma Three(w: World, a: Event, b: Event, c: Event)
    ensures Play(w, [a, b, c]) == Next(Next(Next(w, a), b), c)
  {
    hide Next;
    Two(w, a, b);
    assert [a, b, c][..2] == [a, b];
  }

  function Spooled(call: nat, r: Request, stamp: string): seq<Event> {
    [Begin(call, r), Break(call, Transport), Spool(call, r.id, stamp, true)]
  }

  lemma SpooledAnew(w: World, call: nat, r: Request, stamp: string)
    requires call !in w.calls && !w.autostart && !w.db.scan(CommitBody(CommitOf(OpOf(r)))) && SpoolName(stamp, r.id) !in w.files
    ensures var path := SpoolName(stamp, r.id);
            Play(w, Spooled(call, r, stamp))
            == w.(calls := w.calls[call := Call(r, Fresh, Answered(SpooledAt(path)))], files := w.files[path := Envelope(r)])
  {
    hide SpoolName, CommitOf, OpOf, Step, CommitWork, Play;
    Three(w, Begin(call, r), Break(call, Transport), Spool(call, r.id, stamp, true));
    var w1 := Next(w, Begin(call, r));
    assert w1 == w.(calls := w.calls[call := Call(r, Fresh, Trying(1))]);
    var w2 := Next(w1, Break(call, Transport));
    assert w2 == w.(calls := w.calls[call := Call(r, Fresh, GivingUp(Transport))]);
  }

  // A retry of the file gets its reply, but has not removed the file yet.
  function Retried(call: nat, path: Path, r: Request, result: CommitResult): seq<Event> {
    [BeginRetry(call, path), Send(call)] + [Execute(Message(call, 1, r)), Receive(Reply(call, 1, Some(result)))]
  }

  lemma RetriedOnce(w: World, call: nat, path: Path, r: Request, result: CommitResult)
    requires call !in w.calls && path in w.files && w.files[path] == Envelope(r)
    requires CommitWork(w.db, CommitOf(OpOf(r)), false).Done? && CommitWork(w.db, CommitOf(OpOf(r)), false).value == result
    ensures var end := Play(w, Retried(call, path, r, result));
            end.db == Step(w.db, OpOf(r)) && end.files == w.files && end.autostart == w.autostart &&
            end.calls == w.calls[call := Call(r, FromSpool(path), Succeeded(result))]
  {
    hide CommitWork, Step, Play, CommitOf, OpOf;
    var m, reply := Message(call, 1, r), Reply(call, 1, Some(result));
    PlayOn(w, [BeginRetry(call, path), Send(call)], [Execute(m), Receive(reply)]);
    Two(w, BeginRetry(call, path), Send(call));
    var w1 := Next(w, BeginRetry(call, path));
    assert w1 == w.(calls := w.calls[call := Call(r, FromSpool(path), Trying(1))]);
    var w2 := Next(w1, Send(call));
    assert w2 == w1.(net := w1.net + {m});
    Two(w2, Execute(m), Receive(reply));
    var w3 := Next(w2, Execute(m));
    assert w3 == Executed(w2, m) && reply in w3.replies;
  }

  /**
   A run in which two clients retry the first request's file at the same time, and the second request is spooled
   under the same name between their removals.
   */
  function LosingRun(r: Request, r': Request, stamp: string, result: CommitResult): seq<Event> {
    var path := SpoolName(stamp, r.id);
    Spooled(1, r, stamp) + (Retried(2, path, r, result) + (Retried(3, path, r, result) +
    ([Remove(2, true)] + (Spooled(4, r', stamp) + [Remove(3, true)]))))
  }

  // The second retry is answered from the log.
  lemma BothRetried(w: World, path: Path, r: Request)
    requires Valid(w.db) && 2 !in w.calls && 3 !in w.calls && path in w.files && w.files[path] == Envelope(r)
    requires CommitWork(w.db, CommitOf(OpOf(r)), false).Done?
    ensures var result := CommitWork(w.db, CommitOf(OpOf(r)), false).value;
            var end := Play(Play(w, Retried(2, path, r, result)), Retried(3, path, r, result));
            end.db == Step(w.db, OpOf(r)) && end.db.scan == w.db.scan && end.files == w.files && end.autostart == w.autostart &&
            end.calls == w.calls[2 := Call(r, FromSpool(path), Succeeded(result))][3 := Call(r, FromSpool(path), Succeeded(result))]
  {
    hide CommitWork, Step, Valid, CommitOf, Play, Next, Retried;
    var result := CommitWork(w.db, CommitOf(OpOf(r)), false).value;
    ResentAlike(w.db, r);
    RetriedOnce(w, 2, path, r, result);
    RetriedOnce(Play(w, Retried(2, path, r, result)), 3, path, r, result);
  }

  lemma RemovedThen(w: World, call: nat, path: Path)
    requires call in w.calls && w.calls[call].origin == FromSpool(path) && w.calls[call].phase.Succeeded? && path in w.files
    ensures Play(w, [Remove(call, true)])
            == w.(calls := w.calls[call := w.calls[call].(phase := Answered(Delivered))], files := w.files - {path})
  {
    hide Play;
    Two(w, Remove(call, true), Remove(call, true));
  }

  lemma PlayParts(w: World, a: seq<Event>, b: seq<Event>, c: seq<Event>, d: seq<Event>, e: seq<Event>, f: seq<Event>)
    ensures Play(w, a + (b + (c + (d + (e + f))))) == Play(Play(Play(Play(Play(Play(w, a), b), c), d), e), f)
  {
    PlayOn(w, a, b + (c + (d + (e + f))));
    var w1 := Play(w, a);
    PlayOn(w1, b, c + (d + (e + f)));
    var w2 := Play(w1, b);
    PlayOn(w2, c, d + (e + f));
    var w3 := Play(w2, c);
    PlayOn(w3, d, e + f);
    PlayOn(Play(w3, d), e, f);
  }

  lemma SameName(stamp: string, id: string, id': string)
    requires Sanitize(id) == Sanitize(id')
    ensures SpoolName(stamp, id) == SpoolName(stamp, id')
  {
  }

  /**
   Where two ids share a name there is such a run for any two requests of theirs, if the store takes the first:
   the second client has been told that its request is spooled, and it is neither on disk nor in the log.
   */
  lemma SharedNameLosesRequest(db: DB, r: Request, r': Request, stamp: string)
    requires Valid(db) && CommitWork(db, CommitOf(OpOf(r)), false).Done? && ByClient(r'.id) !in Step(db, OpOf(r)).commits
    requires !db.scan(CommitBody(CommitOf(OpOf(r)))) && !db.scan(CommitBody(CommitOf(OpOf(r'))))
    requires Sanitize(r.id) == Sanitize(r'.id)
    ensures var result := CommitWork(db, CommitOf(OpOf(r)), false).value;
            var end := Play(Start(db, map[], false), LosingRun(r, r', stamp, result));
            4 in end.calls && end.calls[4].req == r' && end.calls[4].phase == Answered(SpooledAt(SpoolName(stamp, r'.id))) &&
            SpoolName(stamp, r'.id) !in end.files && ByClient(r'.id) !in end.db.commits
  {
    hide Sanitize, CommitWork, Step, Valid, SpoolName, CommitOf, Play, Next, Retried, Spooled;
    SameName(stamp, r.id, r'.id);
    var result, path := CommitWork(db, CommitOf(OpOf(r)), false).value, SpoolName(stamp, r.id);
    var w := Start(db, map[], false);
    PlayParts(w, Spooled(1, r, stamp), Retried(2, path, r, result), Retried(3, path, r, result), [Remove(2, true)], Spooled(4, r', stamp), [Remove(3, true)]);
    SpooledAnew(w, 1, r, stamp);
    var w1 := Play(w, Spooled(1, r, stamp));
    BothRetried(w1, path, r);
    var w3 := Play(Play(w1, Retried(2, path, r, result)), Retried(3, path, r, result));
    RemovedThen(w3, 2, path);
    var w4 := Play(w3, [Remove(2, true)]);
    SpooledAnew(w4, 4, r', stamp);
    var w5 := Play(w4, Spooled(4, r', stamp));
    RemovedThen(w5, 3, path);
  }

  lemma CommitStep(db: DB, r: Request)
    ensures Step(db, OpOf(r)) == CommitWork(db, CommitOf(OpOf(r)), false).After(db)
  {
    hide CommitWork;
  }

  // A logged request is answered from the log, and the scanner stays what it was.
  lemma ResentAlike(db: DB, r: Request)
    requires Valid(db) && CommitWork(db, CommitOf(OpOf(r)), false).Done?
    ensures var next := Step(db, OpOf(r));
            next.scan == db.scan && Step(next, OpOf(r)) == next &&
            CommitWork(next, CommitOf(OpOf(r)), false) == Done(next, CommitWork(db, CommitOf(OpOf(r)), false).value)
  {
    hide CommitWork, Valid, Step, CommitOf, AgentChange;
    CommitStep(db, r);
    ResendIsIdempotent(db, CommitOf(OpOf(r)), false);
    CommitStep(Step(db, OpOf(r)), r);
    CommitWorkSound(db, CommitOf(OpOf(r)), false);
  }
}
