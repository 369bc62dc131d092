/** What the protocol achieves when nothing stands in its way: calls are answered, requests spooled, and spooled requests delivered. */
module Progress {
  import opened Prelude
  import opened Model
  import opened Database
  import opened Operations
  import opened Runs
  import opened Protocol

  // The steps of a call whose first attempt works: the line is sent, executed, and answered.
  function Attempt(call: nat, req: Request, result: Option<CommitResult>): seq<Event> {
    [Send(call), Execute(Message(call, 1, req)), Receive(Reply(call, 1, result))]
  }

  function OutcomeIn(w: World, req: Request): Option<CommitResult> {
    var t := CommitWork(w.db, CommitOf(OpOf(req)), false);
    if t.Done? then Some(t.value) else None
  }

  // A world in which a call waits for the reply to its first attempt.
  predicate Waiting(w: World, call: nat, c: Call) {
    call in w.calls && w.calls[call] == c && c.phase == Trying(1)
  }

  predicate Waits(w: World, call: nat, c: Call) { call in w.calls && w.calls[call] == c }

  lemma PlayThree(w: World, a: Event, b: Event, c: Event)
    ensures Play(w, [a, b, c]) == Next(Next(Next(w, a), b), c)
  {
    hide Next;
    assert [a, b, c][..2] == [a, b] && [a, b][..1] == [a] && [a][..0] == [];
    assert Play(w, [a]) == Next(w, a);
    assert Play(w, [a, b]) == Next(Play(w, [a]), b);
  }

  /** An attempt that nothing disturbs ends with the daemon's answer, and the store has executed the request. */
  lemma AttemptAnswers(w: World, call: nat, c: Call)
    requires Waiting(w, call, c)
    ensures var result := OutcomeIn(w, c.req);
            var end := Play(w, Attempt(call, c.req, result));
            end.db == Step(w.db, OpOf(c.req)) && end.files == w.files &&
            call in end.calls && end.calls[call] == c.(phase := if result.Some? then Succeeded(result.value) else Answered(Failed(Remote)))
  {
    hide CommitWork, Step, Play;
    var result := OutcomeIn(w, c.req);
    PlayThree(w, Send(call), Execute(Message(call, 1, c.req)), Receive(Reply(call, 1, result)));
  }

  /** A fresh call that succeeds is told the result. */
  lemma CallIsTold(w: World, call: nat, c: Call, result: CommitResult)
    requires call in w.calls && w.calls[call] == c && c.origin.Fresh? && c.phase == Succeeded(result)
    ensures var end := Next(w, Conclude(call)); call in end.calls && end.calls[call].phase == Answered(Committed(result)) && end.db == w.db
  {
  }

  /**
   A fresh call that has failed for want of the transport does not end without spooling: nothing but the spool
   answers it, and the spool keeps the request unless it holds a credential, its name is taken, or the disk fails.
   */
  lemma LostIsSpooled(w: World, call: nat, c: Call, stamp: string, whole: bool)
    requires call in w.calls && w.calls[call] == c && c.origin.Fresh? && c.phase.GivingUp?
    requires c.phase.fault.Transport? || c.phase.fault.Spawn? || c.phase.fault.Timeout?
    ensures forall e: Event | !e.Spool? :: call in Next(w, e).calls && Next(w, e).calls[call] == c
    ensures var path, end := SpoolName(stamp, c.req.id), Next(w, Spool(call, c.req.id, stamp, whole));
            call in end.calls && end.db == w.db &&
            end.calls[call].phase ==
              (if w.db.scan(CommitBody(CommitOf(OpOf(c.req)))) then Answered(Failed(Core))
               else if path in w.files || !whole then Answered(Failed(Io)) else Answered(SpooledAt(path))) &&
            (end.calls[call].phase.answer.SpooledAt? ==> path in end.files && end.files[path] == Envelope(c.req))
  {
    hide Step, CommitWork, SpoolName;
  }

  /** Other faults end a fresh call as they are; a retried call is kept for later by the transport's faults alone. */
  lemma OtherFaultsEnd(w: World, call: nat, c: Call)
    requires call in w.calls && w.calls[call] == c && c.phase.GivingUp?
    requires c.origin.FromSpool? || !(c.phase.fault.Transport? || c.phase.fault.Spawn? || c.phase.fault.Timeout?)
    ensures var end := Next(w, Conclude(call));
            call in end.calls && end.files == w.files &&
            end.calls[call].phase == Answered(if c.origin.FromSpool? && c.phase.fault.Transport? then Retained else Failed(c.phase.fault))
  {
  }

  /** A first attempt whose transport fails is followed by a second one, if the daemon may be started and is. */
  lemma BrokenIsRetried(w: World, call: nat, c: Call, fault: Fault)
    requires Waiting(w, call, c)
    ensures var mid := Next(w, Break(call, fault));
            call in mid.calls && mid.calls[call] == c.(phase := if fault.Transport? && w.autostart then Restarting else GivingUp(fault)) &&
            (fault.Transport? && w.autostart ==> Waits(Next(mid, Restarted(call)), call, c.(phase := Trying(2))))
  {
  }

  // All the steps of retrying a spool file that nothing disturbs.
  function RetryOf(call: nat, path: Path, req: Request, result: Option<CommitResult>): seq<Event> {
    [BeginRetry(call, path)] + Attempt(call, req, result) + [Remove(call, true)]
  }

  /** A spooled request that the daemon takes is in the log at the end of an undisturbed retry, and its file is gone. */
  lemma RetryDelivers(w: World, call: nat, path: Path)
    requires call !in w.calls && path in w.files && w.files[path].Envelope?
    requires OutcomeIn(w, w.files[path].req).Some?
    ensures var req := w.files[path].req; var end := Play(w, RetryOf(call, path, req, OutcomeIn(w, req)));
            end.db == Step(w.db, OpOf(req)) && end.files == w.files - {path} &&
            call in end.calls && end.calls[call].phase == Answered(Delivered)
  {
    hide Step, CommitWork, Attempt, Play;
    var req, result := w.files[path].req, OutcomeIn(w, w.files[path].req);
    var begun := Next(w, BeginRetry(call, path));
    assert Waiting(begun, call, Call(req, FromSpool(path), Trying(1)));
    AttemptAnswers(begun, call, Call(req, FromSpool(path), Trying(1)));
    PlayOne(w, BeginRetry(call, path), Attempt(call, req, result));
    PlayLast(w, [BeginRetry(call, path)] + Attempt(call, req, result), Remove(call, true));
  }

  lemma PlayOne(w: World, e: Event, more: seq<Event>)
    ensures Play(w, [e] + more) == Play(Next(w, e), more)
    decreases |more|
  {
    hide Next;
    if more == [] {
      assert [e] + more == [e] && [e][..0] == [];
    } else {
      var n := |more| - 1;
      assert ([e] + more)[..n + 1] == [e] + more[..n];
      PlayOne(w, e, more[..n]);
    }
  }

  lemma PlayLast(w: World, events: seq<Event>, e: Event)
    ensures Play(w, events + [e]) == Next(Play(w, events), e)
  {
    hide Next;
    assert (events + [e])[..|events|] == events;
  }
}
