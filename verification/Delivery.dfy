/**
 Delivery of commits to the daemon as an asynchronous protocol. Any number of clients call, lose replies,
 resend after starting the daemon, spool, and retry spooled files, in any interleaving with each other, with
 late deliveries and with every other operation on the store (`context-client` and `commit_work_tx`).
 */
module Delivery {
  import opened Model
  import opened Database
  import opened Operations
  import opened Invariant
  import opened Runs
  import opened ImportLog

  // ---------- a request id takes effect once ----------

  function IdOfCommit(op: Op): RequestId
    requires op.Commit?
  {
    ByClient(op.id)
  }

  // A commit that does something: it succeeds, and its id is new to the log.
  predicate Effective(db: DB, op: Op) {
    op.Commit? ==> IdOfCommit(op) !in db.commits && CommitWork(db, CommitOf(op), false).Done?
  }

  /** The run with every commit left out that fails or repeats a request id. */
  function FirstOnly(db: DB, ops: seq<Op>): seq<Op> {
    if ops == [] then [] else
      var n := |ops| - 1;
      FirstOnly(db, ops[..n]) + (if Effective(Run(db, ops[..n]), ops[n]) then [ops[n]] else [])
  }

  predicate DistinctCommits(ops: seq<Op>) {
    forall i, j | 0 <= i < j < |ops| && ops[i].Commit? && ops[j].Commit? :: ops[i].id != ops[j].id
  }

  predicate CommitsWith(ops: seq<Op>, id: string) {
    exists i | 0 <= i < |ops| :: ops[i].Commit? && ops[i].id == id
  }

  lemma IneffectiveChangesNothing(db: DB, op: Op)
    requires !Effective(db, op)
    ensures Step(db, op) == db
  {
    hide CommitRun, CommitProposals;
  }

  lemma EffectiveLogs(db: DB, op: Op)
    requires Valid(db) && op.Commit? && Effective(db, op)
    ensures IdOfCommit(op) in Step(db, op).commits
  {
    StepHealthyLog(db, op);
  }

  lemma StepHealthyLog(db: DB, op: Op)
    requires Valid(db) && op.Commit? && CommitWork(db, CommitOf(op), false).Done?
    ensures IdOfCommit(op) in Step(db, op).commits && Step(db, op).commits[IdOfCommit(op)] == CommitWork(db, CommitOf(op), false).value
  {
    hide CommitRun, CommitProposals, Valid;
  }

  /**
   Exactly-once effect: the store is the one that results from running each request id once, at its first
   successful execution; every id that the run committed is committed by exactly one operation of that run.
   */
  lemma {:induction false} ExactlyOnceEffect(db: DB, ops: seq<Op>)
    requires Valid(db)
    ensures Run(db, FirstOnly(db, ops)) == Run(db, ops)
    ensures DistinctCommits(FirstOnly(db, ops))
    ensures forall id: string :: CommitsWith(FirstOnly(db, ops), id) <==> ByClient(id) in Run(db, ops).commits && ByClient(id) !in db.commits
  {
    if ops != [] {
      var n := |ops| - 1;
      ExactlyOnceEffect(db, ops[..n]);
      RunMoves(db, ops[..n]);
      OnceMore(db, ops[..n], ops[n]);
      assert Run(db, ops) == Step(Run(db, ops[..n]), ops[n]);
    }
  }

  lemma OnceMore(db: DB, front: seq<Op>, op: Op)
    requires Valid(db) && Moves(db, Run(db, front))
    requires Run(db, FirstOnly(db, front)) == Run(db, front) && DistinctCommits(FirstOnly(db, front))
    requires forall id: string :: CommitsWith(FirstOnly(db, front), id) <==> ByClient(id) in Run(db, front).commits && ByClient(id) !in db.commits
    ensures var mid := Run(db, front); var end := Step(mid, op);
            var first := FirstOnly(db, front) + (if Effective(mid, op) then [op] else []);
            Run(db, first) == end && DistinctCommits(first) &&
            forall id: string :: CommitsWith(first, id) <==> ByClient(id) in end.commits && ByClient(id) !in db.commits
  {
    hide Valid, Step;
    var mid := Run(db, front);
    var end := Step(mid, op);
    var was := FirstOnly(db, front);
    if Effective(mid, op) {
      var first := was + [op];
      assert first[..|was|] == was;
      CommitIdsAfter(db, mid, op);
      CommitsWithAppend(was, op);
      if op.Commit? {
        forall i | 0 <= i < |was| && was[i].Commit? ensures was[i].id != op.id { assert CommitsWith(was, was[i].id); }
      }
    } else {
      IneffectiveChangesNothing(mid, op);
      assert was + [] == was;
    }
  }

  lemma CommitsWithAppend(ops: seq<Op>, op: Op)
    ensures forall id: string :: CommitsWith(ops + [op], id) <==> CommitsWith(ops, id) || (op.Commit? && op.id == id)
  {
    forall id: string ensures CommitsWith(ops + [op], id) <==> CommitsWith(ops, id) || (op.Commit? && op.id == id) {
      var all := ops + [op];
      if CommitsWith(ops, id) {
        var i :| 0 <= i < |ops| && ops[i].Commit? && ops[i].id == id;
        assert all[i].Commit? && all[i].id == id;
      }
      if op.Commit? && op.id == id { assert all[|ops|].Commit? && all[|ops|].id == id; }
    }
  }

  // A step adds no client's id to the log but that of the commit it is.
  lemma CommitIdsAfter(db: DB, mid: DB, op: Op)
    requires Valid(mid) && Effective(mid, op) && forall id | id in db.commits :: id in mid.commits
    ensures var end := Step(mid, op);
            forall id: string :: ByClient(id) in end.commits && ByClient(id) !in db.commits <==>
                                 (ByClient(id) in mid.commits && ByClient(id) !in db.commits) || (op.Commit? && op.id == id)
  {
    var end := Step(mid, op);
    StepKeepsLog(mid, op);
    OnlyCommitsLogClients(mid, op);
    if op.Commit? { EffectiveLogs(mid, op); }
  }

  lemma StepKeepsLog(db: DB, op: Op)
    requires Valid(db)
    ensures forall id | id in db.commits :: id in Step(db, op).commits && Step(db, op).commits[id] == db.commits[id]
  {
    StepSound(db, op);
  }

  lemma OnlyCommitsLogClients(db: DB, op: Op)
    requires Valid(db)
    ensures forall id: string :: ByClient(id) in Step(db, op).commits ==> ByClient(id) in db.commits || (op.Commit? && op.id == id)
  {
    if op.Commit? {
      CommitLogsItself(db, CommitOf(op), false);
    } else if op.Import? {
      ImportLogsNoClient(db, op.import_);
    } else {
      OthersKeepLog(db, op);
    }
  }
}
