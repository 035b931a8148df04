/** core/db.py: the bounded write queue, the batch writer and its supervisor.

    Producers only append to the queue and the one writer only takes from its front, so a run is
    an interleaving of ``Enqueue``, ``Take`` (the writer's gets) and ``Flush`` (execute the batch). */
module WriteQueue {
  const QUEUE_MAX := 10000
  const BATCH_SIZE := 500
  const MAX_WRITER_RESTARTS := 5

  /** Executing one statement: done, refused with a database error, or any other exception. */
  datatype Outcome<+D> = Done(db: D) | Refused | Crashed

  // ---------------------------------------------------------------- executing statements

  /** Statement by statement, skipping the failing ones. */
  function ApplyEach<D, S>(exec: (D, S) -> Outcome<D>, db: D, stmts: seq<S>): D {
    if stmts == [] then db
    else
      var before := ApplyEach(exec, db, stmts[..|stmts| - 1]);
      match exec(before, stmts[|stmts| - 1])
      case Done(after) => after
      case _ => before
  }

  /** All in one transaction: the first failure decides. */
  function ExecAll<D, S>(exec: (D, S) -> Outcome<D>, db: D, stmts: seq<S>): Outcome<D> {
    if stmts == [] then Done(db)
    else
      match ExecAll(exec, db, stmts[..|stmts| - 1])
      case Done(before) => exec(before, stmts[|stmts| - 1])
      case failed => failed
  }

  /** How many of the statements succeed when the failing ones are skipped. */
  function Successes<D, S>(exec: (D, S) -> Outcome<D>, db: D, stmts: seq<S>): nat {
    if stmts == [] then 0
    else
      var n := |stmts| - 1;
      Successes(exec, db, stmts[..n]) + if exec(ApplyEach(exec, db, stmts[..n]), stmts[n]).Done? then 1 else 0
  }

  /** The statements replayed one by one before the first that crashes. */
  function Survivors<D, S>(exec: (D, S) -> Outcome<D>, db: D, stmts: seq<S>): (r: seq<S>)
    ensures |r| <= |stmts| && r == stmts[..|r|]
  {
    if stmts == [] then []
    else
      var n := |stmts| - 1;
      var before := Survivors(exec, db, stmts[..n]);
      if |before| == n && !exec(ApplyEach(exec, db, stmts[..n]), stmts[n]).Crashed? then stmts else before
  }

  lemma {:induction false} TransactionIsSkipping<D, S>(exec: (D, S) -> Outcome<D>, db: D, stmts: seq<S>)
    requires ExecAll(exec, db, stmts).Done?
    ensures ExecAll(exec, db, stmts).db == ApplyEach(exec, db, stmts)
    ensures Successes(exec, db, stmts) == |stmts|
  {
    if stmts != [] {
      TransactionIsSkipping(exec, db, stmts[..|stmts| - 1]);
    }
  }

  lemma {:induction false} ApplyConcat<D, S>(exec: (D, S) -> Outcome<D>, db: D, a: seq<S>, b: seq<S>)
    ensures ApplyEach(exec, db, a + b) == ApplyEach(exec, ApplyEach(exec, db, a), b)
    ensures Successes(exec, db, a + b) == Successes(exec, db, a) + Successes(exec, ApplyEach(exec, db, a), b)
  {
    if b == [] {
      assert a + b == a;
    } else {
      var n := |b| - 1;
      assert (a + b)[..|a + b| - 1] == a + b[..n];
      ApplyConcat(exec, db, a, b[..n]);
    }
  }

  // ---------------------------------------------------------------- the state and its steps

  /** ``accepted`` and ``processed`` record history: every statement the queue took, and every
      statement committed or dropped for an error, both in order. */
  datatype State<D, S> = State(queue: seq<S>, batch: seq<S>, db: D,
                               ok: nat, droppedFull: nat, droppedError: nat, restarts: nat, dead: bool,
                               attempts: nat, lost: nat, accepted: seq<S>, processed: seq<S>)

  datatype Event<S> = Enqueue(stmt: S) | Take(n: nat) | Flush(commits: bool)

  function Initial<D, S>(db: D): State<D, S> {
    State([], [], db, 0, 0, 0, 0, false, 0, 0, [], [])
  }

  function Accept<D, S>(s: State<D, S>, stmt: S): State<D, S> {
    if |s.queue| < QUEUE_MAX
    then s.(queue := s.queue + [stmt], attempts := s.attempts + 1, accepted := s.accepted + [stmt])
    else s.(droppedFull := s.droppedFull + 1, attempts := s.attempts + 1)
  }

  /** The supervisor's answer to an exception that is not a database error: what is left of the
      batch is gone, and the writer restarts a bounded number of times. */
  function Crash<D, S>(s: State<D, S>, left: nat): State<D, S> {
    s.(batch := [], lost := s.lost + left, restarts := s.restarts + 1,
       dead := s.restarts + 1 > MAX_WRITER_RESTARTS)
  }

  /** Rollback, then every statement on its own. */
  function Replay<D, S>(exec: (D, S) -> Outcome<D>, s: State<D, S>): State<D, S> {
    var done := Survivors(exec, s.db, s.batch);
    var ok := Successes(exec, s.db, done);
    SuccessesBound(exec, s.db, done);
    var s' := s.(db := ApplyEach(exec, s.db, done), ok := s.ok + ok,
                 droppedError := s.droppedError + |done| - ok, processed := s.processed + done);
    if |done| == |s.batch| then s'.(batch := []) else Crash(s', |s.batch| - |done|)
  }

  lemma {:induction false} SuccessesBound<D, S>(exec: (D, S) -> Outcome<D>, db: D, stmts: seq<S>)
    ensures Successes(exec, db, stmts) <= |stmts|
  {
    if stmts != [] {
      SuccessesBound(exec, db, stmts[..|stmts| - 1]);
    }
  }

  function FlushBatch<D, S>(exec: (D, S) -> Outcome<D>, s: State<D, S>, commits: bool): State<D, S> {
    match ExecAll(exec, s.db, s.batch)
    case Done(after) =>
      if commits then s.(db := after, ok := s.ok + |s.batch|, processed := s.processed + s.batch, batch := [])
      else Replay(exec, s)
    case Refused => Replay(exec, s)
    case Crashed => Crash(s, |s.batch|)
  }

  predicate Enabled<D, S>(s: State<D, S>, e: Event<S>) {
    match e
    case Enqueue(_) => true
    case Take(n) => !s.dead && s.batch == [] && 1 <= n <= BATCH_SIZE && n <= |s.queue|
    case Flush(_) => !s.dead && s.batch != []
  }

  function Step<D, S>(exec: (D, S) -> Outcome<D>, s: State<D, S>, e: Event<S>): State<D, S> {
    if !Enabled(s, e) then s
    else
      match e
      case Enqueue(stmt) => Accept(s, stmt)
      case Take(n) => s.(batch := s.queue[..n], queue := s.queue[n..])
      case Flush(commits) => FlushBatch(exec, s, commits)
  }

  function Run<D, S>(exec: (D, S) -> Outcome<D>, db: D, events: seq<Event<S>>): State<D, S> {
    if events == [] then Initial(db)
    else Step(exec, Run(exec, db, events[..|events| - 1]), events[|events| - 1])
  }

  // ---------------------------------------------------------------- what every run keeps

  /** ``sub`` can be obtained from ``full`` by deleting elements. */
  predicate Subsequence<S(==)>(sub: seq<S>, full: seq<S>) {
    if sub == [] then true
    else if full == [] then false
    else if sub[|sub| - 1] == full[|full| - 1] && Subsequence(sub[..|sub| - 1], full[..|full| - 1]) then true
    else Subsequence(sub, full[..|full| - 1])
  }

  lemma {:induction false} SubsequenceGrows<S>(sub: seq<S>, full: seq<S>, more: seq<S>)
    requires Subsequence(sub, full)
    ensures Subsequence(sub, full + more)
    decreases |more|
  {
    if more == [] {
      assert full + more == full;
    } else {
      var n := |more| - 1;
      SubsequenceGrows(sub, full, more[..n]);
      assert (full + more)[..|full + more| - 1] == full + more[..n];
    }
  }

  lemma {:induction false} SubsequenceBoth<S>(sub: seq<S>, full: seq<S>, more: seq<S>)
    requires Subsequence(sub, full)
    ensures Subsequence(sub + more, full + more)
    decreases |more|
  {
    if more == [] {
      assert full + more == full && sub + more == sub;
    } else {
      var n := |more| - 1;
      SubsequenceBoth(sub, full, more[..n]);
      assert (full + more)[..|full + more| - 1] == full + more[..n];
      assert (sub + more)[..|sub + more| - 1] == sub + more[..n];
    }
  }

  /** ``taken`` is what has left the queue and the batch; a crash makes ``processed`` a proper
      subsequence of it, and nothing else does. */
  ghost predicate Invariant<D, S>(exec: (D, S) -> Outcome<D>, db0: D, s: State<D, S>) {
    var waiting := |s.batch| + |s.queue|;
    && |s.queue| <= QUEUE_MAX && |s.batch| <= BATCH_SIZE
    && InOrder(s.accepted, s.processed, s.batch, s.queue)
    && s.lost == |s.accepted| - waiting - |s.processed|
    && s.db == ApplyEach(exec, db0, s.processed)
    && s.ok == Successes(exec, db0, s.processed)
    && s.ok + s.droppedError == |s.processed|
    && s.attempts == |s.accepted| + s.droppedFull
    && s.lost <= BATCH_SIZE * s.restarts
    && s.restarts <= MAX_WRITER_RESTARTS + 1 && (s.dead <==> s.restarts > MAX_WRITER_RESTARTS)
  }

  lemma AcceptKeeps<D, S>(exec: (D, S) -> Outcome<D>, db0: D, s: State<D, S>, stmt: S)
    requires Invariant(exec, db0, s)
    ensures Invariant(exec, db0, Accept(s, stmt))
  {
    if |s.queue| < QUEUE_MAX {
      var waiting := |s.batch| + |s.queue|;
      var s' := Accept(s, stmt);
      assert s'.accepted[|s'.accepted| - waiting - 1..] == s.accepted[|s.accepted| - waiting..] + [stmt];
      assert s.batch + (s.queue + [stmt]) == (s.batch + s.queue) + [stmt];
      assert s'.accepted[..|s'.accepted| - waiting - 1] == s.accepted[..|s.accepted| - waiting];
    }
  }

  /** What the queue, the batch and the processed statements say about each other. */
  ghost predicate InOrder<S>(accepted: seq<S>, processed: seq<S>, batch: seq<S>, queue: seq<S>) {
    var waiting := |batch| + |queue|;
    && waiting <= |accepted|
    && batch + queue == accepted[|accepted| - waiting..]
    && Subsequence(processed, accepted[..|accepted| - waiting])
  }

  /** Finishing ``done``, a prefix of the batch, and losing the rest. */
  lemma FinishPrefix<S>(accepted: seq<S>, processed: seq<S>, batch: seq<S>, queue: seq<S>, done: seq<S>)
    requires InOrder(accepted, processed, batch, queue)
    requires |done| <= |batch| && done == batch[..|done|]
    ensures InOrder(accepted, processed + done, [], queue)
  {
    var taken := accepted[..|accepted| - |batch| - |queue|];
    DropBatch(accepted, batch, queue);
    SubsequenceBoth(processed, taken, done);
    SubsequenceGrows(processed + done, taken + done, batch[|done|..]);
    assert taken + batch == (taken + done) + batch[|done|..];
    assert [] + queue == queue;
  }

  lemma DropBatch<S>(accepted: seq<S>, batch: seq<S>, queue: seq<S>)
    requires |batch| + |queue| <= |accepted|
    requires batch + queue == accepted[|accepted| - |batch| - |queue|..]
    ensures accepted[..|accepted| - |queue|] == accepted[..|accepted| - |batch| - |queue|] + batch
    ensures accepted[|accepted| - |queue|..] == queue
  {
    var tail := accepted[|accepted| - |batch| - |queue|..];
    assert tail[..|batch|] == batch;
    assert tail[|batch|..] == queue;
  }

  lemma CommitKeeps<D, S>(exec: (D, S) -> Outcome<D>, db0: D, s: State<D, S>)
    requires Invariant(exec, db0, s) && Enabled(s, Flush(true)) && ExecAll(exec, s.db, s.batch).Done?
    ensures Invariant(exec, db0, FlushBatch(exec, s, true))
  {
    TransactionIsSkipping(exec, s.db, s.batch);
    ApplyConcat(exec, db0, s.processed, s.batch);
    FinishPrefix(s.accepted, s.processed, s.batch, s.queue, s.batch);
  }

  lemma ReplayKeeps<D, S>(exec: (D, S) -> Outcome<D>, db0: D, s: State<D, S>)
    requires Invariant(exec, db0, s) && Enabled(s, Flush(true))
    ensures Invariant(exec, db0, Replay(exec, s))
  {
    var done := Survivors(exec, s.db, s.batch);
    SuccessesBound(exec, s.db, done);
    ApplyConcat(exec, db0, s.processed, done);
    FinishPrefix(s.accepted, s.processed, s.batch, s.queue, done);
  }

  lemma CrashKeeps<D, S>(exec: (D, S) -> Outcome<D>, db0: D, s: State<D, S>)
    requires Invariant(exec, db0, s) && Enabled(s, Flush(true))
    ensures Invariant(exec, db0, Crash(s, |s.batch|))
  {
    FinishPrefix(s.accepted, s.processed, s.batch, s.queue, []);
    assert s.processed + [] == s.processed;
  }

  lemma StepKeeps<D, S>(exec: (D, S) -> Outcome<D>, db0: D, s: State<D, S>, e: Event<S>)
    requires Invariant(exec, db0, s)
    ensures Invariant(exec, db0, Step(exec, s, e))
  {
    hide ApplyEach, Successes, Replay;
    if Enabled(s, e) {
      match e {
        case Enqueue(stmt) => AcceptKeeps(exec, db0, s, stmt);
        case Take(n) => assert s.batch + s.queue == s.queue[..n] + s.queue[n..];
        case Flush(commits) =>
          match ExecAll(exec, s.db, s.batch) {
            case Done(_) => if commits { CommitKeeps(exec, db0, s); } else { ReplayKeeps(exec, db0, s); }
            case Refused => ReplayKeeps(exec, db0, s);
            case Crashed => CrashKeeps(exec, db0, s);
          }
      }
    }
  }

  lemma {:induction false} RunKeeps<D, S>(exec: (D, S) -> Outcome<D>, db0: D, events: seq<Event<S>>)
    ensures Invariant(exec, db0, Run(exec, db0, events))
  {
    if events != [] {
      RunKeeps(exec, db0, events[..|events| - 1]);
      StepKeeps(exec, db0, Run(exec, db0, events[..|events| - 1]), events[|events| - 1]);
    }
  }

  /** No payload goes uncounted: every attempt is committed, dropped for one of the two counted
      reasons, waiting, being executed, or was in a batch whose execution crashed, and the
      restarts bound the latter. */
  lemma EveryAttemptIsAccounted<D, S>(exec: (D, S) -> Outcome<D>, db0: D, events: seq<Event<S>>)
    ensures var s := Run(exec, db0, events);
            && s.attempts == s.ok + s.droppedFull + s.droppedError + |s.queue| + |s.batch| + s.lost
            && s.lost <= 500 * s.restarts <= 500 * 6
  {
    RunKeeps(exec, db0, events);
  }

  // ---------------------------------------------------------------- what becomes of a batch

  /** ``dbs`` are the databases before, between and after executing the statements in order; ``skipping``
      says whether a refused one is passed over. */
  ghost predicate Performs<D, S>(exec: (D, S) -> Outcome<D>, dbs: seq<D>, stmts: seq<S>, skipping: bool) {
    && |dbs| == |stmts| + 1
    && (forall j :: 0 <= j < |stmts| ==> Leads(exec, dbs[j], stmts[j], dbs[j + 1], skipping))
  }

  ghost predicate Leads<D, S>(exec: (D, S) -> Outcome<D>, before: D, stmt: S, after: D, skipping: bool) {
    match exec(before, stmt)
    case Done(db) => after == db
    case Refused => skipping && after == before
    case Crashed => false
  }

  /** How many of them were done. */
  ghost function DoneOf<D, S>(exec: (D, S) -> Outcome<D>, dbs: seq<D>, stmts: seq<S>): set<nat>
    requires |dbs| == |stmts| + 1
  {
    set j: nat | j < |stmts| && exec(dbs[j], stmts[j]).Done?
  }

  lemma PerformsFront<D, S>(exec: (D, S) -> Outcome<D>, dbs: seq<D>, stmts: seq<S>, skipping: bool)
    requires stmts != [] && Performs(exec, dbs, stmts, skipping)
    ensures var n := |stmts| - 1;
            && Performs(exec, dbs[..n + 1], stmts[..n], skipping)
            && |DoneOf(exec, dbs, stmts)|
               == |DoneOf(exec, dbs[..n + 1], stmts[..n])| + if exec(dbs[n], stmts[n]).Done? then 1 else 0
  {
    var n := |stmts| - 1;
    assert forall j :: 0 <= j < n ==> stmts[..n][j] == stmts[j];
    var front := DoneOf(exec, dbs[..n + 1], stmts[..n]);
    assert DoneOf(exec, dbs, stmts) == if exec(dbs[n], stmts[n]).Done? then front + {n} else front;
  }

  lemma {:induction false} PerformsAll<D, S>(exec: (D, S) -> Outcome<D>, dbs: seq<D>, stmts: seq<S>)
    requires Performs(exec, dbs, stmts, false)
    ensures ExecAll(exec, dbs[0], stmts) == Done(dbs[|stmts|])
  {
    if stmts != [] {
      var n := |stmts| - 1;
      PerformsFront(exec, dbs, stmts, false);
      PerformsAll(exec, dbs[..n + 1], stmts[..n]);
    }
  }

  lemma {:induction false} FailsAt<D, S>(exec: (D, S) -> Outcome<D>, dbs: seq<D>, stmts: seq<S>, k: nat)
    requires k < |stmts| && Performs(exec, dbs, stmts[..k], false) && !exec(dbs[k], stmts[k]).Done?
    ensures ExecAll(exec, dbs[0], stmts) == exec(dbs[k], stmts[k])
  {
    var n := |stmts| - 1;
    if k == n {
      PerformsAll(exec, dbs, stmts[..n]);
    } else {
      assert stmts[..n][..k] == stmts[..k];
      FailsAt(exec, dbs, stmts[..n], k);
    }
  }

  lemma {:induction false} PerformsSkipping<D, S>(exec: (D, S) -> Outcome<D>, dbs: seq<D>, stmts: seq<S>)
    requires Performs(exec, dbs, stmts, true)
    ensures ApplyEach(exec, dbs[0], stmts) == dbs[|stmts|]
    ensures Successes(exec, dbs[0], stmts) == |DoneOf(exec, dbs, stmts)|
    ensures Survivors(exec, dbs[0], stmts) == stmts
  {
    if stmts == [] {
      assert DoneOf(exec, dbs, stmts) == {};
    } else {
      var n := |stmts| - 1;
      PerformsFront(exec, dbs, stmts, true);
      PerformsSkipping(exec, dbs[..n + 1], stmts[..n]);
    }
  }

  lemma {:induction false} StopsAt<D, S>(exec: (D, S) -> Outcome<D>, dbs: seq<D>, stmts: seq<S>, k: nat)
    requires k < |stmts| && Performs(exec, dbs, stmts[..k], true) && exec(dbs[k], stmts[k]).Crashed?
    ensures Survivors(exec, dbs[0], stmts) == stmts[..k]
  {
    var n := |stmts| - 1;
    if k == n {
      PerformsSkipping(exec, dbs, stmts[..n]);
    } else {
      assert stmts[..n][..k] == stmts[..k];
      StopsAt(exec, dbs, stmts[..n], k);
    }
  }

  /** What the supervisor makes of an exception: it counts a restart, up to the one that kills the writer. */
  ghost function Restarted<D, S>(s: State<D, S>): State<D, S> {
    s.(restarts := s.restarts + 1, dead := s.restarts >= 5)
  }

  /** A batch executed in one transaction: when every statement goes through and the commit does, all of
      it is written; when a statement raises anything but a database error, none of it is, and all of it
      is lost, whatever it did before. */
  lemma TransactionOutcome<D, S>(exec: (D, S) -> Outcome<D>, s: State<D, S>, commits: bool, dbs: seq<D>, k: nat)
    requires Enabled(s, Flush(commits)) && k <= |s.batch|
    requires Performs(exec, dbs, s.batch[..k], false) && dbs[0] == s.db
    ensures k == |s.batch| && commits ==>
              Step(exec, s, Flush(commits))
              == s.(db := dbs[k], ok := s.ok + k, processed := s.processed + s.batch, batch := [])
    ensures k < |s.batch| && exec(dbs[k], s.batch[k]).Crashed? ==>
              Step(exec, s, Flush(commits)) == Restarted(s).(lost := s.lost + |s.batch|, batch := [])
  {
    if k == |s.batch| {
      assert s.batch[..k] == s.batch;
      PerformsAll(exec, dbs, s.batch);
    } else if exec(dbs[k], s.batch[k]).Crashed? {
      FailsAt(exec, dbs, s.batch, k);
    }
  }

  /** The transaction runs into a database error: after the first ``k`` statements, or when committing. */
  ghost predicate RollsBack<D, S>(exec: (D, S) -> Outcome<D>, s: State<D, S>, commits: bool, dbs: seq<D>,
                                              k: nat) {
    && k <= |s.batch| && Performs(exec, dbs, s.batch[..k], false) && dbs[0] == s.db
    && if k == |s.batch| then !commits else exec(dbs[k], s.batch[k]).Refused?
  }

  /** After a rollback the statements are executed again from the database as it was, each on its own:
      those refused are dropped and counted, the others are written, up to the first that raises anything
      else; what is left from there on is lost. */
  lemma ReplayOutcome<D, S>(exec: (D, S) -> Outcome<D>, s: State<D, S>, commits: bool, failed: seq<D>, m: nat,
                            dbs: seq<D>, k: nat)
    requires Enabled(s, Flush(commits)) && RollsBack(exec, s, commits, failed, m)
    requires k <= |s.batch| && Performs(exec, dbs, s.batch[..k], true) && dbs[0] == s.db
    requires k < |s.batch| ==> exec(dbs[k], s.batch[k]).Crashed?
    ensures var n := |DoneOf(exec, dbs, s.batch[..k])|;
            var s' := s.(db := dbs[k], ok := s.ok + n, processed := s.processed + s.batch[..k], batch := []);
            n <= k && Step(exec, s, Flush(commits))
            == if k == |s.batch| then s'.(droppedError := s.droppedError + (k - n))
               else Restarted(s').(droppedError := s.droppedError + (k - n), lost := s.lost + |s.batch| - k)
  {
    hide Leads, ApplyEach, Successes, Survivors, ExecAll, DoneOf;
    if m == |s.batch| {
      assert s.batch[..m] == s.batch;
      PerformsAll(exec, failed, s.batch);
    } else {
      FailsAt(exec, failed, s.batch, m);
    }
    PerformsSkipping(exec, dbs, s.batch[..k]);
    SuccessesBound(exec, s.db, s.batch[..k]);
    if k < |s.batch| {
      StopsAt(exec, dbs, s.batch, k);
    } else {
      assert s.batch[..k] == s.batch;
    }
  }

  ghost predicate NeverCrashes<D(!new), S(!new)>(exec: (D, S) -> Outcome<D>) {
    forall db, stmt :: !exec(db, stmt).Crashed?
  }

  lemma {:induction false} NoCrashNoLoss<D(!new), S(!new)>(exec: (D, S) -> Outcome<D>, db: D, stmts: seq<S>)
    requires NeverCrashes(exec)
    ensures !ExecAll(exec, db, stmts).Crashed? && Survivors(exec, db, stmts) == stmts
  {
    if stmts != [] {
      NoCrashNoLoss(exec, db, stmts[..|stmts| - 1]);
    }
  }

  lemma {:induction false} CrashFreeRunLosesNothing<D(!new), S(!new)>(exec: (D, S) -> Outcome<D>, db0: D,
                                                                      events: seq<Event<S>>)
    requires NeverCrashes(exec)
    ensures Run(exec, db0, events).restarts == 0 == Run(exec, db0, events).lost
  {
    RunKeeps(exec, db0, events);
    if events != [] {
      CrashFreeRunLosesNothing(exec, db0, events[..|events| - 1]);
      var s := Run(exec, db0, events[..|events| - 1]);
      NoCrashNoLoss(exec, s.db, s.batch);
    }
  }

  /** Batching is invisible. However the queue was split into batches, whichever commits failed,
      exactly when no payload was lost to a crash the processed statements are the accepted ones up
      to those still waiting; then the database is what applying these one by one in queue order
      gives, failing ones skipped. */
  lemma BatchingIsInvisible<D, S>(exec: (D, S) -> Outcome<D>, db0: D, events: seq<Event<S>>)
    ensures var s := Run(exec, db0, events);
            var taken := |s.accepted| - |s.batch| - |s.queue|;
            && 0 <= taken
            && s.accepted == s.accepted[..taken] + s.batch + s.queue
            && (s.lost == 0 <==> s.processed == s.accepted[..taken])
            && (s.lost == 0 ==>
                  && s.db == ApplyEach(exec, db0, s.accepted[..taken])
                  && s.ok == Successes(exec, db0, s.accepted[..taken])
                  && s.droppedError == taken - s.ok)
  {
    hide Run, ApplyEach, Successes, Subsequence;
    RunKeeps(exec, db0, events);
    var s := Run(exec, db0, events);
    var waiting := |s.batch| + |s.queue|;
    if s.lost == 0 {
      SubsequenceOfSameLength(s.processed, s.accepted[..|s.accepted| - waiting]);
    }
    assert s.accepted == s.accepted[..|s.accepted| - waiting] + s.accepted[|s.accepted| - waiting..];
  }

  lemma {:induction false} SubsequenceOfSameLength<S>(sub: seq<S>, full: seq<S>)
    requires Subsequence(sub, full) && |sub| >= |full|
    ensures sub == full
  {
    SubsequenceShorter(sub, full);
    if sub != [] {
      var n := |sub| - 1;
      if sub[n] == full[n] && Subsequence(sub[..n], full[..n]) {
        SubsequenceOfSameLength(sub[..n], full[..n]);
        assert sub == sub[..n] + [sub[n]] && full == full[..n] + [full[n]];
      } else {
        SubsequenceShorter(sub, full[..n]);
      }
    }
  }

  lemma {:induction false} SubsequenceShorter<S>(sub: seq<S>, full: seq<S>)
    requires Subsequence(sub, full)
    ensures |sub| <= |full|
  {
    if sub != [] {
      if sub[|sub| - 1] == full[|full| - 1] && Subsequence(sub[..|sub| - 1], full[..|full| - 1]) {
        SubsequenceShorter(sub[..|sub| - 1], full[..|full| - 1]);
      } else {
        SubsequenceShorter(sub, full[..|full| - 1]);
      }
    }
  }

  /** How many payloads still fit into a queue of ten thousand. */
  function Room(n: nat): nat {
    if n < 10000 then 10000 - n else 0
  }

  function Enqueued<S>(events: seq<Event<S>>): seq<S> {
    if events == [] then []
    else Enqueued(events[..|events| - 1]) + match events[|events| - 1] case Enqueue(x) => [x] case _ => []
  }

  function Taken<T>(s: seq<T>, n: nat): seq<T> {
    if n <= |s| then s[..n] else s
  }

  /** What any further events do to a dead writer: it stays dead and touches nothing, and the queue
      goes on accepting, in order, as many payloads as it has room for; only the others are dropped
      and counted. */
  lemma {:induction false} DeadWriterStillAccepts<D, S>(exec: (D, S) -> Outcome<D>, db0: D, events: seq<Event<S>>,
                                                        more: seq<Event<S>>)
    requires Run(exec, db0, events).dead
    ensures var s, s', offered := Run(exec, db0, events), Run(exec, db0, events + more), Enqueued(more);
            && s'.dead && s'.db == s.db && s'.processed == s.processed && s'.ok == s.ok && s'.batch == s.batch
            && s'.accepted == s.accepted + Taken(offered, Room(|s.queue|))
            && s'.queue == s.queue + Taken(offered, Room(|s.queue|))
            && s'.droppedFull == s.droppedFull + |offered| - |Taken(offered, Room(|s.queue|))|
  {
    hide Run, Step, Enqueued, Taken, Room;
    RunKeeps(exec, db0, events);
    var s := Run(exec, db0, events);
    if more == [] {
      NothingOffered<S>(|s.queue|);
      assert events + more == events;
      assert s.accepted + [] == s.accepted && s.queue + [] == s.queue;
    } else {
      var n := |more| - 1;
      DeadWriterStillAccepts(exec, db0, events, more[..n]);
      assert events + more == (events + more[..n]) + [more[n]];
      RunSnoc(exec, db0, events + more[..n], more[n]);
      OneMoreOffered(more, |s.queue|);
      DeadStep(exec, Run(exec, db0, events + more[..n]), more[n]);
    }
  }

  lemma RunSnoc<D, S>(exec: (D, S) -> Outcome<D>, db0: D, events: seq<Event<S>>, e: Event<S>)
    ensures Run(exec, db0, events + [e]) == Step(exec, Run(exec, db0, events), e)
  {
    assert (events + [e])[..|events|] == events;
  }

  lemma NothingOffered<S>(waiting: nat)
    ensures Enqueued<S>([]) == [] && Taken<S>([], Room(waiting)) == []
  {
  }

  /** The queue has room for one more of the payloads offered if it had room for all before it. */
  lemma OneMoreOffered<S>(events: seq<Event<S>>, waiting: nat)
    requires events != [] && waiting <= QUEUE_MAX
    ensures var n, room := |events| - 1, Room(waiting);
            var before, after := Enqueued(events[..n]), Enqueued(events);
            && after == before + (if events[n].Enqueue? then [events[n].stmt] else [])
            && (if events[n].Enqueue? && waiting + |Taken(before, room)| < QUEUE_MAX
                then Taken(after, room) == Taken(before, room) + [events[n].stmt]
                else Taken(after, room) == Taken(before, room))
  {
  }

  lemma DeadStep<D, S>(exec: (D, S) -> Outcome<D>, s: State<D, S>, e: Event<S>)
    requires s.dead
    ensures var s' := Step(exec, s, e);
            && s'.dead && s'.db == s.db && s'.processed == s.processed && s'.ok == s.ok && s'.batch == s.batch
            && (if e.Enqueue? && |s.queue| < QUEUE_MAX
                then && s'.accepted == s.accepted + [e.stmt] && s'.queue == s.queue + [e.stmt]
                     && s'.droppedFull == s.droppedFull
                else && s'.accepted == s.accepted && s'.queue == s.queue
                     && s'.droppedFull == s.droppedFull + if e.Enqueue? then 1 else 0)
  {
  }

  /** One payload at a time, enqueued, taken and executed. */
  function Rounds<S>(stmt: S, n: nat): seq<Event<S>> {
    if n == 0 then [] else Rounds(stmt, n - 1) + [Enqueue(stmt), Take(1), Flush(true)]
  }

  lemma RunThree<D, S>(exec: (D, S) -> Outcome<D>, db0: D, events: seq<Event<S>>, a: Event<S>, b: Event<S>, c: Event<S>)
    ensures Run(exec, db0, events + [a, b, c]) == Step(exec, Step(exec, Step(exec, Run(exec, db0, events), a), b), c)
  {
    hide Run, Step;
    RunSnoc(exec, db0, events, a);
    RunSnoc(exec, db0, events + [a], b);
    RunSnoc(exec, db0, events + [a] + [b], c);
    assert events + [a] + [b] + [c] == events + [a, b, c];
  }

  /** A dead writer is reached: six payloads in a row whose execution raises something other than a
      database error. */
  lemma {:induction false} CrashesKillTheWriter<D, S>(exec: (D, S) -> Outcome<D>, db0: D, stmt: S, n: nat)
    requires exec(db0, stmt).Crashed? && n <= MAX_WRITER_RESTARTS + 1
    ensures var s := Run(exec, db0, Rounds(stmt, n));
            && s.queue == [] && s.batch == [] && s.db == db0 && s.restarts == n
            && (s.dead <==> n == MAX_WRITER_RESTARTS + 1)
  {
    hide Step;
    if n > 0 {
      CrashesKillTheWriter(exec, db0, stmt, n - 1);
      RunThree(exec, db0, Rounds(stmt, n - 1), Enqueue(stmt), Take(1), Flush(true));
      OneCrash(exec, Run(exec, db0, Rounds(stmt, n - 1)), stmt);
    }
  }

  lemma OneCrash<D, S>(exec: (D, S) -> Outcome<D>, s: State<D, S>, stmt: S)
    requires exec(s.db, stmt).Crashed? && s.queue == [] && s.batch == [] && !s.dead
    ensures var s' := Step(exec, Step(exec, Step(exec, s, Enqueue(stmt)), Take(1)), Flush(true));
            && s'.queue == [] && s'.batch == [] && s'.db == s.db && s'.restarts == s.restarts + 1
            && (s'.dead <==> s'.restarts > MAX_WRITER_RESTARTS)
  {
    var s2 := Step(exec, Step(exec, s, Enqueue(stmt)), Take(1));
    assert s2.batch == [stmt] && s2.queue == [];
    assert [stmt][..0] == [];
    assert ExecAll(exec, s.db, [stmt]).Crashed?;
  }

  // ---------------------------------------------------------------- the module's state

  /** The queue, the write connection and the metrics. */
  class Writer<D, S> {
    const exec: (D, S) -> Outcome<D>
    var queue: seq<S>
    var batch: seq<S>
    var db: D
    var ok: nat
    var droppedFull: nat
    var droppedError: nat
    var restarts: nat
    var dead: bool
    ghost var attempts: nat
    ghost var lost: nat
    ghost var accepted: seq<S>
    ghost var processed: seq<S>

    constructor (exec: (D, S) -> Outcome<D>, db: D)
      ensures this.exec == exec && Now() == Initial(db)
    {
      this.exec, this.db := exec, db;
      queue, batch, ok, droppedFull, droppedError, restarts, dead := [], [], 0, 0, 0, 0, false;
      attempts, lost, accepted, processed := 0, 0, [], [];
    }

    ghost function Now(): State<D, S>
      reads this
    {
      State(queue, batch, db, ok, droppedFull, droppedError, restarts, dead, attempts, lost, accepted, processed)
    }

    /** ``enqueue_write``: never blocks; a full queue drops the payload and counts it. */
    method EnqueueWrite(stmt: S) returns (taken: bool)
      modifies this
      ensures Now() == Step(exec, old(Now()), Enqueue(stmt))
      ensures taken <==> |old(queue)| < QUEUE_MAX
    {
      attempts := attempts + 1;
      if |queue| < QUEUE_MAX {
        queue, accepted := queue + [stmt], accepted + [stmt];
        return true;
      }
      droppedFull := droppedFull + 1;
      return false;
    }

    /** The gets of one turn: up to BATCH_SIZE payloads, or the ``available`` ones the writer finds
        before the queue reads empty. */
    method TakeBatch(available: nat)
      requires !dead && batch == [] && 1 <= available <= |queue|
      modifies this
      ensures Now() == Step(exec, old(Now()), Take(if available < 500 then available else 500))
    {
      ghost var before := queue;
      batch, queue := [queue[0]], queue[1..];
      while |batch| < BATCH_SIZE && |batch| < available
        invariant 1 <= |batch| <= BATCH_SIZE && |batch| <= available <= |before|
        invariant batch == before[..|batch|] && queue == before[|batch|..]
        invariant Now().(batch := [], queue := before) == old(Now())
        decreases available - |batch|
      {
        batch, queue := batch + [queue[0]], queue[1..];
      }
    }

    /** One commit for the whole batch; on a database error, rollback and one commit per payload.
        Any other exception reaches the supervisor. */
    method Execute(commits: bool)
      requires !dead && batch != []
      modifies this
      ensures Now() == Step(exec, old(Now()), Flush(commits))
    {
      var txn, i := db, 0;
      while i < |batch|
        invariant 0 <= i <= |batch|
        invariant ExecAll(exec, db, batch[..i]) == Done(txn)
      {
        assert batch[..i + 1][..i] == batch[..i];
        match exec(txn, batch[i]) {
          case Done(after) =>
            txn := after;
          case Refused =>
            FirstFailureDecides(exec, db, batch, i + 1);
            ReplayBatch();
            return;
          case Crashed =>
            FirstFailureDecides(exec, db, batch, i + 1);
            Supervise(|batch|);
            return;
        }
        i := i + 1;
      }
      assert batch[..i] == batch;
      if !commits {
        ReplayBatch();
      } else {
        db, ok := txn, ok + |batch|;
        processed, batch := processed + batch, [];
      }
    }

    /** One payload in its own transaction. */
    method ReplayOne(stmt: S) returns (crashed: bool)
      modifies this`db, this`ok, this`droppedError
      ensures crashed <==> exec(old(db), stmt).Crashed?
      ensures db == match exec(old(db), stmt) case Done(after) => after case _ => old(db)
      ensures ok == old(ok) + if exec(old(db), stmt).Done? then 1 else 0
      ensures droppedError == old(droppedError) + if exec(old(db), stmt).Refused? then 1 else 0
    {
      crashed := false;
      match exec(db, stmt) {
        case Done(after) => db, ok := after, ok + 1;
        case Refused => droppedError := droppedError + 1;
        case Crashed => crashed := true;
      }
    }

    method ReplayBatch()
      modifies this
      ensures Now() == Replay(exec, old(Now()))
    {
      hide ApplyEach, Successes, Survivors;
      ghost var before := Now();
      NothingReplayed(exec, db);
      assert batch[..0] == [];
      var i, crashed := 0, false;
      while i < |batch| && !crashed
        invariant 0 <= i <= |batch|
        invariant db == ApplyEach(exec, before.db, batch[..i])
        invariant ok == before.ok + Successes(exec, before.db, batch[..i])
        invariant ok + droppedError == before.ok + before.droppedError + i
        invariant if crashed then i < |batch| && Survivors(exec, before.db, batch) == batch[..i]
                  else Survivors(exec, before.db, batch[..i]) == batch[..i]
        modifies this`db, this`ok, this`droppedError
        decreases |batch| - i, !crashed
      {
        ReplayStep(exec, before.db, batch, i);
        crashed := ReplayOne(batch[i]);
        if !crashed {
          i := i + 1;
        }
      }
      assert !crashed ==> batch[..i] == batch;
      processed := processed + batch[..i];
      if crashed {
        Supervise(|batch| - i);
      } else {
        batch := [];
      }
    }

    /** ``_writer_supervisor``'s except branch. */
    method Supervise(ghost left: nat)
      modifies this
      ensures Now() == Crash(old(Now()), left)
    {
      lost := lost + left;
      batch := [];
      restarts := restarts + 1;
      if restarts > MAX_WRITER_RESTARTS {
        dead := true;
      } else {
        dead := false;
      }
    }
  }

  lemma {:induction false} FirstFailureDecides<D, S>(exec: (D, S) -> Outcome<D>, db: D, stmts: seq<S>, i: nat)
    requires i <= |stmts| && !ExecAll(exec, db, stmts[..i]).Done?
    ensures ExecAll(exec, db, stmts) == ExecAll(exec, db, stmts[..i])
  {
    if i == |stmts| {
      assert stmts[..i] == stmts;
    } else {
      assert stmts[..|stmts| - 1][..i] == stmts[..i];
      FirstFailureDecides(exec, db, stmts[..|stmts| - 1], i);
    }
  }

  lemma NothingReplayed<D, S>(exec: (D, S) -> Outcome<D>, db: D)
    ensures ApplyEach(exec, db, []) == db && Successes(exec, db, []) == 0 && Survivors(exec, db, []) == []
  {
  }

  /** One more payload replayed, when none has crashed so far. */
  lemma ReplayStep<D, S>(exec: (D, S) -> Outcome<D>, db: D, stmts: seq<S>, i: nat)
    requires i < |stmts| && Survivors(exec, db, stmts[..i]) == stmts[..i]
    ensures var outcome := exec(ApplyEach(exec, db, stmts[..i]), stmts[i]);
            && ApplyEach(exec, db, stmts[..i + 1])
               == (match outcome case Done(after) => after case _ => ApplyEach(exec, db, stmts[..i]))
            && Successes(exec, db, stmts[..i + 1])
               == Successes(exec, db, stmts[..i]) + (if outcome.Done? then 1 else 0)
            && (if outcome.Crashed? then Survivors(exec, db, stmts) == stmts[..i]
                else Survivors(exec, db, stmts[..i + 1]) == stmts[..i + 1])
  {
    assert stmts[..i + 1][..i] == stmts[..i];
    if exec(ApplyEach(exec, db, stmts[..i]), stmts[i]).Crashed? {
      SurvivorsStop(exec, db, stmts, i);
    }
  }

  lemma {:induction false} SurvivorsStop<D, S>(exec: (D, S) -> Outcome<D>, db: D, stmts: seq<S>, i: nat)
    requires i < |stmts| && Survivors(exec, db, stmts[..i]) == stmts[..i]
    requires exec(ApplyEach(exec, db, stmts[..i]), stmts[i]).Crashed?
    ensures Survivors(exec, db, stmts) == stmts[..i]
  {
    var n := |stmts| - 1;
    if i < n {
      assert stmts[..n][..i] == stmts[..i];
      SurvivorsStop(exec, db, stmts[..n], i);
    }
  }
}
