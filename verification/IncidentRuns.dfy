/** Whole runs of the engine: any interleaving of correlation cycles, grouping cycles and quiet
    closing, from empty tables. */
module IncidentRuns {
  import opened Wrappers
  import opened Evidence
  import Correlator
  import opened Incidents
  import opened Grouping
  import opened Conclusions

  datatype Op =
    | Correlate(context: Correlator.Context, now: int, produced: seq<Correlator.Item>)
    | GroupEvidence(world: World, now: int, clock: int)
    | CloseQuiet(now: int)

  function Step(db: Db, op: Op): Db {
    match op
    case Correlate(c, now, produced) => db.(evidence := Correlator.Correlate(c, now, produced, db.evidence))
    case GroupEvidence(w, now, clock) => Group(w, db, now, clock)
    case CloseQuiet(now) => Close(db, now)
  }

  function Run(ops: seq<Op>): Db {
    if ops == [] then Db([], [], [])
    else Step(Run(ops[..|ops| - 1]), ops[|ops| - 1])
  }

  // ---------------------------------------------------------------- every run

  ghost predicate EngineInvariant(db: Db) {
    WellFormed(db.evidence) && Sound(db) && Archived(db.verdicts) && Fits(db)
  }

  lemma GroupExtends(w: World, db: Db, now: int, clock: int)
    requires EngineInvariant(db)
    ensures EngineInvariant(Group(w, db, now, clock))
    ensures Extends(db.evidence, Group(w, db, now, clock).evidence)
  {
    hide Group, Free, AssignAll, Sound, Archived, Fits;
    var ids := Free(db.evidence, now - LOOKBACK_S);
    AssignFree(db, now - LOOKBACK_S);
    AssignAllRows(db, ids);
    GroupRethinks(w, db, now, clock);
    GroupFits(w, db, now, clock);
    var evs' := Group(w, db, now, clock).evidence;
    forall i | 0 <= i < |db.evidence| ensures Continues(db.evidence[i], evs'[i]) {
      assert db.evidence[i].incident.Some? ==> i !in ids;
    }
    assert forall i :: 0 <= i < |evs'| ==> evs'[i].key == db.evidence[i].key && evs'[i].status == db.evidence[i].status;
  }

  lemma StepKeeps(db: Db, op: Op)
    requires EngineInvariant(db)
    ensures EngineInvariant(Step(db, op)) && Extends(db.evidence, Step(db, op).evidence)
  {
    match op {
      case Correlate(c, now, produced) =>
        Correlator.CorrelateKeeps(c, now, produced, db.evidence);
        SoundAfterCycle(db, Step(db, op).evidence, now);
        assert Fits(db) ==> Fits(Step(db, op));
      case GroupEvidence(w, now, clock) =>
        GroupExtends(w, db, now, clock);
      case CloseQuiet(now) =>
        SoundAfterClose(db, now);
        CloseFits(db, now);
    }
  }

  /** In every reachable state dedup keys are unique and proofs exist, the incident rows are the
      aggregates of their evidence, each incident has at most one conclusion in force, the last,
      never equal to the one before it, and the incident row says what that conclusion says unless
      it says that nothing stands. */
  lemma {:induction false} EveryRunIsSound(ops: seq<Op>)
    ensures EngineInvariant(Run(ops))
  {
    if ops != [] {
      EveryRunIsSound(ops[..|ops| - 1]);
      StepKeeps(Run(ops[..|ops| - 1]), ops[|ops| - 1]);
    }
  }

  /** Once retracted, always retracted; once in an incident, always in that incident. */
  lemma {:induction false} HistoryIsKept(ops: seq<Op>, k: nat)
    requires k <= |ops|
    ensures Extends(Run(ops[..k]).evidence, Run(ops).evidence)
  {
    if k == |ops| {
      assert ops[..k] == ops;
    } else {
      var n := |ops| - 1;
      assert ops[..n][..k] == ops[..k];
      HistoryIsKept(ops[..n], k);
      LastStepExtends(ops);
      ExtendsTransitive(Run(ops[..k]).evidence, Run(ops[..n]).evidence, Run(ops).evidence);
    }
  }

  lemma LastStepExtends(ops: seq<Op>)
    requires ops != []
    ensures Extends(Run(ops[..|ops| - 1]).evidence, Run(ops).evidence)
  {
    EveryRunIsSound(ops[..|ops| - 1]);
    StepKeeps(Run(ops[..|ops| - 1]), ops[|ops| - 1]);
  }

  // ---------------------------------------------------------------- conclusions over a run

  /** The time of the earliest correlation cycle not yet followed by grouping. */
  function Debt(ops: seq<Op>): Option<int> {
    if ops == [] then None
    else
      var before := Debt(ops[..|ops| - 1]);
      match ops[|ops| - 1]
      case Correlate(_, now, _) => Some(Min(now, before.GetOr(now)))
      case GroupEvidence(_, _, _) => None
      case CloseQuiet(_) => before
  }

  /** Each grouping cycle runs within LOOKBACK_S of the correlation cycles before it. */
  predicate Paced(ops: seq<Op>) {
    ops == []
    || (Paced(ops[..|ops| - 1])
        && (ops[|ops| - 1].GroupEvidence? ==>
              var debt := Debt(ops[..|ops| - 1]);
              debt.None? || ops[|ops| - 1].now - LOOKBACK_S <= debt.value))
  }

  lemma {:induction false} PacedRunOwes(ops: seq<Op>)
    requires Paced(ops)
    ensures match Debt(ops) case None => Settled(Run(ops)) case Some(t) => Owing(Run(ops), t)
  {
    if ops != [] {
      var n := |ops| - 1;
      var before, debt := Run(ops[..n]), Debt(ops[..n]);
      PacedRunOwes(ops[..n]);
      EveryRunIsSound(ops[..n]);
      match ops[n] {
        case Correlate(c, now, produced) =>
          var t := Min(now, debt.GetOr(now));
          Correlator.CorrelateKeeps(c, now, produced, before.evidence);
          OwingLonger(before, debt, t);
          OwingAfterCycle(before, Run(ops).evidence, now, t);
        case GroupEvidence(w, now, clock) =>
          var t := debt.GetOr(now);
          OwingLonger(before, debt, t);
          GroupSettles(w, before, now, clock, t);
        case CloseQuiet(now) =>
          CloseSettles(before, now, debt);
      }
    }
  }

  lemma OwingLonger(db: Db, debt: Option<int>, t: int)
    requires match debt case None => Settled(db) case Some(d) => Owing(db, d) && t <= d
    ensures Owing(db, t)
  {
    forall i: nat | i < |db.incidents| ensures Concluded(db, i) || LostSince(db.evidence, i, t) {
      if debt.Some? && LostSince(db.evidence, i, debt.value) {
        var id :| id in RetractedIds(db.evidence, i) && db.evidence[id].status.at >= debt.value;
        assert db.evidence[id].status.at >= t;
      }
    }
  }

  lemma CloseSettles(db: Db, now: int, debt: Option<int>)
    ensures Settled(db) ==> Settled(Close(db, now))
    ensures debt.Some? && Owing(db, debt.value) ==> Owing(Close(db, now), debt.value)
  {
    assert forall i: nat :: Concluded(Close(db, now), i) <==> Concluded(db, i);
  }

  /** After every grouping cycle of a paced run, each incident has exactly one conclusion in
      force and it rests on exactly the evidence that stands. */
  lemma ConclusionsFollowRetractions(ops: seq<Op>, i: nat)
    requires Paced(ops) && ops != [] && ops[|ops| - 1].GroupEvidence? && i < |Run(ops).incidents|
    ensures var db := Run(ops);
            exists v :: 0 <= v < |db.verdicts| && db.verdicts[v].incident == i && db.verdicts[v].superseded.None?
                        && UpToDate(db.evidence, i, db.verdicts[v].reasoning)
                        && (forall u :: 0 <= u < |db.verdicts| && db.verdicts[u].incident == i && u != v
                                        ==> u < v && db.verdicts[u].superseded.Some?)
  {
    var db := Run(ops);
    EveryRunIsSound(ops);
    PacedRunOwes(ops);
    assert Concluded(db, i);
    LiveIsLast(db.verdicts, i);
    var v := Live(db.verdicts, i).value;
    forall u | 0 <= u < |db.verdicts| && db.verdicts[u].incident == i && u != v
      ensures u < v && db.verdicts[u].superseded.Some?
    {
      assert v < u ==> LaterOne(db.verdicts, v);
      assert u < v ==> LaterOne(db.verdicts, u);
    }
  }

  /** After every grouping cycle of a paced run: the incident row agrees with the conclusion in force
      exactly when some of its evidence still stands; otherwise it keeps what it said before. */
  lemma RowAgreesWhileEvidenceStands(ops: seq<Op>, i: nat)
    requires Paced(ops) && ops != [] && ops[|ops| - 1].GroupEvidence? && i < |Run(ops).incidents|
    ensures var db := Run(ops);
            db.incidents[i].reasoning == Current(db.verdicts, i) <==> Standing(db.evidence, i) != []
  {
    hide Standing, ByRole, Cause;
    var db := Run(ops);
    EveryRunIsSound(ops);
    PacedRunOwes(ops);
    assert Concluded(db, i) && RowFits(db.incidents[i], Current(db.verdicts, i));
  }

  // ---------------------------------------------------------------- the partition over a run

  /** Each row that comes to grouping fits when its turn comes. */
  ghost predicate EveryRowFits(ops: seq<Op>) {
    ops == []
    || (EveryRowFits(ops[..|ops| - 1])
        && (ops[|ops| - 1].GroupEvidence? ==>
              var db := Run(ops[..|ops| - 1]);
              FitInTurn(db, Free(db.evidence, ops[|ops| - 1].now - LOOKBACK_S))))
  }

  /** The partition is right after every operation of the run, and after every single assignment. */
  ghost predicate SplitAlways(ops: seq<Op>) {
    SplitAtGaps(Run(ops).evidence)
    && (ops == []
        || (SplitAlways(ops[..|ops| - 1])
            && (ops[|ops| - 1].GroupEvidence? ==>
                  var db := Run(ops[..|ops| - 1]);
                  SplitThroughout(db, Free(db.evidence, ops[|ops| - 1].now - LOOKBACK_S)))))
  }

  /** The partition only looks at entities, times and assignments. */
  lemma SplitSameGroups(evs: seq<Row>, evs': seq<Row>)
    requires |evs| <= |evs'|
    requires forall k :: 0 <= k < |evs| ==> SameEntity(evs'[k], evs[k]) && evs'[k].ts == evs[k].ts
                                            && evs'[k].incident == evs[k].incident
    requires forall k :: |evs| <= k < |evs'| ==> evs'[k].incident.None?
    ensures SplitAtGaps(evs) <==> SplitAtGaps(evs')
  {
    forall a, b
      ensures Neighbours(evs, a, b) <==> Neighbours(evs', a, b)
      ensures Along(evs, a, b) <==> Along(evs', a, b)
    {
      SameNeighbours(evs, evs', a, b);
    }
    forall a, b | Along(evs, a, b)
      ensures NoGap(evs, a, b) <==> NoGap(evs', a, b)
    {
    }
  }

  lemma SameNeighbours(evs: seq<Row>, evs': seq<Row>, a: int, b: int)
    requires |evs| <= |evs'|
    requires forall k :: 0 <= k < |evs| ==> SameEntity(evs'[k], evs[k]) && evs'[k].ts == evs[k].ts
                                            && evs'[k].incident == evs[k].incident
    requires forall k :: |evs| <= k < |evs'| ==> evs'[k].incident.None?
    ensures Neighbours(evs, a, b) <==> Neighbours(evs', a, b)
  {
    forall c
      ensures Grouped(evs, c) <==> Grouped(evs', c)
    {
    }
    if Grouped(evs, a) {
      forall c | Grouped(evs, c)
        ensures SameEntity(evs[c], evs[a]) <==> SameEntity(evs'[c], evs'[a])
      {
      }
    }
  }

  lemma PartitionAfterCycle(evs: seq<Row>, evs': seq<Row>, now: int)
    requires Cycle(evs, evs', now)
    ensures SplitAtGaps(evs) <==> SplitAtGaps(evs')
  {
    hide SplitAtGaps;
    assert forall k :: 0 <= k < |evs| ==> Continues(evs[k], evs'[k]);
    SplitSameGroups(evs, evs');
  }

  lemma FreeAllFree(db: Db, since: int)
    requires Sound(db)
    ensures AllFree(db, Free(db.evidence, since)) && Ordered(db.evidence, Free(db.evidence, since))
  {
    hide Sound, Free;
    AssignFree(db, since);
    var ids := Free(db.evidence, since);
    forall a, b | 0 <= a < b < |ids| ensures ids[a] != ids[b] {
      assert Earlier(db.evidence, ids[a], ids[b]);
    }
  }

  /** After grouping the rows are as the batch left them. */
  lemma GroupedAsAssigned(w: World, db: Db, now: int, clock: int)
    requires Sound(db) && Archived(db.verdicts)
    ensures Group(w, db, now, clock).evidence == AssignAll(db, Free(db.evidence, now - LOOKBACK_S)).evidence
  {
    hide Sound, Archived, AssignAll, Free, Touched, RethinkAll;
    GroupRethinks(w, db, now, clock);
  }

  /** In every run, whatever the order in which rows come to grouping: the greedy choice of the oldest
      open match, row by row and batch by batch, with quiet closing in between, gives at every moment
      the incidents that splitting each entity's timeline at the gaps gives, if and only if each row
      fits when its turn comes. */
  lemma {:induction false} GreedyGroupingSplitsAtGaps(ops: seq<Op>)
    ensures SplitAlways(ops) <==> EveryRowFits(ops)
    ensures EveryRowFits(ops) ==> SplitAtGaps(Run(ops).evidence)
  {
    hide Sound, SplitAtGaps, SplitThroughout, FitInTurn, Free, Group, Close, Archived, Fits;
    if ops == [] {
      EmptySplit();
    } else {
      var n := |ops| - 1;
      var before := Run(ops[..n]);
      GreedyGroupingSplitsAtGaps(ops[..n]);
      EveryRunIsSound(ops[..n]);
      match ops[n] {
        case Correlate(c, now, produced) =>
          Correlator.CorrelateKeeps(c, now, produced, before.evidence);
          PartitionAfterCycle(before.evidence, Run(ops).evidence, now);
        case GroupEvidence(w, now, clock) =>
          var ids := Free(before.evidence, now - LOOKBACK_S);
          FreeAllFree(before, now - LOOKBACK_S);
          BatchKeepsPartition(before, ids);
          GroupedAsAssigned(w, before, now, clock);
          if SplitThroughout(before, ids) {
            ThroughoutHolds(before, ids);
          }
          assert SplitAlways(ops[..n]) ==> SplitAtGaps(before.evidence);
        case CloseQuiet(now) =>
          CloseKeepsEvidence(before, now);
      }
    }
  }

  lemma EmptySplit()
    ensures SplitAtGaps([])
  {
  }

  lemma CloseKeepsEvidence(db: Db, now: int)
    ensures Close(db, now).evidence == db.evidence
  {
  }

  // ---------------------------------------------------------------- runs in time order

  /** The rows that come to grouping are new to the timelines of their entities. */
  ghost predicate AllNewest(evs: seq<Row>, since: int) {
    forall id :: id in Free(evs, since) && evs[id].key.entity != "" ==> Newest(evs, evs[id])
  }

  /** Grouping meets the rows of each entity in time order. */
  ghost predicate TimeOrdered(ops: seq<Op>) {
    ops == []
    || (TimeOrdered(ops[..|ops| - 1])
        && (ops[|ops| - 1].GroupEvidence? ==>
              AllNewest(Run(ops[..|ops| - 1]).evidence, ops[|ops| - 1].now - LOOKBACK_S)))
  }

  /** No row comes to grouping while a closed incident of its tenant and entity is in its reach. */
  ghost predicate NeverBlocked(ops: seq<Op>) {
    ops == []
    || (NeverBlocked(ops[..|ops| - 1])
        && (ops[|ops| - 1].GroupEvidence? ==>
              var db := Run(ops[..|ops| - 1]);
              forall id :: id in Free(db.evidence, ops[|ops| - 1].now - LOOKBACK_S) && db.evidence[id].key.entity != ""
                           ==> !Blocked(db.incidents, db.evidence[id])))
  }

  lemma FreeInOrder(db: Db, since: int)
    requires Sound(db) && AllNewest(db.evidence, since)
    ensures InOrder(db, Free(db.evidence, since))
  {
    hide Sound, Free, Newest;
    FreeAllFree(db, since);
    var ids := Free(db.evidence, since);
    assert forall k :: 0 <= k < |ids| ==> ids[k] in ids;
  }

  lemma UnblockedIds(db: Db, ids: seq<nat>)
    requires Within(ids, |db.evidence|)
    ensures Unblocked(db, ids) <==>
            forall id :: id in ids && db.evidence[id].key.entity != "" ==> !Blocked(db.incidents, db.evidence[id])
  {
    hide Blocked;
    assert forall k :: 0 <= k < |ids| ==> ids[k] in ids;
  }

  /** A run that meets the rows of an entity in time order ends with the right partition if and only
      if no row ever came to grouping while a closed incident of its entity was in its reach; a
      partition once broken stays broken. */
  lemma {:induction false} OrderedGroupingSplitsAtGaps(ops: seq<Op>)
    requires TimeOrdered(ops)
    ensures SplitAtGaps(Run(ops).evidence) <==> NeverBlocked(ops)
  {
    hide Sound, SplitAtGaps, Free, Group, Close, AllNewest, Blocked, Archived, Fits;
    if ops == [] {
      EmptySplit();
    } else {
      var n := |ops| - 1;
      var before := Run(ops[..n]);
      OrderedGroupingSplitsAtGaps(ops[..n]);
      EveryRunIsSound(ops[..n]);
      match ops[n] {
        case Correlate(c, now, produced) =>
          Correlator.CorrelateKeeps(c, now, produced, before.evidence);
          PartitionAfterCycle(before.evidence, Run(ops).evidence, now);
        case GroupEvidence(w, now, clock) =>
          var ids := Free(before.evidence, now - LOOKBACK_S);
          FreeInOrder(before, now - LOOKBACK_S);
          UnblockedIds(before, ids);
          OrderedBatch(before, ids);
          GroupedAsAssigned(w, before, now, clock);
        case CloseQuiet(now) =>
          CloseKeepsEvidence(before, now);
      }
    }
  }

  // ---------------------------------------------------------------- prompt runs

  function LastClose(ops: seq<Op>): Option<int> {
    if ops == [] then None
    else
      var before := LastClose(ops[..|ops| - 1]);
      match ops[|ops| - 1]
      case CloseQuiet(now) => Some(Max(now, before.GetOr(now)))
      case _ => before
  }

  /** Grouping meets each row at most QUIET_S - GAP_S after its fact, and never at a time before a
      closing already made. */
  ghost predicate PromptRun(ops: seq<Op>) {
    ops == []
    || (PromptRun(ops[..|ops| - 1])
        && (ops[|ops| - 1].GroupEvidence? ==>
              var db, now := Run(ops[..|ops| - 1]), ops[|ops| - 1].now;
              && now >= LastClose(ops[..|ops| - 1]).GetOr(now)
              && (forall id :: id in Free(db.evidence, now - LOOKBACK_S) && db.evidence[id].key.entity != ""
                               ==> Prompt(db.evidence[id], now))))
  }

  lemma ClosingsAfterGroup(w: World, db: Db, now: int, clock: int, lastClose: Option<int>)
    requires Sound(db) && Archived(db.verdicts) && ClosedQuiet(db.incidents, lastClose)
    ensures ClosedQuiet(Group(w, db, now, clock).incidents, lastClose)
  {
    hide Sound, Archived, Free, AssignAll, RethinkAll, Touched, Relabel;
    var ids := Free(db.evidence, now - LOOKBACK_S);
    var db1 := AssignAll(db, ids);
    FreeAssigned(db, now - LOOKBACK_S);
    AssignAllKeepsClosed(db, ids);
    BackedWhenSound(db1);
    RethinkAllKeeps(w, db1, Touched(db1.evidence, ids, now - LOOKBACK_S), |db1.incidents|, clock);
    forall i | 0 <= i < |db1.incidents|
      ensures var inc := Relabel(w, db1.evidence, db1.incidents[i], i);
              inc.closed == db1.incidents[i].closed && inc.last == db1.incidents[i].last
    {
      RelabelKeeps(w, db1.evidence, db1.incidents[i], i);
    }
  }

  /** Whatever the run, a closed incident had been quiet when it was closed. */
  lemma {:induction false} ClosingsAreQuiet(ops: seq<Op>)
    ensures ClosedQuiet(Run(ops).incidents, LastClose(ops))
  {
    hide Sound, Archived, Fits, Group;
    if ops != [] {
      var n := |ops| - 1;
      ClosingsAreQuiet(ops[..n]);
      EveryRunIsSound(ops[..n]);
      match ops[n] {
        case Correlate(_, _, _) =>
        case GroupEvidence(w, now, clock) =>
          ClosingsAfterGroup(w, Run(ops[..n]), now, clock, LastClose(ops[..n]));
        case CloseQuiet(_) =>
      }
    }
  }

  lemma {:induction false} PromptRunIsNeverBlocked(ops: seq<Op>)
    requires PromptRun(ops)
    ensures NeverBlocked(ops)
  {
    hide Blocked, ClosedQuiet, Free;
    if ops != [] {
      var n := |ops| - 1;
      PromptRunIsNeverBlocked(ops[..n]);
      ClosingsAreQuiet(ops[..n]);
      if ops[n].GroupEvidence? {
        var db, now := Run(ops[..n]), ops[n].now;
        forall id | id in Free(db.evidence, now - LOOKBACK_S) && db.evidence[id].key.entity != ""
          ensures !Blocked(db.incidents, db.evidence[id])
        {
          PromptIsNotBlocked(db.incidents, LastClose(ops[..n]), db.evidence[id], now);
        }
      }
    }
  }

  /** In particular the partition is kept while every row is grouped at most QUIET_S - GAP_S late. */
  lemma PromptGroupingSplitsAtGaps(ops: seq<Op>)
    requires TimeOrdered(ops) && PromptRun(ops)
    ensures SplitAtGaps(Run(ops).evidence)
  {
    PromptRunIsNeverBlocked(ops);
    OrderedGroupingSplitsAtGaps(ops);
  }

  // ---------------------------------------------------------------- short runs, worked out

  const CONTEXT := Correlator.OPEN_CONTEXT

  /** An interface seen down, and the same interface seen up again. */
  function Down(eventId: int, ts: int): Correlator.Item {
    Correlator.SampleItem("IFACE_DOWN_001", Correlator.Found(Correlator.SampleFinding(eventId, ts)))
  }

  function Up(eventId: int, ts: int): Correlator.Item {
    Correlator.SampleItem("IFACE_RECOVERED_001", Correlator.Retract(
      Correlator.Retraction("IFACE_DOWN_001", "e", "t", "", Correlator.SampleFinding(eventId, ts), LOOKBACK_S)))
  }

  function DownRow(eventId: int, ts: int, now: int): Row {
    Correlator.NewRow(CONTEXT, now, Down(eventId, ts), Correlator.SampleFinding(eventId, ts))
  }

  function UpRow(eventId: int, ts: int, now: int): Row {
    Correlator.NewRow(CONTEXT, now, Up(eventId, ts), Correlator.SampleFinding(eventId, ts))
  }

  /** The tables after the interface was seen down once, and that was grouped. */
  ghost predicate OneDown(db: Db, ts: int, now: int) {
    && EngineInvariant(db) && |db.evidence| == 1 && |db.incidents| == 1
    && db.evidence[0] == DownRow(1, ts, now).(incident := Some(0))
    && SameSubject(db.incidents[0], Fresh(db.evidence[0]))
    && db.incidents[0].first == ts == db.incidents[0].last
  }

  function FirstSeen(w: World, ts: int, now: int): seq<Op> {
    [Correlate(CONTEXT, now, [Down(1, ts)]), GroupEvidence(w, now, now)]
  }

  lemma DownIsFound(eventId: int, ts: int, now: int, evs: seq<Row>)
    requires forall k :: 0 <= k < |evs| ==> evs[k].key != DownRow(eventId, ts, now).key
    ensures Correlator.Correlate(CONTEXT, now, [Down(eventId, ts)], evs) == evs + [DownRow(eventId, ts, now)]
  {
    var it := Down(eventId, ts);
    assert it in [it];
    var seen := Correlator.Observed([it], Correlator.GroupOf(it));
    assert it.what.finding.eventId in seen;
    assert seen != {};
    Correlator.LoneFinding(CONTEXT, now, it, evs);
  }

  /** The retraction withdraws the one row of the table and adds its proof. */
  lemma DownIsWithdrawn(evs: seq<Row>, ts: int, now: int, later: int, eventId: int, at: int)
    requires WellFormed(evs) && evs == [DownRow(1, ts, now).(incident := Some(0))] && at <= ts + LOOKBACK_S
    ensures var evs' := Correlator.Correlate(CONTEXT, later, [Up(eventId, at)], evs);
            && |evs'| == 2 && evs'[0] == evs[0].(status := evs'[0].status) && evs'[0].status.Retracted?
            && evs'[1] == UpRow(eventId, at, later)
  {
    var it := Up(eventId, at);
    var r := it.what.retraction;
    Correlator.LoneRetraction(CONTEXT, later, it, evs);
    assert evs[0] in evs && Correlator.Hit(r, evs[0]);
    assert evs[0].key != Correlator.KeyOf(it, r.proof);
    Correlator.RegisteredRow(CONTEXT, later, it, evs);
    Correlator.ApplyFate(CONTEXT, later, it, evs);
  }

  /** When only the last row is free, grouping assigns it alone. */
  lemma LastIsFree(evs: seq<Row>, since: int)
    requires evs != [] && var r := evs[|evs| - 1]; r.incident.None? && r.status.Active? && r.created >= since
    requires forall k :: 0 <= k < |evs| - 1 ==> evs[k].incident.Some?
    ensures Free(evs, since) == [|evs| - 1]
  {
    var n := |evs| - 1;
    NothingChosen(evs, FreeIds(evs, since), n);
    assert n in FreeIds(evs, since);
    assert ByTime(evs, FreeIds(evs, since), n + 1) == Place(evs, [], n) == [n];
  }

  lemma {:induction false} NothingChosen(evs: seq<Row>, chosen: set<nat>, n: nat)
    requires n <= |evs| && forall id :: id < n ==> id !in chosen
    ensures ByTime(evs, chosen, n) == []
  {
    if n > 0 {
      NothingChosen(evs, chosen, n - 1);
    }
  }

  lemma GroupsLast(w: World, db: Db, now: int)
    requires EngineInvariant(db) && db.evidence != []
    requires var r := db.evidence[|db.evidence| - 1];
             r.incident.None? && r.status.Active? && r.created == now && r.key.entity != ""
    requires forall k :: 0 <= k < |db.evidence| - 1 ==> db.evidence[k].incident.Some?
    ensures Group(w, db, now, now).evidence == Assign(db, |db.evidence| - 1).evidence
  {
    hide Group, Assign, Sound, Archived, Fits, WellFormed, Free;
    var n := |db.evidence| - 1;
    LastIsFree(db.evidence, now - LOOKBACK_S);
    GroupedAsAssigned(w, db, now, now);
    assert [n][..0] == [] && AssignAll(db, []) == db;
    assert AssignAll(db, [n]) == Assign(db, n);
  }

  lemma RunOfTwo(ops: seq<Op>)
    requires |ops| == 2
    ensures Run(ops) == Step(Run([ops[0]]), ops[1]) && Run([ops[0]]) == Step(Db([], [], []), ops[0])
  {
    hide Step;
    assert ops[..1] == [ops[0]] && [ops[0]][..0] == [];
  }

  lemma RunAppend(ops: seq<Op>, op: Op)
    ensures Run(ops + [op]) == Step(Run(ops), op)
  {
    assert (ops + [op])[..|ops|] == ops;
  }

  lemma FirstSeenLeaves(w: World, ts: int, now: int)
    ensures OneDown(Run(FirstSeen(w, ts, now)), ts, now) && LastClose(FirstSeen(w, ts, now)).None?
    ensures Run(FirstSeen(w, ts, now)).incidents[0].closed.None?
  {
    hide Group, Sound, Archived, Fits, WellFormed;
    var ops := FirstSeen(w, ts, now);
    RunOfTwo(ops);
    assert ops[..1] == [ops[0]] && ops[..1][..0] == [];
    assert LastClose([]) == None && LastClose(ops[..1]) == None;
    var db1, db2 := Run([ops[0]]), Run(ops);
    DownIsFound(1, ts, now, []);
    EveryRunIsSound([ops[0]]);
    EveryRunIsSound(ops);
    GroupsLast(w, db1, now);
    AssignedRow(db1, 0);
    OneRowOneIncident(db2);
    assert db1.incidents == [];
    ClosingsAreQuiet(ops);
  }

  /** A single grouped row has a single incident, of its entity and its time. */
  lemma OneRowOneIncident(db: Db)
    requires Sound(db) && |db.evidence| == 1 && Grouped(db.evidence, 0)
    ensures |db.incidents| == 1 && db.evidence[0].incident == Some(0)
    ensures SameSubject(db.incidents[0], Fresh(db.evidence[0]))
    ensures db.incidents[0].first == db.evidence[0].ts == db.incidents[0].last
  {
    MemberBounds(db, 0);
    hide Sound;
    var a, b := BoundsAreMembers(db, 0);
    if |db.incidents| > 1 {
      var c, _ := BoundsAreMembers(db, 1);
    }
  }

  // A second row of the same entity.

  /** What grouping makes of a second row: it shares the incident exactly when that is open and does
      not end more than a gap before the row. */
  lemma SecondRow(db: Db, ts: int)
    requires Sound(db) && |db.evidence| == 2 && |db.incidents| == 1
    requires db.evidence[0].incident == Some(0) && db.incidents[0].first == ts == db.incidents[0].last
    requires Waiting(db, 1) && SameSubject(db.incidents[0], Fresh(db.evidence[1])) && db.evidence[0].ts == ts
    ensures SplitAtGaps(db.evidence)
    ensures var r, inc := db.evidence[1], db.incidents[0];
            && (SplitAtGaps(Assign(db, 1).evidence) <==>
                  (Near(inc, r) ==> inc.closed.None?) && (Ahead(inc, r) ==> inc.closed.Some?))
            && (Assign(db, 1).evidence[1].incident == Some(0) <==>
                  inc.closed.None? && r.ts <= ts + GAP_S)
            && Assign(db, 1).evidence[0] == db.evidence[0]
  {
    hide Sound, SplitAtGaps, Assign, Aggregates, Members;
    var r, inc := db.evidence[1], db.incidents[0];
    assert Timeline(db);
    TimelineIsSplit(db);
    RowKeepsPartition(db, 1);
    AssignedRow(db, 1);
    HomeOfOne(db, r);
    assert Near(inc, r) ==> !NoneNear(db.incidents, r);
    assert Fit(db.incidents, r) <==> (Near(inc, r) ==> inc.closed.None?) && (Ahead(inc, r) ==> inc.closed.Some?);
  }

  lemma HomeOfOne(db: Db, r: Row)
    requires |db.incidents| == 1
    ensures HomeFor(db, r) == if Eligible(db.incidents[0], r.tenant, r.key.entity, r.ts - GAP_S) then Some(0) else None
  {
  }

  /** Two sightings of one entity, with a quiet closing between them. */
  function TwoSeen(w: World, t1: int, now1: int, closing: int, t2: int, now2: int): seq<Op> {
    FirstSeen(w, t1, now1)
    + [CloseQuiet(closing)] + [Correlate(CONTEXT, now2, [Down(2, t2)])] + [GroupEvidence(w, now2, now2)]
  }

  /** The tables when the second sighting comes to grouping. */
  lemma SecondSeenLeaves(w: World, t1: int, now1: int, closing: int, t2: int, now2: int)
    ensures var db := Run(FirstSeen(w, t1, now1) + [CloseQuiet(closing)] + [Correlate(CONTEXT, now2, [Down(2, t2)])]);
            && db.evidence == [DownRow(1, t1, now1).(incident := Some(0)), DownRow(2, t2, now2)]
            && EngineInvariant(db) && |db.incidents| == 1
            && db.incidents[0].first == t1 == db.incidents[0].last
            && SameSubject(db.incidents[0], Fresh(db.evidence[1]))
            && (db.incidents[0].closed.Some? <==> t1 < closing - QUIET_S)
  {
    hide Group, EngineInvariant, FirstSeen;
    var ops2 := FirstSeen(w, t1, now1);
    var close, seen := CloseQuiet(closing), Correlate(CONTEXT, now2, [Down(2, t2)]);
    RunAppend(ops2, close);
    RunAppend(ops2 + [close], seen);
    EveryRunIsSound(ops2 + [close] + [seen]);
    FirstSeenLeaves(w, t1, now1);
    hide Run, LastClose, Correlator.Correlate;
    var evs := Run(ops2).evidence;
    DownIsFound(2, t2, now2, evs);
    assert evs == [evs[0]];
  }

  /** The second row is split from the first wrongly, or put with it wrongly, in two cases: it is
      within a gap of an incident already closed, or more than a gap before one still open. */
  lemma TwoSeenSplits(w: World, t1: int, now1: int, closing: int, t2: int, now2: int)
    ensures var ops := TwoSeen(w, t1, now1, closing, t2, now2);
            SplitAtGaps(Run(ops).evidence) <==>
            if t1 < closing - QUIET_S then t2 < t1 - GAP_S || t1 + GAP_S < t2 else t1 - GAP_S <= t2
  {
    hide Group, Sound, Archived, Fits, WellFormed, SplitAtGaps, Assign, FirstSeen;
    var ops4 := FirstSeen(w, t1, now1) + [CloseQuiet(closing)] + [Correlate(CONTEXT, now2, [Down(2, t2)])];
    RunAppend(ops4, GroupEvidence(w, now2, now2));
    SecondSeenLeaves(w, t1, now1, closing, t2, now2);
    hide Run;
    GroupsLast(w, Run(ops4), now2);
    SecondRow(Run(ops4), t1);
  }

  lemma OrderedAppend(ops: seq<Op>, op: Op)
    requires TimeOrdered(ops)
    requires op.GroupEvidence? ==> AllNewest(Run(ops).evidence, op.now - LOOKBACK_S)
    ensures TimeOrdered(ops + [op])
  {
    hide AllNewest, Run;
    var all := ops + [op];
    assert all[..|all| - 1] == ops && all[|all| - 1] == op;
  }

  lemma LastIsNewest(evs: seq<Row>, since: int)
    requires evs != [] && var r := evs[|evs| - 1]; r.incident.None? && r.status.Active? && r.created >= since
    requires forall k :: 0 <= k < |evs| - 1 ==> evs[k].incident.Some? && evs[k].ts <= evs[|evs| - 1].ts
    ensures AllNewest(evs, since)
  {
    LastIsFree(evs, since);
  }

  lemma FirstSeenInOrder(w: World, ts: int, now: int)
    ensures TimeOrdered(FirstSeen(w, ts, now))
  {
    hide AllNewest, Group;
    var seen, group := Correlate(CONTEXT, now, [Down(1, ts)]), GroupEvidence(w, now, now);
    OrderedAppend([], seen);
    RunAppend([], seen);
    DownIsFound(1, ts, now, []);
    LastIsNewest(Run([] + [seen]).evidence, now - LOOKBACK_S);
    OrderedAppend([] + [seen], group);
    assert [] + [seen] + [group] == FirstSeen(w, ts, now);
  }

  lemma TwoSeenInOrder(w: World, t1: int, now1: int, closing: int, t2: int, now2: int)
    requires t1 <= t2
    ensures TimeOrdered(TwoSeen(w, t1, now1, closing, t2, now2))
  {
    hide Group, EngineInvariant, LastClose, TimeOrdered, FirstSeen, AllNewest, Correlator.Correlate;
    var ops2 := FirstSeen(w, t1, now1);
    var close, seen := CloseQuiet(closing), Correlate(CONTEXT, now2, [Down(2, t2)]);
    var group := GroupEvidence(w, now2, now2);
    FirstSeenInOrder(w, t1, now1);
    FirstSeenLeaves(w, t1, now1);
    RunAppend(ops2, close);
    OrderedAppend(ops2, close);
    DownIsFound(2, t2, now2, Run(ops2).evidence);
    RunAppend(ops2 + [close], seen);
    OrderedAppend(ops2 + [close], seen);
    LastIsNewest(Run(ops2 + [close] + [seen]).evidence, now2 - LOOKBACK_S);
    OrderedAppend(ops2 + [close] + [seen], group);
  }

  /** Promptness cannot be relaxed: in a run in time order, a row dated GAP_S after the one before it,
      grouped ``delay`` seconds late and after a quiet closing, is split from it exactly when the delay
      is more than QUIET_S - GAP_S; then the incident it should have joined is closed. */
  lemma PromptnessIsTight(w: World, t: int, delay: int)
    requires delay >= 0
    ensures var now := t + GAP_S + delay;
            var ops := TwoSeen(w, t, t, now, t + GAP_S, now);
            && TimeOrdered(ops)
            && (SplitAtGaps(Run(ops).evidence) <==> delay <= QUIET_S - GAP_S)
            && (NeverBlocked(ops) <==> delay <= QUIET_S - GAP_S)
  {
    hide TimeOrdered, TwoSeen, SplitAtGaps, NeverBlocked;
    var now := t + GAP_S + delay;
    TwoSeenSplits(w, t, t, now, t + GAP_S, now);
    TwoSeenInOrder(w, t, t, now, t + GAP_S, now);
    OrderedGroupingSplitsAtGaps(TwoSeen(w, t, t, now, t + GAP_S, now));
  }

  /** Order cannot be given up: a row recorded second is pulled over the gap exactly when it is dated
      more than GAP_S before the first, as statistical evidence is, while the incident is open. */
  lemma OrderIsNeeded(w: World, t: int, now: int, early: int, later: int)
    ensures SplitAtGaps(Run(TwoSeen(w, t, now, t, early, later)).evidence) <==> t - GAP_S <= early
  {
    TwoSeenSplits(w, t, now, t, early, later);
  }

  function SampleRow(ts: int, eventId: int, incident: Option<nat>): Row {
    DownRow(eventId, ts, ts).(incident := incident)
  }

  const THREE := Db([SampleRow(2000, 1, Some(0)), SampleRow(1000, 2, None), SampleRow(1500, 3, None)],
                    [Absorb(Fresh(SampleRow(2000, 1, None)), SampleRow(2000, 1, None))], [])

  /** What one row breaks a later one can mend: the row dated 1000 is pulled over the gap to 2000, and
      the row dated 1500 then closes that gap. */
  lemma LaterRowMends()
    ensures !SplitAtGaps(Assign(THREE, 1).evidence) && SplitAtGaps(Assign(Assign(THREE, 1), 2).evidence)
  {
    hide SplitAtGaps, Sound;
    ThreeIsSound();
    StragglerIsPulled(THREE, 1, 0);
    var db1 := Assign(THREE, 1);
    var db2 := Assign(db1, 2);
    SoundAfterAssign(THREE, 1);
    SoundAfterAssign(db1, 2);
    HomeOfOne(THREE, THREE.evidence[1]);
    HomeOfOne(db1, db1.evidence[2]);
    assert db2.evidence == [SampleRow(2000, 1, Some(0)), SampleRow(1000, 2, Some(0)), SampleRow(1500, 3, Some(0))];
    assert |db2.incidents| == 1 && db2.incidents[0].first == 1000 && db2.incidents[0].last == 2000;
    forall t | 1000 <= t < 2000 ensures Follows(db2.evidence, 0, t) {
      FollowedBy(db2.evidence, 0, if t < 1500 then 2 else 0, t);
    }
    TimelineIsSplit(db2);
  }

  lemma ThreeIsSound()
    ensures Sound(THREE)
  {
    assert Members(THREE.evidence, 0) == {0};
    assert 0 in Members(THREE.evidence, 0);
  }

  // A retraction of the only row.

  /** An interface seen down, then up again ``delay`` seconds later, each grouped when it was seen. */
  function DownThenUp(w: World, ts: int, delay: int): seq<Op> {
    FirstSeen(w, ts, ts)
    + [Correlate(CONTEXT, ts + delay, [Up(2, ts + delay)])] + [GroupEvidence(w, ts + delay, ts + delay)]
  }

  lemma DownThenUpIsPaced(w: World, ts: int, delay: int)
    ensures Paced(DownThenUp(w, ts, delay))
  {
    var ops, now := DownThenUp(w, ts, delay), ts + delay;
    assert ops[..3][..2] == ops[..2] && ops[..2][..1] == ops[..1] && ops[..1][..0] == [];
    assert Paced(ops[..0]) && Paced(ops[..1]);
    assert Debt(ops[..0]) == None && Debt(ops[..1]) == Some(ts);
    assert Debt(ops[..2]) == None && Debt(ops[..3]) == Some(now);
    assert Paced(ops[..2]) && Paced(ops[..3]);
  }

  /** The tables when the recovery comes to grouping. */
  lemma UpSeenLeaves(w: World, ts: int, delay: int)
    requires 0 <= delay <= LOOKBACK_S
    ensures var now := ts + delay;
            var db := Run(FirstSeen(w, ts, ts) + [Correlate(CONTEXT, now, [Up(2, now)])]);
            && EngineInvariant(db) && |db.evidence| == 2 && |db.incidents| == 1
            && db.evidence[0].status.Retracted? && db.evidence[0].incident == Some(0) && db.evidence[0].ts == ts
            && db.evidence[1] == UpRow(2, now, now)
            && SameSubject(db.incidents[0], Fresh(db.evidence[1])) && db.incidents[0].closed.None?
            && db.incidents[0].first == ts == db.incidents[0].last
  {
    hide Group, EngineInvariant, FirstSeen, Correlator.Correlate;
    var ops2, now := FirstSeen(w, ts, ts), ts + delay;
    var seen := Correlate(CONTEXT, now, [Up(2, now)]);
    RunAppend(ops2, seen);
    EveryRunIsSound(ops2 + [seen]);
    FirstSeenLeaves(w, ts, ts);
    hide Run, LastClose;
    var evs := Run(ops2).evidence;
    assert evs == [evs[0]];
    WellFormedWhenInvariant(Run(ops2));
    DownIsWithdrawn(evs, ts, ts, now, 2, now);
  }

  lemma WellFormedWhenInvariant(db: Db)
    requires EngineInvariant(db)
    ensures WellFormed(db.evidence)
  {
  }

  /** An interface that comes back up more than GAP_S, and at most the window of the rule, after it
      went down: the proof of the recovery begins another incident, the first has nothing left that
      stands, and its row does not say so. When it comes back sooner the proof joins the incident. */
  lemma RowOutlivesItsEvidence(w: World, ts: int, delay: int)
    requires 0 < ts && 0 <= delay <= LOOKBACK_S
    ensures var db := Run(DownThenUp(w, ts, delay));
            && |db.incidents| > 0
            && (Standing(db.evidence, 0) == [] <==> delay > GAP_S)
            && (db.incidents[0].reasoning != Current(db.verdicts, 0) <==> delay > GAP_S)
  {
    hide Group, Sound, Archived, Fits, WellFormed, Standing, SplitAtGaps, Assign, FirstSeen;
    var now, ops := ts + delay, DownThenUp(w, ts, delay);
    var ops3 := FirstSeen(w, ts, ts) + [Correlate(CONTEXT, now, [Up(2, now)])];
    RunAppend(ops3, GroupEvidence(w, now, now));
    UpSeenLeaves(w, ts, delay);
    EveryRunIsSound(ops);
    DownThenUpIsPaced(w, ts, delay);
    hide Run, Paced;
    GroupsLast(w, Run(ops3), now);
    SecondRow(Run(ops3), ts);
    AssignedRow(Run(ops3), 1);
    StandingOfTwo(Run(ops));
    RowAgreesWhileEvidenceStands(ops, 0);
  }

  lemma StandingOfTwo(db: Db)
    requires Sound(db) && |db.evidence| == 2 && db.evidence[0].status.Retracted? && db.evidence[0].incident == Some(0)
    requires db.evidence[1].status.Active?
    ensures |db.incidents| > 0
    ensures Standing(db.evidence, 0) == [] <==> db.evidence[1].incident != Some(0)
  {
    assert Grouped(db.evidence, 0);
    var ids := Standing(db.evidence, 0);
    assert 1 in ids <==> db.evidence[1].incident == Some(0);
    if ids != [] {
      assert ids[0] in ids;
    }
  }
}
