/** The conclusions drawn from the evidence: what they cite, how their history grows, and how
    corroboration moves the confidence. */
module Conclusions {
  import opened Wrappers
  import opened Evidence
  import opened Incidents
  import opened Grouping

  // ---------------------------------------------------------------- the history

  /** The reasoning of an incident's last conclusion. */
  function Current(vs: seq<Verdict>, i: nat): Option<Reasoning> {
    if vs == [] then None
    else if vs[|vs| - 1].incident == i then Some(vs[|vs| - 1].reasoning)
    else Current(vs[..|vs| - 1], i)
  }

  ghost predicate LaterOne(vs: seq<Verdict>, a: int) {
    exists b :: a < b < |vs| && 0 <= a && vs[b].incident == vs[a].incident
  }

  /** Two conclusions of one incident, the second coming right after the first. */
  ghost predicate Successive(vs: seq<Verdict>, a: int, b: int) {
    && 0 <= a < b < |vs| && vs[a].incident == vs[b].incident
    && (forall c :: a < c < b ==> vs[c].incident != vs[a].incident)
  }

  /** Exactly the last conclusion of each incident is in force, and no conclusion repeats the
      one before it. */
  ghost predicate Archived(vs: seq<Verdict>) {
    && (forall a :: 0 <= a < |vs| ==> (vs[a].superseded.Some? <==> LaterOne(vs, a)))
    && (forall a, b :: Successive(vs, a, b) ==> vs[a].reasoning != vs[b].reasoning)
  }

  lemma {:induction false} CurrentIsLast(vs: seq<Verdict>, i: nat)
    ensures Current(vs, i).None? ==> forall a :: 0 <= a < |vs| ==> vs[a].incident != i
    ensures Current(vs, i).Some? ==> exists a :: 0 <= a < |vs| && vs[a].incident == i && !LaterOne(vs, a)
                                                 && Some(vs[a].reasoning) == Current(vs, i)
  {
    if vs != [] {
      var n := |vs| - 1;
      if vs[n].incident == i {
        assert !LaterOne(vs, n);
      } else {
        CurrentIsLast(vs[..n], i);
        if Current(vs, i).Some? {
          var a :| 0 <= a < n && vs[..n][a].incident == i && !LaterOne(vs[..n], a)
                   && Some(vs[..n][a].reasoning) == Current(vs[..n], i);
          forall b | a < b < |vs| ensures vs[b].incident != vs[a].incident {
            assert b < n ==> vs[..n][b].incident != vs[..n][a].incident;
          }
        }
      }
    }
  }

  /** The query for the conclusion in force finds the last one. */
  lemma LiveIsLast(vs: seq<Verdict>, i: nat)
    requires Archived(vs)
    ensures Live(vs, i).None? <==> Current(vs, i).None?
    ensures Live(vs, i).Some? ==> !LaterOne(vs, Live(vs, i).value)
                                  && Current(vs, i) == Some(vs[Live(vs, i).value].reasoning)
  {
    CurrentIsLast(vs, i);
    if Live(vs, i).Some? {
      var l := Live(vs, i).value;
      var a :| 0 <= a < |vs| && vs[a].incident == i && !LaterOne(vs, a) && Some(vs[a].reasoning) == Current(vs, i);
      assert vs[a].incident == vs[l].incident;
    }
  }

  lemma {:induction false} CurrentSame(vs: seq<Verdict>, vs': seq<Verdict>, i: nat)
    requires |vs| == |vs'|
    requires forall a :: 0 <= a < |vs| ==> vs'[a].incident == vs[a].incident && vs'[a].reasoning == vs[a].reasoning
    ensures Current(vs', i) == Current(vs, i)
  {
    if vs != [] {
      CurrentSame(vs[..|vs| - 1], vs'[..|vs| - 1], i);
    }
  }

  /** Recording a conclusion puts it in force for its incident and archives the one before, but
      only when it differs from it. */
  lemma RecordKeeps(vs: seq<Verdict>, i: nat, cause: string, confidence: int, reasoning: Reasoning, clock: int)
    requires Archived(vs)
    ensures var vs' := Record(vs, i, cause, confidence, reasoning, clock);
            && Archived(vs')
            && Current(vs', i) == Some(reasoning)
            && (forall j: nat :: j != i ==> Current(vs', j) == Current(vs, j))
            && (vs' == vs <==> Current(vs, i) == Some(reasoning))
            && |vs| <= |vs'|
            && (forall a :: 0 <= a < |vs| ==> vs'[a].(superseded := vs[a].superseded) == vs[a])
            && (forall a :: |vs| <= a < |vs'| ==> vs'[a].incident == i)
  {
    LiveIsLast(vs, i);
    var live := Live(vs, i);
    var vs' := Record(vs, i, cause, confidence, reasoning, clock);
    if live.None? || vs[live.value].reasoning != reasoning {
      var mid := if live.Some? then vs[live.value := vs[live.value].(superseded := Some(clock))] else vs;
      assert vs'[..|vs|] == mid;
      RecordArchives(vs, i, live, vs', clock);
      hide Archived, Live;
      forall j: nat ensures Current(vs', j) == if j == i then Some(reasoning) else Current(vs, j) {
        CurrentSnoc(vs', j);
        CurrentSame(vs, mid, j);
      }
    }
  }

  lemma CurrentSnoc(vs: seq<Verdict>, j: nat)
    requires vs != []
    ensures var n := |vs| - 1;
            Current(vs, j) == if vs[n].incident == j then Some(vs[n].reasoning) else Current(vs[..n], j)
  {
  }

  /** What is written: the new conclusion with its time, and that time on the conclusion it replaces. */
  lemma RecordWrites(vs: seq<Verdict>, i: nat, cause: string, confidence: int, reasoning: Reasoning, clock: int)
    requires Archived(vs)
    ensures var vs' := Record(vs, i, cause, confidence, reasoning, clock);
            && |vs| <= |vs'| <= |vs| + 1
            && (|vs'| > |vs| ==> vs'[|vs|] == Verdict(i, clock, None, cause, confidence, reasoning))
            && (forall a :: 0 <= a < |vs| ==>
                  vs'[a].superseded == if |vs'| > |vs| && vs[a].incident == i && vs[a].superseded.None? then Some(clock)
                                       else vs[a].superseded)
  {
    LiveIsLast(vs, i);
    hide Successive, Current;
    var live := Live(vs, i);
    forall a | 0 <= a < |vs| && vs[a].incident == i && vs[a].superseded.None? ensures live == Some(a) {
      assert live.Some? && a < live.value ==> LaterOne(vs, a);
    }
  }

  /** ``vs'`` is ``vs`` with the conclusion in force archived, if any, and one more. */
  ghost predicate Appended(vs: seq<Verdict>, i: nat, live: Option<nat>, vs': seq<Verdict>, clock: int) {
    && live == Live(vs, i) && |vs'| == |vs| + 1
    && vs'[|vs|].incident == i && vs'[|vs|].superseded.None?
    && (live.Some? ==> vs[live.value].reasoning != vs'[|vs|].reasoning)
    && (forall a :: 0 <= a < |vs| ==>
          && vs'[a].(superseded := vs[a].superseded) == vs[a]
          && vs'[a].superseded == if live == Some(a) then Some(clock) else vs[a].superseded)
  }

  lemma RecordArchives(vs: seq<Verdict>, i: nat, live: Option<nat>, vs': seq<Verdict>, clock: int)
    requires Archived(vs) && live == Live(vs, i) && |vs'| == |vs| + 1
    requires vs'[..|vs|] == if live.Some? then vs[live.value := vs[live.value].(superseded := Some(clock))] else vs
    requires vs'[|vs|].incident == i && vs'[|vs|].superseded.None?
    requires live.Some? ==> vs[live.value].reasoning != vs'[|vs|].reasoning
    ensures Archived(vs')
  {
    hide Live, LaterOne, Successive;
    LiveIsLast(vs, i);
    forall a | 0 <= a < |vs|
      ensures vs'[a].(superseded := vs[a].superseded) == vs[a]
      ensures vs'[a].superseded == if live == Some(a) then Some(clock) else vs[a].superseded
    {
      assert vs'[a] == vs'[..|vs|][a];
    }
    OnlyLastInForce(vs, i, live, vs', clock);
    NoneRepeated(vs, i, live, vs', clock);
  }

  lemma OnlyLastInForce(vs: seq<Verdict>, i: nat, live: Option<nat>, vs': seq<Verdict>, clock: int)
    requires Archived(vs) && Appended(vs, i, live, vs', clock)
    ensures forall a :: 0 <= a < |vs'| ==> (vs'[a].superseded.Some? <==> LaterOne(vs', a))
  {
    hide Live, Successive;
    LiveIsLast(vs, i);
    var n := |vs|;
    forall a | 0 <= a <= n
      ensures vs'[a].superseded.Some? <==> LaterOne(vs', a)
    {
      if a < n {
        if vs[a].incident == i {
          assert vs'[n].incident == vs'[a].incident;
        } else if LaterOne(vs, a) {
          var b :| a < b < n && vs[b].incident == vs[a].incident;
          assert vs'[b].incident == vs'[a].incident;
        } else {
          forall b | a < b <= n
            ensures vs'[b].incident != vs'[a].incident
          {
            assert b < n ==> vs[b].incident != vs[a].incident;
          }
        }
      }
    }
  }

  lemma NoneRepeated(vs: seq<Verdict>, i: nat, live: Option<nat>, vs': seq<Verdict>, clock: int)
    requires Archived(vs) && Appended(vs, i, live, vs', clock)
    ensures forall a, b :: Successive(vs', a, b) ==> vs'[a].reasoning != vs'[b].reasoning
  {
    hide Live;
    LiveIsLast(vs, i);
    var n := |vs|;
    forall a, b | Successive(vs', a, b)
      ensures vs'[a].reasoning != vs'[b].reasoning
    {
      forall c | a < c < b
        ensures vs[c].incident != vs[a].incident
      {
        assert vs'[c].incident == vs[c].incident;
      }
      if b < n {
        assert Successive(vs, a, b);
      } else {
        assert vs[a].incident == i && !LaterOne(vs, a);
      }
    }
  }

  // ---------------------------------------------------------------- rethinking incidents

  /** What reasoning about incident ``i`` concludes from the tables as they are. */
  function Opinion(w: World, db: Db, i: nat): Reasoning
    requires i < |db.incidents|
  {
    Reason(w, db.incidents[i], db.evidence, Standing(db.evidence, i), |RetractedIds(db.evidence, i)|)
  }

  /** The fields reasoning writes do not feed back into it. */
  lemma RelabelKeeps(w: World, evs: seq<Row>, inc: Incident, i: nat)
    ensures SameGroup(Relabel(w, evs, inc, i), inc) && Relabel(w, evs, inc, i).closed == inc.closed
    ensures Relabel(w, evs, Relabel(w, evs, inc, i), i) == Relabel(w, evs, inc, i)
    ensures forall ids, n :: Within(ids, |evs|)
              ==> Reason(w, Relabel(w, evs, inc, i), evs, ids, n) == Reason(w, inc, evs, ids, n)
  {
    var inc' := Relabel(w, evs, inc, i);
    forall ids, n: nat | Within(ids, |evs|) ensures Reason(w, inc', evs, ids, n) == Reason(w, inc, evs, ids, n) {
      SourcesSame(w, inc, inc', RowsAt(evs, ids), |SOURCES|);
    }
    var ids := Standing(evs, i);
    SourcesSame(w, inc, inc', RowsAt(evs, ids), |SOURCES|);
  }

  lemma {:induction false} SourcesSame(w: World, a: Incident, b: Incident, rows: seq<Row>, n: nat)
    requires SameGroup(a, b) && n <= |SOURCES|
    ensures Sources(w, a, rows, n) == Sources(w, b, rows, n)
  {
    if n > 0 {
      SourcesSame(w, a, b, rows, n - 1);
    }
  }

  /** Some row is assigned to the incident. */
  ghost predicate Backed(db: Db, i: nat) {
    Members(db.evidence, i) != {}
  }

  lemma BackedHasRows(db: Db, i: nat)
    requires Backed(db, i)
    ensures Standing(db.evidence, i) == [] ==> |RetractedIds(db.evidence, i)| > 0
  {
    var id :| id in Members(db.evidence, i);
    if db.evidence[id].status.Active? {
      assert id in ActiveIds(db.evidence, i);
    } else {
      assert id in RetractedIds(db.evidence, i);
    }
  }

  /** One recomputation: the incident's row is relabelled, its conclusion brought up to date, and
      nothing else changes. */
  lemma RethinkKeeps(w: World, db: Db, i: nat, clock: int)
    requires Archived(db.verdicts) && i < |db.incidents| && Backed(db, i)
    ensures var db' := Rethink(w, db, i, clock);
            && db'.evidence == db.evidence
            && db'.incidents == db.incidents[i := Relabel(w, db.evidence, db.incidents[i], i)]
            && Archived(db'.verdicts)
            && Current(db'.verdicts, i) == Some(Opinion(w, db, i))
            && (forall j: nat :: j != i ==> Current(db'.verdicts, j) == Current(db.verdicts, j))
            && (db'.verdicts == db.verdicts <==> Current(db.verdicts, i) == Some(Opinion(w, db, i)))
  {
    BackedHasRows(db, i);
    var ids := Standing(db.evidence, i);
    var n := |RetractedIds(db.evidence, i)|;
    if ids == [] {
      RecordKeeps(db.verdicts, i, ALL_RETRACTED, 0, AllRetracted(n), clock);
    } else {
      RecordKeeps(db.verdicts, i, Cause(db.evidence, ids), Confidence(w, db.incidents[i], db.evidence, ids),
                  Opinion(w, db, i), clock);
    }
  }

  lemma BackedAlike(db: Db, db': Db, i: nat)
    requires Backed(db, i) && db'.evidence == db.evidence
    ensures Backed(db', i)
  {
  }

  ghost predicate AllBacked(db: Db) {
    forall i: nat :: i < |db.incidents| ==> Backed(db, i)
  }

  /** The whole sweep, incident by incident. */
  lemma {:induction false} RethinkAllKeeps(w: World, db: Db, touched: set<nat>, n: nat, clock: int)
    requires Archived(db.verdicts) && n <= |db.incidents| && AllBacked(db)
    ensures var db' := RethinkAll(w, db, touched, n, clock);
            && db'.evidence == db.evidence && |db'.incidents| == |db.incidents|
            && Archived(db'.verdicts)
            && (forall j: nat :: j < |db.incidents| ==>
                  && db'.incidents[j] == (if j < n && j in touched
                                          then Relabel(w, db.evidence, db.incidents[j], j) else db.incidents[j])
                  && Current(db'.verdicts, j) == (if j < n && j in touched
                                                  then Some(Opinion(w, db, j)) else Current(db.verdicts, j)))
  {
    hide Rethink, Relabel, Reason, Backed;
    if n > 0 {
      RethinkAllKeeps(w, db, touched, n - 1, clock);
      var before := RethinkAll(w, db, touched, n - 1, clock);
      if n - 1 in touched {
        BackedAlike(db, before, n - 1);
        RethinkKeeps(w, before, n - 1, clock);
      }
    }
  }

  /** Rethinking what is already concluded changes nothing. */
  lemma {:induction false} RethinkAllIdle(w: World, db: Db, touched: set<nat>, n: nat, clock: int)
    requires Archived(db.verdicts) && n <= |db.incidents| && AllBacked(db)
    requires forall j: nat :: j < n && j in touched ==>
               && db.incidents[j] == Relabel(w, db.evidence, db.incidents[j], j)
               && Current(db.verdicts, j) == Some(Opinion(w, db, j))
    ensures RethinkAll(w, db, touched, n, clock) == db
  {
    if n > 0 {
      hide Rethink, Archived, Backed, Relabel, Opinion, Current;
      RethinkAllIdle(w, db, touched, n - 1, clock);
      if n - 1 in touched {
        assert Backed(db, n - 1);
        RethinkKeeps(w, db, n - 1, clock);
      }
    }
  }

  // ---------------------------------------------------------------- rows, conclusions and their reasoning

  /** The confidence a reasoning states. */
  function Stated(r: Reasoning): int {
    if r.AllRetracted? then 0 else Min(r.base + CONFIDENCE_STEP * |r.sources|, CONFIDENCE_MAX)
  }

  /** The cause and the confidence of a conclusion are those of its reasoning. */
  predicate Worded(v: Verdict) {
    && v.confidence == Stated(v.reasoning)
    && v.cause == if v.reasoning.AllRetracted? then ALL_RETRACTED else v.reasoning.cause
  }

  /** What an incident row says next to the conclusion in force: the same, unless that is that nothing
      stands; then the row says what it said before. */
  predicate RowFits(inc: Incident, current: Option<Reasoning>) {
    match current
    case None => inc.reasoning.None?
    case Some(AllRetracted(_)) => inc.reasoning.Some? ==> inc.reasoning.value.Reasoned?
    case Some(r) => inc.reasoning == current && inc.cause == Some(r.cause) && inc.confidence == Some(Stated(r))
  }

  ghost predicate Filed(vs: seq<Verdict>, n: nat) {
    forall a :: 0 <= a < |vs| ==> vs[a].incident < n && Worded(vs[a])
  }

  ghost predicate RowsFit(incs: seq<Incident>, vs: seq<Verdict>) {
    forall i: nat :: i < |incs| ==> RowFits(incs[i], Current(vs, i))
  }

  ghost predicate Fits(db: Db) {
    Filed(db.verdicts, |db.incidents|) && RowsFit(db.incidents, db.verdicts)
  }

  lemma RecordFiles(vs: seq<Verdict>, i: nat, cause: string, confidence: int, reasoning: Reasoning, clock: int, n: nat)
    requires Filed(vs, n) && i < n && Worded(Verdict(i, clock, None, cause, confidence, reasoning))
    ensures Filed(Record(vs, i, cause, confidence, reasoning, clock), n)
  {
    var live := Live(vs, i);
    if live.Some? {
      assert Worded(vs[live.value]);
    }
  }

  lemma RethinkFiles(w: World, db: Db, i: nat, clock: int)
    requires Filed(db.verdicts, |db.incidents|)
    ensures Filed(Rethink(w, db, i, clock).verdicts, |db.incidents|)
  {
    hide Record, Sources, Cause, Standing;
    if i < |db.incidents| {
      var ids, n := Standing(db.evidence, i), |RetractedIds(db.evidence, i)|;
      if ids == [] {
        RecordFiles(db.verdicts, i, ALL_RETRACTED, 0, AllRetracted(n), clock, |db.incidents|);
      } else {
        var inc := db.incidents[i];
        RecordFiles(db.verdicts, i, Cause(db.evidence, ids), Confidence(w, inc, db.evidence, ids),
                    Reason(w, inc, db.evidence, ids, n), clock, |db.incidents|);
      }
    }
  }

  lemma {:induction false} SweepFiles(w: World, db: Db, touched: set<nat>, n: nat, clock: int)
    requires Archived(db.verdicts) && n <= |db.incidents| && AllBacked(db) && Filed(db.verdicts, |db.incidents|)
    ensures Filed(RethinkAll(w, db, touched, n, clock).verdicts, |db.incidents|)
  {
    hide Rethink, Filed;
    if n > 0 {
      SweepFiles(w, db, touched, n - 1, clock);
      RethinkAllKeeps(w, db, touched, n - 1, clock);
      RethinkFiles(w, RethinkAll(w, db, touched, n - 1, clock), n - 1, clock);
    }
  }

  /** An incident that was just reasoned about fits its conclusion. */
  lemma RelabelFits(w: World, db: Db, i: nat)
    requires i < |db.incidents| && RowFits(db.incidents[i], Current(db.verdicts, i))
    ensures RowFits(Relabel(w, db.evidence, db.incidents[i], i), Some(Opinion(w, db, i)))
  {
    hide Sources, Cause, Title;
    RelabelKeeps(w, db.evidence, db.incidents[i], i);
  }

  lemma SweepFits(w: World, db: Db, touched: set<nat>, clock: int)
    requires Archived(db.verdicts) && AllBacked(db) && Fits(db)
    ensures Fits(RethinkAll(w, db, touched, |db.incidents|, clock))
  {
    hide RethinkAll, RowFits, Relabel;
    SweepFiles(w, db, touched, |db.incidents|, clock);
    RethinkAllKeeps(w, db, touched, |db.incidents|, clock);
    forall i: nat | i < |db.incidents|
      ensures RowFits(Relabel(w, db.evidence, db.incidents[i], i), Some(Opinion(w, db, i)))
    {
      RelabelFits(w, db, i);
    }
  }

  lemma AssignSpeaksNot(db: Db, id: nat)
    requires id < |db.evidence|
    ensures var db' := Assign(db, id);
            && db'.verdicts == db.verdicts && |db.incidents| <= |db'.incidents|
            && (forall i :: 0 <= i < |db'.incidents| ==>
                  if i < |db.incidents|
                  then && db'.incidents[i].reasoning == db.incidents[i].reasoning
                       && db'.incidents[i].cause == db.incidents[i].cause
                       && db'.incidents[i].confidence == db.incidents[i].confidence
                  else db'.incidents[i].reasoning.None?)
  {
  }

  /** Nothing was ever concluded about an incident that is only now created. */
  lemma AssignFits(db: Db, id: nat)
    requires id < |db.evidence| && Fits(db)
    ensures Fits(Assign(db, id))
  {
    hide Assign;
    AssignSpeaksNot(db, id);
    forall i: nat | |db.incidents| <= i < |Assign(db, id).incidents|
      ensures Current(db.verdicts, i).None?
    {
      CurrentIsLast(db.verdicts, i);
    }
  }

  lemma {:induction false} AssignAllFits(db: Db, ids: seq<nat>)
    requires Within(ids, |db.evidence|) && Fits(db)
    ensures Fits(AssignAll(db, ids))
  {
    hide Assign, Fits;
    if ids != [] {
      AssignAllFits(db, ids[..|ids| - 1]);
      if AssignAll(db, ids[..|ids| - 1]).evidence[ids[|ids| - 1]].key.entity != "" {
        AssignFits(AssignAll(db, ids[..|ids| - 1]), ids[|ids| - 1]);
      }
    }
  }

  lemma GroupFits(w: World, db: Db, now: int, clock: int)
    requires Sound(db) && Archived(db.verdicts) && Fits(db)
    ensures Fits(Group(w, db, now, clock))
  {
    hide RethinkAll, AssignAll, Fits, Free, Touched;
    var ids := Free(db.evidence, now - LOOKBACK_S);
    var db1 := AssignAll(db, ids);
    FreeAssigned(db, now - LOOKBACK_S);
    AssignAllFits(db, ids);
    BackedWhenSound(db1);
    SweepFits(w, db1, Touched(db1.evidence, ids, now - LOOKBACK_S), clock);
  }

  lemma CloseFits(db: Db, now: int)
    requires Fits(db)
    ensures Fits(Close(db, now))
  {
    var incs' := Close(db, now).incidents;
    forall i: nat | i < |incs'|
      ensures RowFits(incs'[i], Current(db.verdicts, i))
    {
      assert RowFits(db.incidents[i], Current(db.verdicts, i));
    }
  }

  // ---------------------------------------------------------------- conclusions follow the evidence

  /** The reasoning rests on exactly the evidence that stands, in order; with none left it says
      that all of it was retracted. */
  ghost predicate UpToDate(evs: seq<Row>, i: nat, r: Reasoning) {
    var ids := Standing(evs, i);
    && r.retracted == |RetractedIds(evs, i)|
    && (if ids == [] then r.AllRetracted?
        else r.Reasoned? && r.refs == ids && r.cause == Cause(evs, ids)
             && r.rules == RulesOf(RowsAt(evs, ids)) && r.byRole == ByRole(evs, ids))
  }

  ghost predicate Concluded(db: Db, i: nat) {
    Current(db.verdicts, i).Some? && UpToDate(db.evidence, i, Current(db.verdicts, i).value)
  }

  ghost predicate Settled(db: Db) {
    forall i: nat :: i < |db.incidents| ==> Concluded(db, i)
  }

  ghost predicate LostSince(evs: seq<Row>, i: nat, t: int) {
    exists id :: id in RetractedIds(evs, i) && evs[id].status.at >= t
  }

  /** An incident whose conclusion lags behind its evidence lost some of it at ``t`` or later. */
  ghost predicate Owing(db: Db, t: int) {
    forall i: nat :: i < |db.incidents| ==> Concluded(db, i) || LostSince(db.evidence, i, t)
  }

  lemma {:induction false} TriggerSame(evs: seq<Row>, evs': seq<Row>, ids: seq<nat>)
    requires Within(ids, |evs|) && Within(ids, |evs'|)
    requires forall k :: 0 <= k < |ids| ==> evs'[ids[k]] == evs[ids[k]]
    ensures PrimaryTrigger(evs', ids) == PrimaryTrigger(evs, ids)
    ensures forall role :: WithRole(evs', ids, role) == WithRole(evs, ids, role)
  {
    if ids != [] {
      TriggerSame(evs, evs', ids[..|ids| - 1]);
      assert ids == ids[..|ids| - 1] + [ids[|ids| - 1]];
    }
  }

  /** If the rows assigned to an incident are the same, so is the view of them. */
  lemma ViewSame(evs: seq<Row>, evs': seq<Row>, i: nat, r: Reasoning)
    requires |evs| <= |evs'| && Members(evs', i) == Members(evs, i)
    requires forall id :: id in Members(evs, i) ==> evs'[id] == evs[id]
    ensures UpToDate(evs', i, r) <==> UpToDate(evs, i, r)
  {
    assert forall id :: id in ActiveIds(evs, i) ==> id in Members(evs, i);
    assert forall id :: id in RetractedIds(evs, i) ==> id in Members(evs, i);
    assert forall id :: id in ActiveIds(evs', i) ==> id in Members(evs', i);
    assert forall id :: id in RetractedIds(evs', i) ==> id in Members(evs', i);
    assert ActiveIds(evs', i) == ActiveIds(evs, i);
    assert RetractedIds(evs', i) == RetractedIds(evs, i);
    ByTimeSame(evs, evs', ActiveIds(evs, i), |evs|, |evs'|);
    var ids := Standing(evs, i);
    forall k | 0 <= k < |ids| ensures evs'[ids[k]] == evs[ids[k]] {
      assert ids[k] in ids;
    }
    TriggerSame(evs, evs', ids);
    assert RowsAt(evs', ids) == RowsAt(evs, ids);
    RolesSame(evs, evs', ids);
  }

  lemma RolesSame(evs: seq<Row>, evs': seq<Row>, ids: seq<nat>)
    requires Within(ids, |evs|) && Within(ids, |evs'|)
    requires forall k :: 0 <= k < |ids| ==> evs'[ids[k]] == evs[ids[k]]
    requires forall role :: WithRole(evs', ids, role) == WithRole(evs, ids, role)
    ensures ByRole(evs', ids) == ByRole(evs, ids)
  {
    assert forall id :: id in ids ==> evs'[id] == evs[id];
    assert (set id | id in ids :: evs[id].key.role) == (set id | id in ids :: evs'[id].key.role);
  }

  /** A correlation cycle at ``now`` only leaves behind debts dated ``now``. */
  lemma OwingAfterCycle(db: Db, evs': seq<Row>, now: int, t: int)
    requires Owing(db, t) && Cycle(db.evidence, evs', now) && now >= t
    ensures Owing(db.(evidence := evs'), t)
  {
    var evs := db.evidence;
    forall i: nat | i < |db.incidents|
      ensures Concluded(db.(evidence := evs'), i) || LostSince(evs', i, t)
    {
      assert forall id :: 0 <= id < |evs| ==> Continues(evs[id], evs'[id]);
      if LostSince(evs, i, t) {
        var id :| id in RetractedIds(evs, i) && evs[id].status.at >= t;
        assert id in RetractedIds(evs', i) && evs'[id].status.at >= t;
      } else if id :| id in Members(evs, i) && evs'[id] != evs[id] {
        assert id in RetractedIds(evs', i) && evs'[id].status.at >= t;
      } else {
        assert Members(evs', i) == Members(evs, i);
        ViewSame(evs, evs', i, Current(db.verdicts, i).value);
      }
    }
  }

  lemma BackedWhenSound(db: Db)
    requires Sound(db)
    ensures AllBacked(db)
  {
    forall i: nat | i < |db.incidents| ensures Backed(db, i) {
      SoundEntity(db, i);
    }
  }

  lemma OpinionIsUpToDate(w: World, db: Db, i: nat)
    requires i < |db.incidents|
    ensures UpToDate(db.evidence, i, Opinion(w, db, i))
  {
  }

  /** After an incident has been reasoned about, the conclusion in force for it cites exactly its
      active rows, by time and id, or says how many were retracted when none is active; what is in
      force for the other incidents is what was. */
  lemma RethinkConcludes(w: World, db: Db, i: nat, clock: int)
    requires Archived(db.verdicts) && i < |db.incidents| && Backed(db, i)
    ensures var db' := Rethink(w, db, i, clock);
            && Live(db'.verdicts, i).Some?
            && var r := db'.verdicts[Live(db'.verdicts, i).value].reasoning;
               if exists id :: id in Members(db.evidence, i) && db.evidence[id].status.Active?
               then && r.Reasoned? && Within(r.refs, |db.evidence|) && Ordered(db.evidence, r.refs)
                    && (forall id :: id in r.refs <==>
                          id in Members(db.evidence, i) && db.evidence[id].status.Active?)
               else r == AllRetracted(|Members(db.evidence, i)|)
    ensures var db' := Rethink(w, db, i, clock);
            forall j: nat :: j != i && j < |db.incidents| ==> (Concluded(db', j) <==> Concluded(db, j))
  {
    hide Rethink, Record, Sources, ByRole;
    var db' := Rethink(w, db, i, clock);
    RethinkKeeps(w, db, i, clock);
    LiveIsLast(db'.verdicts, i);
    ByTimeOrdered(db.evidence, ActiveIds(db.evidence, i), |db.evidence|);
    var ids := Standing(db.evidence, i);
    if ids == [] {
      forall id | id in Members(db.evidence, i)
        ensures id in RetractedIds(db.evidence, i)
      {
        assert db.evidence[id].status.Active? ==> id in ids;
      }
      assert RetractedIds(db.evidence, i) == Members(db.evidence, i);
    } else {
      assert ids[0] in ids;
      assert ids[0] in Members(db.evidence, i) && db.evidence[ids[0]].status.Active?;
    }
  }

  /** The rows free for grouping, as grouping finds and leaves them. */
  lemma AssignFree(db: Db, since: int)
    requires Sound(db)
    ensures var ids, db1 := Free(db.evidence, since), AssignAll(db, Free(db.evidence, since));
            && Sound(db1) && Ordered(db.evidence, ids)
            && (forall k :: 0 <= k < |ids| ==> db.evidence[ids[k]].incident.None?)
  {
    var ids := Free(db.evidence, since);
    ByTimeOrdered(db.evidence, FreeIds(db.evidence, since), |db.evidence|);
    forall k | 0 <= k < |ids| ensures db.evidence[ids[k]].incident.None? {
      assert ids[k] in ids;
    }
    forall a, b | 0 <= a < b < |ids| ensures ids[a] != ids[b] {
      assert Earlier(db.evidence, ids[a], ids[b]);
    }
    SoundAfterAssignAll(db, ids);
  }

  /** Untouched incidents were settled before, and their rows have not moved. */
  lemma UntouchedStaysConcluded(db: Db, since: int, t: int, i: nat)
    requires Sound(db) && Owing(db, t) && since <= t
    requires var ids := Free(db.evidence, since);
             i < |AssignAll(db, ids).incidents| && i !in Touched(AssignAll(db, ids).evidence, ids, since)
    ensures Concluded(AssignAll(db, Free(db.evidence, since)), i)
  {
    hide AssignAll, Free, Sound, UpToDate;
    var evs, ids := db.evidence, Free(db.evidence, since);
    var db1 := AssignAll(db, ids);
    AssignFree(db, since);
    AssignAllRows(db, ids);
    var evs1 := db1.evidence;
    forall id | id in Members(evs1, i)
      ensures id !in ids && evs1[id] == evs[id]
    {
    }
    assert forall id :: id in Members(evs, i) ==> id !in ids;
    assert Members(evs1, i) == Members(evs, i);
    SoundEntity(db1, i);
    var m :| m in Members(evs, i);
    MemberBounds(db, m);
    forall id | id in RetractedIds(evs, i)
      ensures evs[id].status.at < t
    {
      assert id in Members(evs1, i);
    }
    assert Concluded(db, i);
    ViewSame(evs, evs1, i, Current(db.verdicts, i).value);
  }

  /** Grouping pays every debt younger than its lookback: afterwards each incident has exactly one
      conclusion in force, resting on exactly its standing evidence. */
  lemma GroupSettles(w: World, db: Db, now: int, clock: int, t: int)
    requires Sound(db) && Archived(db.verdicts) && Owing(db, t) && now - LOOKBACK_S <= t
    ensures var db' := Group(w, db, now, clock);
            Sound(db') && Archived(db'.verdicts) && Settled(db')
  {
    var since := now - LOOKBACK_S;
    var ids := Free(db.evidence, since);
    var db1 := AssignAll(db, ids);
    var touched := Touched(db1.evidence, ids, since);
    AssignFree(db, since);
    AssignAllRows(db, ids);
    BackedWhenSound(db1);
    RethinkAllKeeps(w, db1, touched, |db1.incidents|, clock);
    var db' := Group(w, db, now, clock);
    SoundAfterRethink(w, db1, touched, |db1.incidents|, clock);
    forall i: nat | i < |db'.incidents| ensures Concluded(db', i) {
      if i in touched {
        OpinionIsUpToDate(w, db1, i);
      } else {
        UntouchedStaysConcluded(db, since, t, i);
      }
    }
  }

  lemma SoundAfterRethink(w: World, db: Db, touched: set<nat>, n: nat, clock: int)
    requires Sound(db) && Archived(db.verdicts) && n <= |db.incidents|
    ensures Sound(RethinkAll(w, db, touched, n, clock))
  {
    BackedWhenSound(db);
    RethinkAllKeeps(w, db, touched, n, clock);
    var db' := RethinkAll(w, db, touched, n, clock);
    forall i | 0 <= i < |db'.incidents| ensures Aggregates(db'.evidence, db'.incidents[i], i) {
      assert Aggregates(db.evidence, db.incidents[i], i);
      RelabelKeeps(w, db.evidence, db.incidents[i], i);
      AggregatesSameRow(db.evidence, db.incidents[i], db'.incidents[i], i);
    }
  }

  ghost predicate NoEntity(evs: seq<Row>, ids: seq<nat>)
    requires Within(ids, |evs|)
  {
    forall k :: 0 <= k < |ids| ==> evs[ids[k]].key.entity == ""
  }

  /** What grouping at ``now`` left free is not free at a later ``now'`` either, but for rows
      without an entity. */
  lemma NothingLeftFree(db: Db, evs': seq<Row>, since: int, since': int)
    requires Sound(db) && since' >= since
    requires evs' == AssignAll(db, Free(db.evidence, since)).evidence
    ensures var ids' := Free(evs', since');
            && NoEntity(evs', ids')
            && (forall k :: 0 <= k < |ids'| ==> evs'[ids'[k]].incident.None?)
  {
    var ids, ids' := Free(db.evidence, since), Free(evs', since');
    AssignAllRows(db, ids);
    forall k | 0 <= k < |ids'| ensures evs'[ids'[k]].key.entity == "" && evs'[ids'[k]].incident.None? {
      var id := ids'[k];
      assert id in ids';
      assert evs'[id].(incident := db.evidence[id].incident) == db.evidence[id];
      assert db.evidence[id].incident.None? ==> id in ids;
    }
  }

  lemma TouchedShrinks(evs: seq<Row>, ids: seq<nat>, since: int, ids': seq<nat>, since': int)
    requires Within(ids, |evs|) && Within(ids', |evs|) && since' >= since
    requires forall k :: 0 <= k < |ids'| ==> evs[ids'[k]].incident.None?
    ensures Touched(evs, ids', since') <= Touched(evs, ids, since)
  {
    assert forall id :: id in ids' ==> evs[id].incident.None?;
  }

  /** ``db2`` is ``db1`` with the conclusions of the touched incidents brought up to date. */
  ghost predicate Rethought(w: World, db1: Db, db2: Db, touched: set<nat>) {
    && db2.evidence == db1.evidence && |db2.incidents| == |db1.incidents|
    && (forall j: nat :: j < |db1.incidents| && j in touched ==>
          && db2.incidents[j] == Relabel(w, db1.evidence, db1.incidents[j], j)
          && Current(db2.verdicts, j) == Some(Opinion(w, db1, j)))
  }

  lemma GroupRethinks(w: World, db: Db, now: int, clock: int)
    requires Sound(db) && Archived(db.verdicts)
    ensures var ids := Free(db.evidence, now - LOOKBACK_S);
            var db1, db2 := AssignAll(db, ids), Group(w, db, now, clock);
            && Rethought(w, db1, db2, Touched(db1.evidence, ids, now - LOOKBACK_S))
            && Sound(db2) && Archived(db2.verdicts)
  {
    var ids := Free(db.evidence, now - LOOKBACK_S);
    var db1 := AssignAll(db, ids);
    FreeAssigned(db, now - LOOKBACK_S);
    SweepRethinks(w, db1, Touched(db1.evidence, ids, now - LOOKBACK_S), clock);
  }

  lemma FreeAssigned(db: Db, since: int)
    requires Sound(db)
    ensures var db1 := AssignAll(db, Free(db.evidence, since)); Sound(db1) && db1.verdicts == db.verdicts
  {
    AssignFree(db, since);
    AssignAllRows(db, Free(db.evidence, since));
  }

  lemma SweepRethinks(w: World, db1: Db, touched: set<nat>, clock: int)
    requires Sound(db1) && Archived(db1.verdicts)
    ensures var db2 := RethinkAll(w, db1, touched, |db1.incidents|, clock);
            Rethought(w, db1, db2, touched) && Sound(db2) && Archived(db2.verdicts)
  {
    BackedWhenSound(db1);
    RethinkAllKeeps(w, db1, touched, |db1.incidents|, clock);
    SoundAfterRethink(w, db1, touched, |db1.incidents|, clock);
  }

  /** Grouping again, with no new evidence and the world as it was, changes nothing at all. */
  lemma RegroupIsIdle(w: World, db: Db, now: int, clock: int, now': int, clock': int)
    requires Sound(db) && Archived(db.verdicts) && now' >= now
    ensures Group(w, Group(w, db, now, clock), now', clock') == Group(w, db, now, clock)
  {
    var since, since' := now - LOOKBACK_S, now' - LOOKBACK_S;
    var ids := Free(db.evidence, since);
    var db1, db2 := AssignAll(db, ids), Group(w, db, now, clock);
    GroupRethinks(w, db, now, clock);
    NothingLeftFree(db, db2.evidence, since, since');
    TouchedShrinks(db1.evidence, ids, since, Free(db2.evidence, since'), since');
    GroupAgain(w, db1, db2, Touched(db1.evidence, ids, since), now', clock');
  }

  lemma GroupAgain(w: World, db1: Db, db2: Db, touched: set<nat>, now: int, clock: int)
    requires Sound(db2) && Archived(db2.verdicts) && Rethought(w, db1, db2, touched)
    requires NoEntity(db2.evidence, Free(db2.evidence, now - LOOKBACK_S))
    requires Touched(db2.evidence, Free(db2.evidence, now - LOOKBACK_S), now - LOOKBACK_S) <= touched
    ensures Group(w, db2, now, clock) == db2
  {
    var ids := Free(db2.evidence, now - LOOKBACK_S);
    NothingToAssign(db2, ids);
    BackedWhenSound(db2);
    RethoughtIsIdle(w, db1, db2, touched, Touched(db2.evidence, ids, now - LOOKBACK_S), clock);
  }

  lemma RethoughtIsIdle(w: World, db1: Db, db2: Db, touched: set<nat>, touched': set<nat>, clock: int)
    requires Archived(db2.verdicts) && AllBacked(db2) && touched' <= touched
    requires Rethought(w, db1, db2, touched)
    ensures RethinkAll(w, db2, touched', |db2.incidents|, clock) == db2
  {
    forall j: nat | j < |db2.incidents| && j in touched'
      ensures db2.incidents[j] == Relabel(w, db2.evidence, db2.incidents[j], j)
      ensures Current(db2.verdicts, j) == Some(Opinion(w, db2, j))
    {
      RelabelKeeps(w, db1.evidence, db1.incidents[j], j);
    }
    RethinkAllIdle(w, db2, touched', |db2.incidents|, clock);
  }

  lemma {:induction false} NothingToAssign(db: Db, ids: seq<nat>)
    requires Within(ids, |db.evidence|) && NoEntity(db.evidence, ids)
    ensures AssignAll(db, ids) == db
  {
    if ids != [] {
      NothingToAssign(db, ids[..|ids| - 1]);
    }
  }

  // ---------------------------------------------------------------- corroboration

  /** The same incident seen over at least the same span. */
  predicate Widens(inc: Incident, inc': Incident) {
    inc'.tenant == inc.tenant && inc'.entity == inc.entity && inc'.first <= inc.first && inc.last <= inc'.last
  }

  /** ``ids'`` adds to ``ids`` nothing but rows that trigger nothing. */
  ghost predicate Corroborated(evs: seq<Row>, ids: seq<nat>, ids': seq<nat>) {
    && Within(ids, |evs|) && Within(ids', |evs|)
    && (forall id :: id in ids ==> id in ids')
    && (forall id :: id in ids' && id !in ids ==> id < |evs| && evs[id].key.role != Trigger)
  }

  lemma TriggerUnmoved(evs: seq<Row>, ids: seq<nat>, ids': seq<nat>)
    requires Corroborated(evs, ids, ids')
    ensures PrimaryTrigger(evs, ids') == PrimaryTrigger(evs, ids)
  {
  }

  lemma {:induction false} SourcesGrow(w: World, inc: Incident, inc': Incident, rows: seq<Row>, rows': seq<Row>, n: nat)
    requires Widens(inc, inc') && n <= |SOURCES| && forall r :: r in rows ==> r in rows'
    ensures |Sources(w, inc, rows, n)| <= |Sources(w, inc', rows', n)|
  {
    if n > 0 {
      SourcesGrow(w, inc, inc', rows, rows', n - 1);
      if Corroborates(w, inc, rows, SOURCES[n - 1]) {
        SourceStays(w, inc, inc', rows, rows', SOURCES[n - 1]);
      }
    }
  }

  lemma SourceStays(w: World, inc: Incident, inc': Incident, rows: seq<Row>, rows': seq<Row>, s: Source)
    requires Widens(inc, inc') && forall r :: r in rows ==> r in rows'
    requires Corroborates(w, inc, rows, s)
    ensures Corroborates(w, inc', rows', s)
  {
    if s == RulesAgree {
      SubsetSize(RulesOf(rows), RulesOf(rows'));
    } else if s == DeviceState || s == VlanBinding {
      assert AddressesOf(rows) <= AddressesOf(rows');
    }
  }

  lemma SubsetSize<T>(a: set<T>, b: set<T>)
    requires a <= b
    ensures |a| <= |b|
  {
    assert b == a + (b - a);
  }

  /** Evidence that triggers nothing never changes the cause and never lowers the confidence,
      which stays at or under the ceiling whatever base a rule declares. */
  lemma CorroborationOnlyHelps(w: World, inc: Incident, inc': Incident, evs: seq<Row>, ids: seq<nat>, ids': seq<nat>)
    requires Widens(inc, inc') && Corroborated(evs, ids, ids')
    ensures Cause(evs, ids') == Cause(evs, ids)
    ensures Confidence(w, inc, evs, ids) <= Confidence(w, inc', evs, ids') <= CONFIDENCE_MAX
  {
    TriggerUnmoved(evs, ids, ids');
    var rows, rows' := RowsAt(evs, ids), RowsAt(evs, ids');
    forall r | r in rows ensures r in rows' {
      var k :| 0 <= k < |ids| && rows[k] == r;
      assert ids[k] in ids';
      var k' :| 0 <= k' < |ids'| && ids'[k'] == ids[k];
      assert rows'[k'] == r;
    }
    SourcesGrow(w, inc, inc', rows, rows', |SOURCES|);
  }

  lemma {:induction false} AssignAllWidens(db: Db, ids: seq<nat>)
    requires Within(ids, |db.evidence|)
    ensures |db.incidents| <= |AssignAll(db, ids).incidents|
    ensures forall j :: 0 <= j < |db.incidents| ==> Widens(db.incidents[j], AssignAll(db, ids).incidents[j])
  {
    if ids != [] {
      AssignAllWidens(db, ids[..|ids| - 1]);
    }
  }

  /** The rows a grouping cycle may add to incident ``i``. */
  predicate Candidate(db: Db, i: nat, id: nat)
    requires i < |db.incidents| && id < |db.evidence|
  {
    db.evidence[id].tenant == db.incidents[i].tenant && db.evidence[id].key.entity == db.incidents[i].entity
  }

  /** No free row of the incident's own tenant and entity triggers anything. */
  ghost predicate OnlyCorroborated(db: Db, i: nat, since: int)
    requires i < |db.incidents|
  {
    forall id :: id in Free(db.evidence, since) && Candidate(db, i, id) ==> db.evidence[id].key.role != Trigger
  }

  /** The evidence of an incident after assignment, when nothing that joined it triggers. */
  lemma AssignCorroborates(w: World, db: Db, since: int, i: nat)
    requires Sound(db) && i < |db.incidents| && OnlyCorroborated(db, i, since)
    ensures var db1 := AssignAll(db, Free(db.evidence, since));
            var ids, ids' := Standing(db.evidence, i), Standing(db1.evidence, i);
            && i < |db1.incidents|
            && Cause(db1.evidence, ids') == Cause(db.evidence, ids)
            && Confidence(w, db.incidents[i], db.evidence, ids)
               <= Confidence(w, db1.incidents[i], db1.evidence, ids') <= CONFIDENCE_MAX
  {
    hide AssignAll, Cause, Confidence, Free, Standing;
    var free := Free(db.evidence, since);
    var db1 := AssignAll(db, free);
    AssignFree(db, since);
    AssignAllRows(db, free);
    AssignAllWidens(db, free);
    forall id | id in free && db1.evidence[id].incident == Some(i)
      ensures db.evidence[id].key.role != Trigger
    {
      MemberBounds(db1, id);
      assert Widens(db.incidents[i], db1.incidents[i]) && Candidate(db, i, id);
    }
    var ids, ids' := Standing(db.evidence, i), Standing(db1.evidence, i);
    StandingGrows(db, db1, free, i);
    CorroborationOnlyHelps(w, db.incidents[i], db1.incidents[i], db1.evidence, ids, ids');
    SameRowsSameView(w, db.incidents[i], db.evidence, db1.evidence, ids);
  }

  /** A conclusion in force that rests on standing evidence. */
  predicate InForce(vs: seq<Verdict>, i: nat, cause: string, least: int) {
    && Live(vs, i).Some?
    && vs[Live(vs, i).value].cause == cause && least <= vs[Live(vs, i).value].confidence <= CONFIDENCE_MAX
  }

  /** Over a whole grouping cycle: if no free row of the incident's tenant and entity triggers
      anything, whatever happens to other entities, the conclusion the cycle records about the
      incident names the cause its standing evidence already had, with at least the confidence that
      evidence gave. When the conclusion before was up to date, it named the same cause. */
  lemma GroupCorroborates(w: World, db: Db, now: int, clock: int, i: nat)
    requires Sound(db) && Archived(db.verdicts) && Fits(db) && i < |db.incidents|
    requires OnlyCorroborated(db, i, now - LOOKBACK_S)
    ensures var db', free := Group(w, db, now, clock), Free(db.evidence, now - LOOKBACK_S);
            var ids, ids' := Standing(db.evidence, i), Standing(db'.evidence, i);
            && i < |db'.incidents| && |db'.evidence| == |db.evidence|
            && Cause(db'.evidence, ids') == Cause(db.evidence, ids)
            && (i in Touched(db'.evidence, free, now - LOOKBACK_S) && ids' != [] ==>
                  InForce(db'.verdicts, i, Cause(db.evidence, ids), Confidence(w, db.incidents[i], db.evidence, ids)))
            && (Concluded(db, i) && ids != [] ==>
                  Live(db.verdicts, i).Some?
                  && db.verdicts[Live(db.verdicts, i).value].cause == Cause(db.evidence, ids))
  {
    hide AssignAll, RethinkAll, Cause, Standing, Free, Touched, Live, OnlyCorroborated;
    var since := now - LOOKBACK_S;
    var free := Free(db.evidence, since);
    var db1, db' := AssignAll(db, free), Group(w, db, now, clock);
    AssignCorroborates(w, db, since, i);
    GroupRethinks(w, db, now, clock);
    GroupFits(w, db, now, clock);
    LiveIsLast(db'.verdicts, i);
    LiveIsLast(db.verdicts, i);
    if i in Touched(db1.evidence, free, since) && Standing(db1.evidence, i) != [] {
      var v := db'.verdicts[Live(db'.verdicts, i).value];
      assert Worded(v) && v.reasoning == Opinion(w, db1, i);
    }
    if Concluded(db, i) && Standing(db.evidence, i) != [] {
      assert Worded(db.verdicts[Live(db.verdicts, i).value]);
    }
  }

  lemma StandingGrows(db: Db, db1: Db, free: seq<nat>, i: nat)
    requires Within(free, |db.evidence|) && db1 == AssignAll(db, free) && |db1.evidence| == |db.evidence|
    requires forall k :: 0 <= k < |free| ==> db.evidence[free[k]].incident.None?
    requires forall id :: id in free && db1.evidence[id].incident == Some(i) ==> db.evidence[id].key.role != Trigger
    ensures Corroborated(db1.evidence, Standing(db.evidence, i), Standing(db1.evidence, i))
    ensures forall id :: id in Standing(db.evidence, i) ==> db1.evidence[id] == db.evidence[id]
  {
    hide AssignAll, Standing;
    AssignAllRows(db, free);
    var evs, evs1 := db.evidence, db1.evidence;
    forall id | id in Standing(evs, i)
      ensures id in Standing(evs1, i) && evs1[id] == evs[id]
    {
      assert id in ActiveIds(evs, i);
      assert id !in free;
      assert id in ActiveIds(evs1, i);
    }
    forall id | id in Standing(evs1, i) && id !in Standing(evs, i)
      ensures evs1[id].key.role != Trigger
    {
      assert id in ActiveIds(evs1, i) && id !in ActiveIds(evs, i);
      assert evs1[id].(incident := evs[id].incident) == evs[id];
    }
  }

  lemma SameRowsSameView(w: World, inc: Incident, evs: seq<Row>, evs': seq<Row>, ids: seq<nat>)
    requires Within(ids, |evs|) && Within(ids, |evs'|)
    requires forall id :: id in ids ==> evs'[id] == evs[id]
    ensures Cause(evs', ids) == Cause(evs, ids) && Confidence(w, inc, evs', ids) == Confidence(w, inc, evs, ids)
  {
    forall k | 0 <= k < |ids| ensures evs'[ids[k]] == evs[ids[k]] {
      assert ids[k] in ids;
    }
    TriggerSame(evs, evs', ids);
    assert RowsAt(evs', ids) == RowsAt(evs, ids);
  }
}
