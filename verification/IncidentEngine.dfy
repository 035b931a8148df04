/** The grouping and reasoning loops as they run on the connection, each proved to compute the
    function that specifies it. */
module IncidentEngine {
  import opened Wrappers
  import opened Evidence
  import opened Incidents
  import opened Grouping
  import Conclusions
  import Reasons

  /** ``_corroborating_sources``. */
  method CorroboratingSources(w: World, inc: Incident, rows: seq<Row>) returns (sources: seq<Source>)
    ensures sources == Sources(w, inc, rows, |SOURCES|)
  {
    sources := SourcesFromRows(w, inc, rows);
    var ips := AddressesOf(rows);
    NextSource(w, inc, rows, 5, DeviceState);
    NextSource(w, inc, rows, 6, VlanBinding);
    if ips != {} {
      if StateSeen(w, inc, ips) { sources := sources + [DeviceState]; }
      if VlanKnown(w, inc, ips) { sources := sources + [VlanBinding]; }
    }
  }

  method SourcesFromRows(w: World, inc: Incident, rows: seq<Row>) returns (sources: seq<Source>)
    ensures sources == Sources(w, inc, rows, 5)
  {
    hide Sources, RulesOf, HasRole, StateSeen, VlanKnown;
    sources := [];
    if HasRole(rows, Supporting) { sources := sources + [SupportingEvidence]; }
    assert sources == Sources(w, inc, rows, 1) by { NextSource(w, inc, rows, 0, SupportingEvidence); }
    if HasRole(rows, Symptom) { sources := sources + [SymptomSeen]; }
    assert sources == Sources(w, inc, rows, 2) by { NextSource(w, inc, rows, 1, SymptomSeen); }
    if HasRole(rows, Consequence) { sources := sources + [ConsequenceSeen]; }
    assert sources == Sources(w, inc, rows, 3) by { NextSource(w, inc, rows, 2, ConsequenceSeen); }
    if |RulesOf(rows)| > 1 { sources := sources + [RulesAgree]; }
    assert sources == Sources(w, inc, rows, 4) by { NextSource(w, inc, rows, 3, RulesAgree); }
    if exists r | r in rows :: r.port != "" { sources := sources + [PhysicalPosition]; }
    assert sources == Sources(w, inc, rows, 5) by { NextSource(w, inc, rows, 4, PhysicalPosition); }
  }

  lemma NextSource(w: World, inc: Incident, rows: seq<Row>, n: nat, s: Source)
    requires n < |SOURCES| && SOURCES[n] == s
    ensures n == 0 ==> Sources(w, inc, rows, n) == []
    ensures Sources(w, inc, rows, n + 1)
            == Sources(w, inc, rows, n) + if Corroborates(w, inc, rows, s) then [s] else []
  {
  }

  /** The ``setdefault(role, []).append(id)`` loop. */
  method GroupByRole(evs: seq<Row>, ids: seq<nat>) returns (byRole: map<Role, seq<nat>>)
    requires Within(ids, |evs|)
    ensures byRole == ByRole(evs, ids)
  {
    byRole := map[];
    var k := 0;
    while k < |ids|
      invariant 0 <= k <= |ids|
      invariant byRole == ByRole(evs, ids[..k])
    {
      var role := evs[ids[k]].key.role;
      var next := byRole[role := (if role in byRole then byRole[role] else []) + [ids[k]]];
      ByRoleStep(evs, ids[..k], ids[k]);
      assert ids[..k + 1] == ids[..k] + [ids[k]];
      byRole, k := next, k + 1;
    }
    assert ids[..k] == ids;
  }

  lemma ByRoleStep(evs: seq<Row>, ids: seq<nat>, id: nat)
    requires Within(ids, |evs|) && id < |evs|
    ensures var byRole, role := ByRole(evs, ids), evs[id].key.role;
            ByRole(evs, ids + [id]) == byRole[role := (if role in byRole then byRole[role] else []) + [id]]
  {
    hide WithRole;
    var byRole, role := ByRole(evs, ids), evs[id].key.role;
    var next := ByRole(evs, ids + [id]);
    RolesGrow(evs, ids, id);
    if role !in byRole {
      NoneWithRole(evs, ids, role);
    }
    forall r
      ensures WithRole(evs, ids + [id], r) == WithRole(evs, ids, r) + if role == r then [id] else []
    {
      WithRoleSnoc(evs, ids, id, r);
    }
    var grown := byRole[role := (if role in byRole then byRole[role] else []) + [id]];
    assert next.Keys == grown.Keys;
    forall r | r in next
      ensures next[r] == grown[r]
    {
      assert WithRole(evs, ids, r) + [] == WithRole(evs, ids, r);
    }
  }

  lemma WithRoleSnoc(evs: seq<Row>, ids: seq<nat>, id: nat, role: Role)
    requires Within(ids, |evs|) && id < |evs|
    ensures Within(ids + [id], |evs|)
    ensures WithRole(evs, ids + [id], role) == WithRole(evs, ids, role) + if evs[id].key.role == role then [id] else []
  {
    assert (ids + [id])[..|ids|] == ids;
  }

  lemma RolesGrow(evs: seq<Row>, ids: seq<nat>, id: nat)
    requires Within(ids, |evs|) && id < |evs|
    ensures Within(ids + [id], |evs|)
    ensures ByRole(evs, ids + [id]).Keys == ByRole(evs, ids).Keys + {evs[id].key.role}
  {
    hide WithRole;
    assert forall k :: k in ids + [id] <==> k in ids || k == id;
    assert id in ids + [id];
    forall r | r in ByRole(evs, ids)
      ensures r in ByRole(evs, ids + [id])
    {
      var k :| k in ids && evs[k].key.role == r;
      assert k in ids + [id];
    }
  }

  lemma {:induction false} NoneWithRole(evs: seq<Row>, ids: seq<nat>, role: Role)
    requires Within(ids, |evs|) && forall id :: id in ids ==> id < |evs| && evs[id].key.role != role
    ensures WithRole(evs, ids, role) == []
  {
    if ids != [] {
      assert ids[|ids| - 1] in ids;
      NoneWithRole(evs, ids[..|ids| - 1], role);
    }
  }

  /** ``_record_conclusion``. */
  method RecordConclusion(db: Connection, i: nat, cause: string, confidence: int, reasoning: Reasoning, clock: int)
    modifies db`verdicts
    ensures db.verdicts == Record(old(db.verdicts), i, cause, confidence, reasoning, clock)
  {
    var live := Live(db.verdicts, i);
    if live.Some? {
      if db.verdicts[live.value].reasoning == reasoning {
        return;
      }
      db.verdicts := db.verdicts[live.value := db.verdicts[live.value].(superseded := Some(clock))];
    }
    db.verdicts := db.verdicts + [Verdict(i, clock, None, cause, confidence, reasoning)];
  }

  /** ``_reason``. */
  method ReasonAbout(db: Connection, w: World, i: nat, clock: int)
    modifies db`incidents, db`verdicts
    ensures db.Tables() == Rethink(w, old(db.Tables()), i, clock)
    ensures Explainable(old(db.Tables()), i) ==> i < |db.incidents| && Reasons.SaysWhy(w, db.Tables(), i)
  {
    hide Standing, Record, Sources, ByRole, PrimaryTrigger, RulesOf, RowsAt, Title, BaseConfidence, Reasons.SaysWhy;
    if Explainable(db.Tables(), i) {
      Reasons.RethinkSaysWhy(w, db.Tables(), i, clock);
    }
    hide Explainable;
    if i >= |db.incidents| {
      return;
    }
    var evs, inc := db.evidence, db.incidents[i];
    var ids := Standing(evs, i);
    var retracted := |RetractedIds(evs, i)|;
    if ids == [] {
      if retracted != 0 {
        RecordConclusion(db, i, ALL_RETRACTED, 0, AllRetracted(retracted), clock);
      }
      return;
    }
    var trigger := PrimaryTrigger(evs, ids);
    var cause, base, version, params := UNDETERMINED, 25, "-", None;
    if trigger.Some? {
      var t := evs[trigger.value];
      cause, base, version, params := t.key.rule, BaseConfidence(w, t.key.rule), t.key.version, Some(t.params);
    }
    var rows := RowsAt(evs, ids);
    var sources := CorroboratingSources(w, inc, rows);
    var confidence := Min(base + CONFIDENCE_STEP * |sources|, CONFIDENCE_MAX);
    var byRole := GroupByRole(evs, ids);
    var reasoning := Reasoned(cause, version, params, base, RulesOf(rows), sources, byRole, ids, retracted);
    assert reasoning == Reason(w, inc, evs, ids, retracted);
    db.incidents := db.incidents[i := inc.(cause := Some(cause), confidence := Some(confidence),
                                           reasoning := Some(reasoning), title := Title(inc, evs, ids))];
    RecordConclusion(db, i, cause, confidence, reasoning, clock);
  }

  /** The archive is in order and the incident has standing evidence. */
  ghost predicate Explainable(db: Db, i: nat) {
    && Conclusions.Archived(db.verdicts) && Conclusions.Filed(db.verdicts, |db.incidents|)
    && i < |db.incidents| && exists id :: Reasons.Stands(db.evidence, i, id)
  }

  /** The body of the assignment loop for a row with an entity. */
  method AssignRow(db: Connection, id: nat) returns (i: nat)
    requires id < |db.evidence|
    modifies db`evidence, db`incidents
    ensures db.Tables() == Assign(old(db.Tables()), id)
    ensures db.evidence[id].incident == Some(i)
  {
    var row := db.evidence[id];
    var ts, severity := row.ts, row.severity.GetOr(4);
    var match_ := MatchOpen(db.incidents, row.tenant, row.key.entity, ts - GAP_S);
    if match_.None? {
      i := |db.incidents|;
      db.incidents := db.incidents + [Incident(row.tenant, row.key.entity, ts, ts, None, severity, 0,
                                               Label(row.key.entity), None, None, None)];
    } else {
      i := match_.value;
    }
    db.evidence := db.evidence[id := row.(incident := Some(i))];
    var inc := db.incidents[i];
    db.incidents := db.incidents[i := inc.(last := Max(inc.last, ts), first := Min(inc.first, ts),
                                           count := inc.count + 1, severity := Min(inc.severity, severity))];
  }

  ghost function AssignedTo(evs: seq<Row>, ids: seq<nat>): set<nat>
    requires Within(ids, |evs|)
  {
    set id | id in ids && evs[id].incident.Some? :: evs[id].incident.value
  }

  ghost function Linkable(evs: seq<Row>, ids: seq<nat>): nat
    requires Within(ids, |evs|)
  {
    if ids == [] then 0
    else Linkable(evs, ids[..|ids| - 1]) + if evs[ids[|ids| - 1]].key.entity != "" then 1 else 0
  }

  lemma AssignOnce(db: Db, id: nat)
    requires id < |db.evidence|
    ensures |Assign(db, id).evidence| == |db.evidence|
    ensures forall k :: 0 <= k < |db.evidence| && k != id ==> Assign(db, id).evidence[k] == db.evidence[k]
  {
  }

  lemma NothingAssigned(db: Db)
    ensures AssignAll(db, []) == db && Linkable(db.evidence, []) == 0 && AssignedTo(db.evidence, []) == {}
  {
  }

  lemma OneMoreRow(db: Db, ids: seq<nat>, k: nat)
    requires k < |ids| && Within(ids, |db.evidence|)
    ensures Within(ids[..k], |db.evidence|) && Within(ids[..k + 1], |db.evidence|)
    ensures Linkable(db.evidence, ids[..k + 1]) ==
            Linkable(db.evidence, ids[..k]) + if db.evidence[ids[k]].key.entity != "" then 1 else 0
    ensures var mid := AssignAll(db, ids[..k]);
            AssignAll(db, ids[..k + 1]) == if mid.evidence[ids[k]].key.entity == "" then mid else Assign(mid, ids[k])
  {
    assert ids[..k + 1][..k] == ids[..k];
  }

  /** The assigning loop of ``group_once``. */
  method AssignRows(db: Connection, ids: seq<nat>) returns (linked: nat, touched: set<nat>)
    requires Within(ids, |db.evidence|) && forall a, b :: 0 <= a < b < |ids| ==> ids[a] != ids[b]
    requires forall k :: 0 <= k < |ids| ==> db.evidence[ids[k]].incident.None?
    modifies db`evidence, db`incidents
    ensures db.Tables() == AssignAll(old(db.Tables()), ids)
    ensures linked == Linkable(old(db.evidence), ids)
    ensures |db.evidence| == |old(db.evidence)| && touched == AssignedTo(db.evidence, ids)
  {
    hide Assign, AssignAll, Linkable, AssignedTo;
    ghost var before := db.Tables();
    NothingAssigned(before);
    assert ids[..0] == [];
    linked := 0;
    touched := {};
    var k := 0;
    while k < |ids|
      invariant 0 <= k <= |ids| && |db.evidence| == |before.evidence|
      invariant db.Tables() == AssignAll(before, ids[..k])
      invariant linked == Linkable(before.evidence, ids[..k])
      invariant touched == AssignedTo(db.evidence, ids[..k])
    {
      OneMoreRow(before, ids, k);
      AssignAllRows(before, ids[..k]);
      assert ids[k] !in ids[..k];
      ghost var evs := db.evidence;
      AssignOnce(db.Tables(), ids[k]);
      if db.evidence[ids[k]].key.entity != "" {
        var i := AssignRow(db, ids[k]);
        touched := touched + {i};
        linked := linked + 1;
      }
      AssignedStep(evs, db.evidence, ids[..k], ids[k]);
      assert ids[..k] + [ids[k]] == ids[..k + 1];
      k := k + 1;
    }
    assert ids[..k] == ids;
  }

  /** ``group_once``. */
  method GroupOnce(db: Connection, w: World, now: int, clock: int) returns (linked: nat)
    modifies db
    ensures db.Tables() == Group(w, old(db.Tables()), now, clock)
    ensures linked == Linkable(old(db.evidence), Free(old(db.evidence), now - LOOKBACK_S))
  {
    hide Free, AssignAll, RethinkAll, Linkable;
    var ids := Free(db.evidence, now - LOOKBACK_S);
    FreeIsFresh(db.evidence, now - LOOKBACK_S);
    var touched: set<nat>;
    linked, touched := AssignRows(db, ids);
    var since := now - LOOKBACK_S;
    touched := touched + set id: nat | id < |db.evidence| && db.evidence[id].incident.Some?
                                       && db.evidence[id].status.Retracted?
                                       && db.evidence[id].status.at >= since :: db.evidence[id].incident.value;
    ghost var mid := db.Tables();
    assert touched == Touched(mid.evidence, ids, since);
    SweepInOrder(db, w, touched, clock);
  }

  /** ``for incident_id in sorted(touched): _reason(conn, incident_id)``. */
  method SweepInOrder(db: Connection, w: World, touched: set<nat>, clock: int)
    modifies db`incidents, db`verdicts
    ensures db.Tables() == RethinkAll(w, old(db.Tables()), touched, |old(db.incidents)|, clock)
  {
    hide Rethink;
    ghost var before := db.Tables();
    var n, i := |db.incidents|, 0;
    while i < n
      invariant 0 <= i <= n
      invariant db.Tables() == RethinkAll(w, before, touched, i, clock)
    {
      if i in touched {
        ReasonAbout(db, w, i, clock);
      }
      i := i + 1;
    }
  }

  lemma FreeIsFresh(evs: seq<Row>, since: int)
    ensures var ids := Free(evs, since);
            && (forall k :: 0 <= k < |ids| ==> evs[ids[k]].incident.None?)
            && (forall a, b :: 0 <= a < b < |ids| ==> ids[a] != ids[b])
  {
    var ids := Free(evs, since);
    ByTimeOrdered(evs, FreeIds(evs, since), |evs|);
    forall k | 0 <= k < |ids| ensures evs[ids[k]].incident.None? {
      assert ids[k] in ids;
    }
    forall a, b | 0 <= a < b < |ids| ensures ids[a] != ids[b] {
      assert Earlier(evs, ids[a], ids[b]);
    }
  }

  lemma AssignedStep(evs: seq<Row>, evs': seq<Row>, ids: seq<nat>, id: nat)
    requires |evs'| == |evs| && Within(ids, |evs|) && id < |evs|
    requires forall k :: 0 <= k < |evs| && k != id ==> evs'[k] == evs[k]
    requires id !in ids
    ensures AssignedTo(evs', ids + [id]) ==
            AssignedTo(evs, ids) + if evs'[id].incident.Some? then {evs'[id].incident.value} else {}
  {
    assert forall k :: k in ids + [id] <==> k in ids || k == id;
    assert forall k :: k in ids ==> evs'[k] == evs[k];
  }

  function Stale(inc: Incident, now: int): bool {
    inc.closed.None? && inc.last < now - QUIET_S
  }

  ghost function StaleBelow(incs: seq<Incident>, n: int, now: int): set<int> {
    set j | 0 <= j < n && j < |incs| && Stale(incs[j], now)
  }

  lemma OneMoreStale(incs: seq<Incident>, n: nat, now: int)
    requires n < |incs|
    ensures |StaleBelow(incs, n + 1, now)| == |StaleBelow(incs, n, now)| + if Stale(incs[n], now) then 1 else 0
  {
    if Stale(incs[n], now) {
      assert StaleBelow(incs, n + 1, now) == StaleBelow(incs, n, now) + {n};
    } else {
      assert StaleBelow(incs, n + 1, now) == StaleBelow(incs, n, now);
    }
  }

  /** ``close_stale``; returns how many incidents it closed. */
  method CloseStale(db: Connection, now: int) returns (closed: nat)
    modifies db`incidents
    ensures db.Tables() == Close(old(db.Tables()), now)
    ensures |db.incidents| == |old(db.incidents)|
    ensures forall j :: 0 <= j < |db.incidents| ==>
              var inc := old(db.incidents)[j];
              db.incidents[j] == if inc.closed.None? && inc.last + QUIET_S < now then inc.(closed := Some(now)) else inc
    ensures closed == |set j: nat | j < |db.incidents| && db.incidents[j] != old(db.incidents)[j]|
  {
    hide StaleBelow;
    ghost var before, done := db.incidents, Close(db.Tables(), now).incidents;
    NoneStale(before, now);
    closed := 0;
    var i := 0;
    while i < |db.incidents|
      invariant 0 <= i <= |db.incidents| == |before| == |done|
      invariant forall j :: 0 <= j < |before| ==> db.incidents[j] == if j < i then done[j] else before[j]
      invariant closed == |StaleBelow(before, i, now)|
    {
      OneMoreStale(before, i, now);
      if Stale(db.incidents[i], now) {
        db.incidents := db.incidents[i := db.incidents[i].(closed := Some(now))];
        closed := closed + 1;
      }
      i := i + 1;
    }
    assert db.incidents == done;
    StaleChanges(before, now);
  }

  lemma StaleChanges(incs: seq<Incident>, now: int)
    ensures var done := Close(Db([], incs, []), now).incidents;
            StaleBelow(incs, |incs|, now) == set j: nat | j < |incs| && done[j] != incs[j]
  {
  }

  lemma NoneStale(incs: seq<Incident>, now: int)
    ensures |StaleBelow(incs, 0, now)| == 0
  {
    assert StaleBelow(incs, 0, now) == {};
  }
}
