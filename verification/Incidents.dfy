/** observability/incidents.py: incidents as a view derived from the evidence.

    ``GroupOnce`` assigns the free evidence row by row and then re-derives the conclusion of
    every incident it touched; ``CloseStale`` closes the quiet ones. */
module Incidents {
  import opened Wrappers
  import opened Evidence

  const GAP_S := 900
  const QUIET_S := 1800
  const LOOKBACK_S := 3600
  const CONFIDENCE_STEP := 8
  const CONFIDENCE_MAX := 95

  // ---------------------------------------------------------------- ORDER BY ts ASC, id ASC

  /** Every id names one of the first ``n`` rows. */
  predicate Within(ids: seq<nat>, n: nat) {
    forall k :: 0 <= k < |ids| ==> ids[k] < n
  }

  function Place(evs: seq<Row>, ids: seq<nat>, k: nat): (r: seq<nat>)
    requires k < |evs| && Within(ids, |evs|)
    ensures Within(r, |evs|)
    ensures forall id :: id in r <==> id == k || id in ids
  {
    if ids == [] || evs[ids[|ids| - 1]].ts <= evs[k].ts then ids + [k]
    else
      var n := |ids| - 1;
      assert ids == ids[..n] + [ids[n]];
      Place(evs, ids[..n], k) + [ids[n]]
  }

  /** The chosen rows among the first ``n``, by time of the fact and then by id. */
  function ByTime(evs: seq<Row>, chosen: set<nat>, n: nat): (r: seq<nat>)
    requires n <= |evs|
    ensures Within(r, n)
    ensures forall id :: id in r <==> id in chosen && id < n
  {
    if n == 0 then []
    else
      var earlier := ByTime(evs, chosen, n - 1);
      if n - 1 in chosen then
        var r := Place(evs, earlier, n - 1);
        assert forall j :: 0 <= j < |r| ==> r[j] in r;
        r
      else earlier
  }

  ghost predicate Ordered(evs: seq<Row>, ids: seq<nat>)
    requires Within(ids, |evs|)
  {
    forall a, b :: 0 <= a < b < |ids| ==> Earlier(evs, ids[a], ids[b])
  }

  predicate Earlier(evs: seq<Row>, a: nat, b: nat)
    requires a < |evs| && b < |evs|
  {
    evs[a].ts < evs[b].ts || (evs[a].ts == evs[b].ts && a < b)
  }

  lemma {:induction false} PlaceOrdered(evs: seq<Row>, ids: seq<nat>, k: nat)
    requires k < |evs| && Within(ids, k)
    requires Ordered(evs, ids)
    ensures Ordered(evs, Place(evs, ids, k))
  {
    if ids == [] || evs[ids[|ids| - 1]].ts <= evs[k].ts {
    } else {
      var n := |ids| - 1;
      PlaceOrdered(evs, ids[..n], k);
      var front := Place(evs, ids[..n], k);
      forall a | 0 <= a < |front| ensures Earlier(evs, front[a], ids[n]) {
        assert front[a] in front;
        if front[a] != k {
          var j :| 0 <= j < n && ids[..n][j] == front[a];
          assert Earlier(evs, ids[j], ids[n]);
        }
      }
    }
  }

  /** The rows come out sorted, hence each exactly once. */
  lemma {:induction false} ByTimeOrdered(evs: seq<Row>, chosen: set<nat>, n: nat)
    requires n <= |evs|
    ensures Ordered(evs, ByTime(evs, chosen, n))
  {
    if n > 0 {
      ByTimeOrdered(evs, chosen, n - 1);
      if n - 1 in chosen {
        PlaceOrdered(evs, ByTime(evs, chosen, n - 1), n - 1);
      }
    }
  }

  lemma {:induction false} PlaceSame(evs: seq<Row>, evs': seq<Row>, ids: seq<nat>, k: nat)
    requires k < |evs| && k < |evs'| && Within(ids, |evs|) && Within(ids, |evs'|)
    requires evs[k].ts == evs'[k].ts && forall j :: 0 <= j < |ids| ==> evs[ids[j]].ts == evs'[ids[j]].ts
    ensures Place(evs, ids, k) == Place(evs', ids, k)
  {
    if ids != [] {
      PlaceSame(evs, evs', ids[..|ids| - 1], k);
    }
  }

  /** The selection depends on nothing but the chosen rows and their times. */
  lemma {:induction false} ByTimeSame(evs: seq<Row>, evs': seq<Row>, chosen: set<nat>, n: nat, n': nat)
    requires n <= |evs| && n' <= |evs'| && forall id :: id in chosen ==> id < n && id < n'
    requires forall id :: id in chosen ==> evs[id].ts == evs'[id].ts
    ensures ByTime(evs, chosen, n) == ByTime(evs', chosen, n')
    decreases n + n'
  {
    hide Place;
    if n > 0 && n - 1 !in chosen {
      ByTimeSame(evs, evs', chosen, n - 1, n');
    } else if n' > 0 && n' - 1 !in chosen {
      ByTimeSame(evs, evs', chosen, n, n' - 1);
    } else if n > 0 {
      var fewer := chosen - {n - 1};
      assert n == n';
      ByTimeIgnores(evs, chosen, fewer, n - 1);
      ByTimeIgnores(evs', chosen, fewer, n - 1);
      ByTimeSame(evs, evs', fewer, n - 1, n - 1);
      var earlier := ByTime(evs, chosen, n - 1);
      assert forall k :: 0 <= k < |earlier| ==> earlier[k] in earlier;
      PlaceSame(evs, evs', earlier, n - 1);
    }
  }

  lemma {:induction false} ByTimeIgnores(evs: seq<Row>, a: set<nat>, b: set<nat>, n: nat)
    requires n <= |evs| && forall id :: id < n ==> (id in a <==> id in b)
    ensures ByTime(evs, a, n) == ByTime(evs, b, n)
  {
    if n > 0 {
      ByTimeIgnores(evs, a, b, n - 1);
    }
  }

  // ---------------------------------------------------------------- grouping one row

  predicate Eligible(inc: Incident, tenant: string, entity: string, floor: int) {
    inc.tenant == tenant && inc.closed.None? && inc.entity == entity && inc.last >= floor
  }

  /** The open incident of the entity still within reach, the oldest first. */
  function MatchOpen(incs: seq<Incident>, tenant: string, entity: string, floor: int): (r: Option<nat>)
    ensures r.Some? ==> r.value < |incs| && Eligible(incs[r.value], tenant, entity, floor)
    ensures r.Some? ==>
              (forall j :: 0 <= j < |incs| && Eligible(incs[j], tenant, entity, floor) ==>
                 incs[r.value].first < incs[j].first
                 || (incs[r.value].first == incs[j].first && r.value <= j))
    ensures r.None? ==> forall j :: 0 <= j < |incs| ==> !Eligible(incs[j], tenant, entity, floor)
  {
    if incs == [] then None
    else
      var n := |incs| - 1;
      var best := MatchOpen(incs[..n], tenant, entity, floor);
      if Eligible(incs[n], tenant, entity, floor) && (best.None? || incs[n].first < incs[best.value].first)
      then Some(n) else best
  }

  function Sev(r: Row): int {
    r.severity.GetOr(4)
  }

  function Min(a: int, b: int): int { if a <= b then a else b }

  function Max(a: int, b: int): int { if a >= b then a else b }

  /** ``_entity_label``: what follows the first colon. */
  function Label(entity: string): string {
    var k := Colon(entity);
    if k < |entity| then entity[k + 1..] else entity
  }

  function Colon(s: string): (k: nat)
    ensures k <= |s| && ':' !in s[..k] && (k < |s| ==> s[k] == ':')
  {
    if s == [] || s[0] == ':' then 0 else 1 + Colon(s[1..])
  }

  function Fresh(r: Row): Incident {
    Incident(r.tenant, r.key.entity, r.ts, r.ts, None, Sev(r), 0, Label(r.key.entity), None, None, None)
  }

  function Absorb(inc: Incident, r: Row): Incident {
    inc.(last := Max(inc.last, r.ts), first := Min(inc.first, r.ts), count := inc.count + 1,
         severity := Min(inc.severity, Sev(r)))
  }

  function HomeFor(db: Db, r: Row): Option<nat> {
    MatchOpen(db.incidents, r.tenant, r.key.entity, r.ts - GAP_S)
  }

  /** The table with row ``id`` put into incident ``i``. */
  function Join(evs: seq<Row>, id: nat, i: nat): seq<Row>
    requires id < |evs|
  {
    evs[id := evs[id].(incident := Some(i))]
  }

  function Assign(db: Db, id: nat): Db
    requires id < |db.evidence|
  {
    var r := db.evidence[id];
    var home := HomeFor(db, r);
    var incs := if home.None? then db.incidents + [Fresh(r)] else db.incidents;
    var i := home.GetOr(|db.incidents|);
    db.(evidence := Join(db.evidence, id, i), incidents := incs[i := Absorb(incs[i], r)])
  }

  function AssignAll(db: Db, ids: seq<nat>): (db': Db)
    requires Within(ids, |db.evidence|)
    ensures |db'.evidence| == |db.evidence|
  {
    if ids == [] then db
    else
      var n := |ids| - 1;
      assert ids == ids[..n] + [ids[n]];
      var before := AssignAll(db, ids[..n]);
      if before.evidence[ids[n]].key.entity == "" then before else Assign(before, ids[n])
  }

  function FreeIds(evs: seq<Row>, since: int): set<nat> {
    set id: nat | id < |evs| && evs[id].incident.None? && evs[id].status.Active? && evs[id].created >= since
  }

  function Free(evs: seq<Row>, since: int): (ids: seq<nat>)
    ensures Within(ids, |evs|)
    ensures forall id :: id in ids <==> id in FreeIds(evs, since)
  {
    ByTime(evs, FreeIds(evs, since), |evs|)
  }

  /** Incidents that received one of ``ids``, or lost a row to a retraction since ``since``. */
  function Touched(evs: seq<Row>, ids: seq<nat>, since: int): set<nat>
    requires Within(ids, |evs|)
  {
    (set id | id in ids && evs[id].incident.Some? :: evs[id].incident.value)
    + (set id: nat | id < |evs| && evs[id].incident.Some? && evs[id].status.Retracted?
                     && evs[id].status.at >= since :: evs[id].incident.value)
  }

  // ---------------------------------------------------------------- reasoning

  datatype StateEvent = StateEvent(tenant: string, ip: string, ts: int)

  /** What reasoning reads besides the evidence: the catalogue's base confidences, the normalised
      device and interface states, and the clients whose VLAN is known. */
  datatype World = World(base: map<string, int>, states: seq<StateEvent>, vlans: set<(string, string)>)

  const UNDETERMINED := "causa_non_determinata"
  const ALL_RETRACTED := "tutte_le_evidenze_ritrattate"

  function BaseConfidence(w: World, rule: string): int {
    if rule in w.base then w.base[rule] else 40
  }

  function ActiveIds(evs: seq<Row>, i: nat): set<nat> {
    set id: nat | id < |evs| && evs[id].incident == Some(i) && evs[id].status.Active?
  }

  function RetractedIds(evs: seq<Row>, i: nat): set<nat> {
    set id: nat | id < |evs| && evs[id].incident == Some(i) && evs[id].status.Retracted?
  }

  /** The evidence a conclusion may rest on. */
  function Standing(evs: seq<Row>, i: nat): (ids: seq<nat>)
    ensures Within(ids, |evs|)
    ensures forall id :: id in ids <==> id in ActiveIds(evs, i)
  {
    ByTime(evs, ActiveIds(evs, i), |evs|)
  }

  predicate HasRole(rows: seq<Row>, role: Role) {
    exists r | r in rows :: r.key.role == role
  }

  function RulesOf(rows: seq<Row>): set<string> {
    set r | r in rows :: r.key.rule
  }

  function AddressesOf(rows: seq<Row>): set<string> {
    (set r | r in rows && r.src != "" :: r.src) + (set r | r in rows && r.dst != "" :: r.dst)
  }

  predicate StateSeen(w: World, inc: Incident, ips: set<string>) {
    exists e | e in w.states :: e.tenant == inc.tenant && e.ip in ips && inc.first - 300 <= e.ts <= inc.last + 300
  }

  predicate VlanKnown(w: World, inc: Incident, ips: set<string>) {
    exists ip | ip in ips :: (ip, inc.tenant) in w.vlans
  }

  predicate Corroborates(w: World, inc: Incident, rows: seq<Row>, s: Source) {
    match s
    case SupportingEvidence => HasRole(rows, Supporting)
    case SymptomSeen => HasRole(rows, Symptom)
    case ConsequenceSeen => HasRole(rows, Consequence)
    case RulesAgree => |RulesOf(rows)| > 1
    case PhysicalPosition => exists r | r in rows :: r.port != ""
    case DeviceState => StateSeen(w, inc, AddressesOf(rows))
    case VlanBinding => VlanKnown(w, inc, AddressesOf(rows))
  }

  const SOURCES := [SupportingEvidence, SymptomSeen, ConsequenceSeen, RulesAgree,
                    PhysicalPosition, DeviceState, VlanBinding]

  /** ``_corroborating_sources``: those of the first ``n`` kinds that are present. */
  function Sources(w: World, inc: Incident, rows: seq<Row>, n: nat): seq<Source>
    requires n <= |SOURCES|
  {
    if n == 0 then []
    else
      Sources(w, inc, rows, n - 1) + if Corroborates(w, inc, rows, SOURCES[n - 1]) then [SOURCES[n - 1]] else []
  }

  /** (severity or 9, ts, id), smallest first. */
  predicate Outranks(evs: seq<Row>, a: nat, b: nat)
    requires a < |evs| && b < |evs|
  {
    var sa, sb := evs[a].severity.GetOr(9), evs[b].severity.GetOr(9);
    sa < sb || (sa == sb && Earlier(evs, a, b))
  }

  function PrimaryTrigger(evs: seq<Row>, ids: seq<nat>): (r: Option<nat>)
    requires Within(ids, |evs|)
    ensures r.Some? ==> r.value in ids && evs[r.value].key.role == Trigger
    ensures r.Some? ==> forall id :: id in ids && evs[id].key.role == Trigger && id != r.value
                                     ==> Outranks(evs, r.value, id)
    ensures r.None? ==> forall id :: id in ids ==> evs[id].key.role != Trigger
  {
    if ids == [] then None
    else
      var n := |ids| - 1;
      assert ids == ids[..n] + [ids[n]];
      var best := PrimaryTrigger(evs, ids[..n]);
      if evs[ids[n]].key.role == Trigger && (best.None? || Outranks(evs, ids[n], best.value))
      then Some(ids[n]) else best
  }

  function RowsAt(evs: seq<Row>, ids: seq<nat>): (rows: seq<Row>)
    requires Within(ids, |evs|)
    ensures |rows| == |ids|
    ensures forall k :: 0 <= k < |ids| ==> rows[k] == evs[ids[k]]
  {
    seq(|ids|, k requires 0 <= k < |ids| => evs[ids[k]])
  }

  function WithRole(evs: seq<Row>, ids: seq<nat>, role: Role): seq<nat>
    requires Within(ids, |evs|)
  {
    if ids == [] then []
    else
      var n := |ids| - 1;
      assert ids == ids[..n] + [ids[n]];
      WithRole(evs, ids[..n], role) + if evs[ids[n]].key.role == role then [ids[n]] else []
  }

  function ByRole(evs: seq<Row>, ids: seq<nat>): map<Role, seq<nat>>
    requires Within(ids, |evs|)
  {
    map role | role in (set id | id in ids :: evs[id].key.role) :: WithRole(evs, ids, role)
  }

  function Cause(evs: seq<Row>, ids: seq<nat>): string
    requires Within(ids, |evs|)
  {
    match PrimaryTrigger(evs, ids)
    case None => UNDETERMINED
    case Some(t) => evs[t].key.rule
  }

  function Base(w: World, evs: seq<Row>, ids: seq<nat>): int
    requires Within(ids, |evs|)
  {
    match PrimaryTrigger(evs, ids)
    case None => 25
    case Some(t) => BaseConfidence(w, evs[t].key.rule)
  }

  function Confidence(w: World, inc: Incident, evs: seq<Row>, ids: seq<nat>): int
    requires Within(ids, |evs|)
  {
    Min(Base(w, evs, ids) + CONFIDENCE_STEP * |Sources(w, inc, RowsAt(evs, ids), |SOURCES|)|, CONFIDENCE_MAX)
  }

  function Reason(w: World, inc: Incident, evs: seq<Row>, ids: seq<nat>, retracted: nat): Reasoning
    requires Within(ids, |evs|)
  {
    if ids == [] then AllRetracted(retracted)
    else
      var t := PrimaryTrigger(evs, ids);
      Reasoned(Cause(evs, ids),
               if t.Some? then evs[t.value].key.version else "-",
               if t.Some? then Some(evs[t.value].params) else None,
               Base(w, evs, ids), RulesOf(RowsAt(evs, ids)),
               Sources(w, inc, RowsAt(evs, ids), |SOURCES|), ByRole(evs, ids), ids, retracted)
  }

  function Title(inc: Incident, evs: seq<Row>, ids: seq<nat>): string
    requires ids != [] && Within(ids, |evs|)
  {
    var t := PrimaryTrigger(evs, ids);
    var summary := if t.Some? then evs[t.value].summary else evs[ids[0]].summary;
    var text := if summary != "" then summary else Label(inc.entity);
    if |text| <= 160 then text else text[..160]
  }

  /** The incident row after the reasoning has been written to it; untouched when nothing stands. */
  function Relabel(w: World, evs: seq<Row>, inc: Incident, i: nat): Incident {
    var ids := Standing(evs, i);
    if ids == [] then inc
    else inc.(cause := Some(Cause(evs, ids)), confidence := Some(Confidence(w, inc, evs, ids)),
              reasoning := Some(Reason(w, inc, evs, ids, |RetractedIds(evs, i)|)),
              title := Title(inc, evs, ids))
  }

  // ---------------------------------------------------------------- the history of conclusions

  /** The conclusion in force: ``ORDER BY concluded_ts DESC, id DESC LIMIT 1``. */
  function Live(vs: seq<Verdict>, i: nat): (r: Option<nat>)
    ensures r.Some? ==> r.value < |vs| && vs[r.value].incident == i && vs[r.value].superseded.None?
    ensures r.None? ==> forall a :: 0 <= a < |vs| ==> vs[a].incident != i || vs[a].superseded.Some?
  {
    if vs == [] then None
    else
      var n := |vs| - 1;
      var best := Live(vs[..n], i);
      if vs[n].incident == i && vs[n].superseded.None? && (best.None? || vs[best.value].concluded <= vs[n].concluded)
      then Some(n) else best
  }

  function Record(vs: seq<Verdict>, i: nat, cause: string, confidence: int, reasoning: Reasoning,
                  clock: int): seq<Verdict> {
    var live := Live(vs, i);
    if live.Some? && vs[live.value].reasoning == reasoning then vs
    else
      (if live.Some? then vs[live.value := vs[live.value].(superseded := Some(clock))] else vs)
      + [Verdict(i, clock, None, cause, confidence, reasoning)]
  }

  /** ``_reason``. */
  function Rethink(w: World, db: Db, i: nat, clock: int): Db {
    if i >= |db.incidents| then db
    else
      var inc := db.incidents[i];
      var ids := Standing(db.evidence, i);
      var n := |RetractedIds(db.evidence, i)|;
      if ids == [] then
        if n == 0 then db
        else db.(verdicts := Record(db.verdicts, i, ALL_RETRACTED, 0, AllRetracted(n), clock))
      else
        db.(incidents := db.incidents[i := Relabel(w, db.evidence, inc, i)],
            verdicts := Record(db.verdicts, i, Cause(db.evidence, ids), Confidence(w, inc, db.evidence, ids),
                               Reason(w, inc, db.evidence, ids, n), clock))
  }

  /** The touched incidents below ``n``, in ascending order. */
  function RethinkAll(w: World, db: Db, touched: set<nat>, n: nat, clock: int): Db {
    if n == 0 then db
    else
      var before := RethinkAll(w, db, touched, n - 1, clock);
      if n - 1 in touched then Rethink(w, before, n - 1, clock) else before
  }

  function Group(w: World, db: Db, now: int, clock: int): Db {
    var ids := Free(db.evidence, now - LOOKBACK_S);
    var db1 := AssignAll(db, ids);
    RethinkAll(w, db1, Touched(db1.evidence, ids, now - LOOKBACK_S), |db1.incidents|, clock)
  }

  function Close(db: Db, now: int): (db': Db)
    ensures |db'.incidents| == |db.incidents|
  {
    db.(incidents := seq(|db.incidents|, i requires 0 <= i < |db.incidents| =>
      var inc := db.incidents[i];
      if inc.closed.None? && inc.last < now - QUIET_S then inc.(closed := Some(now)) else inc))
  }
}
