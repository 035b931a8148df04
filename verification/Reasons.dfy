/** observability/incidents.py, ``_reason``: what a conclusion says, in terms of the rows that stand and
    of what the engine reads about the devices, without the functions that compute it. */
module Reasons {
  import opened Wrappers
  import opened Evidence
  import opened Incidents
  import opened Grouping
  import opened Conclusions

  // ---------------------------------------------------------------- what there is to say

  /** An active row of the incident. */
  ghost predicate Stands(evs: seq<Row>, i: nat, id: int) {
    0 <= id < |evs| && evs[id].incident == Some(i) && evs[id].status.Active?
  }

  ghost predicate StandsAs(evs: seq<Row>, i: nat, id: int, role: Role) {
    Stands(evs, i, id) && evs[id].key.role == role
  }

  /** An address that a standing row names as source or destination. */
  ghost predicate Named(evs: seq<Row>, i: nat, ip: string) {
    ip != "" && exists id :: Stands(evs, i, id) && (evs[id].src == ip || evs[id].dst == ip)
  }

  /** The fact that each kind of corroboration stands for. */
  ghost predicate Corroborated(w: World, inc: Incident, evs: seq<Row>, i: nat, s: Source) {
    match s
    case SupportingEvidence => exists id :: StandsAs(evs, i, id, Supporting)
    case SymptomSeen => exists id :: StandsAs(evs, i, id, Symptom)
    case ConsequenceSeen => exists id :: StandsAs(evs, i, id, Consequence)
    case RulesAgree => exists a, b :: Stands(evs, i, a) && Stands(evs, i, b) && evs[a].key.rule != evs[b].key.rule
    case PhysicalPosition => exists id :: Stands(evs, i, id) && evs[id].port != ""
    case DeviceState =>
      exists e :: e in w.states && e.tenant == inc.tenant && Named(evs, i, e.ip)
                  && inc.first - 300 <= e.ts <= inc.last + 300
    case VlanBinding => exists ip :: Named(evs, i, ip) && (ip, inc.tenant) in w.vlans
  }

  /** The order in which corroborations are listed. */
  function Rank(s: Source): nat {
    match s
    case SupportingEvidence => 0
    case SymptomSeen => 1
    case ConsequenceSeen => 2
    case RulesAgree => 3
    case PhysicalPosition => 4
    case DeviceState => 5
    case VlanBinding => 6
  }

  /** The standing trigger with the smallest severity, 9 when it has none, then time, then id. */
  ghost predicate IsCause(evs: seq<Row>, i: nat, t: int) {
    && StandsAs(evs, i, t, Trigger)
    && (forall id :: StandsAs(evs, i, id, Trigger) && id != t ==>
          var a, b := evs[t].severity.GetOr(9), evs[id].severity.GetOr(9);
          a < b || (a == b && (evs[t].ts < evs[id].ts || (evs[t].ts == evs[id].ts && t < id))))
  }

  /** Cause, version, parameters and base confidence come from the trigger and the catalogue. */
  ghost predicate Blames(w: World, r: Reasoning, row: Row)
    requires r.Reasoned?
  {
    && r.cause == row.key.rule && r.version == row.key.version && r.params == Some(row.params)
    && (row.key.rule in w.base ==> r.base == w.base[row.key.rule])
    && (row.key.rule !in w.base ==> r.base == 40)
  }

  ghost predicate Causes(w: World, evs: seq<Row>, i: nat, r: Reasoning)
    requires r.Reasoned?
  {
    && ((exists id :: StandsAs(evs, i, id, Trigger)) ==> exists t :: IsCause(evs, i, t) && Blames(w, r, evs[t]))
    && ((forall id :: !StandsAs(evs, i, id, Trigger)) ==>
          r.cause == "causa_non_determinata" && r.version == "-" && r.params.None? && r.base == 25)
  }

  ghost predicate Lists(evs: seq<Row>, i: nat, r: Reasoning)
    requires r.Reasoned?
  {
    && Within(r.refs, |evs|) && Ordered(evs, r.refs)
    && (forall id :: id in r.refs <==> Stands(evs, i, id))
    && (forall rule :: rule in r.rules <==> exists id :: Stands(evs, i, id) && evs[id].key.rule == rule)
    && (forall role :: role in r.byRole <==> exists id :: StandsAs(evs, i, id, role))
    && (forall role :: role in r.byRole ==>
          && Within(r.byRole[role], |evs|) && Ordered(evs, r.byRole[role])
          && (forall id :: id in r.byRole[role] <==> StandsAs(evs, i, id, role)))
    && r.retracted == |RetractedIds(evs, i)|
  }

  ghost predicate Adduces(w: World, inc: Incident, evs: seq<Row>, i: nat, r: Reasoning)
    requires r.Reasoned?
  {
    && (forall s :: s in r.sources <==> Corroborated(w, inc, evs, i, s))
    && (forall a, b :: 0 <= a < b < |r.sources| ==> Rank(r.sources[a]) < Rank(r.sources[b]))
  }

  ghost predicate Justified(w: World, inc: Incident, evs: seq<Row>, i: nat, r: Reasoning) {
    r.Reasoned? && Lists(evs, i, r) && Causes(w, evs, i, r) && Adduces(w, inc, evs, i, r)
  }

  /** Eight points for each corroboration on top of the base, ninety-five at most. */
  function Points(r: Reasoning): int
    requires r.Reasoned?
  {
    if r.base + 8 * |r.sources| <= 95 then r.base + 8 * |r.sources| else 95
  }

  /** What follows the first colon, or everything. */
  ghost predicate IsLabel(entity: string, text: string) {
    if ':' in entity then
      exists k :: 0 <= k < |entity| && entity[k] == ':' && ':' !in entity[..k] && text == entity[k + 1..]
    else text == entity
  }

  /** The summary of the cause, or of the earliest row when nothing triggers, or the label of the
      entity when that is empty; cut at 160 characters. */
  ghost predicate IsTitle(evs: seq<Row>, i: nat, entity: string, title: string) {
    exists id, text :: (if exists t :: StandsAs(evs, i, t, Trigger) then IsCause(evs, i, id) else Earliest(evs, i, id))
                       && (if evs[id].summary != "" then text == evs[id].summary else IsLabel(entity, text))
                       && title == if |text| <= 160 then text else text[..160]
  }

  ghost predicate Earliest(evs: seq<Row>, i: nat, id: int) {
    && Stands(evs, i, id)
    && (forall k :: Stands(evs, i, k) && k != id ==> evs[id].ts < evs[k].ts || (evs[id].ts == evs[k].ts && id < k))
  }

  // ---------------------------------------------------------------- what the functions say

  lemma StandingStands(evs: seq<Row>, i: nat)
    ensures var ids := Standing(evs, i);
            && Ordered(evs, ids) && (forall id :: id in ids <==> Stands(evs, i, id))
            && (forall r :: r in RowsAt(evs, ids) <==> exists id :: Stands(evs, i, id) && evs[id] == r)
  {
    var ids := Standing(evs, i);
    var rows := RowsAt(evs, ids);
    ByTimeOrdered(evs, ActiveIds(evs, i), |evs|);
    forall r ensures r in rows <==> exists id :: Stands(evs, i, id) && evs[id] == r {
      if r in rows {
        var k :| 0 <= k < |rows| && rows[k] == r;
        assert ids[k] in ids && evs[ids[k]] == r;
      }
      if id :| Stands(evs, i, id) && evs[id] == r {
        assert id in ids;
        var k :| 0 <= k < |ids| && ids[k] == id;
        assert rows[k] == r;
      }
    }
  }

  lemma {:induction false} SourcesMean(w: World, inc: Incident, rows: seq<Row>, n: nat)
    requires n <= |SOURCES|
    ensures var sources := Sources(w, inc, rows, n);
            && (forall s :: s in sources <==> Rank(s) < n && Corroborates(w, inc, rows, s))
            && (forall a, b :: 0 <= a < b < |sources| ==> Rank(sources[a]) < Rank(sources[b]))
  {
    hide Corroborates;
    if n > 0 {
      SourcesMean(w, inc, rows, n - 1);
      SourceRanks(n - 1);
      var before := Sources(w, inc, rows, n - 1);
      assert forall a :: 0 <= a < |before| ==> before[a] in before;
    }
  }

  lemma SourceRanks(n: nat)
    requires n < |SOURCES|
    ensures forall s :: Rank(s) == n <==> s == SOURCES[n]
  {
  }

  lemma TwoOrMore<T>(a: set<T>)
    ensures |a| > 1 <==> exists x, y :: x in a && y in a && x != y
  {
    if |a| > 1 {
      var x :| x in a;
      assert |a - {x}| > 0;
      var y :| y in a - {x};
    }
    if x, y :| x in a && y in a && x != y {
      assert {x, y} <= a;
      assert |a - {x, y}| == |a| - 2;
    }
  }

  lemma RulesMean(evs: seq<Row>, i: nat)
    ensures var rules := RulesOf(RowsAt(evs, Standing(evs, i)));
            && (forall rule :: rule in rules <==> exists id :: Stands(evs, i, id) && evs[id].key.rule == rule)
            && (|rules| > 1 <==>
                exists a, b :: Stands(evs, i, a) && Stands(evs, i, b) && evs[a].key.rule != evs[b].key.rule)
  {
    StandingStands(evs, i);
    var rows := RowsAt(evs, Standing(evs, i));
    hide Stands, Standing;
    var rules := RulesOf(rows);
    forall rule ensures rule in rules <==> exists id :: Stands(evs, i, id) && evs[id].key.rule == rule {
      if rule in rules {
        var r :| r in rows && r.key.rule == rule;
      }
      if id :| Stands(evs, i, id) && evs[id].key.rule == rule {
        assert evs[id] in rows;
      }
    }
    TwoOrMore(rules);
    if a, b :| Stands(evs, i, a) && Stands(evs, i, b) && evs[a].key.rule != evs[b].key.rule {
      assert evs[a].key.rule in rules && evs[b].key.rule in rules;
    }
  }

  lemma AddressesMean(evs: seq<Row>, i: nat)
    ensures forall ip :: ip in AddressesOf(RowsAt(evs, Standing(evs, i))) <==> Named(evs, i, ip)
  {
    StandingStands(evs, i);
    var rows := RowsAt(evs, Standing(evs, i));
    hide Stands, Standing;
    forall ip ensures ip in AddressesOf(rows) <==> Named(evs, i, ip) {
      if ip in AddressesOf(rows) {
        var r :| r in rows && ip != "" && (r.src == ip || r.dst == ip);
      }
      if Named(evs, i, ip) {
        var id :| Stands(evs, i, id) && (evs[id].src == ip || evs[id].dst == ip);
        assert evs[id] in rows;
      }
    }
  }

  lemma RoleMeans(evs: seq<Row>, i: nat, role: Role)
    ensures HasRole(RowsAt(evs, Standing(evs, i)), role) <==> exists id :: StandsAs(evs, i, id, role)
  {
    StandingStands(evs, i);
    var rows := RowsAt(evs, Standing(evs, i));
    hide Stands, Standing;
    if HasRole(rows, role) {
      var r :| r in rows && r.key.role == role;
      var id :| Stands(evs, i, id) && evs[id] == r;
      assert StandsAs(evs, i, id, role);
    }
    if id :| StandsAs(evs, i, id, role) {
      assert evs[id] in rows;
    }
  }

  lemma PortMeans(evs: seq<Row>, i: nat)
    ensures (exists r | r in RowsAt(evs, Standing(evs, i)) :: r.port != "")
            <==> exists id :: Stands(evs, i, id) && evs[id].port != ""
  {
    StandingStands(evs, i);
    var rows := RowsAt(evs, Standing(evs, i));
    hide Stands, Standing;
    if id :| Stands(evs, i, id) && evs[id].port != "" {
      assert evs[id] in rows;
    }
  }

  lemma CorroboratesMeans(w: World, inc: Incident, evs: seq<Row>, i: nat, s: Source)
    ensures Corroborates(w, inc, RowsAt(evs, Standing(evs, i)), s) <==> Corroborated(w, inc, evs, i, s)
  {
    hide Standing, HasRole, RulesOf, AddressesOf, StandsAs, Stands, Named;
    match s {
      case SupportingEvidence => RoleMeans(evs, i, Supporting);
      case SymptomSeen => RoleMeans(evs, i, Symptom);
      case ConsequenceSeen => RoleMeans(evs, i, Consequence);
      case RulesAgree => RulesMean(evs, i);
      case PhysicalPosition => PortMeans(evs, i);
      case DeviceState => AddressesMean(evs, i);
      case VlanBinding => AddressesMean(evs, i);
    }
  }

  lemma {:induction false} WithRoleMeans(evs: seq<Row>, ids: seq<nat>, role: Role)
    requires Within(ids, |evs|)
    ensures forall id :: id in WithRole(evs, ids, role) <==> id in ids && evs[id].key.role == role
  {
    if ids != [] {
      var n := |ids| - 1;
      WithRoleMeans(evs, ids[..n], role);
      assert ids == ids[..n] + [ids[n]];
    }
  }

  lemma {:induction false} WithRoleOrdered(evs: seq<Row>, ids: seq<nat>, role: Role)
    requires Within(ids, |evs|) && Ordered(evs, ids)
    ensures Within(WithRole(evs, ids, role), |evs|) && Ordered(evs, WithRole(evs, ids, role))
  {
    if ids != [] {
      var n := |ids| - 1;
      var before := WithRole(evs, ids[..n], role);
      WithRoleOrdered(evs, ids[..n], role);
      WithRoleMeans(evs, ids[..n], role);
      hide Earlier;
      forall a | 0 <= a < |before| ensures Earlier(evs, before[a], ids[n]) {
        assert before[a] in before;
        var k :| 0 <= k < n && ids[..n][k] == before[a];
        assert Earlier(evs, ids[k], ids[n]);
      }
    }
  }

  lemma ListsWhatStands(w: World, inc: Incident, evs: seq<Row>, i: nat)
    requires Standing(evs, i) != []
    ensures Lists(evs, i, Reason(w, inc, evs, Standing(evs, i), |RetractedIds(evs, i)|))
  {
    StandingStands(evs, i);
    RulesMean(evs, i);
    var ids := Standing(evs, i);
    hide Standing, RulesOf, Sources, PrimaryTrigger, WithRole, RetractedIds, RowsAt;
    forall role ensures role in ByRole(evs, ids) <==> exists id :: StandsAs(evs, i, id, role) {
      if id :| StandsAs(evs, i, id, role) {
        assert id in ids;
      }
      if role in ByRole(evs, ids) {
        var id :| id in ids && evs[id].key.role == role;
        assert StandsAs(evs, i, id, role);
      }
    }
    forall role | role in ByRole(evs, ids)
      ensures var picked := ByRole(evs, ids)[role];
              && Within(picked, |evs|) && Ordered(evs, picked)
              && (forall id :: id in picked <==> StandsAs(evs, i, id, role))
    {
      WithRoleMeans(evs, ids, role);
      WithRoleOrdered(evs, ids, role);
    }
  }

  lemma TriggerIsCause(evs: seq<Row>, i: nat)
    ensures match PrimaryTrigger(evs, Standing(evs, i))
            case Some(t) => IsCause(evs, i, t)
            case None => forall id :: !StandsAs(evs, i, id, Trigger)
  {
    StandingStands(evs, i);
    hide Standing;
    var ids := Standing(evs, i);
    match PrimaryTrigger(evs, ids) {
      case Some(t) =>
        forall id | StandsAs(evs, i, id, Trigger) && id != t ensures Outranks(evs, t, id) {
          assert id in ids;
        }
      case None =>
        forall id ensures !StandsAs(evs, i, id, Trigger) {
          assert Stands(evs, i, id) ==> id in ids;
        }
    }
  }

  lemma ReasonBlamesCause(w: World, inc: Incident, evs: seq<Row>, i: nat)
    requires Standing(evs, i) != []
    ensures Causes(w, evs, i, Reason(w, inc, evs, Standing(evs, i), |RetractedIds(evs, i)|))
  {
    TriggerIsCause(evs, i);
    hide Standing, Sources, RetractedIds, ByRole, RulesOf, RowsAt, IsCause, StandsAs;
    var t := PrimaryTrigger(evs, Standing(evs, i));
    if t.Some? {
      var r := Reason(w, inc, evs, Standing(evs, i), |RetractedIds(evs, i)|);
      assert Blames(w, r, evs[t.value]);
      CauseIsTrigger(evs, i, t.value);
    }
  }

  lemma CauseIsTrigger(evs: seq<Row>, i: nat, t: int)
    ensures IsCause(evs, i, t) ==> StandsAs(evs, i, t, Trigger)
  {
  }

  lemma SourcesAdduceFacts(w: World, inc: Incident, evs: seq<Row>, i: nat)
    ensures var sources := Sources(w, inc, RowsAt(evs, Standing(evs, i)), |SOURCES|);
            && (forall s :: s in sources <==> Corroborated(w, inc, evs, i, s))
            && (forall a, b :: 0 <= a < b < |sources| ==> Rank(sources[a]) < Rank(sources[b]))
  {
    var rows := RowsAt(evs, Standing(evs, i));
    SourcesMean(w, inc, rows, |SOURCES|);
    hide Standing, RowsAt, Corroborated, Corroborates, Sources;
    forall s ensures s in Sources(w, inc, rows, |SOURCES|) <==> Corroborated(w, inc, evs, i, s) {
      CorroboratesMeans(w, inc, evs, i, s);
      assert Rank(s) < |SOURCES|;
    }
  }

  lemma ReasonIsJustified(w: World, inc: Incident, evs: seq<Row>, i: nat)
    requires Standing(evs, i) != []
    ensures Justified(w, inc, evs, i, Reason(w, inc, evs, Standing(evs, i), |RetractedIds(evs, i)|))
  {
    ListsWhatStands(w, inc, evs, i);
    ReasonBlamesCause(w, inc, evs, i);
    SourcesAdduceFacts(w, inc, evs, i);
    ReasonListsSources(w, inc, evs, i);
    hide Standing, Lists, Causes, Corroborated, Sources, RetractedIds, RowsAt, Reason, Rank;
  }

  lemma ReasonListsSources(w: World, inc: Incident, evs: seq<Row>, i: nat)
    requires Standing(evs, i) != []
    ensures var r := Reason(w, inc, evs, Standing(evs, i), |RetractedIds(evs, i)|);
            r.Reasoned? && r.sources == Sources(w, inc, RowsAt(evs, Standing(evs, i)), |SOURCES|)
  {
    hide Standing, Sources, RetractedIds, ByRole, RulesOf, RowsAt, PrimaryTrigger, Cause, Base;
  }

  lemma LabelIsLabel(entity: string)
    ensures IsLabel(entity, Label(entity))
  {
    var k := Colon(entity);
    if k < |entity| {
      assert entity[k] == ':';
    } else {
      assert entity[..k] == entity;
    }
  }

  lemma FirstIsEarliest(evs: seq<Row>, i: nat)
    requires Standing(evs, i) != []
    ensures Earliest(evs, i, Standing(evs, i)[0])
  {
    var ids := Standing(evs, i);
    StandingStands(evs, i);
    hide Standing, Stands;
    assert ids[0] in ids;
    forall k | Stands(evs, i, k) && k != ids[0] ensures Earlier(evs, ids[0], k) {
      assert k in ids;
      var n :| 0 <= n < |ids| && ids[n] == k;
      assert Earlier(evs, ids[0], ids[n]);
    }
  }

  lemma TitleIsTitle(inc: Incident, evs: seq<Row>, i: nat)
    requires Standing(evs, i) != []
    ensures IsTitle(evs, i, inc.entity, Title(inc, evs, Standing(evs, i)))
  {
    var ids := Standing(evs, i);
    TriggerIsCause(evs, i);
    FirstIsEarliest(evs, i);
    LabelIsLabel(inc.entity);
    var t := PrimaryTrigger(evs, ids);
    var id := if t.Some? then t.value else ids[0];
    var text := if evs[id].summary != "" then evs[id].summary else Label(inc.entity);
    if t.Some? {
      CauseIsTrigger(evs, i, id);
    }
    hide Standing, IsLabel, Label, PrimaryTrigger, IsCause, Earliest, StandsAs;
    assert if evs[id].summary != "" then text == evs[id].summary else IsLabel(inc.entity, text);
  }

  // ---------------------------------------------------------------- what is recorded

  /** The incident has a conclusion in force that its standing rows justify, with the points that
      reasoning is worth; and its own row says the same, under a title. */
  ghost predicate SaysWhy(w: World, db: Db, i: nat)
    requires i < |db.incidents|
  {
    var inc := db.incidents[i];
    Live(db.verdicts, i).Some? &&
    var v := db.verdicts[Live(db.verdicts, i).value];
    && Justified(w, inc, db.evidence, i, v.reasoning)
    && v.cause == v.reasoning.cause && v.confidence == Points(v.reasoning)
    && inc.cause == Some(v.cause) && inc.confidence == Some(v.confidence) && inc.reasoning == Some(v.reasoning)
    && IsTitle(db.evidence, i, inc.entity, inc.title)
  }

  /** Corroboration looks at nothing of the incident but its tenant and its span. */
  lemma JustifiedAlike(w: World, inc: Incident, inc': Incident, evs: seq<Row>, i: nat, r: Reasoning)
    requires SameGroup(inc', inc) && Justified(w, inc, evs, i, r)
    ensures Justified(w, inc', evs, i, r)
  {
    hide Lists, Causes, Named, Stands, StandsAs;
    assert forall s :: Corroborated(w, inc', evs, i, s) <==> Corroborated(w, inc, evs, i, s);
  }

  /** Relabelled and with its opinion in force, an incident says why. */
  lemma OpinionSaysWhy(w: World, db: Db, db': Db, i: nat)
    requires Archived(db'.verdicts) && i < |db.incidents| == |db'.incidents| && db'.evidence == db.evidence
    requires Filed(db'.verdicts, |db.incidents|)
    requires db'.incidents[i] == Relabel(w, db.evidence, db.incidents[i], i)
    requires Current(db'.verdicts, i) == Some(Opinion(w, db, i)) && Standing(db.evidence, i) != []
    ensures SaysWhy(w, db', i)
  {
    var inc := db.incidents[i];
    LiveIsLast(db'.verdicts, i);
    ReasonIsJustified(w, inc, db.evidence, i);
    TitleIsTitle(inc, db.evidence, i);
    RelabelKeeps(w, db.evidence, inc, i);
    hide Justified, IsTitle, Standing, Sources, ByRole, PrimaryTrigger, Title, Live;
    JustifiedAlike(w, inc, db'.incidents[i], db.evidence, i, Opinion(w, db, i));
    var v := Live(db'.verdicts, i).value;
    assert Worded(db'.verdicts[v]);
  }

  /** After an incident with standing evidence has been reasoned about, what is in force and what its row
      shows are justified by that evidence. */
  lemma RethinkSaysWhy(w: World, db: Db, i: nat, clock: int)
    requires Archived(db.verdicts) && Filed(db.verdicts, |db.incidents|)
    requires i < |db.incidents| && exists id :: Stands(db.evidence, i, id)
    ensures SaysWhy(w, Rethink(w, db, i, clock), i)
  {
    StandingStands(db.evidence, i);
    var id :| Stands(db.evidence, i, id);
    assert id in Members(db.evidence, i);
    RethinkKeeps(w, db, i, clock);
    RethinkFiles(w, db, i, clock);
    hide Rethink, SaysWhy;
    OpinionSaysWhy(w, db, Rethink(w, db, i, clock), i);
  }

  /** After a whole grouping cycle the same holds of every incident that received a row, or lost one since
      the start of the window, and still has standing evidence. */
  lemma GroupSaysWhy(w: World, db: Db, now: int, clock: int, i: nat, touching: nat)
    requires Sound(db) && Archived(db.verdicts) && Fits(db)
    requires touching < |db.evidence|
    ensures |Group(w, db, now, clock).evidence| == |db.evidence|
    ensures var db' := Group(w, db, now, clock);
            var r, r' := db.evidence[touching], db'.evidence[touching];
            (r'.incident == Some(i) && (exists id :: Stands(db'.evidence, i, id))
             && (r.incident.None? || (r.status.Retracted? && r.status.at >= now - 3600))
             ==> i < |db'.incidents| && SaysWhy(w, db', i))
  {
    hide Group, AssignAll, Sound, Archived, Free, SaysWhy, RethinkAll, Standing, Relabel, Opinion;
    var ids := Free(db.evidence, now - LOOKBACK_S);
    var db1, db' := AssignAll(db, ids), Group(w, db, now, clock);
    GroupRethinks(w, db, now, clock);
    GroupFits(w, db, now, clock);
    AssignAllRows(db, ids);
    var r, r' := db.evidence[touching], db'.evidence[touching];
    if r'.incident == Some(i) && (exists id :: Stands(db'.evidence, i, id))
       && (r.incident.None? || (r.status.Retracted? && r.status.at >= now - LOOKBACK_S)) {
      assert r.incident.None? ==> touching in ids;
      assert i in Touched(db1.evidence, ids, now - LOOKBACK_S);
      MemberBounds(db', touching);
      StandingStands(db1.evidence, i);
      var id :| Stands(db'.evidence, i, id);
      assert id in Standing(db1.evidence, i);
      OpinionSaysWhy(w, db1, db', i);
    }
  }

  /** Grouping takes exactly the active rows with an entity that were recorded within the last hour and are
      in no incident yet. */
  lemma GroupTakes(w: World, db: Db, now: int, clock: int, k: nat)
    requires Sound(db) && Archived(db.verdicts) && k < |db.evidence| && db.evidence[k].incident.None?
    ensures |Group(w, db, now, clock).evidence| == |db.evidence|
    ensures Group(w, db, now, clock).evidence[k].incident.Some?
            <==> db.evidence[k].status.Active? && db.evidence[k].created >= now - 3600
                 && db.evidence[k].key.entity != ""
  {
    hide Group, AssignAll, Sound, Archived, RethinkAll, Touched;
    GroupRethinks(w, db, now, clock);
    AssignAllRows(db, Free(db.evidence, now - LOOKBACK_S));
  }
}
