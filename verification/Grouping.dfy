/** What grouping keeps: the incident row as an aggregate of its evidence, and the partition of
    the evidence into incidents. */
module Grouping {
  import opened Wrappers
  import opened Evidence
  import opened Incidents

  // ---------------------------------------------------------------- the incident row

  ghost function Members(evs: seq<Row>, i: nat): set<nat> {
    set id: nat | id < |evs| && evs[id].incident == Some(i)
  }

  ghost predicate BelongsTo(r: Row, inc: Incident) {
    && r.tenant == inc.tenant && r.key.entity == inc.entity && inc.entity != ""
    && inc.first <= r.ts <= inc.last && inc.severity <= r.severity.GetOr(4)
  }

  ghost predicate HasTime(evs: seq<Row>, i: nat, ts: int) {
    exists id :: id in Members(evs, i) && evs[id].ts == ts
  }

  ghost predicate HasSeverity(evs: seq<Row>, i: nat, severity: int) {
    exists id :: id in Members(evs, i) && evs[id].severity.GetOr(4) == severity
  }

  /** first, last, severity and count are the minimum, maximum, minimum and number over the rows
      assigned to the incident, all of one tenant and one entity; a row without a severity counts as 4. */
  ghost predicate Aggregates(evs: seq<Row>, inc: Incident, i: nat) {
    && (forall id :: id in Members(evs, i) ==> BelongsTo(evs[id], inc))
    && HasTime(evs, i, inc.first) && HasTime(evs, i, inc.last) && HasSeverity(evs, i, inc.severity)
    && inc.count == |Members(evs, i)|
  }

  ghost predicate Sound(db: Db) {
    && (forall id :: 0 <= id < |db.evidence| && db.evidence[id].incident.Some?
                     ==> db.evidence[id].incident.value < |db.incidents|)
    && (forall i :: 0 <= i < |db.incidents| ==> Aggregates(db.evidence, db.incidents[i], i))
  }

  /** Rows may gain a status and new unassigned rows may appear: the aggregates do not notice. */
  lemma AggregatesIgnoreCycle(evs: seq<Row>, evs': seq<Row>, now: int, inc: Incident, i: nat)
    requires Cycle(evs, evs', now) && Aggregates(evs, inc, i)
    ensures Aggregates(evs', inc, i)
  {
    forall id | 0 <= id < |evs| ensures evs'[id].(status := evs[id].status) == evs[id] {
      assert Continues(evs[id], evs'[id]);
    }
    assert Members(evs', i) == Members(evs, i);
  }

  lemma SoundAfterCycle(db: Db, evs': seq<Row>, now: int)
    requires Sound(db) && Cycle(db.evidence, evs', now)
    ensures Sound(db.(evidence := evs'))
  {
    forall i | 0 <= i < |db.incidents| ensures Aggregates(evs', db.incidents[i], i) {
      AggregatesIgnoreCycle(db.evidence, evs', now, db.incidents[i], i);
    }
  }

  lemma SoundAfterClose(db: Db, now: int)
    requires Sound(db)
    ensures Sound(Close(db, now))
  {
    forall i | 0 <= i < |db.incidents| ensures Aggregates(db.evidence, Close(db, now).incidents[i], i) {
      assert Aggregates(db.evidence, db.incidents[i], i);
      AggregatesSameRow(db.evidence, db.incidents[i], Close(db, now).incidents[i], i);
    }
  }

  /** The fields that grouping owns. */
  predicate SameGroup(a: Incident, b: Incident) {
    a.tenant == b.tenant && a.entity == b.entity && a.first == b.first && a.last == b.last
    && a.severity == b.severity && a.count == b.count
  }

  lemma AggregatesSameRow(evs: seq<Row>, a: Incident, b: Incident, i: nat)
    requires Aggregates(evs, a, i) && SameGroup(a, b)
    ensures Aggregates(evs, b, i)
  {
    forall id | id in Members(evs, i) ensures BelongsTo(evs[id], b) {
      assert BelongsTo(evs[id], a);
    }
  }

  // ---------------------------------------------------------------- one assignment

  lemma JoinMembers(evs: seq<Row>, id: nat, i: nat, j: nat)
    requires id < |evs| && evs[id].incident.None?
    ensures Members(Join(evs, id, i), j) == if j == i then Members(evs, j) + {id} else Members(evs, j)
    ensures id !in Members(evs, j)
  {
  }

  lemma JoinOther(evs: seq<Row>, id: nat, i: nat, inc: Incident, j: nat)
    requires id < |evs| && evs[id].incident.None? && j != i && Aggregates(evs, inc, j)
    ensures Aggregates(Join(evs, id, i), inc, j)
  {
    JoinMembers(evs, id, i, j);
  }

  lemma JoinStarts(evs: seq<Row>, id: nat, i: nat)
    requires id < |evs| && evs[id].incident.None? && evs[id].key.entity != "" && Members(evs, i) == {}
    ensures Aggregates(Join(evs, id, i), Absorb(Fresh(evs[id]), evs[id]), i)
  {
    JoinMembers(evs, id, i, i);
    assert id in Members(Join(evs, id, i), i);
    assert Members(Join(evs, id, i), i) == {id};
  }

  lemma JoinExtends(evs: seq<Row>, id: nat, inc: Incident, i: nat)
    requires id < |evs| && evs[id].incident.None? && Aggregates(evs, inc, i)
    requires evs[id].tenant == inc.tenant && evs[id].key.entity == inc.entity && inc.entity != ""
    ensures Aggregates(Join(evs, id, i), Absorb(inc, evs[id]), i)
  {
    hide Members, BelongsTo, HasTime, HasSeverity, Join;
    JoinMembers(evs, id, i, i);
    JoinBelongs(evs, id, inc, i);
    JoinReaches(evs, id, i, inc.first, inc.severity);
    JoinReaches(evs, id, i, inc.last, inc.severity);
  }

  lemma JoinReaches(evs: seq<Row>, id: nat, i: nat, ts: int, severity: int)
    requires id < |evs| && evs[id].incident.None?
    ensures HasTime(evs, i, ts) ==> HasTime(Join(evs, id, i), i, ts)
    ensures HasSeverity(evs, i, severity) ==> HasSeverity(Join(evs, id, i), i, severity)
    ensures HasTime(Join(evs, id, i), i, evs[id].ts) && HasSeverity(Join(evs, id, i), i, Sev(evs[id]))
  {
    JoinMembers(evs, id, i, i);
    assert id in Members(Join(evs, id, i), i);
    if HasTime(evs, i, ts) {
      var a :| a in Members(evs, i) && evs[a].ts == ts;
      assert a in Members(Join(evs, id, i), i);
    }
    if HasSeverity(evs, i, severity) {
      var a :| a in Members(evs, i) && evs[a].severity.GetOr(4) == severity;
      assert a in Members(Join(evs, id, i), i);
    }
  }

  lemma JoinBelongs(evs: seq<Row>, id: nat, inc: Incident, i: nat)
    requires id < |evs| && evs[id].incident.None? && Aggregates(evs, inc, i)
    requires evs[id].tenant == inc.tenant && evs[id].key.entity == inc.entity && inc.entity != ""
    ensures forall k :: k in Members(Join(evs, id, i), i) ==> BelongsTo(Join(evs, id, i)[k], Absorb(inc, evs[id]))
  {
    forall k | k in Members(Join(evs, id, i), i) ensures BelongsTo(Join(evs, id, i)[k], Absorb(inc, evs[id])) {
      if k != id {
        assert k in Members(evs, i) && BelongsTo(evs[k], inc);
      }
    }
  }

  lemma SoundEntity(db: Db, i: nat)
    requires Sound(db) && i < |db.incidents|
    ensures db.incidents[i].entity != "" && Members(db.evidence, i) != {} && db.incidents[i].count > 0
  {
    assert Aggregates(db.evidence, db.incidents[i], i);
    var id :| id in Members(db.evidence, i);
    assert BelongsTo(db.evidence[id], db.incidents[i]);
  }

  lemma SoundAfterAssign(db: Db, id: nat)
    requires id < |db.evidence| && db.evidence[id].incident.None? && db.evidence[id].key.entity != "" && Sound(db)
    ensures Sound(Assign(db, id))
  {
    var evs, r, db' := db.evidence, db.evidence[id], Assign(db, id);
    var i := HomeFor(db, r).GetOr(|db.incidents|);
    assert db'.evidence == Join(evs, id, i);
    forall j | 0 <= j < |db'.incidents| ensures Aggregates(db'.evidence, db'.incidents[j], j) {
      if j != i {
        assert Aggregates(evs, db.incidents[j], j);
        JoinOther(evs, id, i, db.incidents[j], j);
      } else if i < |db.incidents| {
        assert Aggregates(evs, db.incidents[i], i);
        SoundEntity(db, i);
        JoinExtends(evs, id, db.incidents[i], i);
      } else {
        assert Members(evs, i) == {};
        JoinStarts(evs, id, i);
      }
    }
  }

  lemma {:induction false} SoundAfterAssignAll(db: Db, ids: seq<nat>)
    requires Sound(db) && Within(ids, |db.evidence|)
    requires forall a, b :: 0 <= a < b < |ids| ==> ids[a] != ids[b]
    requires forall a :: 0 <= a < |ids| ==> db.evidence[ids[a]].incident.None?
    ensures Sound(AssignAll(db, ids))
  {
    if ids != [] {
      var n := |ids| - 1;
      SoundAfterAssignAll(db, ids[..n]);
      AssignAllRows(db, ids[..n]);
      var before := AssignAll(db, ids[..n]);
      if before.evidence[ids[n]].key.entity != "" {
        SoundAfterAssign(before, ids[n]);
      }
    }
  }

  /** Every listed row with an entity ends in an incident; nothing else about the rows changes. */
  lemma {:induction false} AssignAllRows(db: Db, ids: seq<nat>)
    requires Within(ids, |db.evidence|)
    ensures var db' := AssignAll(db, ids);
            && db'.verdicts == db.verdicts && |db.incidents| <= |db'.incidents|
            && (forall k :: 0 <= k < |db.evidence| ==>
                  && db'.evidence[k].(incident := db.evidence[k].incident) == db.evidence[k]
                  && (k !in ids || db.evidence[k].key.entity == "" ==> db'.evidence[k] == db.evidence[k])
                  && (k in ids && db.evidence[k].key.entity != "" ==> db'.evidence[k].incident.Some?))
  {
    if ids != [] {
      hide Assign, HomeFor, Absorb;
      var n := |ids| - 1;
      var before := AssignAll(db, ids[..n]);
      AssignAllRows(db, ids[..n]);
      AssignedRow(before, ids[n]);
      AssignedIncidents(before, ids[n]);
      var db' := if before.evidence[ids[n]].key.entity == "" then before else Assign(before, ids[n]);
      assert AssignAll(db, ids) == db';
      hide AssignAll;
      forall k | 0 <= k < |db.evidence|
        ensures && db'.evidence[k].(incident := db.evidence[k].incident) == db.evidence[k]
                && (k !in ids || db.evidence[k].key.entity == "" ==> db'.evidence[k] == db.evidence[k])
                && (k in ids && db.evidence[k].key.entity != "" ==> db'.evidence[k].incident.Some?)
      {
        InFrontOrLast(ids, k);
      }
    }
  }

  lemma InFrontOrLast(ids: seq<nat>, k: nat)
    requires ids != []
    ensures k in ids <==> k in ids[..|ids| - 1] || k == ids[|ids| - 1]
  {
    assert ids == ids[..|ids| - 1] + [ids[|ids| - 1]];
  }

  // ---------------------------------------------------------------- splitting at the gaps

  ghost predicate Grouped(evs: seq<Row>, id: int) {
    0 <= id < |evs| && evs[id].incident.Some?
  }

  predicate SameEntity(a: Row, b: Row) {
    a.tenant == b.tenant && a.key.entity == b.key.entity
  }

  /** Two grouped rows of one entity with none of that entity strictly between them in time. */
  ghost predicate Neighbours(evs: seq<Row>, a: int, b: int) {
    && Grouped(evs, a) && Grouped(evs, b) && SameEntity(evs[a], evs[b]) && evs[a].ts <= evs[b].ts
    && (forall c :: Grouped(evs, c) && SameEntity(evs[c], evs[a]) ==> !(evs[a].ts < evs[c].ts < evs[b].ts))
  }

  /** From one row to the other no two neighbours are more than GAP_S, fifteen minutes, apart. */
  ghost predicate NoGap(evs: seq<Row>, a: int, b: int)
    requires Grouped(evs, a) && Grouped(evs, b)
  {
    forall c, d :: Neighbours(evs, c, d) && SameEntity(evs[c], evs[a])
                   && evs[a].ts <= evs[c].ts && evs[d].ts <= evs[b].ts
      ==> evs[d].ts - evs[c].ts <= 15 * 60
  }

  /** Two rows that could share an incident: grouped, of one tenant and entity, the first not later. */
  ghost predicate Along(evs: seq<Row>, a: int, b: int) {
    Grouped(evs, a) && Grouped(evs, b) && SameEntity(evs[a], evs[b]) && evs[a].ts <= evs[b].ts
  }

  /** The incidents are exactly what splitting each entity's timeline at the gaps gives: two rows of
      an entity share one if and only if no gap lies between them. */
  ghost predicate SplitAtGaps(evs: seq<Row>) {
    forall a, b :: Along(evs, a, b) ==> (evs[a].incident == evs[b].incident <==> NoGap(evs, a, b))
  }

  // The same read off the incident rows: their spans are more than a gap apart, and none has a gap.

  predicate SameSubject(a: Incident, b: Incident) {
    a.tenant == b.tenant && a.entity == b.entity
  }

  ghost predicate Apart(incs: seq<Incident>) {
    forall i, j :: 0 <= i < |incs| && 0 <= j < |incs| && i != j && SameSubject(incs[i], incs[j])
      ==> incs[i].last + GAP_S < incs[j].first || incs[j].last + GAP_S < incs[i].first
  }

  /** A row of the incident comes within a gap after ``t``. */
  ghost predicate Follows(evs: seq<Row>, i: nat, t: int) {
    exists id :: id in Members(evs, i) && t < evs[id].ts <= t + GAP_S
  }

  ghost predicate Unbroken(evs: seq<Row>, inc: Incident, i: nat) {
    forall t :: inc.first <= t < inc.last ==> Follows(evs, i, t)
  }

  ghost predicate Timeline(db: Db) {
    && Sound(db) && Apart(db.incidents)
    && (forall i :: 0 <= i < |db.incidents| ==> Unbroken(db.evidence, db.incidents[i], i))
  }

  /** A row still to be grouped. */
  ghost predicate Waiting(db: Db, id: nat) {
    id < |db.evidence| && db.evidence[id].key.entity != "" && db.evidence[id].incident.None?
  }

  lemma MemberBounds(db: Db, d: nat)
    requires Sound(db) && Grouped(db.evidence, d)
    ensures var i := db.evidence[d].incident.value;
            i < |db.incidents| && BelongsTo(db.evidence[d], db.incidents[i])
  {
    var i := db.evidence[d].incident.value;
    assert Aggregates(db.evidence, db.incidents[i], i);
    assert d in Members(db.evidence, i);
  }

  /** The time bounds of an incident are times of grouped rows of its entity. */
  lemma BoundsAreMembers(db: Db, i: nat) returns (a: nat, b: nat)
    requires Sound(db) && i < |db.incidents|
    ensures Grouped(db.evidence, a) && db.evidence[a].incident == Some(i) && db.evidence[a].ts == db.incidents[i].first
    ensures Grouped(db.evidence, b) && db.evidence[b].incident == Some(i) && db.evidence[b].ts == db.incidents[i].last
    ensures BelongsTo(db.evidence[a], db.incidents[i]) && BelongsTo(db.evidence[b], db.incidents[i])
  {
    assert Aggregates(db.evidence, db.incidents[i], i);
    assert HasTime(db.evidence, i, db.incidents[i].first) && HasTime(db.evidence, i, db.incidents[i].last);
    a :| a in Members(db.evidence, i) && db.evidence[a].ts == db.incidents[i].first;
    b :| b in Members(db.evidence, i) && db.evidence[b].ts == db.incidents[i].last;
  }

  /** Between two rows of an entity, the neighbours on either side of an instant. */
  lemma {:induction false} Around(evs: seq<Row>, lo: nat, hi: nat, t: int) returns (a: nat, b: nat)
    requires Along(evs, lo, hi) && evs[lo].ts <= t < evs[hi].ts
    ensures Neighbours(evs, a, b) && SameEntity(evs[a], evs[lo])
    ensures evs[lo].ts <= evs[a].ts <= t < evs[b].ts <= evs[hi].ts
    decreases evs[hi].ts - evs[lo].ts
  {
    if c: nat :| Grouped(evs, c) && SameEntity(evs[c], evs[lo]) && evs[lo].ts < evs[c].ts < evs[hi].ts {
      if evs[c].ts <= t {
        a, b := Around(evs, c, hi, t);
      } else {
        a, b := Around(evs, lo, c, t);
      }
    } else {
      a, b := lo, hi;
    }
  }

  lemma NoGapWithin(evs: seq<Row>, a: int, b: int, a': int, b': int)
    requires Along(evs, a, b) && NoGap(evs, a, b) && Along(evs, a', b') && SameEntity(evs[a'], evs[a])
    requires evs[a].ts <= evs[a'].ts && evs[b'].ts <= evs[b].ts
    ensures NoGap(evs, a', b')
  {
  }

  lemma NoGapWhenNear(evs: seq<Row>, a: int, b: int)
    requires Along(evs, a, b) && evs[b].ts - evs[a].ts <= GAP_S
    ensures NoGap(evs, a, b)
  {
  }

  /** A row dated within the span of an incident of its entity belongs to it. */
  lemma SpanHoldsItsRows(db: Db, i: nat, c: nat)
    requires Sound(db) && Apart(db.incidents) && i < |db.incidents| && Grouped(db.evidence, c)
    requires SameSubject(Fresh(db.evidence[c]), db.incidents[i])
    requires db.incidents[i].first <= db.evidence[c].ts <= db.incidents[i].last
    ensures db.evidence[c].incident == Some(i)
  {
    hide Sound;
    MemberBounds(db, c);
    assert SameSubject(db.incidents[i], db.incidents[db.evidence[c].incident.value]);
  }

  lemma TogetherNoGap(db: Db, a: nat, b: nat)
    requires Timeline(db) && Along(db.evidence, a, b) && db.evidence[a].incident == db.evidence[b].incident
    ensures NoGap(db.evidence, a, b)
  {
    hide Sound;
    var evs, i := db.evidence, db.evidence[a].incident.value;
    MemberBounds(db, a);
    MemberBounds(db, b);
    forall c, d | Neighbours(evs, c, d) && SameEntity(evs[c], evs[a])
                  && evs[a].ts <= evs[c].ts && evs[d].ts <= evs[b].ts
      ensures evs[d].ts - evs[c].ts <= GAP_S
    {
      if evs[c].ts < evs[d].ts {
        assert Unbroken(evs, db.incidents[i], i);
        assert Follows(evs, i, evs[c].ts);
        var id :| id in Members(evs, i) && evs[c].ts < evs[id].ts <= evs[c].ts + GAP_S;
        MemberBounds(db, id);
        assert Grouped(evs, id) && SameEntity(evs[id], evs[c]);
      }
    }
  }

  lemma AsunderHasGap(db: Db, a: nat, b: nat)
    requires Sound(db) && Apart(db.incidents)
    requires Along(db.evidence, a, b) && db.evidence[a].incident != db.evidence[b].incident
    ensures !NoGap(db.evidence, a, b)
  {
    hide Sound;
    var evs, i, j := db.evidence, db.evidence[a].incident.value, db.evidence[b].incident.value;
    MemberBounds(db, a);
    MemberBounds(db, b);
    assert SameSubject(db.incidents[i], db.incidents[j]);
    var _, l := BoundsAreMembers(db, i);
    var c, d := Around(evs, l, b, db.incidents[i].last);
    MemberBounds(db, d);
    assert SameSubject(db.incidents[i], db.incidents[evs[d].incident.value]);
    assert evs[c].ts == db.incidents[i].last;
  }

  lemma SplitIsApart(db: Db)
    requires Sound(db) && SplitAtGaps(db.evidence)
    ensures Apart(db.incidents)
  {
    hide Sound, SplitAtGaps;
    var incs := db.incidents;
    forall i, j | 0 <= i < |incs| && 0 <= j < |incs| && i != j && SameSubject(incs[i], incs[j])
      ensures incs[i].last + GAP_S < incs[j].first || incs[j].last + GAP_S < incs[i].first
    {
      if incs[i].first <= incs[j].first {
        SplitIsApartInOrder(db, i, j);
      } else {
        SplitIsApartInOrder(db, j, i);
      }
    }
  }

  lemma SplitIsApartInOrder(db: Db, i: nat, j: nat)
    requires Sound(db) && SplitAtGaps(db.evidence) && i < |db.incidents| && j < |db.incidents| && i != j
    requires SameSubject(db.incidents[i], db.incidents[j]) && db.incidents[i].first <= db.incidents[j].first
    ensures db.incidents[i].last + GAP_S < db.incidents[j].first
  {
    hide Sound, NoGap;
    var evs := db.evidence;
    var f, l := BoundsAreMembers(db, i);
    var g, _ := BoundsAreMembers(db, j);
    if evs[g].ts <= evs[l].ts {
      assert Along(evs, f, l) && Along(evs, f, g);
      NoGapWithin(evs, f, l, f, g);
    } else if evs[g].ts <= evs[l].ts + GAP_S {
      assert Along(evs, l, g);
      NoGapWhenNear(evs, l, g);
    }
  }

  lemma SplitIsUnbroken(db: Db, i: nat)
    requires Sound(db) && SplitAtGaps(db.evidence) && i < |db.incidents|
    ensures Unbroken(db.evidence, db.incidents[i], i)
  {
    hide Sound;
    var evs, inc := db.evidence, db.incidents[i];
    var f, l := BoundsAreMembers(db, i);
    forall t | inc.first <= t < inc.last ensures Follows(evs, i, t) {
      var a, b := Around(evs, f, l, t);
      assert Along(evs, f, l) && Along(evs, f, b);
      NoGapWithin(evs, f, l, f, b);
      assert b in Members(evs, i);
    }
  }

  /** The two readings of the partition are the same. */
  lemma TimelineIsSplit(db: Db)
    requires Sound(db)
    ensures Timeline(db) <==> SplitAtGaps(db.evidence)
  {
    hide Sound, Apart, Unbroken, NoGap;
    if Timeline(db) {
      forall a, b | Along(db.evidence, a, b)
        ensures db.evidence[a].incident == db.evidence[b].incident <==> NoGap(db.evidence, a, b)
      {
        if db.evidence[a].incident == db.evidence[b].incident {
          TogetherNoGap(db, a, b);
        } else {
          AsunderHasGap(db, a, b);
        }
      }
    }
    if SplitAtGaps(db.evidence) {
      SplitIsApart(db);
      forall i | 0 <= i < |db.incidents| ensures Unbroken(db.evidence, db.incidents[i], i) {
        SplitIsUnbroken(db, i);
      }
    }
  }

  // ---------------------------------------------------------------- one row

  /** The row is dated within a gap of the incident's span. */
  predicate Near(inc: Incident, r: Row) {
    SameSubject(Fresh(r), inc) && inc.first - GAP_S <= r.ts <= inc.last + GAP_S
  }

  /** The incident begins more than a gap after the row. */
  predicate Ahead(inc: Incident, r: Row) {
    SameSubject(Fresh(r), inc) && r.ts + GAP_S < inc.first
  }

  ghost predicate NoneNear(incs: seq<Incident>, r: Row) {
    forall i :: 0 <= i < |incs| ==> !Near(incs[i], r)
  }

  /** The incident the row belongs to can take it: what is near is open and is one incident; and when
      nothing is near, all that lies ahead is closed. */
  ghost predicate Fit(incs: seq<Incident>, r: Row) {
    && (forall i :: 0 <= i < |incs| && Near(incs[i], r) ==> incs[i].closed.None?)
    && (forall i, j :: 0 <= i < |incs| && 0 <= j < |incs| && Near(incs[i], r) && Near(incs[j], r) ==> i == j)
    && (NoneNear(incs, r) ==> forall i :: 0 <= i < |incs| && Ahead(incs[i], r) ==> incs[i].closed.Some?)
  }

  /** What an assignment leaves in the two tables. */
  lemma AssignedRow(db: Db, id: nat)
    requires id < |db.evidence|
    ensures var evs' := Assign(db, id).evidence;
            && |evs'| == |db.evidence|
            && evs'[id] == db.evidence[id].(incident := Some(HomeFor(db, db.evidence[id]).GetOr(|db.incidents|)))
            && (forall k :: 0 <= k < |evs'| && k != id ==> evs'[k] == db.evidence[k])
  {
  }

  lemma AssignedIncidents(db: Db, id: nat)
    requires id < |db.evidence|
    ensures var incs, incs', r := db.incidents, Assign(db, id).incidents, db.evidence[id];
            match HomeFor(db, r)
            case Some(i) => i < |incs| && Eligible(incs[i], r.tenant, r.key.entity, r.ts - GAP_S)
                            && incs' == incs[i := Absorb(incs[i], r)]
            case None => incs' == incs + [Absorb(Fresh(r), r)]
    ensures Assign(db, id).verdicts == db.verdicts
  {
  }

  lemma SpansAreOrdered(db: Db)
    requires Sound(db)
    ensures forall i :: 0 <= i < |db.incidents| ==> db.incidents[i].first <= db.incidents[i].last
  {
    hide Sound;
    forall i | 0 <= i < |db.incidents| ensures db.incidents[i].first <= db.incidents[i].last {
      var a, b := BoundsAreMembers(db, i);
    }
  }

  /** A row that fits goes where it is near, and begins an incident when it is near none. */
  lemma JoinsWhatIsNear(db: Db, r: Row)
    requires Sound(db) && Fit(db.incidents, r)
    ensures forall i :: 0 <= i < |db.incidents| ==> (HomeFor(db, r) == Some(i) <==> Near(db.incidents[i], r))
  {
    hide MatchOpen;
    var incs := db.incidents;
    SpansAreOrdered(db);
    hide Sound;
    forall i | 0 <= i < |incs| ensures HomeFor(db, r) == Some(i) <==> Near(incs[i], r) {
      if Near(incs[i], r) {
        assert Eligible(incs[i], r.tenant, r.key.entity, r.ts - GAP_S);
        assert HomeFor(db, r).Some?;
      }
    }
  }

  predicate Beyond(a: Incident, b: Incident) {
    a.last + GAP_S < b.first || b.last + GAP_S < a.first
  }

  lemma ApartWith(incs: seq<Incident>, incs': seq<Incident>, k: nat)
    requires Apart(incs) && k < |incs'| && |incs| <= |incs'| <= |incs| + 1 && (k < |incs| ==> |incs'| == |incs|)
    requires forall j :: 0 <= j < |incs'| && j != k ==> j < |incs| && incs'[j] == incs[j]
    requires forall j :: 0 <= j < |incs'| && j != k && SameSubject(incs'[k], incs'[j]) ==> Beyond(incs'[k], incs'[j])
    ensures Apart(incs')
  {
    forall a, b | 0 <= a < |incs'| && 0 <= b < |incs'| && a != b && SameSubject(incs'[a], incs'[b])
      ensures incs'[a].last + GAP_S < incs'[b].first || incs'[b].last + GAP_S < incs'[a].first
    {
      assert a == k ==> Beyond(incs'[k], incs'[b]);
      assert b == k ==> SameSubject(incs'[k], incs'[a]) && Beyond(incs'[k], incs'[a]);
    }
  }

  lemma FitKeepsApart(db: Db, id: nat)
    requires Waiting(db, id) && Sound(db) && Apart(db.incidents) && Fit(db.incidents, db.evidence[id])
    ensures Apart(Assign(db, id).incidents)
  {
    var r, incs, incs' := db.evidence[id], db.incidents, Assign(db, id).incidents;
    AssignedIncidents(db, id);
    JoinsWhatIsNear(db, r);
    SpansAreOrdered(db);
    hide Sound, Assign, HomeFor, MatchOpen, Fit;
    var k := HomeFor(db, r).GetOr(|incs|);
    hide Near, Eligible, Apart;
    forall j | 0 <= j < |incs'| && j != k && SameSubject(incs'[k], incs'[j])
      ensures Beyond(incs'[k], incs'[j])
    {
      assert HomeFor(db, r) != Some(j) && !Near(incs[j], r);
      if k < |incs| {
        assert HomeFor(db, r) == Some(k) && SameSubject(incs[k], incs[j]);
        BeyondAfterAbsorb(incs[k], incs[j], r);
      } else {
        BeyondFresh(incs[j], r);
      }
    }
    ApartWith(incs, incs', k);
  }

  lemma BeyondAfterAbsorb(inc: Incident, other: Incident, r: Row)
    requires Near(inc, r) && !Near(other, r) && SameSubject(inc, other) && Beyond(inc, other)
    requires inc.first <= inc.last && other.first <= other.last
    ensures Beyond(Absorb(inc, r), other)
  {
  }

  lemma BeyondFresh(other: Incident, r: Row)
    requires !Near(other, r) && SameSubject(Fresh(r), other)
    ensures Beyond(Absorb(Fresh(r), r), other)
  {
  }

  lemma MoreMembers(evs: seq<Row>, id: nat, home: nat, i: nat, t: int)
    requires id < |evs| && evs[id].incident.None? && Follows(evs, i, t)
    ensures Follows(Join(evs, id, home), i, t)
  {
    JoinMembers(evs, id, home, i);
    var m :| m in Members(evs, i) && t < evs[m].ts <= t + GAP_S;
    assert m in Members(Join(evs, id, home), i);
  }

  /** Taking in a row that is near leaves no gap. */
  lemma AbsorbKeepsUnbroken(db: Db, id: nat, i: nat)
    requires Waiting(db, id) && Sound(db) && i < |db.incidents| && Near(db.incidents[i], db.evidence[id])
    requires Unbroken(db.evidence, db.incidents[i], i)
    ensures Unbroken(Join(db.evidence, id, i), Absorb(db.incidents[i], db.evidence[id]), i)
  {
    hide Sound, Join, Follows;
    var evs, inc, r := db.evidence, db.incidents[i], db.evidence[id];
    var f, _ := BoundsAreMembers(db, i);
    forall t | Absorb(inc, r).first <= t < Absorb(inc, r).last ensures Follows(Join(evs, id, i), i, t) {
      if inc.first <= t < inc.last {
        MoreMembers(evs, id, i, i, t);
      } else if t < inc.first {
        FollowedBy(evs, i, f, t);
        MoreMembers(evs, id, i, i, t);
      } else {
        JoinedRow(evs, id, i);
        FollowedBy(Join(evs, id, i), i, id, t);
      }
    }
  }

  lemma JoinedRow(evs: seq<Row>, id: nat, i: nat)
    requires id < |evs|
    ensures |Join(evs, id, i)| == |evs| && Join(evs, id, i)[id] == evs[id].(incident := Some(i))
  {
  }

  lemma FollowedBy(evs: seq<Row>, i: nat, m: nat, t: int)
    requires m < |evs| && evs[m].incident == Some(i) && t < evs[m].ts <= t + GAP_S
    ensures Follows(evs, i, t)
  {
    assert m in Members(evs, i);
  }

  lemma FitKeepsUnbroken(db: Db, id: nat, i: nat)
    requires Waiting(db, id) && Timeline(db) && Fit(db.incidents, db.evidence[id])
    requires i < |Assign(db, id).incidents|
    ensures Unbroken(Assign(db, id).evidence, Assign(db, id).incidents[i], i)
  {
    var evs, r, home := db.evidence, db.evidence[id], HomeFor(db, db.evidence[id]);
    AssignedIncidents(db, id);
    JoinsWhatIsNear(db, r);
    assert Assign(db, id).evidence == Join(evs, id, home.GetOr(|db.incidents|));
    hide Sound, Assign, HomeFor, Fit, Apart, Follows, Join;
    if home == Some(i) {
      AbsorbKeepsUnbroken(db, id, i);
    } else if i < |db.incidents| {
      assert Unbroken(evs, db.incidents[i], i);
      forall t | db.incidents[i].first <= t < db.incidents[i].last
        ensures Follows(Assign(db, id).evidence, i, t)
      {
        MoreMembers(evs, id, home.GetOr(|db.incidents|), i, t);
      }
    }
  }

  /** Near an incident but put into another: the two spans are no longer apart. */
  lemma NotJoinedBreaks(db: Db, id: nat, i: nat)
    requires Waiting(db, id) && Sound(db) && i < |db.incidents|
    requires Near(db.incidents[i], db.evidence[id]) && HomeFor(db, db.evidence[id]) != Some(i)
    ensures !Apart(Assign(db, id).incidents)
  {
    var r, incs' := db.evidence[id], Assign(db, id).incidents;
    AssignedIncidents(db, id);
    SpansAreOrdered(db);
    hide Sound, Assign, HomeFor, MatchOpen;
    var home := HomeFor(db, r).GetOr(|db.incidents|);
    assert incs'[i] == db.incidents[i] && SameSubject(incs'[i], incs'[home]);
    assert incs'[home].first <= r.ts <= incs'[home].last;
  }

  /** Near no incident but put into one: it lies ahead, and now has a gap. */
  lemma JoinedFromAheadBreaks(db: Db, id: nat)
    requires Waiting(db, id) && Sound(db) && NoneNear(db.incidents, db.evidence[id])
    requires HomeFor(db, db.evidence[id]).Some?
    ensures var i := HomeFor(db, db.evidence[id]).value;
            && i < |db.incidents| && Ahead(db.incidents[i], db.evidence[id])
            && !Unbroken(Assign(db, id).evidence, Assign(db, id).incidents[i], i)
  {
    var evs, r, evs' := db.evidence, db.evidence[id], Assign(db, id).evidence;
    var i := HomeFor(db, r).value;
    AssignedIncidents(db, id);
    AssignedRow(db, id);
    JoinMembers(evs, id, i, i);
    SpansAreOrdered(db);
    assert Members(evs', i) == Members(evs, i) + {id};
    hide Assign, HomeFor, MatchOpen;
    assert !Near(db.incidents[i], r);
    forall m | m in Members(evs', i) ensures !(r.ts < evs'[m].ts <= r.ts + GAP_S) {
      if m != id {
        MemberBounds(db, m);
      }
    }
    assert !Follows(evs', i, r.ts);
  }

  lemma MisfitBreaks(db: Db, id: nat)
    requires Waiting(db, id) && Sound(db) && !Fit(db.incidents, db.evidence[id])
    ensures !Timeline(Assign(db, id))
  {
    hide Sound, Apart, Unbroken, Assign, MatchOpen;
    var r, incs := db.evidence[id], db.incidents;
    AssignedIncidents(db, id);
    if i: nat :| i < |incs| && Near(incs[i], r) && HomeFor(db, r) != Some(i) {
      NotJoinedBreaks(db, id, i);
    } else {
      SpansAreOrdered(db);
      assert NoneNear(incs, r);
      var i :| 0 <= i < |incs| && Ahead(incs[i], r) && incs[i].closed.None?;
      assert Eligible(incs[i], r.tenant, r.key.entity, r.ts - GAP_S);
      AheadIsTaken(db, r, i);
      JoinedFromAheadBreaks(db, id);
      assert HomeFor(db, r).value < |Assign(db, id).incidents|;
    }
  }

  lemma AheadIsTaken(db: Db, r: Row, i: nat)
    requires i < |db.incidents| && Eligible(db.incidents[i], r.tenant, r.key.entity, r.ts - GAP_S)
    ensures HomeFor(db, r).Some?
  {
  }

  /** Whatever its date, a row keeps the partition if, and only if, it fits: the incidents within a
      gap of it are one open incident, or there is none and no open one lies ahead. */
  lemma RowKeepsPartition(db: Db, id: nat)
    requires Waiting(db, id) && Sound(db) && SplitAtGaps(db.evidence)
    ensures SplitAtGaps(Assign(db, id).evidence) <==> Fit(db.incidents, db.evidence[id])
  {
    hide Sound, Apart, Unbroken, Assign, SplitAtGaps, Fit;
    TimelineIsSplit(db);
    SoundAfterAssign(db, id);
    TimelineIsSplit(Assign(db, id));
    if Fit(db.incidents, db.evidence[id]) {
      FitKeepsApart(db, id);
      forall i | 0 <= i < |Assign(db, id).incidents|
        ensures Unbroken(Assign(db, id).evidence, Assign(db, id).incidents[i], i)
      {
        FitKeepsUnbroken(db, id, i);
      }
    } else {
      MisfitBreaks(db, id);
    }
  }

  /** After a row that fits has been grouped it shares an incident with a neighbour, on either side,
      exactly when the gap between them allows it; and so do the other rows. */
  lemma JoinsNeighbour(db: Db, id: nat, a: int, b: int)
    requires Waiting(db, id) && Sound(db) && SplitAtGaps(db.evidence) && Fit(db.incidents, db.evidence[id])
    ensures var evs' := Assign(db, id).evidence;
            Neighbours(evs', a, b) ==>
              (evs'[a].incident == evs'[b].incident <==> evs'[b].ts - evs'[a].ts <= GAP_S)
  {
    hide Sound, Fit, Assign, SplitAtGaps;
    RowKeepsPartition(db, id);
    if Neighbours(Assign(db, id).evidence, a, b) {
      NeighboursSplit(Assign(db, id).evidence, a, b);
    }
  }

  /** Neighbours share an incident exactly when they are within a gap. */
  lemma NeighboursSplit(evs: seq<Row>, a: int, b: int)
    requires SplitAtGaps(evs) && Neighbours(evs, a, b)
    ensures evs[a].incident == evs[b].incident <==> evs[b].ts - evs[a].ts <= GAP_S
  {
    assert Along(evs, a, b);
    if evs[b].ts - evs[a].ts <= GAP_S {
      NoGapWhenNear(evs, a, b);
    }
  }

  /** A row within a gap of a closed incident of its entity cannot join it, and is split from it. */
  lemma BlockedRowBreaks(db: Db, id: nat, i: nat)
    requires Waiting(db, id) && Sound(db) && i < |db.incidents|
    requires Near(db.incidents[i], db.evidence[id]) && db.incidents[i].closed.Some?
    ensures !SplitAtGaps(Assign(db, id).evidence)
  {
    hide Sound, Assign, SplitAtGaps;
    AssignedIncidents(db, id);
    NotJoinedBreaks(db, id, i);
    SoundAfterAssign(db, id);
    TimelineIsSplit(Assign(db, id));
  }

  /** A row with nothing near it and an open incident ahead is pulled into it over the gap. */
  lemma StragglerIsPulled(db: Db, id: nat, i: nat)
    requires Waiting(db, id) && Sound(db) && NoneNear(db.incidents, db.evidence[id])
    requires i < |db.incidents| && Ahead(db.incidents[i], db.evidence[id]) && db.incidents[i].closed.None?
    ensures !SplitAtGaps(Assign(db, id).evidence)
    ensures exists j :: 0 <= j < |db.incidents| && Ahead(db.incidents[j], db.evidence[id])
                        && Assign(db, id).evidence[id].incident == Some(j)
  {
    hide Sound, SplitAtGaps, MatchOpen;
    SpansAreOrdered(db);
    AheadIsTaken(db, db.evidence[id], i);
    JoinedFromAheadBreaks(db, id);
    SoundAfterAssign(db, id);
    TimelineIsSplit(Assign(db, id));
  }

  // ---------------------------------------------------------------- a batch

  /** Assignments leave closed incidents as they are and close none. */
  lemma AssignKeepsClosed(db: Db, id: nat)
    requires id < |db.evidence|
    ensures var incs' := Assign(db, id).incidents;
            && |db.incidents| <= |incs'|
            && (forall i :: 0 <= i < |incs'| && incs'[i].closed.Some? ==> i < |db.incidents|)
            && (forall i :: 0 <= i < |db.incidents| ==> incs'[i].closed == db.incidents[i].closed)
            && (forall i :: 0 <= i < |db.incidents| && db.incidents[i].closed.Some? ==> incs'[i] == db.incidents[i])
  {
    AssignedIncidents(db, id);
  }

  lemma {:induction false} AssignAllKeepsClosed(db: Db, ids: seq<nat>)
    requires Within(ids, |db.evidence|)
    ensures var incs' := AssignAll(db, ids).incidents;
            && |db.incidents| <= |incs'|
            && (forall i :: 0 <= i < |incs'| && incs'[i].closed.Some? ==> i < |db.incidents|)
            && (forall i :: 0 <= i < |db.incidents| ==> incs'[i].closed == db.incidents[i].closed)
            && (forall i :: 0 <= i < |db.incidents| && db.incidents[i].closed.Some? ==> incs'[i] == db.incidents[i])
  {
    hide Assign;
    if ids != [] {
      var n := |ids| - 1;
      AssignAllKeepsClosed(db, ids[..n]);
      AssignKeepsClosed(AssignAll(db, ids[..n]), ids[n]);
    }
  }

  /** Different rows, none of them in an incident. */
  ghost predicate AllFree(db: Db, ids: seq<nat>) {
    && Within(ids, |db.evidence|)
    && (forall a, b :: 0 <= a < b < |ids| ==> ids[a] != ids[b])
    && (forall k :: 0 <= k < |ids| ==> db.evidence[ids[k]].incident.None?)
  }

  /** Each row of the batch fits when its turn comes. */
  ghost predicate FitInTurn(db: Db, ids: seq<nat>)
    requires Within(ids, |db.evidence|)
  {
    ids == []
    || (FitInTurn(db, ids[..|ids| - 1]) && var id := ids[|ids| - 1];
        db.evidence[id].key.entity != "" ==> Fit(AssignAll(db, ids[..|ids| - 1]).incidents, db.evidence[id]))
  }

  /** The partition is right before the batch and after each of its rows. */
  ghost predicate SplitThroughout(db: Db, ids: seq<nat>)
    requires Within(ids, |db.evidence|)
  {
    SplitAtGaps(AssignAll(db, ids).evidence) && (ids == [] || SplitThroughout(db, ids[..|ids| - 1]))
  }

  /** When its turn comes the last row of a batch is as it was. */
  lemma LastIsWaiting(db: Db, ids: seq<nat>)
    requires ids != [] && AllFree(db, ids)
    ensures var n := |ids| - 1;
            && AssignAll(db, ids[..n]).evidence[ids[n]] == db.evidence[ids[n]]
            && (db.evidence[ids[n]].key.entity != "" ==> Waiting(AssignAll(db, ids[..n]), ids[n]))
  {
    hide AssignAll;
    var n := |ids| - 1;
    AssignAllRows(db, ids[..n]);
    assert ids[n] !in ids[..n];
  }

  /** The partition holds after each row of a batch, in whatever order they come, if and only if it
      held before and each row fits when its turn comes. */
  lemma {:induction false} BatchKeepsPartition(db: Db, ids: seq<nat>)
    requires Sound(db) && AllFree(db, ids)
    ensures Sound(AssignAll(db, ids))
    ensures SplitThroughout(db, ids) <==> SplitAtGaps(db.evidence) && FitInTurn(db, ids)
  {
    hide Assign, SplitAtGaps, Sound, Fit;
    if ids != [] {
      var n := |ids| - 1;
      var before := AssignAll(db, ids[..n]);
      assert AllFree(db, ids[..n]);
      BatchKeepsPartition(db, ids[..n]);
      LastIsWaiting(db, ids);
      if db.evidence[ids[n]].key.entity != "" {
        SoundAfterAssign(before, ids[n]);
        if SplitThroughout(db, ids[..n]) {
          ThroughoutHolds(db, ids[..n]);
          RowKeepsPartition(before, ids[n]);
        }
      } else {
        assert AssignAll(db, ids) == before;
        if SplitThroughout(db, ids[..n]) {
          ThroughoutHolds(db, ids[..n]);
        }
      }
    }
  }

  lemma ThroughoutHolds(db: Db, ids: seq<nat>)
    requires Within(ids, |db.evidence|) && SplitThroughout(db, ids)
    ensures SplitAtGaps(AssignAll(db, ids).evidence)
  {
  }

  // ---------------------------------------------------------------- rows in time order

  /** The row is not older than any grouped row of its entity. */
  ghost predicate Newest(evs: seq<Row>, r: Row) {
    forall d :: Grouped(evs, d) && SameEntity(evs[d], r) ==> evs[d].ts <= r.ts
  }

  /** An incident the query would have matched, were it not closed. */
  predicate ClosedInReach(inc: Incident, r: Row) {
    inc.closed.Some? && SameSubject(Fresh(r), inc) && inc.last >= r.ts - GAP_S
  }

  ghost predicate Blocked(incs: seq<Incident>, r: Row) {
    exists i :: 0 <= i < |incs| && ClosedInReach(incs[i], r)
  }

  lemma NewestIsLast(db: Db, r: Row)
    requires Sound(db) && Newest(db.evidence, r)
    ensures forall i :: 0 <= i < |db.incidents| && SameSubject(Fresh(r), db.incidents[i]) ==>
                          db.incidents[i].first <= db.incidents[i].last <= r.ts
  {
    hide Sound;
    forall i | 0 <= i < |db.incidents| && SameSubject(Fresh(r), db.incidents[i])
      ensures db.incidents[i].first <= db.incidents[i].last <= r.ts
    {
      var a, b := BoundsAreMembers(db, i);
      assert SameEntity(db.evidence[b], r);
    }
  }

  /** A row met in time order fits exactly when no closed incident is in its reach. */
  lemma NewestFits(db: Db, r: Row)
    requires Sound(db) && Apart(db.incidents) && Newest(db.evidence, r)
    ensures Fit(db.incidents, r) <==> !Blocked(db.incidents, r)
  {
    hide Sound, Newest;
    var incs := db.incidents;
    NewestIsLast(db, r);
    forall i | 0 <= i < |incs| ensures ClosedInReach(incs[i], r) <==> Near(incs[i], r) && incs[i].closed.Some? {
    }
    forall i, j | 0 <= i < |incs| && 0 <= j < |incs| && Near(incs[i], r) && Near(incs[j], r) ensures i == j {
      assert SameSubject(incs[i], incs[j]);
    }
  }

  /** Where the partition is broken newer rows cannot mend it. */
  lemma BrokenStaysBroken(db: Db, id: nat)
    requires Waiting(db, id) && Sound(db) && Newest(db.evidence, db.evidence[id]) && !SplitAtGaps(db.evidence)
    ensures !SplitAtGaps(Assign(db, id).evidence)
  {
    hide Sound, SplitAtGaps, Newest, Assign, Unbroken, Apart;
    SoundAfterAssign(db, id);
    TimelineIsSplit(db);
    TimelineIsSplit(Assign(db, id));
    AssignedIncidents(db, id);
    if !Apart(db.incidents) {
      NotApartStays(db.incidents, Assign(db, id).incidents);
    } else {
      var i :| 0 <= i < |db.incidents| && !Unbroken(db.evidence, db.incidents[i], i);
      NewestLeavesGap(db, id, i);
    }
  }

  lemma NotApartStays(incs: seq<Incident>, incs': seq<Incident>)
    requires |incs| <= |incs'| && !Apart(incs)
    requires forall i :: 0 <= i < |incs| ==>
                           && SameSubject(incs[i], incs'[i])
                           && incs'[i].first <= incs[i].first && incs[i].last <= incs'[i].last
    ensures !Apart(incs')
  {
    var i, j :| 0 <= i < |incs| && 0 <= j < |incs| && i != j && SameSubject(incs[i], incs[j])
                && incs[i].last + GAP_S >= incs[j].first && incs[j].last + GAP_S >= incs[i].first;
    assert SameSubject(incs'[i], incs'[j]);
  }

  lemma NewestLeavesGap(db: Db, id: nat, i: nat)
    requires Waiting(db, id) && Sound(db) && Newest(db.evidence, db.evidence[id])
    requires i < |db.incidents| && !Unbroken(db.evidence, db.incidents[i], i)
    ensures i < |Assign(db, id).incidents| && !Unbroken(Assign(db, id).evidence, Assign(db, id).incidents[i], i)
  {
    var evs, inc := db.evidence, db.incidents[i];
    var home := HomeFor(db, db.evidence[id]);
    AssignedIncidents(db, id);
    NewestIsLast(db, db.evidence[id]);
    assert Assign(db, id).evidence == Join(evs, id, home.GetOr(|db.incidents|));
    hide Assign, HomeFor, Sound, Join, Follows, Newest;
    var t :| inc.first <= t < inc.last && !Follows(evs, i, t);
    var inc' := Assign(db, id).incidents[i];
    assert inc'.first <= t < inc'.last;
    LaterRowLeavesGap(db, id, home.GetOr(|db.incidents|), i, t);
  }

  lemma LaterRowLeavesGap(db: Db, id: nat, home: nat, i: nat, t: int)
    requires Waiting(db, id) && Sound(db) && i < |db.incidents| && t < db.incidents[i].last
    requires home == i ==> db.incidents[i].last <= db.evidence[id].ts
    requires !Follows(db.evidence, i, t)
    ensures !Follows(Join(db.evidence, id, home), i, t)
  {
    var evs, evs' := db.evidence, Join(db.evidence, id, home);
    JoinMembers(evs, id, home, i);
    if Follows(evs', i, t) {
      var m :| m in Members(evs', i) && t < evs'[m].ts <= t + GAP_S;
      var _, l := BoundsAreMembers(db, i);
      hide Sound;
      FollowedBy(evs, i, if m == id then l else m, t);
    }
  }

  lemma BlockedAsBefore(db: Db, ids: seq<nat>, r: Row)
    requires Within(ids, |db.evidence|)
    ensures Blocked(AssignAll(db, ids).incidents, r) <==> Blocked(db.incidents, r)
  {
    hide AssignAll;
    AssignAllKeepsClosed(db, ids);
    var incs, incs' := db.incidents, AssignAll(db, ids).incidents;
    if Blocked(incs, r) {
      var i :| 0 <= i < |incs| && ClosedInReach(incs[i], r);
      assert ClosedInReach(incs'[i], r);
    }
  }

  /** The rows of a batch, each new to its entity's timeline. */
  ghost predicate InOrder(db: Db, ids: seq<nat>) {
    && AllFree(db, ids) && Ordered(db.evidence, ids)
    && (forall k :: 0 <= k < |ids| && db.evidence[ids[k]].key.entity != "" ==>
                      Newest(db.evidence, db.evidence[ids[k]]))
  }

  ghost predicate Unblocked(db: Db, ids: seq<nat>)
    requires Within(ids, |db.evidence|)
  {
    forall k :: 0 <= k < |ids| && db.evidence[ids[k]].key.entity != "" ==>
                  !Blocked(db.incidents, db.evidence[ids[k]])
  }

  /** When its turn comes the last row of an ordered batch is still newest. */
  lemma LastIsNewest(db: Db, ids: seq<nat>)
    requires ids != [] && InOrder(db, ids) && db.evidence[ids[|ids| - 1]].key.entity != ""
    ensures Newest(AssignAll(db, ids[..|ids| - 1]).evidence, db.evidence[ids[|ids| - 1]])
  {
    hide AssignAll;
    var n := |ids| - 1;
    AssignAllRows(db, ids[..n]);
    var before, id := AssignAll(db, ids[..n]), ids[n];
    forall d | Grouped(before.evidence, d) && SameEntity(before.evidence[d], db.evidence[id])
      ensures before.evidence[d].ts <= db.evidence[id].ts
    {
      if Grouped(db.evidence, d) {
        assert SameEntity(db.evidence[d], db.evidence[id]);
      } else {
        assert d in ids[..n];
        var k :| 0 <= k < n && ids[k] == d;
        assert Earlier(db.evidence, ids[k], ids[n]);
      }
    }
  }

  lemma UnblockedSplits(db: Db, ids: seq<nat>)
    requires ids != [] && Within(ids, |db.evidence|)
    ensures var n := |ids| - 1;
            Unblocked(db, ids) <==>
            Unblocked(db, ids[..n]) && (db.evidence[ids[n]].key.entity != "" ==>
                                          !Blocked(db.incidents, db.evidence[ids[n]]))
  {
    hide Blocked;
    var n := |ids| - 1;
    assert forall k :: 0 <= k < n ==> ids[..n][k] == ids[k];
  }

  /** After a batch in time order the partition is right if, and only if, it was before and no row is
      blocked by a closed incident. */
  lemma {:induction false} OrderedBatch(db: Db, ids: seq<nat>)
    requires Sound(db) && InOrder(db, ids)
    ensures Sound(AssignAll(db, ids))
    ensures SplitAtGaps(AssignAll(db, ids).evidence) <==> SplitAtGaps(db.evidence) && Unblocked(db, ids)
  {
    hide Assign, Blocked, SplitAtGaps, Newest, Sound, Unblocked, Fit, Apart;
    if ids == [] {
      EmptyBatch(db);
    } else {
      var n := |ids| - 1;
      var before, r := AssignAll(db, ids[..n]), db.evidence[ids[n]];
      assert InOrder(db, ids[..n]);
      UnblockedSplits(db, ids);
      OrderedBatch(db, ids[..n]);
      LastIsWaiting(db, ids);
      BlockedAsBefore(db, ids[..n], r);
      if r.key.entity != "" {
        LastIsNewest(db, ids);
        SoundAfterAssign(before, ids[n]);
        if SplitAtGaps(before.evidence) {
          RowKeepsPartition(before, ids[n]);
          TimelineIsSplit(before);
          NewestFits(before, r);
        } else {
          BrokenStaysBroken(before, ids[n]);
        }
      }
    }
  }

  lemma EmptyBatch(db: Db)
    ensures AssignAll(db, []) == db && Unblocked(db, [])
  {
  }

  // ---------------------------------------------------------------- prompt rows

  /** Closed incidents had been quiet, and were closed no later than the last closing. */
  ghost predicate ClosedQuiet(incs: seq<Incident>, lastClose: Option<int>) {
    forall i :: 0 <= i < |incs| && incs[i].closed.Some? ==>
                  && incs[i].last < incs[i].closed.value - QUIET_S
                  && lastClose.Some? && incs[i].closed.value <= lastClose.value
  }

  /** The row reaches grouping at ``now`` at most QUIET_S - GAP_S after its fact. */
  predicate Prompt(r: Row, now: int) {
    r.ts >= now - (QUIET_S - GAP_S)
  }

  /** No closed incident is in reach of a row that is grouped promptly. */
  lemma PromptIsNotBlocked(incs: seq<Incident>, lastClose: Option<int>, r: Row, now: int)
    requires ClosedQuiet(incs, lastClose) && now >= lastClose.GetOr(now) && Prompt(r, now)
    ensures !Blocked(incs, r)
  {
  }
}
