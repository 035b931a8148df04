/** observability/correlator.py: from what the rules produced to rows of ``evidence``.

    A cycle runs over ``produced`` twice: findings first, then retractions. */
module Correlator {
  import opened Wrappers
  import opened Evidence

  datatype Finding = Finding(eventId: int, ts: int, tenant: string, role: Role, entity: string,
                             summary: string, severity: Option<int>, src: string, dst: string,
                             port: Option<string>, discriminant: string, interface: string)

  datatype Retraction = Retraction(target: string, entity: string, tenant: string,
                                   reason: string, proof: Finding, window: int)

  datatype Output = Found(finding: Finding) | Retract(retraction: Retraction)

  /** One element of ``rules.evaluate``'s result. */
  datatype Item = Item(rule: string, version: string, params: Params, what: Output)

  /** What the cycle asks of the modules around it: declared outputs of a rule, maintenance
      windows, and the switch port of a client. */
  datatype Context = Context(declares: (string, Role) -> bool, retracts: string -> bool,
                             suppressed: (string, string, string, int) -> bool,
                             portOf: (string, string) -> Option<string>)

  // ---------------------------------------------------------------- inserting one finding

  function KeyOf(it: Item, f: Finding): Key {
    Key(it.rule, it.version, f.eventId, f.role, f.entity, f.discriminant)
  }

  function PortFor(c: Context, f: Finding): string {
    if f.port.Some? then f.port.value
    else if f.role == Trigger && f.src != "" then c.portOf(f.src, f.tenant).GetOr("")
    else ""
  }

  function NewRow(c: Context, now: int, it: Item, f: Finding): Row {
    Row(now, f.ts, f.tenant, KeyOf(it, f), it.params, f.severity, f.src, f.dst,
        PortFor(c, f), f.summary, Active, None)
  }

  /** The row holding a dedup key, if any. */
  function Lookup(evs: seq<Row>, k: Key): (r: Option<nat>)
    ensures r.Some? ==> r.value < |evs| && evs[r.value].key == k
    ensures r.None? ==> forall i :: 0 <= i < |evs| ==> evs[i].key != k
  {
    if evs == [] then None
    else
      var n := |evs| - 1;
      var earlier := Lookup(evs[..n], k);
      if earlier.Some? then earlier
      else if evs[n].key == k then Some(n)
      else None
  }

  function Insert(c: Context, now: int, it: Item, f: Finding, evs: seq<Row>): seq<Row> {
    if Lookup(evs, KeyOf(it, f)).Some? then evs else evs + [NewRow(c, now, it, f)]
  }

  // ---------------------------------------------------------------- confirmation

  datatype Group = Group(rule: string, tenant: string, entity: string, discriminant: string)

  function GroupOf(it: Item): Group
    requires it.what.Found?
  {
    var f := it.what.finding;
    Group(it.rule, f.tenant, f.entity, f.discriminant)
  }

  /** The distinct events a group was seen on. */
  function Observed(produced: seq<Item>, g: Group): set<int> {
    set it | it in produced && it.what.Found? && GroupOf(it) == g :: it.what.finding.eventId
  }

  /** ``int(params.get(name, 1) or 1)``. */
  function Needed(p: Params): int {
    match p.minObservations
    case None => 1
    case Some(n) => if n == 0 then 1 else n
  }

  /** What pass one makes of an item: the first reason that applies. */
  datatype Screening = NoFinding | Unconfirmed | Undeclared | Maintenance | Passed

  function Screen(c: Context, produced: seq<Item>, it: Item): Screening {
    if it.what.Retract? then NoFinding
    else
      var f := it.what.finding;
      if |Observed(produced, GroupOf(it))| < Needed(it.params) then Unconfirmed
      else if !c.declares(it.rule, f.role) then Undeclared
      else if f.entity != "" && c.suppressed(f.tenant, f.entity, f.interface, f.ts) then Maintenance
      else Passed
  }

  predicate Admitted(c: Context, produced: seq<Item>, it: Item)
    requires it.what.Found?
  {
    Screen(c, produced, it) == Passed
  }

  /** How many of ``items`` are screened out for one reason. */
  function Tally(c: Context, produced: seq<Item>, items: seq<Item>, s: Screening): nat {
    if items == [] then 0
    else
      var n := |items| - 1;
      Tally(c, produced, items[..n], s) + if Screen(c, produced, items[n]) == s then 1 else 0
  }

  // ---------------------------------------------------------------- retraction

  /** What the target query of a retraction selects, whatever the status. */
  predicate Targets(r: Retraction, row: Row) {
    && row.tenant == r.tenant && row.key.entity == r.entity && row.key.rule == r.target
    && row.ts >= r.proof.ts - r.window
  }

  predicate Hit(r: Retraction, row: Row) {
    row.status.Active? && Targets(r, row)
  }

  predicate HasTargets(r: Retraction, evs: seq<Row>) {
    exists row | row in evs :: Hit(r, row)
  }

  /** Marks the rows of ``chosen`` as retracted by ``proof``. */
  function Retire(evs: seq<Row>, chosen: set<nat>, proof: nat, rule: string, now: int,
                  reason: string): (evs': seq<Row>)
    ensures |evs'| == |evs|
    ensures forall i :: 0 <= i < |evs| ==>
              evs'[i] == if i in chosen then evs[i].(status := Retracted(proof, rule, now, reason)) else evs[i]
  {
    seq(|evs|, i requires 0 <= i < |evs| =>
      if i in chosen then evs[i].(status := Retracted(proof, rule, now, reason)) else evs[i])
  }

  function TargetIds(r: Retraction, evs: seq<Row>): set<nat> {
    set i: nat | i < |evs| && Hit(r, evs[i])
  }

  function Apply(c: Context, now: int, it: Item, evs: seq<Row>): seq<Row>
    requires it.what.Retract?
  {
    var r := it.what.retraction;
    if !HasTargets(r, evs) then evs
    else
      var evs1 := Insert(c, now, it, r.proof, evs);
      LookupAfterInsert(c, now, it, r.proof, evs);
      Retire(evs1, TargetIds(r, evs), Lookup(evs1, KeyOf(it, r.proof)).value, it.rule, now, r.reason)
  }

  lemma LookupAfterInsert(c: Context, now: int, it: Item, f: Finding, evs: seq<Row>)
    ensures Lookup(Insert(c, now, it, f, evs), KeyOf(it, f)).Some?
    ensures Lookup(evs, KeyOf(it, f)).None? ==> Lookup(Insert(c, now, it, f, evs), KeyOf(it, f)) == Some(|evs|)
    ensures Lookup(evs, KeyOf(it, f)).Some? ==>
              Lookup(Insert(c, now, it, f, evs), KeyOf(it, f)) == Lookup(evs, KeyOf(it, f))
  {
    hide Lookup;
    if Lookup(evs, KeyOf(it, f)).None? {
      var evs' := evs + [NewRow(c, now, it, f)];
      assert evs'[|evs|].key == KeyOf(it, f);
      assert forall i :: 0 <= i < |evs| ==> evs'[i] == evs[i];
    }
  }

  // ---------------------------------------------------------------- one cycle

  /** Pass one over ``items``, a prefix of ``produced``. */
  function Findings(c: Context, now: int, produced: seq<Item>, items: seq<Item>, evs: seq<Row>): seq<Row> {
    if items == [] then evs
    else
      var n := |items| - 1;
      var before := Findings(c, now, produced, items[..n], evs);
      if items[n].what.Found? && Admitted(c, produced, items[n])
      then Insert(c, now, items[n], items[n].what.finding, before)
      else before
  }

  /** Pass two. */
  function Retractions(c: Context, now: int, items: seq<Item>, evs: seq<Row>): seq<Row> {
    if items == [] then evs
    else
      var n := |items| - 1;
      var before := Retractions(c, now, items[..n], evs);
      if items[n].what.Retract? && c.retracts(items[n].rule) then Apply(c, now, items[n], before)
      else before
  }

  function Correlate(c: Context, now: int, produced: seq<Item>, evs: seq<Row>): seq<Row> {
    Retractions(c, now, produced, Findings(c, now, produced, produced, evs))
  }

  // ---------------------------------------------------------------- what every cycle keeps

  lemma InsertKeeps(c: Context, now: int, it: Item, f: Finding, evs: seq<Row>)
    requires WellFormed(evs)
    ensures WellFormed(Insert(c, now, it, f, evs)) && Cycle(evs, Insert(c, now, it, f, evs), now)
  {
  }

  lemma RetireKeeps(evs: seq<Row>, chosen: set<nat>, proof: nat, rule: string, now: int, reason: string)
    requires WellFormed(evs) && proof < |evs|
    requires forall i :: i in chosen && i < |evs| ==> evs[i].status.Active?
    ensures WellFormed(Retire(evs, chosen, proof, rule, now, reason))
    ensures Cycle(evs, Retire(evs, chosen, proof, rule, now, reason), now)
  {
    var evs' := Retire(evs, chosen, proof, rule, now, reason);
    assert forall i :: 0 <= i < |evs| ==> evs'[i].key == evs[i].key;
  }

  lemma ApplyKeeps(c: Context, now: int, it: Item, evs: seq<Row>)
    requires it.what.Retract? && WellFormed(evs)
    ensures WellFormed(Apply(c, now, it, evs)) && Cycle(evs, Apply(c, now, it, evs), now)
  {
    var r := it.what.retraction;
    var evs1 := Insert(c, now, it, r.proof, evs);
    InsertKeeps(c, now, it, r.proof, evs);
    LookupAfterInsert(c, now, it, r.proof, evs);
    var proof := Lookup(evs1, KeyOf(it, r.proof)).value;
    if HasTargets(r, evs) {
      RetireKeeps(evs1, TargetIds(r, evs), proof, it.rule, now, r.reason);
      CycleTransitive(evs, evs1, Apply(c, now, it, evs), now);
    }
  }

  lemma {:induction false} FindingsKeep(c: Context, now: int, produced: seq<Item>, items: seq<Item>, evs: seq<Row>)
    requires WellFormed(evs)
    ensures var evs' := Findings(c, now, produced, items, evs); WellFormed(evs') && Cycle(evs, evs', now)
  {
    if items != [] {
      var n := |items| - 1;
      var before := Findings(c, now, produced, items[..n], evs);
      FindingsKeep(c, now, produced, items[..n], evs);
      if items[n].what.Found? && Admitted(c, produced, items[n]) {
        InsertKeeps(c, now, items[n], items[n].what.finding, before);
        CycleTransitive(evs, before, Insert(c, now, items[n], items[n].what.finding, before), now);
      }
    }
  }

  lemma {:induction false} RetractionsKeep(c: Context, now: int, items: seq<Item>, evs: seq<Row>)
    requires WellFormed(evs)
    ensures var evs' := Retractions(c, now, items, evs); WellFormed(evs') && Cycle(evs, evs', now)
  {
    if items != [] {
      var n := |items| - 1;
      var before := Retractions(c, now, items[..n], evs);
      RetractionsKeep(c, now, items[..n], evs);
      if items[n].what.Retract? && c.retracts(items[n].rule) {
        ApplyKeeps(c, now, items[n], before);
        CycleTransitive(evs, before, Apply(c, now, items[n], before), now);
      }
    }
  }

  /** Dedup keys stay unique, so retracted evidence never gets a twin; a retraction is never
      taken back; every retracted row points to a row that exists. */
  lemma CorrelateKeeps(c: Context, now: int, produced: seq<Item>, evs: seq<Row>)
    requires WellFormed(evs)
    ensures WellFormed(Correlate(c, now, produced, evs))
    ensures Cycle(evs, Correlate(c, now, produced, evs), now)
  {
    var mid := Findings(c, now, produced, produced, evs);
    FindingsKeep(c, now, produced, produced, evs);
    RetractionsKeep(c, now, produced, mid);
    CycleTransitive(evs, mid, Correlate(c, now, produced, evs), now);
  }

  // ---------------------------------------------------------------- what a cycle decides

  predicate Declared(c: Context, it: Item) {
    it.what.Retract? && c.retracts(it.rule)
  }

  /** Some declared retraction of ``items`` covers the row. */
  ghost predicate Covered(c: Context, items: seq<Item>, row: Row) {
    exists it :: it in items && Declared(c, it) && Targets(it.what.retraction, row)
  }

  /** The row is the finding of an admitted element of ``items``. */
  ghost predicate BornOf(c: Context, now: int, produced: seq<Item>, items: seq<Item>, row: Row) {
    exists it :: it in items && it.what.Found? && Admitted(c, produced, it)
                 && row == NewRow(c, now, it, it.what.finding)
  }

  /** The row is the proof registered by a declared retraction of ``items``. */
  ghost predicate ProofOf(c: Context, now: int, items: seq<Item>, row: Row) {
    exists it :: it in items && Declared(c, it)
                 && row.(status := Active) == NewRow(c, now, it, it.what.retraction.proof)
  }

  lemma {:induction false} FindingsPrefix(c: Context, now: int, produced: seq<Item>, items: seq<Item>, evs: seq<Row>)
    ensures var mid := Findings(c, now, produced, items, evs); |evs| <= |mid| && mid[..|evs|] == evs
  {
    hide Lookup, NewRow, Admitted;
    if items != [] {
      FindingsPrefix(c, now, produced, items[..|items| - 1], evs);
    }
  }

  /** One more item of pass one: nothing, or a row for a key the table did not hold. */
  lemma OneMoreFinding(c: Context, now: int, produced: seq<Item>, items: seq<Item>, evs: seq<Row>)
    requires items != []
    ensures var n, before := |items| - 1, Findings(c, now, produced, items[..|items| - 1], evs);
            var mid := Findings(c, now, produced, items, evs);
            || mid == before
            || (&& items[n].what.Found? && Admitted(c, produced, items[n])
                && mid == before + [NewRow(c, now, items[n], items[n].what.finding)]
                && Lookup(before, KeyOf(items[n], items[n].what.finding)).None?)
    ensures var n, mid := |items| - 1, Findings(c, now, produced, items, evs);
            items[n].what.Found? && Admitted(c, produced, items[n])
            ==> Lookup(mid, KeyOf(items[n], items[n].what.finding)).Some?
  {
    var n, before := |items| - 1, Findings(c, now, produced, items[..|items| - 1], evs);
    if items[n].what.Found? {
      LookupAfterInsert(c, now, items[n], items[n].what.finding, before);
    }
  }

  lemma {:induction false} FindingsAreBorn(c: Context, now: int, produced: seq<Item>, items: seq<Item>, evs: seq<Row>)
    ensures var mid := Findings(c, now, produced, items, evs);
            forall i :: |evs| <= i < |mid| ==>
                          BornOf(c, now, produced, items, mid[i]) && Lookup(evs, mid[i].key).None?
  {
    hide Lookup, Findings, Admitted;
    var mid := Findings(c, now, produced, items, evs);
    if items == [] {
      NoFindings(c, now, produced, evs);
    } else {
      var n := |items| - 1;
      var before := Findings(c, now, produced, items[..n], evs);
      FindingsAreBorn(c, now, produced, items[..n], evs);
      FindingsPrefix(c, now, produced, items[..n], evs);
      OneMoreFinding(c, now, produced, items, evs);
      assert forall it :: it in items[..n] ==> it in items;
      forall i | |evs| <= i < |mid|
        ensures BornOf(c, now, produced, items, mid[i]) && Lookup(evs, mid[i].key).None?
      {
        if i < |before| {
          assert BornOf(c, now, produced, items[..n], before[i]) && mid[i] == before[i];
        } else {
          assert items[n] in items;
          LookupInPrefix(before, |evs|, mid[i].key);
        }
      }
    }
  }

  lemma NoFindings(c: Context, now: int, produced: seq<Item>, evs: seq<Row>)
    ensures Findings(c, now, produced, [], evs) == evs
  {
  }

  lemma {:induction false} FindingsAllThere(c: Context, now: int, produced: seq<Item>, items: seq<Item>, evs: seq<Row>)
    ensures var mid := Findings(c, now, produced, items, evs);
            forall it :: it in items && it.what.Found? && Admitted(c, produced, it)
                         ==> Lookup(mid, KeyOf(it, it.what.finding)).Some?
  {
    hide Lookup, Findings, Admitted;
    if items != [] {
      var n := |items| - 1;
      var before := Findings(c, now, produced, items[..n], evs);
      var mid := Findings(c, now, produced, items, evs);
      FindingsAllThere(c, now, produced, items[..n], evs);
      OneMoreFinding(c, now, produced, items, evs);
      forall it | it in items && it.what.Found? && Admitted(c, produced, it)
        ensures Lookup(mid, KeyOf(it, it.what.finding)).Some?
      {
        assert it in items[..n] || it == items[n];
        LookupInPrefix(mid, |before|, KeyOf(it, it.what.finding));
        assert mid[..|before|] == before;
      }
    }
  }

  /** Pass one leaves the existing rows alone, adds one row per admitted dedup key the table
      did not hold, and only such rows: nothing unconfirmed, undeclared or under maintenance. */
  lemma FindingsBirths(c: Context, now: int, produced: seq<Item>, items: seq<Item>, evs: seq<Row>)
    ensures var mid := Findings(c, now, produced, items, evs);
            && |evs| <= |mid| && mid[..|evs|] == evs
            && (forall i :: |evs| <= i < |mid| ==> BornOf(c, now, produced, items, mid[i])
                                                   && Lookup(evs, mid[i].key).None?)
            && (forall it :: it in items && it.what.Found? && Admitted(c, produced, it)
                             ==> Lookup(mid, KeyOf(it, it.what.finding)).Some?)
  {
    FindingsPrefix(c, now, produced, items, evs);
    FindingsAreBorn(c, now, produced, items, evs);
    FindingsAllThere(c, now, produced, items, evs);
  }

  lemma LookupInPrefix(evs: seq<Row>, n: nat, k: Key)
    requires n <= |evs|
    ensures Lookup(evs[..n], k).Some? ==> Lookup(evs, k).Some?
  {
    if Lookup(evs[..n], k).Some? {
      assert evs[Lookup(evs[..n], k).value].key == k;
    }
  }

  /** Pass two, row by row: a row already there ends retracted exactly when it was, or when a
      declared retraction covers it; the rows added are proofs of declared retractions. */
  lemma {:induction false} RetractionsFate(c: Context, now: int, items: seq<Item>, mid: seq<Row>)
    requires WellFormed(mid)
    ensures var evs' := Retractions(c, now, items, mid);
            && |mid| <= |evs'|
            && (forall i :: 0 <= i < |mid| ==> (evs'[i].status.Retracted? <==>
                              mid[i].status.Retracted? || Covered(c, items, mid[i])))
            && (forall i :: |mid| <= i < |evs'| ==> ProofOf(c, now, items, evs'[i]))
  {
    hide Apply, Targets;
    RetractionsKeep(c, now, items, mid);
    if items != [] {
      var n := |items| - 1;
      RetractionsFate(c, now, items[..n], mid);
      RetractionsKeep(c, now, items[..n], mid);
      var before := Retractions(c, now, items[..n], mid);
      var evs' := Retractions(c, now, items, mid);
      assert items == items[..n] + [items[n]];
      if Declared(c, items[n]) {
        ApplyFate(c, now, items[n], before);
      }
      forall i | 0 <= i < |mid|
        ensures evs'[i].status.Retracted? <==> mid[i].status.Retracted? || Covered(c, items, mid[i])
      {
        assert Continues(mid[i], before[i]);
        CoveredSplit(c, items[..n], items[n], mid[i]);
      }
      forall i | |mid| <= i < |evs'| ensures ProofOf(c, now, items, evs'[i]) {
        if i < |before| {
          assert ProofOf(c, now, items[..n], before[i]);
        }
      }
    }
  }

  lemma CoveredSplit(c: Context, items: seq<Item>, it: Item, row: Row)
    ensures Covered(c, items + [it], row) <==>
            Covered(c, items, row) || (Declared(c, it) && Targets(it.what.retraction, row))
  {
    if Covered(c, items, row) {
      var w :| w in items && Declared(c, w) && Targets(w.what.retraction, row);
      assert w in items + [it];
    }
    if Declared(c, it) && Targets(it.what.retraction, row) {
      assert it in items + [it];
    }
  }

  lemma ApplyFate(c: Context, now: int, it: Item, evs: seq<Row>)
    requires it.what.Retract? && WellFormed(evs)
    ensures var evs' := Apply(c, now, it, evs);
            && |evs| <= |evs'| <= |evs| + 1
            && (forall i :: 0 <= i < |evs| ==> evs'[i].(status := evs[i].status) == evs[i])
            && (forall i :: 0 <= i < |evs| ==> (evs'[i].status.Retracted? <==>
                              evs[i].status.Retracted? || Targets(it.what.retraction, evs[i])))
            && (|evs'| > |evs| ==> evs'[|evs|] == NewRow(c, now, it, it.what.retraction.proof))
  {
    hide Lookup, Targets;
    var r := it.what.retraction;
    if !HasTargets(r, evs) {
      forall i | 0 <= i < |evs|
        ensures evs[i].status.Active? ==> !Targets(r, evs[i])
      {
        assert evs[i] in evs;
      }
    } else {
      var evs1 := Insert(c, now, it, r.proof, evs);
      LookupAfterInsert(c, now, it, r.proof, evs);
      forall i | 0 <= i < |evs|
        ensures evs1[i] == evs[i] && (i in TargetIds(r, evs) <==> Hit(r, evs[i]))
      {
      }
    }
  }

  // ---------------------------------------------------------------- main results

  /** The rows pass one adds to the table are confirmed: however often an event is repeated in
      ``produced``, the group of the row was seen on as many distinct events as the rule wants. */
  lemma BirthsAreConfirmed(c: Context, now: int, produced: seq<Item>, evs: seq<Row>, i: nat)
    requires |evs| <= i < |Findings(c, now, produced, produced, evs)|
    ensures var row := Findings(c, now, produced, produced, evs)[i];
            exists it :: it in produced && it.what.Found? && KeyOf(it, it.what.finding) == row.key
                         && row.tenant == it.what.finding.tenant
                         && |Observed(produced, GroupOf(it))| >= Needed(it.params)
                         && c.declares(row.key.rule, row.key.role)
  {
    FindingsBirths(c, now, produced, produced, evs);
    assert BornOf(c, now, produced, produced, Findings(c, now, produced, produced, evs)[i]);
  }

  // ---------------------------------------------------------------- the table in terms of the input

  /** The retraction selects the row: same tenant, same entity, the rule it takes back, and a fact
      within its window. */
  ghost predicate Selects(r: Retraction, row: Row) {
    && row.tenant == r.tenant && row.key.entity == r.entity && row.key.rule == r.target
    && r.proof.ts - row.ts <= r.window
  }

  /** The row carries the retraction of ``it``, and names the row that holds its proof. */
  ghost predicate RetractedBy(now: int, it: Item, evs: seq<Row>, row: Row)
    requires it.what.Retract?
  {
    var f := it.what.retraction.proof;
    && row.status.Retracted? && row.status.proof < |evs|
    && evs[row.status.proof].key == Key(it.rule, it.version, f.eventId, f.role, f.entity, f.discriminant)
    && row.status.byRule == it.rule && row.status.reason == it.what.retraction.reason && row.status.at == now
  }

  /** A declared retraction of ``items`` selects the row and has retracted it. */
  ghost predicate Explained(c: Context, now: int, items: seq<Item>, j: int, evs: seq<Row>, row: Row) {
    && 0 <= j < |items| && items[j].what.Retract? && c.retracts(items[j].rule)
    && Selects(items[j].what.retraction, row) && RetractedBy(now, items[j], evs, row)
  }

  /** No item before ``j`` is a declared retraction that selects the row. */
  ghost predicate FirstToSelect(c: Context, items: seq<Item>, j: int, row: Row) {
    forall k :: 0 <= k < j <= |items| && items[k].what.Retract? && c.retracts(items[k].rule)
                ==> !Selects(items[k].what.retraction, row)
  }

  lemma ApplyExplains(c: Context, now: int, it: Item, evs: seq<Row>, i: nat)
    requires Declared(c, it) && WellFormed(evs) && i < |evs| && evs[i].status.Active?
    requires Apply(c, now, it, evs)[i].status.Retracted?
    ensures var evs' := Apply(c, now, it, evs);
            Selects(it.what.retraction, evs'[i]) && RetractedBy(now, it, evs', evs'[i])
  {
    hide Lookup;
    LookupAfterInsert(c, now, it, it.what.retraction.proof, evs);
  }

  /** What explains a row goes on explaining it as the table grows. */
  lemma StaysExplained(c: Context, now: int, items: seq<Item>, it: Item, j: int, evs: seq<Row>, evs': seq<Row>, i: nat)
    requires Extends(evs, evs') && i < |evs| && Explained(c, now, items, j, evs, evs[i])
    ensures Explained(c, now, items + [it], j, evs', evs'[i])
  {
    assert Continues(evs[i], evs'[i]);
    assert Continues(evs[evs[i].status.proof], evs'[evs[i].status.proof]);
  }

  lemma {:induction false} RetractionsExplain(c: Context, now: int, items: seq<Item>, mid: seq<Row>, i: nat)
    returns (j: nat)
    requires WellFormed(mid) && i < |Retractions(c, now, items, mid)|
    requires Retractions(c, now, items, mid)[i].status.Retracted? && (i < |mid| ==> mid[i].status.Active?)
    ensures Explained(c, now, items, j, Retractions(c, now, items, mid), Retractions(c, now, items, mid)[i])
    ensures i < |mid| ==> FirstToSelect(c, items, j, mid[i])
  {
    hide Apply, Targets, Selects, WellFormed, RetractedBy;
    var n := |items| - 1;
    var before, evs' := Retractions(c, now, items[..n], mid), Retractions(c, now, items, mid);
    RetractionsKeep(c, now, items[..n], mid);
    RetractionsKeep(c, now, items, mid);
    assert items == items[..n] + [items[n]];
    if i < |before| && before[i].status.Retracted? {
      j := RetractionsExplain(c, now, items[..n], mid, i);
      LastRetraction(c, now, items, mid);
      assert forall k :: 0 <= k < n ==> items[..n][k] == items[k];
      StaysExplained(c, now, items[..n], items[n], j, before, evs', i);
    } else {
      j := n;
      LastRetraction(c, now, items, mid);
      assert Declared(c, items[n]);
      ApplyFate(c, now, items[n], before);
      assert i < |before|;
      ApplyExplains(c, now, items[n], before, i);
      if i < |mid| {
        StillUnselected(c, now, items[..n], mid, i);
      }
    }
  }

  /** One more item of pass two, on its own. */
  lemma LastRetraction(c: Context, now: int, items: seq<Item>, mid: seq<Row>)
    requires items != [] && WellFormed(mid)
    ensures var before := Retractions(c, now, items[..|items| - 1], mid);
            var it := items[|items| - 1];
            && Retractions(c, now, items, mid) == (if Declared(c, it) then Apply(c, now, it, before) else before)
            && WellFormed(before) && Extends(before, Retractions(c, now, items, mid))
  {
    hide Apply;
    var n := |items| - 1;
    RetractionsKeep(c, now, items[..n], mid);
    if Declared(c, items[n]) {
      ApplyKeeps(c, now, items[n], Retractions(c, now, items[..n], mid));
    } else {
      ExtendsItself(Retractions(c, now, items[..n], mid));
    }
  }

  lemma ExtendsItself(evs: seq<Row>)
    ensures Extends(evs, evs)
  {
  }

  /** A row still active after some retractions is selected by none of them. */
  lemma StillUnselected(c: Context, now: int, items: seq<Item>, mid: seq<Row>, i: nat)
    requires WellFormed(mid) && i < |mid| && mid[i].status.Active?
    requires i < |Retractions(c, now, items, mid)| && Retractions(c, now, items, mid)[i].status.Active?
    ensures FirstToSelect(c, items, |items|, mid[i])
  {
    hide Retractions;
    RetractionsFate(c, now, items, mid);
    forall k | 0 <= k < |items| && items[k].what.Retract? && c.retracts(items[k].rule)
      ensures !Selects(items[k].what.retraction, mid[i])
    {
      assert items[k] in items && Declared(c, items[k]);
    }
  }

  /** Whatever a cycle retracts, one born in the same cycle included, is retracted by a declared item of
      the input that selects it, carries that item's rule, reason and time, and names as its proof the
      row with the dedup key of that item's proof. Unless the row is itself the proof of a retraction,
      the item is the first that selects it. */
  lemma RetractionsAreExplained(c: Context, now: int, produced: seq<Item>, evs: seq<Row>, i: nat)
    requires WellFormed(evs) && i < |Correlate(c, now, produced, evs)|
    requires Correlate(c, now, produced, evs)[i].status.Retracted? && (i < |evs| ==> evs[i].status.Active?)
    ensures var evs' := Correlate(c, now, produced, evs);
            exists j :: Explained(c, now, produced, j, evs', evs'[i])
                        && (ProofKey(c, produced, evs'[i].key) || FirstToSelect(c, produced, j, evs'[i]))
  {
    hide Findings, Retractions, RetractedBy;
    var mid, evs' := Findings(c, now, produced, produced, evs), Correlate(c, now, produced, evs);
    FindingsKeep(c, now, produced, produced, evs);
    RetractionsKeep(c, now, produced, mid);
    FindingsBirths(c, now, produced, produced, evs);
    RetractionsFate(c, now, produced, mid);
    if i < |mid| {
      assert i < |evs| ==> mid[i] == mid[..|evs|][i] == evs[i];
      assert i >= |evs| ==> BornOf(c, now, produced, produced, mid[i]);
      assert Continues(mid[i], evs'[i]);
    } else {
      assert ProofOf(c, now, produced, evs'[i]);
    }
    var j := RetractionsExplain(c, now, produced, mid, i);
  }

  /** The row states the finding: its own time, tenant, addresses, severity and summary, under the key of
      the rule, and the switch port of the finding or, for a trigger without one, of its source. */
  ghost predicate States(c: Context, now: int, it: Item, f: Finding, row: Row) {
    && row.created == now && row.ts == f.ts && row.tenant == f.tenant && row.params == it.params
    && row.key == Key(it.rule, it.version, f.eventId, f.role, f.entity, f.discriminant)
    && row.severity == f.severity && row.summary == f.summary && row.src == f.src && row.dst == f.dst
    && (f.port.Some? ==> row.port == f.port.value)
    && (f.port.None? && f.role == Trigger && f.src != "" && c.portOf(f.src, f.tenant).Some? ==>
          row.port == c.portOf(f.src, f.tenant).value)
    && (f.port.None? && (f.role != Trigger || f.src == "" || c.portOf(f.src, f.tenant).None?) ==> row.port == "")
    && row.incident.None?
  }

  /** ``n`` different events back the conclusion of ``it``: each one produced a finding of the same rule,
      tenant, entity and discriminant. */
  ghost predicate BackedBy(produced: seq<Item>, it: Item, events: set<int>)
    requires it.what.Found?
  {
    var f := it.what.finding;
    forall e :: e in events ==>
      exists w :: w in produced && w.what.Found? && w.rule == it.rule && w.what.finding.eventId == e
                  && w.what.finding.tenant == f.tenant && w.what.finding.entity == f.entity
                  && w.what.finding.discriminant == f.discriminant
  }

  /** The finding deserves a row: confirmed by enough different events, one being enough when the rule
      says nothing or zero; of a role the rule declares; not under maintenance. */
  ghost predicate Deserves(c: Context, produced: seq<Item>, it: Item)
    requires it.what.Found?
  {
    var f, min := it.what.finding, it.params.minObservations;
    && (exists events :: BackedBy(produced, it, events)
          && |events| >= if min.Some? && min.value != 0 then min.value else 1)
    && c.declares(it.rule, f.role)
    && !(f.entity != "" && c.suppressed(f.tenant, f.entity, f.interface, f.ts))
  }

  /** The row states a finding that deserves it, or the proof of a declared retraction. */
  ghost predicate Warrants(c: Context, now: int, produced: seq<Item>, it: Item, row: Row) {
    if it.what.Found? then Deserves(c, produced, it) && States(c, now, it, it.what.finding, row)
    else c.retracts(it.rule) && States(c, now, it, it.what.retraction.proof, row)
  }

  ghost predicate Warranted(c: Context, now: int, produced: seq<Item>, row: Row) {
    exists it :: it in produced && Warrants(c, now, produced, it, row)
  }

  lemma AdmittedDeserves(c: Context, produced: seq<Item>, it: Item)
    requires it.what.Found?
    ensures Admitted(c, produced, it) <==> Deserves(c, produced, it)
  {
    var seen := Observed(produced, GroupOf(it));
    assert BackedBy(produced, it, seen);
    forall events | BackedBy(produced, it, events) ensures |events| <= |seen| {
      forall e | e in events ensures e in seen {
        var w :| w in produced && w.what.Found? && w.rule == it.rule && w.what.finding.eventId == e
                 && w.what.finding.tenant == it.what.finding.tenant && w.what.finding.entity == it.what.finding.entity
                 && w.what.finding.discriminant == it.what.finding.discriminant;
        assert GroupOf(w) == GroupOf(it);
      }
      SubsetIsSmaller(events, seen);
    }
  }

  lemma {:induction false} SubsetIsSmaller<T>(a: set<T>, b: set<T>)
    requires a <= b
    ensures |a| <= |b|
  {
    if a != {} {
      var x :| x in a;
      SubsetIsSmaller(a - {x}, b - {x});
    }
  }

  /** The rows a cycle adds, in terms of the input: each states a finding that deserves it or the proof of
      a declared retraction; and every finding that deserves a row has one with its key. */
  lemma AddedRowsStateTheInput(c: Context, now: int, produced: seq<Item>, evs: seq<Row>)
    requires WellFormed(evs)
    ensures var evs' := Correlate(c, now, produced, evs);
            && |evs| <= |evs'|
            && (forall i :: |evs| <= i < |evs'| ==> Warranted(c, now, produced, evs'[i]))
            && (forall it :: it in produced && it.what.Found? && Deserves(c, produced, it) ==>
                  exists i :: 0 <= i < |evs'| && evs'[i].key == KeyOf(it, it.what.finding))
  {
    hide Findings, Retractions, Deserves, Admitted, Lookup;
    var mid, evs' := Findings(c, now, produced, produced, evs), Correlate(c, now, produced, evs);
    FindingsKeep(c, now, produced, produced, evs);
    RetractionsKeep(c, now, produced, mid);
    FindingsBirths(c, now, produced, produced, evs);
    RetractionsFate(c, now, produced, mid);
    forall i | |evs| <= i < |evs'|
      ensures Warranted(c, now, produced, evs'[i])
    {
      if i < |mid| {
        assert BornOf(c, now, produced, produced, mid[i]) && Continues(mid[i], evs'[i]);
        var it :| it in produced && it.what.Found? && Admitted(c, produced, it)
                  && mid[i] == NewRow(c, now, it, it.what.finding);
        AdmittedDeserves(c, produced, it);
        assert Warrants(c, now, produced, it, evs'[i]);
      } else {
        assert ProofOf(c, now, produced, evs'[i]);
        var it :| it in produced && Declared(c, it)
                  && evs'[i].(status := Active) == NewRow(c, now, it, it.what.retraction.proof);
        assert Warrants(c, now, produced, it, evs'[i]);
      }
    }
    forall it | it in produced && it.what.Found? && Deserves(c, produced, it)
      ensures exists i :: 0 <= i < |evs'| && evs'[i].key == KeyOf(it, it.what.finding)
    {
      AdmittedDeserves(c, produced, it);
      var i := Lookup(mid, KeyOf(it, it.what.finding)).value;
      assert Continues(mid[i], evs'[i]);
    }
  }

  /** How a cycle leaves the evidence of one dedup key. */
  datatype Fate = Absent | Standing | Withdrawn

  function FateOf(evs: seq<Row>, k: Key): Fate {
    match Lookup(evs, k)
    case None => Absent
    case Some(i) => if evs[i].status.Active? then Standing else Withdrawn
  }

  ghost predicate ProofKey(c: Context, produced: seq<Item>, k: Key) {
    exists it :: it in produced && Declared(c, it) && KeyOf(it, it.what.retraction.proof) == k
  }

  ghost predicate Finder(c: Context, produced: seq<Item>, k: Key, it: Item) {
    it in produced && it.what.Found? && Admitted(c, produced, it) && KeyOf(it, it.what.finding) == k
  }

  ghost predicate CoversFinding(c: Context, produced: seq<Item>, it: Item)
    requires it.what.Found?
  {
    Covered(c, produced, NewRow(c, 0, it, it.what.finding))
  }

  lemma LookupUnique(evs: seq<Row>, i: nat)
    requires WellFormed(evs) && i < |evs|
    ensures Lookup(evs, evs[i].key) == Some(i)
  {
    var j := Lookup(evs, evs[i].key).value;
    assert evs[j].key == evs[i].key;
  }

  /** What a cycle makes of a dedup key that no retraction registers as its proof. An existing row
      ends withdrawn when it was, or when covered; a new one when the finding it was made from is
      covered, so retractions reach findings born in the same cycle; nothing else appears. */
  lemma FateDecided(c: Context, now: int, produced: seq<Item>, evs: seq<Row>, k: Key)
    requires WellFormed(evs) && !ProofKey(c, produced, k)
    ensures var fate := FateOf(Correlate(c, now, produced, evs), k);
            match Lookup(evs, k)
            case Some(i) =>
              fate == if evs[i].status.Active? && !Covered(c, produced, evs[i]) then Standing else Withdrawn
            case None =>
              && (fate == Absent <==> forall it :: !Finder(c, produced, k, it))
              && (fate != Absent ==> exists it :: Finder(c, produced, k, it)
                                       && fate == if CoversFinding(c, produced, it) then Withdrawn else Standing)
  {
    var mid := Findings(c, now, produced, produced, evs);
    var evs' := Correlate(c, now, produced, evs);
    FindingsKeep(c, now, produced, produced, evs);
    FindingsBirths(c, now, produced, produced, evs);
    RetractionsFate(c, now, produced, mid);
    CorrelateKeeps(c, now, produced, evs);
    RetractionsKeep(c, now, produced, mid);
    forall i | |mid| <= i < |evs'| ensures ProofKey(c, produced, evs'[i].key) {
      assert ProofOf(c, now, produced, evs'[i]);
    }
    match Lookup(evs', k) {
      case None =>
        LookupStays(mid, evs', k);
        LookupStays(evs, mid, k);
      case Some(i) =>
        assert Continues(mid[i], evs'[i]);
        LookupUnique(mid, i);
        if i < |evs| {
          assert mid[i] == mid[..|evs|][i] == evs[i];
          LookupUnique(evs, i);
        } else {
          assert BornOf(c, now, produced, produced, mid[i]);
          var it :| it in produced && it.what.Found? && Admitted(c, produced, it)
                    && mid[i] == NewRow(c, now, it, it.what.finding);
          assert Finder(c, produced, k, it);
          CoverageIgnoresClock(c, now, produced, it);
        }
    }
  }

  lemma LookupStays(evs: seq<Row>, evs': seq<Row>, k: Key)
    requires Extends(evs, evs')
    ensures Lookup(evs, k).Some? ==> Lookup(evs', k).Some?
  {
    if Lookup(evs, k).Some? {
      var i := Lookup(evs, k).value;
      assert Continues(evs[i], evs'[i]);
    }
  }

  lemma CoverageIgnoresClock(c: Context, now: int, produced: seq<Item>, it: Item)
    requires it.what.Found?
    ensures Covered(c, produced, NewRow(c, now, it, it.what.finding)) <==> CoversFinding(c, produced, it)
  {
    var a, b := NewRow(c, now, it, it.what.finding), NewRow(c, 0, it, it.what.finding);
    assert forall r :: Targets(r, a) <==> Targets(r, b);
  }

  /** Two admitted findings of one new dedup key are either both covered by a retraction or
      neither. Fails only when they disagree on the tenant or on the time of the fact. */
  ghost predicate Coherent(c: Context, produced: seq<Item>, evs: seq<Row>) {
    forall k, a, b :: Lookup(evs, k).None? && !ProofKey(c, produced, k)
                      && Finder(c, produced, k, a) && Finder(c, produced, k, b)
                      ==> (CoversFinding(c, produced, a) <==> CoversFinding(c, produced, b))
  }

  /** The order in which the rules produced their items does not matter. */
  ghost predicate OrderFree(c: Context, now: int, produced: seq<Item>, evs: seq<Row>) {
    forall other, k :: multiset(other) == multiset(produced) && !ProofKey(c, produced, k)
                       ==> FateOf(Correlate(c, now, other, evs), k) == FateOf(Correlate(c, now, produced, evs), k)
  }

  lemma SameMembers(c: Context, produced: seq<Item>, other: seq<Item>)
    requires multiset(other) == multiset(produced)
    ensures forall it :: it in other <==> it in produced
    ensures forall g :: Observed(other, g) == Observed(produced, g)
  {
    assert forall it :: it in other <==> it in multiset(other);
    assert forall it :: it in produced <==> it in multiset(produced);
    forall g ensures Observed(other, g) == Observed(produced, g) {
    }
  }

  lemma SameDecisions(c: Context, produced: seq<Item>, other: seq<Item>, k: Key)
    requires multiset(other) == multiset(produced)
    ensures ProofKey(c, other, k) <==> ProofKey(c, produced, k)
    ensures forall row :: Covered(c, other, row) <==> Covered(c, produced, row)
    ensures forall it :: Finder(c, other, k, it) <==> Finder(c, produced, k, it)
    ensures forall it: Item :: it.what.Found? ==> (CoversFinding(c, other, it) <==> CoversFinding(c, produced, it))
  {
    SameMembers(c, produced, other);
  }

  /** The outcome of the two passes is free of the production order if, and only if, findings of
      one dedup key are coherent. */
  lemma TwoPassOrderFree(c: Context, now: int, produced: seq<Item>, evs: seq<Row>)
    requires WellFormed(evs)
    ensures OrderFree(c, now, produced, evs) <==> Coherent(c, produced, evs)
  {
    if Coherent(c, produced, evs) {
      forall other, k | multiset(other) == multiset(produced) && !ProofKey(c, produced, k)
        ensures FateOf(Correlate(c, now, other, evs), k) == FateOf(Correlate(c, now, produced, evs), k)
      {
        SameDecisions(c, produced, other, k);
        FateDecided(c, now, produced, evs, k);
        FateDecided(c, now, other, evs, k);
      }
    }
    if OrderFree(c, now, produced, evs) {
      forall k, a, b | Lookup(evs, k).None? && !ProofKey(c, produced, k)
                       && Finder(c, produced, k, a) && Finder(c, produced, k, b)
        ensures CoversFinding(c, produced, a) <==> CoversFinding(c, produced, b)
      {
        FirstFinderDecides(c, now, produced, evs, k, a);
        FirstFinderDecides(c, now, produced, evs, k, b);
      }
    }
  }

  /** The items with ``it`` moved to the front. */
  ghost function Promote(items: seq<Item>, it: Item): seq<Item>
    requires it in items
  {
    var i :| 0 <= i < |items| && items[i] == it;
    [it] + items[..i] + items[i + 1..]
  }

  lemma PromoteIsPermutation(items: seq<Item>, it: Item)
    requires it in items
    ensures multiset(Promote(items, it)) == multiset(items) && Promote(items, it)[0] == it
  {
    var i :| 0 <= i < |items| && items[i] == it && Promote(items, it) == [it] + items[..i] + items[i + 1..];
    assert items == items[..i] + [it] + items[i + 1..];
  }

  lemma FirstFinderDecides(c: Context, now: int, produced: seq<Item>, evs: seq<Row>, k: Key, it: Item)
    requires WellFormed(evs) && Lookup(evs, k).None? && !ProofKey(c, produced, k)
    requires Finder(c, produced, k, it) && OrderFree(c, now, produced, evs)
    ensures FateOf(Correlate(c, now, produced, evs), k)
            == if CoversFinding(c, produced, it) then Withdrawn else Standing
  {
    var other := Promote(produced, it);
    PromoteIsPermutation(produced, it);
    SameDecisions(c, produced, other, k);
    FindingsStartWith(c, now, other, other, evs);
    var mid := Findings(c, now, other, other, evs);
    var i := |evs|;
    FindingsKeep(c, now, other, other, evs);
    RetractionsFate(c, now, other, mid);
    RetractionsKeep(c, now, other, mid);
    var evs' := Correlate(c, now, other, evs);
    assert Continues(mid[i], evs'[i]);
    LookupUnique(evs', i);
    CoverageIgnoresClock(c, now, other, it);
  }

  /** If the first item is an admitted finding of a new key, it makes the first new row. */
  lemma {:induction false} FindingsStartWith(c: Context, now: int, produced: seq<Item>, items: seq<Item>, evs: seq<Row>)
    requires items != [] && items[0].what.Found? && Admitted(c, produced, items[0])
    requires Lookup(evs, KeyOf(items[0], items[0].what.finding)).None?
    ensures var mid := Findings(c, now, produced, items, evs);
            |mid| > |evs| && mid[|evs|] == NewRow(c, now, items[0], items[0].what.finding)
  {
    hide Lookup, Admitted;
    var n := |items| - 1;
    if n == 0 {
      assert items[..0] == [];
    } else {
      FindingsStartWith(c, now, produced, items[..n], evs);
      OneMoreFinding(c, now, produced, items, evs);
    }
  }

  /** Findings made from one event carry its time and its tenant. */
  predicate OneEventOneFact(produced: seq<Item>) {
    forall a, b | a in produced && b in produced :: a.what.Found? && b.what.Found?
      && a.what.finding.eventId == b.what.finding.eventId
      ==> a.what.finding.ts == b.what.finding.ts && a.what.finding.tenant == b.what.finding.tenant
  }

  /** Rules that take the time and the tenant of a finding from its event may produce their items
      in any order. */
  lemma RulesOnEventsAreOrderFree(c: Context, now: int, produced: seq<Item>, evs: seq<Row>)
    requires WellFormed(evs) && OneEventOneFact(produced)
    ensures OrderFree(c, now, produced, evs)
  {
    forall k, a, b | Finder(c, produced, k, a) && Finder(c, produced, k, b)
      ensures CoversFinding(c, produced, a) <==> CoversFinding(c, produced, b)
    {
      var x, y := NewRow(c, 0, a, a.what.finding), NewRow(c, 0, b, b.what.finding);
      assert forall r :: Targets(r, x) <==> Targets(r, y);
    }
    TwoPassOrderFree(c, now, produced, evs);
  }

  // ---------------------------------------------------------------- repeating a cycle

  /** The ``j``-th item is a retraction that finds something to retract, at its turn of pass two,
      and whose proof the table does not hold yet. */
  predicate Registers(c: Context, now: int, items: seq<Item>, mid: seq<Row>, j: nat)
    requires j < |items|
  {
    var before := Retractions(c, now, items[..j], mid);
    && Declared(c, items[j]) && HasTargets(items[j].what.retraction, before)
    && Lookup(before, KeyOf(items[j], items[j].what.retraction.proof)).None?
  }

  function ProofRow(c: Context, now: int, it: Item): Row
    requires it.what.Retract?
  {
    NewRow(c, now, it, it.what.retraction.proof)
  }

  ghost predicate CoveredAfter(c: Context, items: seq<Item>, row: Row, j: nat) {
    exists k :: j < k < |items| && Declared(c, items[k]) && Targets(items[k].what.retraction, row)
  }

  lemma CoveredAfterSnoc(c: Context, items: seq<Item>, row: Row, j: nat)
    requires j < |items| - 1
    ensures var n := |items| - 1;
            CoveredAfter(c, items, row, j) <==>
            CoveredAfter(c, items[..n], row, j) || (Declared(c, items[n]) && Targets(items[n].what.retraction, row))
  {
    var n := |items| - 1;
    forall k | 0 <= k < n
      ensures items[..n][k] == items[k]
    {
    }
  }

  lemma NothingAfterTheLast(c: Context, items: seq<Item>, row: Row)
    requires items != []
    ensures !CoveredAfter(c, items, row, |items| - 1)
  {
  }

  /** The proof a retraction registers becomes the next row of the table, and it is active in the
      end exactly when no retraction produced later targets it. */
  lemma {:induction false} ProofRowFate(c: Context, now: int, items: seq<Item>, mid: seq<Row>, j: nat)
    requires WellFormed(mid) && j < |items| && Registers(c, now, items, mid, j)
    ensures var evs', i := Retractions(c, now, items, mid), |Retractions(c, now, items[..j], mid)|;
            && |mid| <= i < |evs'| && evs'[i].(status := Active) == ProofRow(c, now, items[j])
            && (evs'[i].status.Active? <==> !CoveredAfter(c, items, ProofRow(c, now, items[j]), j))
  {
    hide Retire, HasTargets, Lookup, Apply, Targets, CoveredAfter;
    var n := |items| - 1;
    var before := Retractions(c, now, items[..n], mid);
    RetractionsKeep(c, now, items[..n], mid);
    if j == n {
      RegisteredRow(c, now, items[n], before);
      NothingAfterTheLast(c, items, ProofRow(c, now, items[j]));
    } else {
      assert items[..n][..j] == items[..j];
      ProofRowFate(c, now, items[..n], mid, j);
      CoveredAfterSnoc(c, items, ProofRow(c, now, items[j]), j);
      if Declared(c, items[n]) {
        ApplyFate(c, now, items[n], before);
      }
    }
  }

  lemma RegisteredRow(c: Context, now: int, it: Item, evs: seq<Row>)
    requires it.what.Retract? && WellFormed(evs) && HasTargets(it.what.retraction, evs)
    requires Lookup(evs, KeyOf(it, it.what.retraction.proof)).None?
    ensures var evs' := Apply(c, now, it, evs); |evs'| == |evs| + 1 && evs'[|evs|] == ProofRow(c, now, it)
  {
    ApplyFate(c, now, it, evs);
  }

  /** Every row pass two adds is the proof of a retraction that registers it. */
  lemma {:induction false} AddedRowsAreRegistered(c: Context, now: int, items: seq<Item>, mid: seq<Row>, i: nat)
    returns (j: nat)
    requires WellFormed(mid) && |mid| <= i < |Retractions(c, now, items, mid)|
    ensures j < |items| && Registers(c, now, items, mid, j) && i == |Retractions(c, now, items[..j], mid)|
  {
    var n := |items| - 1;
    var before := Retractions(c, now, items[..n], mid);
    RetractionsKeep(c, now, items[..n], mid);
    hide Registers, WellFormed, Apply;
    if i < |before| {
      j := AddedRowsAreRegistered(c, now, items[..n], mid, i);
      RegistersPrefix(c, now, items, mid, j);
    } else {
      j := n;
      AddsWhenRegistering(c, now, items, mid);
    }
  }

  lemma RegistersPrefix(c: Context, now: int, items: seq<Item>, mid: seq<Row>, j: nat)
    requires j < |items| - 1
    ensures Registers(c, now, items[..|items| - 1], mid, j) <==> Registers(c, now, items, mid, j)
    ensures items[..|items| - 1][..j] == items[..j]
  {
    hide Retractions, HasTargets, Lookup;
    assert items[..|items| - 1][..j] == items[..j];
  }

  /** The last item adds a row, and only one, exactly when it registers its proof. */
  lemma AddsWhenRegistering(c: Context, now: int, items: seq<Item>, mid: seq<Row>)
    requires items != [] && WellFormed(Retractions(c, now, items[..|items| - 1], mid))
    ensures var n := |items| - 1;
            |Retractions(c, now, items, mid)|
            == |Retractions(c, now, items[..n], mid)| + if Registers(c, now, items, mid, n) then 1 else 0
  {
    hide HasTargets, Lookup, Targets, Hit, WellFormed;
    var n := |items| - 1;
    if Declared(c, items[n]) {
      ApplyFate(c, now, items[n], Retractions(c, now, items[..n], mid));
    }
  }

  /** A second reading of the same window is idle exactly when the first leaves no active row that
      a declared retraction covers. */
  lemma RepeatIsIdleOnTheTable(c: Context, now: int, later: int, produced: seq<Item>, evs: seq<Row>)
    requires WellFormed(evs)
    ensures var evs' := Correlate(c, now, produced, evs);
            Correlate(c, later, produced, evs') == evs' <==>
            forall i :: 0 <= i < |evs'| && evs'[i].status.Active? ==> !Covered(c, produced, evs'[i])
  {
    var mid := Findings(c, now, produced, produced, evs);
    var evs' := Correlate(c, now, produced, evs);
    FindingsKeep(c, now, produced, produced, evs);
    FindingsBirths(c, now, produced, produced, evs);
    CorrelateKeeps(c, now, produced, evs);
    RetractionsKeep(c, now, produced, mid);
    forall it | it in produced && it.what.Found? && Admitted(c, produced, it)
      ensures Lookup(evs', KeyOf(it, it.what.finding)).Some?
    {
      LookupStays(mid, evs', KeyOf(it, it.what.finding));
    }
    FindingsAlreadyThere(c, later, produced, produced, evs');
    RetractionsFate(c, later, produced, evs');
    if forall i :: 0 <= i < |evs'| && evs'[i].status.Active? ==> !Covered(c, produced, evs'[i]) {
      RetractionsWithoutTargets(c, later, produced, evs');
    }
  }

  /** Every proof the cycle registers is out of reach of all declared retractions, or in reach of
      one produced later than the one that registers it. */
  ghost predicate ProofsSettle(c: Context, now: int, produced: seq<Item>, evs: seq<Row>) {
    var mid := Findings(c, now, produced, produced, evs);
    forall j: nat :: j < |produced| && Registers(c, now, produced, mid, j)
      && Covered(c, produced, ProofRow(c, now, produced[j]))
      ==> CoveredAfter(c, produced, ProofRow(c, now, produced[j]), j)
  }

  /** Re-reading the same window concludes nothing new, no row appearing and none changing, if and
      only if no retraction registers a proof that some declared retraction targets but none
      produced later does. */
  lemma RepeatIsIdle(c: Context, now: int, later: int, produced: seq<Item>, evs: seq<Row>)
    requires WellFormed(evs)
    ensures Correlate(c, later, produced, Correlate(c, now, produced, evs)) == Correlate(c, now, produced, evs)
            <==> ProofsSettle(c, now, produced, evs)
  {
    hide Findings, Retractions, Retire, Lookup, HasTargets, Registers;
    var mid := Findings(c, now, produced, produced, evs);
    var evs' := Correlate(c, now, produced, evs);
    RepeatIsIdleOnTheTable(c, now, later, produced, evs);
    FindingsKeep(c, now, produced, produced, evs);
    RetractionsFate(c, now, produced, mid);
    RetractionsKeep(c, now, produced, mid);
    if ProofsSettle(c, now, produced, evs) {
      forall i | 0 <= i < |evs'| && evs'[i].status.Active?
        ensures !Covered(c, produced, evs'[i])
      {
        ActiveRowIsUncovered(c, now, produced, evs, i);
      }
    }
    OnlyDeclaredRegister(c, now, produced, mid);
    if forall i :: 0 <= i < |evs'| && evs'[i].status.Active? ==> !Covered(c, produced, evs'[i]) {
      forall j: nat | j < |produced| && Registers(c, now, produced, mid, j)
                      && Covered(c, produced, ProofRow(c, now, produced[j]))
        ensures CoveredAfter(c, produced, ProofRow(c, now, produced[j]), j)
      {
        ProofRowFate(c, now, produced, mid, j);
        CoverageIgnoresStatus(c, produced, evs'[|Retractions(c, now, produced[..j], mid)|]);
      }
    }
  }

  lemma CoverageIgnoresStatus(c: Context, items: seq<Item>, row: Row)
    ensures Covered(c, items, row) <==> Covered(c, items, row.(status := Active))
  {
    assert forall r :: Targets(r, row) <==> Targets(r, row.(status := Active));
  }

  lemma ActiveRowIsUncovered(c: Context, now: int, produced: seq<Item>, evs: seq<Row>, i: nat)
    requires WellFormed(evs) && ProofsSettle(c, now, produced, evs)
    requires i < |Correlate(c, now, produced, evs)| && Correlate(c, now, produced, evs)[i].status.Active?
    ensures !Covered(c, produced, Correlate(c, now, produced, evs)[i])
  {
    hide Findings, Retractions, Retire, Lookup, HasTargets, Registers;
    var mid := Findings(c, now, produced, produced, evs);
    var evs' := Correlate(c, now, produced, evs);
    FindingsKeep(c, now, produced, produced, evs);
    RetractionsFate(c, now, produced, mid);
    RetractionsKeep(c, now, produced, mid);
    if i < |mid| {
      assert Continues(mid[i], evs'[i]);
      assert forall r :: Targets(r, evs'[i]) <==> Targets(r, mid[i]);
    } else {
      var j := AddedRowsAreRegistered(c, now, produced, mid, i);
      ProofRowFate(c, now, produced, mid, j);
    }
  }

  /** No declared retraction targets a row that another would register as its proof. */
  predicate ProofsUntargeted(c: Context, produced: seq<Item>) {
    forall a, b | a in produced && b in produced :: Declared(c, a) && Declared(c, b)
      ==> !Targets(a.what.retraction, NewRow(c, 0, b, b.what.retraction.proof))
  }

  /** In particular a second reading is idle when no proof is in reach of any retraction. */
  lemma RepeatChangesNothing(c: Context, now: int, later: int, produced: seq<Item>, evs: seq<Row>)
    requires WellFormed(evs) && ProofsUntargeted(c, produced)
    ensures Correlate(c, later, produced, Correlate(c, now, produced, evs)) == Correlate(c, now, produced, evs)
  {
    hide Findings, Retractions, Registers;
    forall j: nat | j < |produced| && Declared(c, produced[j])
      ensures !Covered(c, produced, ProofRow(c, now, produced[j]))
    {
      var row := NewRow(c, 0, produced[j], produced[j].what.retraction.proof);
      assert forall r :: Targets(r, ProofRow(c, now, produced[j])) <==> Targets(r, row);
    }
    OnlyDeclaredRegister(c, now, produced, Findings(c, now, produced, produced, evs));
    RepeatIsIdle(c, now, later, produced, evs);
  }

  /** No declared retraction targets a rule that itself retracts. */
  predicate TargetsDoNotRetract(c: Context, produced: seq<Item>) {
    forall a, b | a in produced && b in produced :: Declared(c, a) && Declared(c, b)
      ==> a.what.retraction.target != b.rule
  }

  /** When retractions only target rules that retract nothing, a second reading is idle. */
  lemma RepeatIsIdleInTwoLayers(c: Context, now: int, later: int, produced: seq<Item>, evs: seq<Row>)
    requires WellFormed(evs) && TargetsDoNotRetract(c, produced)
    ensures Correlate(c, later, produced, Correlate(c, now, produced, evs)) == Correlate(c, now, produced, evs)
  {
    hide Correlate;
    RepeatChangesNothing(c, now, later, produced, evs);
  }

  lemma OnlyDeclaredRegister(c: Context, now: int, items: seq<Item>, mid: seq<Row>)
    ensures forall j: nat :: j < |items| && Registers(c, now, items, mid, j) ==> Declared(c, items[j])
  {
  }

  lemma {:induction false} FindingsAlreadyThere(c: Context, now: int, produced: seq<Item>,
                                                items: seq<Item>, evs: seq<Row>)
    requires forall it :: it in items && it.what.Found? && Admitted(c, produced, it)
                          ==> Lookup(evs, KeyOf(it, it.what.finding)).Some?
    ensures Findings(c, now, produced, items, evs) == evs
  {
    if items != [] {
      FindingsAlreadyThere(c, now, produced, items[..|items| - 1], evs);
    }
  }

  lemma {:induction false} RetractionsWithoutTargets(c: Context, now: int, items: seq<Item>, evs: seq<Row>)
    requires forall it, row :: it in items && Declared(c, it) && row in evs ==> !Hit(it.what.retraction, row)
    ensures Retractions(c, now, items, evs) == evs
  {
    if items != [] {
      RetractionsWithoutTargets(c, now, items[..|items| - 1], evs);
    }
  }

  // ---------------------------------------------------------------- where the hypotheses bite

  const OPEN_CONTEXT := Context((rule, role) => true, rule => true,
                                (tenant, entity, interface, ts) => false, (ip, tenant) => None)

  function SampleFinding(eventId: int, ts: int): Finding {
    Finding(eventId, ts, "t", Symptom, "e", "", None, "", "", None, "", "")
  }

  function SampleItem(rule: string, what: Output): Item {
    Item(rule, "1", Params(None, ""), what)
  }

  const EARLY := SampleItem("down", Found(SampleFinding(1, 0)))
  const LATE := SampleItem("down", Found(SampleFinding(1, 100)))
  const REACH := SampleItem("up", Retract(Retraction("down", "e", "t", "", SampleFinding(2, 200), 150)))

  /** Two findings of one key dated 0 and 100, and a retraction that reaches back to 50: whichever
      finding comes first is the one stored, and only one of them is in reach. */
  lemma IncoherentOrderMatters()
    ensures !OrderFree(OPEN_CONTEXT, 0, [EARLY, LATE, REACH], [])
  {
    var produced, k := [EARLY, LATE, REACH], KeyOf(EARLY, EARLY.what.finding);
    FindsSample(produced, EARLY);
    FindsSample(produced, LATE);
    var late := NewRow(OPEN_CONTEXT, 0, LATE, LATE.what.finding);
    assert Declared(OPEN_CONTEXT, REACH) && Targets(REACH.what.retraction, late) && REACH in produced;
    assert CoversFinding(OPEN_CONTEXT, produced, LATE) && !CoversFinding(OPEN_CONTEXT, produced, EARLY);
    assert !ProofKey(OPEN_CONTEXT, produced, k);
    assert !Coherent(OPEN_CONTEXT, produced, []);
    TwoPassOrderFree(OPEN_CONTEXT, 0, produced, []);
  }

  lemma FindsSample(produced: seq<Item>, it: Item)
    requires it in produced && (it == EARLY || it == LATE)
    ensures Finder(OPEN_CONTEXT, produced, KeyOf(EARLY, EARLY.what.finding), it)
  {
    var seen := Observed(produced, GroupOf(it));
    assert it.what.finding.eventId in seen;
    assert seen != {};
  }

  /** A retraction that targets its own rule: the first cycle registers its proof, the second
      retracts it. */
  lemma TargetedProofIsRetractedNextTime()
    ensures var it := SampleItem("r", Retract(Retraction("r", "e", "t", "", SampleFinding(2, 0), 0)));
            var evs := [NewRow(OPEN_CONTEXT, 0, it, SampleFinding(1, 0))];
            Correlate(OPEN_CONTEXT, 0, [it], Correlate(OPEN_CONTEXT, 0, [it], evs))
            != Correlate(OPEN_CONTEXT, 0, [it], evs)
  {
    var c := OPEN_CONTEXT;
    var it := SampleItem("r", Retract(Retraction("r", "e", "t", "", SampleFinding(2, 0), 0)));
    var evs := [NewRow(c, 0, it, SampleFinding(1, 0))];
    assert evs[0] in evs && Hit(it.what.retraction, evs[0]);
    var once := Apply(c, 0, it, evs);
    LoneRetraction(c, 0, it, evs);
    LoneRetraction(c, 0, it, once);
    LookupAfterInsert(c, 0, it, it.what.retraction.proof, evs);
    assert once[1] == NewRow(c, 0, it, SampleFinding(2, 0));
    assert once[1] in once && Hit(it.what.retraction, once[1]);
    var twice := Apply(c, 0, it, once);
    LookupAfterInsert(c, 0, it, it.what.retraction.proof, once);
    assert 1 in TargetIds(it.what.retraction, once);
    assert twice[1].status.Retracted?;
  }

  lemma LoneRetraction(c: Context, now: int, it: Item, evs: seq<Row>)
    requires Declared(c, it)
    ensures Correlate(c, now, [it], evs) == Apply(c, now, it, evs)
  {
    assert [it][..0] == [];
    assert Findings(c, now, [it], [], evs) == evs;
    assert Retractions(c, now, [], evs) == evs;
  }

  lemma LoneFinding(c: Context, now: int, it: Item, evs: seq<Row>)
    requires it.what.Found? && Admitted(c, [it], it) && Lookup(evs, KeyOf(it, it.what.finding)).None?
    ensures Correlate(c, now, [it], evs) == evs + [NewRow(c, now, it, it.what.finding)]
  {
    assert [it][..0] == [];
    assert Findings(c, now, [it], [], evs) == evs;
    var mid := Findings(c, now, [it], [it], evs);
    assert Retractions(c, now, [], mid) == mid;
  }

  // ---------------------------------------------------------------- the imperative cycle

  /** ``_insert_finding``: the row's id, and how many rows were added. */
  method InsertFinding(db: Connection, c: Context, now: int, it: Item, f: Finding) returns (id: nat, added: nat)
    modifies db`evidence
    ensures db.evidence == Insert(c, now, it, f, old(db.evidence))
    ensures Lookup(db.evidence, KeyOf(it, f)) == Some(id)
    ensures added == |db.evidence| - |old(db.evidence)|
  {
    LookupAfterInsert(c, now, it, f, db.evidence);
    var existing := Lookup(db.evidence, KeyOf(it, f));
    if existing.None? {
      id, added := |db.evidence|, 1;
      db.evidence := db.evidence + [NewRow(c, now, it, f)];
    } else {
      id, added := existing.value, 0;
    }
  }

  /** ``UPDATE evidence SET status = 'retracted'`` over the ids found. */
  method MarkRetracted(db: Connection, targets: set<nat>, proof: nat, rule: string, now: int, reason: string)
    modifies db`evidence
    ensures db.evidence == Retire(old(db.evidence), targets, proof, rule, now, reason)
  {
    ghost var evs := db.evidence;
    var i := 0;
    while i < |db.evidence|
      invariant 0 <= i <= |db.evidence| == |evs|
      invariant forall j :: 0 <= j < |evs| ==>
                              db.evidence[j] == if j < i && j in targets
                                                then evs[j].(status := Retracted(proof, rule, now, reason))
                                                else evs[j]
    {
      if i in targets {
        db.evidence := db.evidence[i := db.evidence[i].(status := Retracted(proof, rule, now, reason))];
      }
      i := i + 1;
    }
  }

  lemma TargetsFound(r: Retraction, evs: seq<Row>)
    ensures TargetIds(r, evs) == {} <==> !HasTargets(r, evs)
  {
    if HasTargets(r, evs) {
      var i :| 0 <= i < |evs| && Hit(r, evs[i]);
      assert i in TargetIds(r, evs);
    }
  }

  /** ``_apply_retraction``: the targets are read before the proof is registered. */
  method ApplyRetraction(db: Connection, c: Context, now: int, it: Item) returns (added: nat)
    requires it.what.Retract?
    modifies db`evidence
    ensures db.evidence == Apply(c, now, it, old(db.evidence))
    ensures added == |db.evidence| - |old(db.evidence)|
    ensures Declared(c, it) && WellFormed(old(db.evidence)) ==>
              forall i :: 0 <= i < |old(db.evidence)| && old(db.evidence)[i].status.Active?
                          && i < |db.evidence| && db.evidence[i].status.Retracted?
                ==> Selects(it.what.retraction, db.evidence[i]) && RetractedBy(now, it, db.evidence, db.evidence[i])
  {
    hide HasTargets, TargetIds, Lookup, Insert, Selects, RetractedBy;
    forall i | Declared(c, it) && WellFormed(db.evidence) && 0 <= i < |db.evidence| && db.evidence[i].status.Active?
               && i < |Apply(c, now, it, db.evidence)| && Apply(c, now, it, db.evidence)[i].status.Retracted?
      ensures var evs' := Apply(c, now, it, db.evidence);
              Selects(it.what.retraction, evs'[i]) && RetractedBy(now, it, evs', evs'[i])
    {
      ApplyExplains(c, now, it, db.evidence, i);
    }
    var r := it.what.retraction;
    var targets := TargetIds(r, db.evidence);
    TargetsFound(r, db.evidence);
    if targets == {} {
      return 0;
    }
    var id;
    id, added := InsertFinding(db, c, now, it, r.proof);
    MarkRetracted(db, targets, id, it.rule, now, r.reason);
  }

  /** The counting loop: distinct event ids per group. */
  method Observe(produced: seq<Item>) returns (observed: map<Group, set<int>>)
    ensures forall it :: it in produced && it.what.Found?
              ==> GroupOf(it) in observed && observed[GroupOf(it)] == Observed(produced, GroupOf(it))
  {
    observed := map[];
    var i := 0;
    while i < |produced|
      invariant 0 <= i <= |produced|
      invariant forall g :: (if g in observed then observed[g] else {}) == Observed(produced[..i], g)
      invariant forall it :: it in produced[..i] && it.what.Found? ==> GroupOf(it) in observed
    {
      var it := produced[i];
      assert produced[..i + 1] == produced[..i] + [it];
      if it.what.Found? {
        var g := GroupOf(it);
        observed := observed[g := (if g in observed then observed[g] else {}) + {it.what.finding.eventId}];
      }
      ObservedStep(produced[..i], it);
      i := i + 1;
    }
    assert produced[..i] == produced;
  }

  lemma ObservedStep(items: seq<Item>, it: Item)
    ensures forall g :: Observed(items + [it], g) == Observed(items, g)
              + if it.what.Found? && GroupOf(it) == g then {it.what.finding.eventId} else {}
  {
    forall g ensures Observed(items + [it], g) == Observed(items, g)
              + if it.what.Found? && GroupOf(it) == g then {it.what.finding.eventId} else {} {
      forall e | e in Observed(items, g) ensures e in Observed(items + [it], g) {
        var w :| w in items && w.what.Found? && GroupOf(w) == g && w.what.finding.eventId == e;
        assert w in items + [it];
      }
      assert it in items + [it];
    }
  }

  /** Pass one. Returns the rows added and the findings left out for each counted reason. */
  method FindingPass(db: Connection, c: Context, now: int, produced: seq<Item>)
    returns (emitted: nat, unconfirmed: nat, suppressed: nat)
    modifies db`evidence
    ensures db.evidence == Findings(c, now, produced, produced, old(db.evidence))
    ensures emitted == |db.evidence| - |old(db.evidence)|
    ensures unconfirmed == Tally(c, produced, produced, Unconfirmed)
    ensures suppressed == Tally(c, produced, produced, Maintenance)
  {
    hide Insert, Lookup, Observed;
    var observed := Observe(produced);
    emitted, unconfirmed, suppressed := 0, 0, 0;
    ghost var evs := db.evidence;
    var i := 0;
    while i < |produced|
      invariant 0 <= i <= |produced|
      invariant db.evidence == Findings(c, now, produced, produced[..i], evs)
      invariant emitted == |db.evidence| - |evs|
      invariant unconfirmed == Tally(c, produced, produced[..i], Unconfirmed)
      invariant suppressed == Tally(c, produced, produced[..i], Maintenance)
    {
      var it := produced[i];
      assert produced[..i + 1][..i] == produced[..i];
      i := i + 1;
      if it.what.Retract? {
        continue;
      }
      var f := it.what.finding;
      assert it in produced;
      if |observed[GroupOf(it)]| < Needed(it.params) {
        unconfirmed := unconfirmed + 1;
      } else if c.declares(it.rule, f.role) {
        if f.entity != "" && c.suppressed(f.tenant, f.entity, f.interface, f.ts) {
          suppressed := suppressed + 1;
        } else {
          var _, added := InsertFinding(db, c, now, it, f);
          emitted := emitted + added;
        }
      }
    }
    assert produced[..i] == produced;
  }

  /** Pass two. */
  method RetractionPass(db: Connection, c: Context, now: int, produced: seq<Item>) returns (emitted: nat)
    modifies db`evidence
    ensures db.evidence == Retractions(c, now, produced, old(db.evidence))
    ensures emitted == |db.evidence| - |old(db.evidence)|
  {
    emitted := 0;
    ghost var evs := db.evidence;
    var i := 0;
    while i < |produced|
      invariant 0 <= i <= |produced|
      invariant db.evidence == Retractions(c, now, produced[..i], evs)
      invariant emitted == |db.evidence| - |evs|
    {
      var it := produced[i];
      assert produced[..i + 1][..i] == produced[..i];
      if it.what.Retract? && c.retracts(it.rule) {
        var added := ApplyRetraction(db, c, now, it);
        emitted := emitted + added;
      }
      i := i + 1;
    }
    assert produced[..i] == produced;
  }

  /** ``correlate_once`` after the rules ran: both passes, and how many rows they added. */
  method CorrelateOnce(db: Connection, c: Context, now: int, produced: seq<Item>)
    returns (emitted: nat, unconfirmed: nat, suppressed: nat)
    modifies db`evidence
    ensures db.evidence == Correlate(c, now, produced, old(db.evidence))
    ensures emitted == |db.evidence| - |old(db.evidence)|
    ensures unconfirmed == Tally(c, produced, produced, Unconfirmed)
    ensures suppressed == Tally(c, produced, produced, Maintenance)
  {
    emitted, unconfirmed, suppressed := FindingPass(db, c, now, produced);
    var added := RetractionPass(db, c, now, produced);
    emitted := emitted + added;
  }
}
