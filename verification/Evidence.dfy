/** Rows of the observability tables the correlation and incident engines share:
    ``evidence``, ``incidents`` and ``incident_conclusions``.

    A row's id is its position in the table: these engines only ever insert and update. */
module Evidence {
  import opened Wrappers

  datatype Role = Trigger | Supporting | Symptom | Consequence

  /** What the unique ``dedup_key`` column hashes. */
  datatype Key = Key(rule: string, version: string, eventId: int, role: Role,
                     entity: string, discriminant: string)

  datatype Status =
    | Active
    | Retracted(proof: nat, byRule: string, at: int, reason: string)

  /** Thresholds a rule ran with; only the confirmation one is read by the engine. */
  datatype Params = Params(minObservations: Option<int>, thresholds: string)

  /** A row of ``evidence``. An empty string stands for an absent entity or address. */
  datatype Row = Row(created: int, ts: int, tenant: string, key: Key, params: Params,
                     severity: Option<int>, src: string, dst: string, port: string,
                     summary: string, status: Status, incident: Option<nat>)

  /** No two rows carry the same dedup key, and every retracted row names a row of the table. */
  ghost predicate WellFormed(evs: seq<Row>) {
    && (forall i, j :: 0 <= i < j < |evs| ==> evs[i].key != evs[j].key)
    && (forall i :: 0 <= i < |evs| && evs[i].status.Retracted? ==> evs[i].status.proof < |evs|)
  }

  /** ``after`` keeps every row of ``before`` at its id: facts never change, a retraction is
      final, and a row that has joined an incident stays in it. */
  ghost predicate Extends(before: seq<Row>, after: seq<Row>) {
    && |before| <= |after|
    && (forall i :: 0 <= i < |before| ==> Continues(before[i], after[i]))
  }

  ghost predicate Continues(r: Row, r': Row) {
    && r'.(status := r.status, incident := r.incident) == r
    && (r.status.Retracted? ==> r'.status == r.status)
    && (r.incident.Some? ==> r'.incident == r.incident)
  }

  /** What one correlation cycle at ``now`` may do: add unassigned rows and retract active ones. */
  ghost predicate Cycle(before: seq<Row>, after: seq<Row>, now: int) {
    && Extends(before, after)
    && (forall i :: 0 <= i < |before| ==>
          && after[i].incident == before[i].incident
          && (after[i].status != before[i].status ==> after[i].status.Retracted? && after[i].status.at == now))
    && (forall i :: |before| <= i < |after| ==> after[i].incident.None?)
  }

  lemma CycleTransitive(a: seq<Row>, b: seq<Row>, c: seq<Row>, now: int)
    requires Cycle(a, b, now) && Cycle(b, c, now)
    ensures Cycle(a, c, now)
  {
    ExtendsTransitive(a, b, c);
    forall i | 0 <= i < |a|
      ensures c[i].incident == a[i].incident
      ensures c[i].status != a[i].status ==> c[i].status.Retracted? && c[i].status.at == now
    {
      assert Continues(a[i], b[i]) && Continues(b[i], c[i]);
    }
  }

  lemma ExtendsTransitive(a: seq<Row>, b: seq<Row>, c: seq<Row>)
    requires Extends(a, b) && Extends(b, c)
    ensures Extends(a, c)
  {
    forall i | 0 <= i < |a| ensures Continues(a[i], c[i]) {
      assert Continues(a[i], b[i]) && Continues(b[i], c[i]);
    }
  }

  /** What corroborates a conclusion; each one adds a step of confidence. */
  datatype Source = SupportingEvidence | SymptomSeen | ConsequenceSeen | RulesAgree
                  | PhysicalPosition | DeviceState | VlanBinding

  /** The content of ``reasoning_json``. */
  datatype Reasoning =
    | AllRetracted(retracted: nat)
    | Reasoned(cause: string, version: string, params: Option<Params>, base: int,
               rules: set<string>, sources: seq<Source>, byRole: map<Role, seq<nat>>,
               refs: seq<nat>, retracted: nat)

  /** A row of ``incidents``. */
  datatype Incident = Incident(tenant: string, entity: string, first: int, last: int,
                               closed: Option<int>, severity: int, count: nat, title: string,
                               cause: Option<string>, confidence: Option<int>,
                               reasoning: Option<Reasoning>)

  /** A row of ``incident_conclusions``. */
  datatype Verdict = Verdict(incident: nat, concluded: int, superseded: Option<int>,
                             cause: string, confidence: int, reasoning: Reasoning)

  /** The three tables at one instant. */
  datatype Db = Db(evidence: seq<Row>, incidents: seq<Incident>, verdicts: seq<Verdict>)

  /** The open connection the engines work on. */
  class Connection {
    var evidence: seq<Row>
    var incidents: seq<Incident>
    var verdicts: seq<Verdict>

    constructor ()
      ensures Tables() == Db([], [], [])
    {
      evidence, incidents, verdicts := [], [], [];
    }

    ghost function Tables(): Db
      reads this
    {
      Db(evidence, incidents, verdicts)
    }
  }
}
