/** core/db.py: per-minute buckets and the aggregation upsert of flows. */
module FlowAggregation {
  import opened Wrappers
  import opened WriteQueue

  const CLOCK_SKEW_MAX_S := 300

  /** A column that may be NULL is an Option. */
  datatype FlowKey = FlowKey(window: int, tenant: string, src: string, dst: string,
                             protocol: Option<int>, port: Option<int>)

  datatype Flow = Flow(key: FlowKey, bytes: nat, packets: nat, exporter: string, source: string)

  datatype FlowRow = FlowRow(key: FlowKey, bytes: nat, packets: nat, count: nat, exporter: string, source: string)

  /** ``flow_window_start``: an unreadable or skewed exporter time yields to the reception time. */
  function WindowStart(exportTs: Option<int>, now: int): (w: int)
    ensures w % 60 == 0
    ensures var ts := if exportTs.Some? && -CLOCK_SKEW_MAX_S <= exportTs.value - now <= CLOCK_SKEW_MAX_S
                      then exportTs.value else now;
            w <= ts < w + 60
    ensures now - CLOCK_SKEW_MAX_S - 60 < w <= now + CLOCK_SKEW_MAX_S
  {
    var ts := match exportTs
              case None => now
              case Some(t) => if t - now > CLOCK_SKEW_MAX_S || now - t > CLOCK_SKEW_MAX_S then now else t;
    ts - ts % 60
  }

  /** A unique index does not consider two NULLs equal. */
  predicate Unique(k: FlowKey) {
    k.protocol.Some? && k.port.Some?
  }

  function IndexOf(rows: seq<FlowRow>, k: FlowKey): (r: Option<nat>)
    ensures r.Some? ==> r.value < |rows| && rows[r.value].key == k
    ensures r.None? ==> forall i :: 0 <= i < |rows| ==> rows[i].key != k
  {
    if rows == [] then None
    else
      var n := |rows| - 1;
      if rows[n].key == k then Some(n) else IndexOf(rows[..n], k)
  }

  /** ``FLOW_UPSERT_SQL``. */
  function Upsert(rows: seq<FlowRow>, f: Flow): seq<FlowRow> {
    var at := IndexOf(rows, f.key);
    if Unique(f.key) && at.Some? then
      var r := rows[at.value];
      rows[at.value := r.(bytes := r.bytes + f.bytes, packets := r.packets + f.packets, count := r.count + 1,
                          exporter := f.exporter, source := f.source)]
    else rows + [FlowRow(f.key, f.bytes, f.packets, 1, f.exporter, f.source)]
  }

  function Store(rows: seq<FlowRow>, f: Flow): Outcome<seq<FlowRow>> {
    Done(Upsert(rows, f))
  }

  datatype Totals = Totals(bytes: nat, packets: nat, flows: nat)

  function Plus(a: Totals, b: Totals): Totals {
    Totals(a.bytes + b.bytes, a.packets + b.packets, a.flows + b.flows)
  }

  function Zero(): Totals { Totals(0, 0, 0) }

  /** What the table holds under a key, over all its rows. */
  function Stored(rows: seq<FlowRow>, k: FlowKey): Totals {
    if rows == [] then Zero()
    else
      var r := rows[|rows| - 1];
      Plus(Stored(rows[..|rows| - 1], k), if r.key == k then Totals(r.bytes, r.packets, r.count) else Zero())
  }

  function RowsOf(rows: seq<FlowRow>, k: FlowKey): nat {
    if rows == [] then 0
    else RowsOf(rows[..|rows| - 1], k) + if rows[|rows| - 1].key == k then 1 else 0
  }

  /** What the flows amount to under a key. */
  function Measured(flows: seq<Flow>, k: FlowKey): Totals {
    if flows == [] then Zero()
    else
      var f := flows[|flows| - 1];
      Plus(Measured(flows[..|flows| - 1], k), One(f, k))
  }

  function One(f: Flow, k: FlowKey): Totals {
    if f.key == k then Totals(f.bytes, f.packets, 1) else Zero()
  }

  /** Sums may be taken in any order. */
  lemma PlusSwaps(a: Totals, b: Totals, c: Totals)
    ensures Plus(Plus(a, b), c) == Plus(Plus(a, c), b)
  {
  }

  lemma {:induction false} StoredAfterUpdate(rows: seq<FlowRow>, i: nat, r: FlowRow, f: Flow, k: FlowKey)
    requires i < |rows| && r.key == rows[i].key == f.key
    requires r.bytes == rows[i].bytes + f.bytes && r.packets == rows[i].packets + f.packets
    requires r.count == rows[i].count + 1
    ensures Stored(rows[i := r], k) == Plus(Stored(rows, k), One(f, k))
    ensures RowsOf(rows[i := r], k) == RowsOf(rows, k)
  {
    var n := |rows| - 1;
    if i < n {
      hide Plus, Zero, One;
      assert rows[i := r][..n] == rows[..n][i := r] && rows[i := r][n] == rows[n];
      StoredAfterUpdate(rows[..n], i, r, f, k);
      var last := if rows[n].key == k then Totals(rows[n].bytes, rows[n].packets, rows[n].count) else Zero();
      assert Stored(rows[i := r], k) == Plus(Stored(rows[..n][i := r], k), last);
      PlusSwaps(Stored(rows[..n], k), One(f, k), last);
    } else {
      assert rows[i := r][..n] == rows[..n];
    }
  }

  lemma UpsertAdds(rows: seq<FlowRow>, f: Flow, k: FlowKey)
    ensures Stored(Upsert(rows, f), k) == Plus(Stored(rows, k), One(f, k))
    ensures RowsOf(Upsert(rows, f), k) == RowsOf(rows, k)
              + if f.key == k && !(Unique(k) && IndexOf(rows, k).Some?) then 1 else 0
  {
    var at := IndexOf(rows, f.key);
    if Unique(f.key) && at.Some? {
      var r := rows[at.value];
      StoredAfterUpdate(rows, at.value, r.(bytes := r.bytes + f.bytes, packets := r.packets + f.packets,
                                           count := r.count + 1, exporter := f.exporter, source := f.source), f, k);
    } else {
      AppendedRow(rows, FlowRow(f.key, f.bytes, f.packets, 1, f.exporter, f.source), k);
    }
  }

  lemma AppendedRow(rows: seq<FlowRow>, r: FlowRow, k: FlowKey)
    ensures Stored(rows + [r], k)
            == Plus(Stored(rows, k), if r.key == k then Totals(r.bytes, r.packets, r.count) else Zero())
    ensures RowsOf(rows + [r], k) == RowsOf(rows, k) + if r.key == k then 1 else 0
  {
    assert (rows + [r])[..|rows|] == rows;
  }

  lemma {:induction false} RowsOfIndex(rows: seq<FlowRow>, k: FlowKey)
    ensures RowsOf(rows, k) > 0 <==> IndexOf(rows, k).Some?
  {
    if rows != [] {
      RowsOfIndex(rows[..|rows| - 1], k);
    }
  }

  /** Bytes, packets and flow counts are conserved for every key; a key without NULLs has one row,
      a key with a NULL protocol or port gets a row per flow and never aggregates. */
  lemma {:induction false} AggregationConserves(flows: seq<Flow>, k: FlowKey)
    ensures var rows := ApplyEach(Store, [], flows);
            && Stored(rows, k) == Measured(flows, k)
            && RowsOf(rows, k) == (if k.protocol.None? || k.port.None? then Measured(flows, k).flows
                                   else if Measured(flows, k).flows == 0 then 0 else 1)
  {
    if flows != [] {
      var n := |flows| - 1;
      AggregationConserves(flows[..n], k);
      UpsertAdds(ApplyEach(Store, [], flows[..n]), flows[n], k);
      RowsOfIndex(ApplyEach(Store, [], flows[..n]), k);
    }
  }

  /** The last flow of the key. */
  ghost predicate LastOf(flows: seq<Flow>, k: FlowKey, j: int) {
    0 <= j < |flows| && flows[j].key == k && forall i :: j < i < |flows| ==> flows[i].key != k
  }

  /** A row names an exporter and a source. */
  ghost predicate Names(rows: seq<FlowRow>, k: FlowKey, f: Flow) {
    exists i :: 0 <= i < |rows| && rows[i].key == k && rows[i].exporter == f.exporter && rows[i].source == f.source
  }

  lemma UpsertNames(rows: seq<FlowRow>, f: Flow, k: FlowKey, last: Flow)
    ensures Names(Upsert(rows, f), f.key, f)
    ensures f.key != k && Names(rows, k, last) ==> Names(Upsert(rows, f), k, last)
  {
    var rows', at := Upsert(rows, f), IndexOf(rows, f.key);
    var n := if Unique(f.key) && at.Some? then at.value else |rows|;
    assert rows'[n].key == f.key && rows'[n].exporter == f.exporter && rows'[n].source == f.source;
    if f.key != k && Names(rows, k, last) {
      var i :| 0 <= i < |rows| && rows[i].key == k
                && rows[i].exporter == last.exporter && rows[i].source == last.source;
      assert rows'[i] == rows[i];
    }
  }

  /** Exporter and source are those of the last flow of the key. */
  lemma {:induction false} LastFlowIsNamed(flows: seq<Flow>, k: FlowKey, j: nat)
    requires LastOf(flows, k, j)
    ensures Names(ApplyEach(Store, [], flows), k, flows[j])
  {
    hide Names, Upsert;
    var n := |flows| - 1;
    UpsertNames(ApplyEach(Store, [], flows[..n]), flows[n], k, flows[j]);
    if j < n {
      LastFlowIsNamed(flows[..n], k, j);
    }
  }

  lemma {:induction false} MeasuredWithout(flows: seq<Flow>, i: nat, k: FlowKey)
    requires i < |flows|
    ensures Measured(flows, k) == Plus(Measured(flows[..i] + flows[i + 1..], k), One(flows[i], k))
  {
    hide Plus, One;
    var n := |flows| - 1;
    if i == n {
      assert flows[..i] + flows[i + 1..] == flows[..n];
    } else {
      var rest, front := flows[..i] + flows[i + 1..], flows[..n];
      var fewer := front[..i] + front[i + 1..];
      assert rest == fewer + [flows[n]];
      MeasuredSnoc(fewer, flows[n], k);
      MeasuredWithout(front, i, k);
      PlusSwaps(Measured(fewer, k), One(flows[i], k), One(flows[n], k));
    }
  }

  lemma MeasuredSnoc(flows: seq<Flow>, f: Flow, k: FlowKey)
    ensures Measured(flows + [f], k) == Plus(Measured(flows, k), One(f, k))
  {
    hide Plus, One;
    assert (flows + [f])[..|flows|] == flows;
  }

  lemma {:induction false} MeasuredPermutation(a: seq<Flow>, b: seq<Flow>, k: FlowKey)
    requires multiset(a) == multiset(b)
    ensures Measured(a, k) == Measured(b, k)
    decreases |a|
  {
    assert |a| == |multiset(a)| == |multiset(b)| == |b|;
    if a != [] {
      var n := |a| - 1;
      var i := TakeOut(a, b);
      MeasuredPermutation(a[..n], b[..i] + b[i + 1..], k);
      MeasuredWithout(b, i, k);
    }
  }

  /** Where the last element of one arrangement sits in the other. */
  lemma TakeOut(a: seq<Flow>, b: seq<Flow>) returns (i: nat)
    requires a != [] && multiset(a) == multiset(b)
    ensures i < |b| && b[i] == a[|a| - 1]
    ensures multiset(a[..|a| - 1]) == multiset(b[..i] + b[i + 1..])
  {
    var n := |a| - 1;
    assert a == a[..n] + [a[n]];
    assert a[n] in multiset(b);
    i :| 0 <= i < |b| && b[i] == a[n];
    assert b == b[..i] + [b[i]] + b[i + 1..];
    assert multiset(a[..n]) == multiset(a) - multiset{a[n]};
    assert multiset(b[..i] + b[i + 1..]) == multiset(b) - multiset{b[i]};
  }

  /** The amounts do not depend on the order in which the flows were written. */
  lemma OrderDoesNotMatter(a: seq<Flow>, b: seq<Flow>, k: FlowKey)
    requires multiset(a) == multiset(b)
    ensures Stored(ApplyEach(Store, [], a), k) == Stored(ApplyEach(Store, [], b), k)
  {
    AggregationConserves(a, k);
    AggregationConserves(b, k);
    MeasuredPermutation(a, b, k);
  }

  /** Through the queue and the writer: after any run over flow upserts, what is stored under a key
      is what the flows that have left the queue amount to. */
  lemma StoredFlowsAreTheSums(events: seq<Event<Flow>>, k: FlowKey)
    ensures var s := Run(Store, [], events);
            var taken := |s.accepted| - |s.batch| - |s.queue|;
            && 0 <= taken && s.droppedError == 0 && s.lost == 0
            && Stored(s.db, k) == Measured(s.accepted[..taken], k)
  {
    hide Run, Stored, Measured, ApplyEach, Store, Successes;
    UpsertsNeverCrash();
    var s := Run(Store, [], events);
    BatchingIsInvisible(Store, [], events);
    CrashFreeRunLosesNothing(Store, [], events);
    EveryAttemptIsAccounted(Store, [], events);
    var taken := |s.accepted| - |s.batch| - |s.queue|;
    AggregationConserves(s.accepted[..taken], k);
    UpsertsSucceed([], s.accepted[..taken]);
  }

  lemma UpsertsNeverCrash()
    ensures NeverCrashes(Store)
  {
  }

  lemma {:induction false} UpsertsSucceed(rows: seq<FlowRow>, flows: seq<Flow>)
    ensures Successes(Store, rows, flows) == |flows|
  {
    if flows != [] {
      UpsertsSucceed(rows, flows[..|flows| - 1]);
    }
  }
}
