/** observability/normalize.py: syslog rows and device snapshots projected onto the event table in
    repeated passes, each capped and started from a saved cursor.

    What is read out of a message or a snapshot is arbitrary but depends on nothing else. */
module Projection {
  import opened Wrappers

  const LOOKBACK_S := 3600
  const MAX_CHANGES_PER_SNAPSHOT := 20

  datatype Row =
    | LogRow(id: nat, ts: int, tenant: string, device: string, severity: Option<int>, action: string, message: string)
    | ApiRow(id: nat, ts: int, tenant: string, device: string, kind: string, summary: string)

  predicate Unrepeated<T(==)>(s: seq<T>) {
    forall i, j :: 0 <= i < j < |s| ==> s[i] != s[j]
  }

  predicate KeysUnrepeated(s: seq<(string, string)>) {
    forall i, j :: 0 <= i < j < |s| ==> s[i].0 != s[j].0
  }

  /** A dictionary as its items in order. */
  type Items = s: seq<(string, string)> | KeysUnrepeated(s) witness []

  type Names = s: seq<string> | Unrepeated(s) witness []

  datatype LogFields = LogFields(action: string, src: string, bytes: int)

  datatype Reader = Reader(
    logFields: string -> LogFields,
    security: string -> bool,
    logAttrs: (Row, string) -> map<string, string>,
    stable: string -> Items,
    measured: string -> map<string, int>,
    ifaceKind: string -> bool,
    ifaceOf: (string, string) -> Option<string>,
    interfaces: (string, string) -> Names,
    portState: (string, string) -> map<string, string>,
    portMetrics: (string, string) -> map<string, int>)

  /** ``dedup_key``. */
  datatype Key = LogKey(id: nat) | ApiKey(id: nat) | ChangeKey(id: nat, field: string) | PortKey(id: nat, iface: string)

  datatype EventType =
    | LogSecurity | LogEvent | DeviceUnreachable | DeviceState | DeviceChange | InterfaceChange | InterfaceState

  /** An event but for when it was ingested. */
  datatype Fact = Fact(ts: int, tenant: string, source: string, sourceId: nat, eventType: EventType,
                       entity: string, device: string, iface: Option<string>, severity: Option<int>,
                       attrs: map<string, string>, metrics: map<string, int>)

  datatype Event = Event(fact: Fact, ingested: int)

  // ---------------------------------------------------------------- the facts of one row

  predicate StartsWith(s: string, prefix: string) {
    |prefix| <= |s| && s[..|prefix|] == prefix
  }

  function SourceOf(kind: string): string {
    if StartsWith(kind, "snmp_") then "snmp"
    else if StartsWith(kind, "linux_") then "linux"
    else if StartsWith(kind, "windows_") then "windows"
    else "fortigate_api"
  }

  function Or(a: string, b: string): string {
    if a != "" then a else b
  }

  function LogFact(f: Reader, r: Row): (Key, Fact)
    requires r.LogRow?
  {
    var fields := f.logFields(r.message);
    var action := Or(r.action, fields.action);
    (LogKey(r.id),
     Fact(r.ts, r.tenant, "syslog", r.id, if f.security(action) then LogSecurity else LogEvent,
          Or(r.device, Or(fields.src, "sconosciuto")), r.device, None, r.severity, f.logAttrs(r, action),
          if fields.bytes != 0 then map["bytes" := fields.bytes] else map[]))
  }

  predicate Silent(r: Row)
    requires r.ApiRow?
  {
    r.kind == "snmp_silent"
  }

  function StateFact(f: Reader, r: Row): (Key, Fact)
    requires r.ApiRow?
  {
    (ApiKey(r.id),
     Fact(r.ts, r.tenant, SourceOf(r.kind), r.id, if Silent(r) then DeviceUnreachable else DeviceState,
          r.device, r.device, None, None, map["kind" := r.kind],
          if Silent(r) || f.ifaceKind(r.kind) then map[] else f.measured(r.summary)))
  }

  /** The latest earlier snapshot of the same device and kind. */
  function Previous(rows: seq<Row>, r: Row): Option<Row>
    requires r.ApiRow?
  {
    if rows == [] then None
    else
      var last := rows[|rows| - 1];
      if last.ApiRow? && last.device == r.device && last.kind == r.kind && last.id < r.id then Some(last)
      else Previous(rows[..|rows| - 1], r)
  }

  function ValueOf(items: seq<(string, string)>, key: string): Option<string> {
    if items == [] then None
    else if items[0].0 == key then Some(items[0].1)
    else ValueOf(items[1..], key)
  }

  predicate Changed(before: Items, item: (string, string)) {
    var was := ValueOf(before, item.0);
    was.Some? && was.value != item.1
  }

  /** The fields in both snapshots whose value moved, in the later one's order. */
  function Changes(before: Items, after: seq<(string, string)>): seq<(string, string)> {
    if after == [] then []
    else
      var n := |after| - 1;
      Changes(before, after[..n]) + if Changed(before, after[n]) then [after[n]] else []
  }

  function Capped<T>(s: seq<T>, cap: nat): seq<T> {
    if |s| <= cap then s else s[..cap]
  }

  /** An entity inside a device: its address, a colon, the interface. */
  function PortName(device: string, iface: string): string {
    device + ":" + iface
  }

  function ChangeFact(f: Reader, r: Row, before: Items, item: (string, string)): (Key, Fact)
    requires r.ApiRow?
  {
    var iface := f.ifaceOf(item.0, r.kind);
    (ChangeKey(r.id, item.0),
     Fact(r.ts, r.tenant, SourceOf(r.kind), r.id, if iface.Some? then InterfaceChange else DeviceChange,
          if iface.Some? then PortName(r.device, iface.value) else r.device, r.device, iface, Some(5),
          map["kind" := r.kind, "field" := item.0, "before" := ValueOf(before, item.0).GetOr(""), "after" := item.1],
          map[]))
  }

  function ChangeFacts(f: Reader, r: Row, before: Items, items: seq<(string, string)>): seq<(Key, Fact)>
    requires r.ApiRow?
  {
    seq(|items|, i requires 0 <= i < |items| => ChangeFact(f, r, before, items[i]))
  }

  function PortFact(f: Reader, r: Row, iface: string): (Key, Fact)
    requires r.ApiRow?
  {
    (PortKey(r.id, iface),
     Fact(r.ts, r.tenant, SourceOf(r.kind), r.id, InterfaceState, PortName(r.device, iface), r.device, Some(iface),
          None, f.portState(r.summary, iface), f.portMetrics(r.summary, iface)))
  }

  function PortFacts(f: Reader, r: Row, ifaces: seq<string>): seq<(Key, Fact)>
    requires r.ApiRow?
  {
    seq(|ifaces|, i requires 0 <= i < |ifaces| => PortFact(f, r, ifaces[i]))
  }

  function Moved(f: Reader, r: Row, previous: Row): seq<(string, string)>
    requires r.ApiRow? && previous.ApiRow?
  {
    Capped(Changes(f.stable(previous.summary), f.stable(r.summary)), MAX_CHANGES_PER_SNAPSHOT)
  }

  function SnapshotFacts(f: Reader, r: Row, previous: Option<Row>): seq<(Key, Fact)>
    requires r.ApiRow? && (previous.Some? ==> previous.value.ApiRow?)
  {
    (if previous.Some? then ChangeFacts(f, r, f.stable(previous.value.summary), Moved(f, r, previous.value)) else [])
    + PortFacts(f, r, f.interfaces(r.kind, r.summary))
  }

  lemma {:induction false} PreviousIsApi(rows: seq<Row>, r: Row)
    requires r.ApiRow?
    ensures Previous(rows, r).Some? ==> Previous(rows, r).value.ApiRow?
  {
    if rows != [] {
      PreviousIsApi(rows[..|rows| - 1], r);
    }
  }

  /** Everything a row gives rise to, in the order it is emitted. */
  function FactsOf(f: Reader, rows: seq<Row>, r: Row): seq<(Key, Fact)> {
    match r
    case LogRow(_, _, _, _, _, _, _) => [LogFact(f, r)]
    case ApiRow(_, _, _, _, _, _) =>
      [StateFact(f, r)] +
      if Silent(r) then []
      else PreviousIsApi(rows, r); SnapshotFacts(f, r, Previous(rows, r))
  }

  // ---------------------------------------------------------------- passes

  /** The table of a source with its cursor, and the events. ``projected`` is the history of the
      row ids projected so far; ``origin`` and ``since`` tell where a first, filtered pass ended and
      from when on it looked. */
  datatype State = State(rows: seq<Row>, cursor: nat, events: map<Key, Event>,
                         projected: seq<nat>, origin: nat, since: int)

  datatype Feed = Syslog | Snapshots

  function Filter(rows: seq<Row>, keep: Row -> bool): seq<Row> {
    if rows == [] then []
    else
      var n := |rows| - 1;
      Filter(rows[..n], keep) + if keep(rows[n]) then [rows[n]] else []
  }

  /** Only the first syslog pass is limited in time. */
  predicate FirstPass(feed: Feed, s: State) {
    feed == Syslog && s.cursor == 0
  }

  function Pending(feed: Feed, s: State, now: int): seq<Row> {
    Filter(s.rows, (r: Row) => r.id > s.cursor && (FirstPass(feed, s) ==> r.ts >= now - LOOKBACK_S))
  }

  /** ``ON CONFLICT(dedup_key) DO UPDATE SET metrics_json``. */
  function Upsert(events: map<Key, Event>, e: (Key, Fact), now: int): map<Key, Event> {
    events[e.0 := if e.0 in events then events[e.0].(fact := events[e.0].fact.(metrics := e.1.metrics))
                  else Event(e.1, now)]
  }

  function PutFacts(events: map<Key, Event>, facts: seq<(Key, Fact)>, now: int): map<Key, Event> {
    if facts == [] then events else Upsert(PutFacts(events, facts[..|facts| - 1], now), facts[|facts| - 1], now)
  }

  function PutRows(f: Reader, rows: seq<Row>, events: map<Key, Event>, batch: seq<Row>, now: int): map<Key, Event> {
    if batch == [] then events
    else
      var n := |batch| - 1;
      PutFacts(PutRows(f, rows, events, batch[..n], now), FactsOf(f, rows, batch[n]), now)
  }

  function Ids(rows: seq<Row>): seq<nat> {
    seq(|rows|, i requires 0 <= i < |rows| => rows[i].id)
  }

  function Pass(f: Reader, feed: Feed, s: State, now: int, cap: nat): State {
    var batch := Capped(Pending(feed, s, now), cap);
    if batch == [] then s
    else
      var last := batch[|batch| - 1].id;
      State(s.rows, last, PutRows(f, s.rows, s.events, batch, now), s.projected + Ids(batch),
            if FirstPass(feed, s) then last else s.origin,
            if FirstPass(feed, s) then now - LOOKBACK_S else s.since)
  }

  /** Rows arrive under growing ids between any two passes, and each pass has its own clock and cap. */
  datatype Move = Arrive(row: Row) | Project(now: int, cap: nat)

  function Step(f: Reader, feed: Feed, s: State, m: Move): State {
    match m
    case Arrive(row) => s.(rows := s.rows + [row])
    case Project(now, cap) => Pass(f, feed, s, now, cap)
  }

  const EMPTY := State([], 0, map[], [], 0, 0)

  function Run(f: Reader, feed: Feed, moves: seq<Move>): State {
    if moves == [] then EMPTY else Step(f, feed, Run(f, feed, moves[..|moves| - 1]), moves[|moves| - 1])
  }

  function Arrivals(moves: seq<Move>): seq<Row> {
    if moves == [] then []
    else Arrivals(moves[..|moves| - 1]) + match moves[|moves| - 1] case Arrive(r) => [r] case Project(_, _) => []
  }

  predicate Numbered(rows: seq<Row>) {
    && (forall i :: 0 <= i < |rows| ==> rows[i].id > 0)
    && (forall i, j :: 0 <= i < j < |rows| ==> rows[i].id < rows[j].id)
  }

  // ---------------------------------------------------------------- filters of a numbered table

  lemma {:induction false} FilterSame(rows: seq<Row>, p: Row -> bool, q: Row -> bool)
    requires forall i :: 0 <= i < |rows| ==> p(rows[i]) == q(rows[i])
    ensures Filter(rows, p) == Filter(rows, q)
  {
    if rows != [] {
      FilterSame(rows[..|rows| - 1], p, q);
    }
  }

  lemma {:induction false} FilterIn(rows: seq<Row>, p: Row -> bool, r: Row)
    ensures r in Filter(rows, p) <==> r in rows && p(r)
  {
    if rows != [] {
      FilterIn(rows[..|rows| - 1], p, r);
      assert rows == rows[..|rows| - 1] + [rows[|rows| - 1]];
    }
  }

  lemma {:induction false} FilterNumbered(rows: seq<Row>, p: Row -> bool)
    requires Numbered(rows)
    ensures Numbered(Filter(rows, p))
  {
    if rows != [] {
      var n := |rows| - 1;
      FilterNumbered(rows[..n], p);
      var kept := Filter(rows[..n], p);
      forall i | 0 <= i < |kept|
        ensures kept[i].id < rows[n].id
      {
        FilterIn(rows[..n], p, kept[i]);
      }
    }
  }

  lemma {:induction false} FilterNone(rows: seq<Row>, p: Row -> bool)
    requires forall i :: 0 <= i < |rows| ==> !p(rows[i])
    ensures Filter(rows, p) == []
  {
    if rows != [] {
      FilterNone(rows[..|rows| - 1], p);
    }
  }

  /** The rows kept up to an id, then those kept past it. */
  lemma {:induction false} FilterSplits(rows: seq<Row>, p: Row -> bool, at: nat)
    requires Numbered(rows)
    ensures Filter(rows, p) == Filter(rows, r => p(r) && r.id <= at) + Filter(rows, r => p(r) && r.id > at)
  {
    if rows != [] {
      var n := |rows| - 1;
      FilterSplits(rows[..n], p, at);
      if rows[n].id <= at {
        FilterNone(rows[..n], r => p(r) && r.id > at);
        FilterNone(rows, r => p(r) && r.id > at);
      }
    }
  }

  /** A capped selection is what is selected up to its last id. */
  lemma CappedIsUpTo(rows: seq<Row>, p: Row -> bool, cap: nat)
    requires Numbered(rows)
    ensures var batch := Capped(Filter(rows, p), cap);
            batch != [] ==> batch == Filter(rows, r => p(r) && r.id <= batch[|batch| - 1].id)
  {
    var all := Filter(rows, p);
    var batch := Capped(all, cap);
    if batch != [] {
      var last := batch[|batch| - 1].id;
      FilterNumbered(rows, p);
      var low, high := Filter(rows, r => p(r) && r.id <= last), Filter(rows, r => p(r) && r.id > last);
      FilterSplits(rows, p, last);
      forall i | 0 <= i < |low|
        ensures low[i].id <= last
      {
        FilterIn(rows, r => p(r) && r.id <= last, low[i]);
      }
      forall i | 0 <= i < |high|
        ensures high[i].id > last
      {
        FilterIn(rows, r => p(r) && r.id > last, high[i]);
      }
      SplitPoint(all, low, high, |batch| - 1);
    }
  }

  lemma SplitPoint(all: seq<Row>, low: seq<Row>, high: seq<Row>, k: nat)
    requires all == low + high && k < |all| && Numbered(all)
    requires forall i :: 0 <= i < |low| ==> low[i].id <= all[k].id
    requires forall i :: 0 <= i < |high| ==> high[i].id > all[k].id
    ensures low == all[..k + 1]
  {
    forall i | 0 <= i < |all|
      ensures all[i].id <= all[k].id <==> i < |low|
    {
      var e := if i < |low| then low[i] else high[i - |low|];
    }
    assert all[k].id <= all[k].id;
    if k + 1 < |all| {
      assert all[k + 1].id > all[k].id;
    }
  }

  // ---------------------------------------------------------------- what every run keeps

  /** The rows of the table that were to be projected so far: after the first pass all of them, and
      of those the first pass passed over only the recent ones. */
  function Kept(s: State): seq<Row> {
    Filter(s.rows, (r: Row) => (r.id > s.origin || r.ts >= s.since) && r.id <= s.cursor)
  }

  /** One uncapped projection of some rows onto a table of facts. */
  function Image(f: Reader, rows: seq<Row>, batch: seq<Row>): map<Key, Fact> {
    if batch == [] then map[]
    else
      var n := |batch| - 1;
      AddFacts(Image(f, rows, batch[..n]), FactsOf(f, rows, batch[n]))
  }

  function AddFact(facts: map<Key, Fact>, e: (Key, Fact)): map<Key, Fact> {
    facts[e.0 := if e.0 in facts then facts[e.0].(metrics := e.1.metrics) else e.1]
  }

  function AddFacts(facts: map<Key, Fact>, more: seq<(Key, Fact)>): map<Key, Fact> {
    if more == [] then facts else AddFact(AddFacts(facts, more[..|more| - 1]), more[|more| - 1])
  }

  /** The events but for their time of ingestion. */
  function Forget(events: map<Key, Event>): map<Key, Fact> {
    map k | k in events :: events[k].fact
  }

  lemma {:induction false} ForgetFacts(events: map<Key, Event>, more: seq<(Key, Fact)>, now: int)
    ensures Forget(PutFacts(events, more, now)) == AddFacts(Forget(events), more)
  {
    if more != [] {
      ForgetFacts(events, more[..|more| - 1], now);
    }
  }

  lemma {:induction false} ImageGrows(f: Reader, rows: seq<Row>, events: map<Key, Event>, done: seq<Row>,
                                      batch: seq<Row>, now: int)
    requires Forget(events) == Image(f, rows, done)
    ensures Forget(PutRows(f, rows, events, batch, now)) == Image(f, rows, done + batch)
  {
    if batch == [] {
      assert done + batch == done;
    } else {
      var n := |batch| - 1;
      ImageGrows(f, rows, events, done, batch[..n], now);
      assert (done + batch)[..|done + batch| - 1] == done + batch[..n];
      ForgetFacts(PutRows(f, rows, events, batch[..n], now), FactsOf(f, rows, batch[n]), now);
    }
  }

  /** What a row gives rise to does not depend on the rows that arrive after it. */
  lemma {:induction false} LaterRowsDoNotMatter(f: Reader, rows: seq<Row>, more: seq<Row>, r: Row)
    requires forall i :: 0 <= i < |more| ==> r.id <= more[i].id
    ensures FactsOf(f, rows + more, r) == FactsOf(f, rows, r)
  {
    if more == [] {
      assert rows + more == rows;
    } else {
      var n := |more| - 1;
      LaterRowsDoNotMatter(f, rows, more[..n], r);
      assert (rows + more)[..|rows + more| - 1] == rows + more[..n];
    }
  }

  lemma {:induction false} ImageLocal(f: Reader, rows: seq<Row>, x: Row, batch: seq<Row>)
    requires forall i :: 0 <= i < |batch| ==> batch[i].id <= x.id
    ensures Image(f, rows + [x], batch) == Image(f, rows, batch)
  {
    if batch != [] {
      ImageLocal(f, rows, x, batch[..|batch| - 1]);
      LaterRowsDoNotMatter(f, rows, [x], batch[|batch| - 1]);
    }
  }

  /** Between passes: the events are the image of the kept rows, and the history names each of them
      once and in order. */
  ghost predicate Good(f: Reader, feed: Feed, s: State) {
    && Numbered(s.rows)
    && s.origin <= s.cursor
    && (feed == Snapshots ==> s.origin == 0)
    && (s.cursor > 0 ==> exists i :: 0 <= i < |s.rows| && s.rows[i].id == s.cursor)
    && (feed == Syslog ==> (s.cursor == 0 <==> s.origin == 0))
    && s.projected == Ids(Kept(s))
    && Forget(s.events) == Image(f, s.rows, Kept(s))
  }

  lemma ArrivalKeeps(f: Reader, feed: Feed, s: State, row: Row)
    requires Good(f, feed, s) && Numbered(s.rows + [row])
    ensures Good(f, feed, s.(rows := s.rows + [row]))
  {
    hide FactsOf;
    var t := s.(rows := s.rows + [row]);
    assert t.rows[..|s.rows|] == s.rows;
    if s.cursor > 0 {
      var i :| 0 <= i < |s.rows| && s.rows[i].id == s.cursor;
      assert t.rows[i].id == s.cursor;
      assert t.rows[|s.rows|] == row;
    }
    KeptBelow(s);
    assert Kept(t) == Kept(s);
    ImageLocal(f, s.rows, row, Kept(s));
  }

  lemma KeptBelow(s: State)
    ensures forall i :: 0 <= i < |Kept(s)| ==> Kept(s)[i].id <= s.cursor
  {
    forall i | 0 <= i < |Kept(s)|
      ensures Kept(s)[i].id <= s.cursor
    {
      FilterIn(s.rows, (r: Row) => (r.id > s.origin || r.ts >= s.since) && r.id <= s.cursor, Kept(s)[i]);
    }
  }

  /** A pass extends what is kept by exactly its batch. */
  lemma PassExtends(f: Reader, feed: Feed, s: State, now: int, cap: nat)
    requires Numbered(s.rows) && s.origin <= s.cursor
    requires feed == Syslog ==> (s.cursor == 0 <==> s.origin == 0)
    ensures var batch := Capped(Pending(feed, s, now), cap);
            Kept(Pass(f, feed, s, now, cap)) == Kept(s) + batch
  {
    hide PutRows;
    var p := (r: Row) => r.id > s.cursor && (FirstPass(feed, s) ==> r.ts >= now - LOOKBACK_S);
    var batch := Capped(Filter(s.rows, p), cap);
    if batch != [] {
      var t := Pass(f, feed, s, now, cap);
      CappedIsUpTo(s.rows, p, cap);
      var q := (r: Row) => (r.id > t.origin || r.ts >= t.since) && r.id <= t.cursor;
      FilterIn(s.rows, p, batch[|batch| - 1]);
      FilterSplits(s.rows, q, s.cursor);
      FilterSame(s.rows, r => q(r) && r.id > s.cursor, r => p(r) && r.id <= t.cursor);
      if FirstPass(feed, s) {
        FilterNone(s.rows, r => q(r) && r.id <= s.cursor);
        FilterNone(s.rows, (r: Row) => (r.id > s.origin || r.ts >= s.since) && r.id <= s.cursor);
      } else {
        FilterSame(s.rows, r => q(r) && r.id <= s.cursor,
                   (r: Row) => (r.id > s.origin || r.ts >= s.since) && r.id <= s.cursor);
      }
    }
  }

  lemma PassKeeps(f: Reader, feed: Feed, s: State, now: int, cap: nat)
    requires Good(f, feed, s)
    ensures Good(f, feed, Pass(f, feed, s, now, cap))
  {
    hide FactsOf, Kept, Filter, PutRows, Image;
    var p := (r: Row) => r.id > s.cursor && (FirstPass(feed, s) ==> r.ts >= now - LOOKBACK_S);
    var batch := Capped(Pending(feed, s, now), cap);
    if batch != [] {
      PassExtends(f, feed, s, now, cap);
      ImageGrows(f, s.rows, s.events, Kept(s), batch, now);
      var last := batch[|batch| - 1];
      FilterIn(s.rows, p, last);
      var i :| 0 <= i < |s.rows| && s.rows[i] == last;
    }
  }

  lemma {:induction false} RunKeeps(f: Reader, feed: Feed, moves: seq<Move>)
    requires Numbered(Arrivals(moves))
    ensures Run(f, feed, moves).rows == Arrivals(moves)
    ensures Good(f, feed, Run(f, feed, moves))
  {
    hide Good, Pass;
    if moves == [] {
      EmptyIsGood(f, feed);
    } else {
      var before := moves[..|moves| - 1];
      assert Numbered(Arrivals(before)) by {
        assert Arrivals(before) == Arrivals(moves)[..|Arrivals(before)|];
      }
      RunKeeps(f, feed, before);
      match moves[|moves| - 1] {
        case Arrive(row) => ArrivalKeeps(f, feed, Run(f, feed, before), row);
        case Project(now, cap) =>
          PassKeeps(f, feed, Run(f, feed, before), now, cap);
          PassKeepsRows(f, feed, Run(f, feed, before), now, cap);
      }
    }
  }

  lemma PassKeepsRows(f: Reader, feed: Feed, s: State, now: int, cap: nat)
    ensures Pass(f, feed, s, now, cap).rows == s.rows
  {
  }

  lemma EmptyIsGood(f: Reader, feed: Feed)
    ensures Good(f, feed, EMPTY)
  {
  }

  // ---------------------------------------------------------------- cuts are invisible

  /** Snapshots: however the arrivals were cut into passes, the events up to the cursor are those of
      one uncapped pass over the rows up to the cursor, and each of these rows was projected once. */
  lemma CutsAreInvisible(f: Reader, moves: seq<Move>)
    requires Numbered(Arrivals(moves))
    ensures var s := Run(f, Snapshots, moves);
            var upTo := Filter(s.rows, (r: Row) => r.id <= s.cursor);
            && s.projected == Ids(upTo)
            && Forget(s.events) == Image(f, s.rows, upTo)
  {
    RunKeeps(f, Snapshots, moves);
    var s := Run(f, Snapshots, moves);
    FilterSame(s.rows, (r: Row) => (r.id > s.origin || r.ts >= s.since) && r.id <= s.cursor,
               (r: Row) => r.id <= s.cursor);
  }

  /** Two runs over the same snapshots that got equally far hold the same events. */
  lemma SameProgressSameEvents(f: Reader, moves: seq<Move>, other: seq<Move>)
    requires Numbered(Arrivals(moves)) && Arrivals(moves) == Arrivals(other)
    ensures var s, t := Run(f, Snapshots, moves), Run(f, Snapshots, other);
            s.cursor == t.cursor ==> Forget(s.events) == Forget(t.events) && s.projected == t.projected
  {
    hide Image;
    CutsAreInvisible(f, moves);
    CutsAreInvisible(f, other);
    RunKeeps(f, Snapshots, moves);
    RunKeeps(f, Snapshots, other);
    var s, t := Run(f, Snapshots, moves), Run(f, Snapshots, other);
    if s.cursor == t.cursor {
      FilterSame(s.rows, (r: Row) => r.id <= s.cursor, (r: Row) => r.id <= t.cursor);
    }
  }

  /** Syslog: a row is projected exactly once, or still ahead of the cursor, or passed over for good
      - and this last exactly when the first pass that found something left it behind as too old. */
  lemma EveryLogHasItsFate(f: Reader, moves: seq<Move>, r: Row)
    requires Numbered(Arrivals(moves)) && r in Arrivals(moves)
    ensures var s := Run(f, Syslog, moves);
            && Unrepeated(s.projected)
            && (r.id in s.projected <==> r.id <= s.cursor && (r.id > s.origin || r.ts >= s.since))
            && Forget(s.events) == Image(f, s.rows, Kept(s))
  {
    hide Filter, Image, Numbered;
    RunKeeps(f, Syslog, moves);
    var s := Run(f, Syslog, moves);
    IdsOfFilter(s.rows, (x: Row) => (x.id > s.origin || x.ts >= s.since) && x.id <= s.cursor, r);
  }

  lemma IdsOfFilter(rows: seq<Row>, p: Row -> bool, r: Row)
    requires Numbered(rows) && r in rows
    ensures Unrepeated(Ids(Filter(rows, p)))
    ensures r.id in Ids(Filter(rows, p)) <==> p(r)
  {
    var kept := Filter(rows, p);
    FilterNumbered(rows, p);
    FilterIn(rows, p, r);
    if r in kept {
      var i :| 0 <= i < |kept| && kept[i] == r;
      assert Ids(kept)[i] == r.id;
    }
    if r.id in Ids(kept) {
      var i :| 0 <= i < |kept| && Ids(kept)[i] == r.id;
      FilterIn(rows, p, kept[i]);
      SameIdSameRow(rows, kept[i], r);
    }
  }

  lemma SameIdSameRow(rows: seq<Row>, a: Row, b: Row)
    requires Numbered(rows) && a in rows && b in rows && a.id == b.id
    ensures a == b
  {
    var i :| 0 <= i < |rows| && rows[i] == a;
    var j :| 0 <= j < |rows| && rows[j] == b;
    if i < j {
      assert rows[i].id < rows[j].id;
    } else if j < i {
      assert rows[j].id < rows[i].id;
    }
  }

  /** Where the first pass ended never changes again. */
  lemma OriginIsFixed(f: Reader, s: State, m: Move)
    requires s.cursor > 0
    ensures Step(f, Syslog, s, m).origin == s.origin && Step(f, Syslog, s, m).since == s.since
    ensures Step(f, Snapshots, s, m).origin == s.origin && Step(f, Snapshots, s, m).since == s.since
  {
  }

  // ---------------------------------------------------------------- the events are the facts

  ghost predicate Tagged(facts: seq<(Key, Fact)>, id: nat) {
    && (forall i :: 0 <= i < |facts| ==> facts[i].0.id == id)
    && (forall i, j :: 0 <= i < j < |facts| ==> facts[i].0 != facts[j].0)
  }

  lemma {:induction false} ChangesUnrepeated(before: Items, after: seq<(string, string)>)
    requires KeysUnrepeated(after)
    ensures KeysUnrepeated(Changes(before, after))
    ensures forall item :: item in Changes(before, after) <==> item in after && Changed(before, item)
  {
    if after != [] {
      var n := |after| - 1;
      ChangesUnrepeated(before, after[..n]);
      var rest := Changes(before, after[..n]);
      forall i | 0 <= i < |rest|
        ensures rest[i].0 != after[n].0
      {
        assert rest[i] in after[..n];
      }
      assert after == after[..n] + [after[n]];
    }
  }

  lemma TaggedTogether(a: seq<(Key, Fact)>, b: seq<(Key, Fact)>, id: nat)
    requires Tagged(a, id) && Tagged(b, id)
    requires forall i, j :: 0 <= i < |a| && 0 <= j < |b| ==> a[i].0 != b[j].0
    ensures Tagged(a + b, id)
  {
  }

  /** A row's facts carry its id, under keys that never meet. */
  lemma FactsAreTagged(f: Reader, rows: seq<Row>, r: Row)
    ensures Tagged(FactsOf(f, rows, r), r.id)
  {
    hide ChangeFacts, PortFacts, Changes, Previous, Tagged;
    StateIsTagged(f, r);
    if r.ApiRow? && !Silent(r) {
      PreviousIsApi(rows, r);
      var previous := Previous(rows, r);
      var ports := PortFacts(f, r, f.interfaces(r.kind, r.summary));
      PortsAreTagged(f, r, f.interfaces(r.kind, r.summary));
      if previous.Some? {
        var before := f.stable(previous.value.summary);
        var moved := Moved(f, r, previous.value);
        ChangesUnrepeated(before, f.stable(r.summary));
        ChangesAreTagged(f, r, before, moved);
        TaggedTogether(ChangeFacts(f, r, before, moved), ports, r.id);
        TaggedTogether([StateFact(f, r)], ChangeFacts(f, r, before, moved) + ports, r.id);
      } else {
        TaggedTogether([StateFact(f, r)], ports, r.id);
        assert [] + ports == ports;
      }
    }
  }

  lemma StateIsTagged(f: Reader, r: Row)
    ensures r.LogRow? ==> Tagged([LogFact(f, r)], r.id)
    ensures r.ApiRow? ==> Tagged([StateFact(f, r)], r.id) && Tagged([StateFact(f, r)] + [], r.id)
  {
  }

  lemma ChangesAreTagged(f: Reader, r: Row, before: Items, items: seq<(string, string)>)
    requires r.ApiRow? && KeysUnrepeated(items)
    ensures Tagged(ChangeFacts(f, r, before, items), r.id)
    ensures forall e :: e in ChangeFacts(f, r, before, items) ==> e.0.ChangeKey?
  {
  }

  lemma PortsAreTagged(f: Reader, r: Row, ifaces: seq<string>)
    requires r.ApiRow? && Unrepeated(ifaces)
    ensures Tagged(PortFacts(f, r, ifaces), r.id)
    ensures forall e :: e in PortFacts(f, r, ifaces) ==> e.0.PortKey?
  {
  }

  ghost predicate HasKey(facts: seq<(Key, Fact)>, k: Key) {
    exists i :: 0 <= i < |facts| && facts[i].0 == k
  }

  lemma HasKeySnoc(facts: seq<(Key, Fact)>, k: Key)
    requires facts != []
    ensures HasKey(facts, k) <==> HasKey(facts[..|facts| - 1], k) || facts[|facts| - 1].0 == k
  {
    var n := |facts| - 1;
    forall i | 0 <= i < n
      ensures facts[..n][i] == facts[i]
    {
    }
  }

  lemma {:induction false} AddFactsExactly(facts: map<Key, Fact>, more: seq<(Key, Fact)>, id: nat)
    requires Tagged(more, id) && forall k :: k in facts ==> k.id < id
    ensures forall k :: k in AddFacts(facts, more) <==> k in facts || HasKey(more, k)
    ensures forall i :: 0 <= i < |more| ==>
                          more[i].0 in AddFacts(facts, more) && AddFacts(facts, more)[more[i].0] == more[i].1
    ensures forall k :: k in facts ==> AddFacts(facts, more)[k] == facts[k]
  {
    if more != [] {
      var n := |more| - 1;
      AddFactsExactly(facts, more[..n], id);
      forall k
        ensures HasKey(more, k) <==> HasKey(more[..n], k) || more[n].0 == k
      {
        HasKeySnoc(more, k);
      }
      hide HasKey;
      assert more[n].0 !in AddFacts(facts, more[..n]) by {
        LastKeyIsNew(more);
      }
    }
  }

  lemma LastKeyIsNew(more: seq<(Key, Fact)>)
    requires more != [] && Tagged(more, more[0].0.id)
    ensures !HasKey(more[..|more| - 1], more[|more| - 1].0)
  {
  }

  ghost predicate FactOf(f: Reader, rows: seq<Row>, r: Row, k: Key, e: Fact) {
    (k, e) in FactsOf(f, rows, r)
  }

  ghost predicate Accounted(f: Reader, rows: seq<Row>, batch: seq<Row>, k: Key) {
    exists r :: r in batch && r.id == k.id && exists e :: FactOf(f, rows, r, k, e)
  }

  /** The image holds exactly the facts of its rows: nothing is overwritten, nothing invented. */
  lemma {:induction false} ImageIsTheFacts(f: Reader, rows: seq<Row>, batch: seq<Row>)
    requires Numbered(batch)
    ensures forall k :: k in Image(f, rows, batch) <==> Accounted(f, rows, batch, k)
    ensures forall r, k, e :: r in batch && FactOf(f, rows, r, k, e) ==>
                                k in Image(f, rows, batch) && Image(f, rows, batch)[k] == e
  {
    hide FactsOf;
    if batch != [] {
      var n := |batch| - 1;
      var r := batch[n];
      var before := Image(f, rows, batch[..n]);
      var more := FactsOf(f, rows, r);
      ImageIsTheFacts(f, rows, batch[..n]);
      FactsAreTagged(f, rows, r);
      AddFactsExactly(before, more, r.id);
      forall k
        ensures k in Image(f, rows, batch) <==> Accounted(f, rows, batch, k)
      {
        AccountedGrows(f, rows, batch, k);
      }
      assert batch == batch[..n] + [r];
    }
  }

  lemma AccountedGrows(f: Reader, rows: seq<Row>, batch: seq<Row>, k: Key)
    requires Numbered(batch) && batch != []
    ensures var n, more := |batch| - 1, FactsOf(f, rows, batch[|batch| - 1]);
            Accounted(f, rows, batch, k) <==>
            Accounted(f, rows, batch[..n], k) || HasKey(more, k)
  {
    hide FactsOf;
    var n := |batch| - 1;
    var more := FactsOf(f, rows, batch[n]);
    FactsAreTagged(f, rows, batch[n]);
    assert batch == batch[..n] + [batch[n]];
    if i :| 0 <= i < |more| && more[i].0 == k {
      assert FactOf(f, rows, batch[n], k, more[i].1);
    }
  }

  // ---------------------------------------------------------------- progress

  /** A pass over anything pending projects the next rows, as many as the cap allows, silent polls
      like any others. */
  lemma PassAdvances(f: Reader, feed: Feed, s: State, now: int, cap: nat)
    requires Numbered(s.rows) && !FirstPass(feed, s)
    ensures var t := Pass(f, feed, s, now, cap);
            && t.projected == s.projected + Ids(Capped(Pending(feed, s, now), cap))
            && Pending(feed, t, now) == Pending(feed, s, now)[|Capped(Pending(feed, s, now), cap)|..]
  {
    hide FactsOf, PutRows, Image, Kept;
    var p := (r: Row) => r.id > s.cursor && (FirstPass(feed, s) ==> r.ts >= now - LOOKBACK_S);
    var all := Pending(feed, s, now);
    var batch := Capped(all, cap);
    if batch != [] {
      var t := Pass(f, feed, s, now, cap);
      var last := batch[|batch| - 1].id;
      RestIsBeyond(s.rows, p, cap);
      FilterIn(s.rows, p, batch[|batch| - 1]);
      hide Filter, Numbered, Ids;
      FilterSame(s.rows, r => p(r) && r.id > last,
                 (r: Row) => r.id > t.cursor && (FirstPass(feed, t) ==> r.ts >= now - LOOKBACK_S));
    }
  }

  /** What a cap leaves are the chosen rows beyond the last one taken. */
  lemma RestIsBeyond(rows: seq<Row>, p: Row -> bool, cap: nat)
    requires Numbered(rows)
    ensures var all := Filter(rows, p);
            var batch := Capped(all, cap);
            batch != [] ==> all[|batch|..] == Filter(rows, r => p(r) && r.id > batch[|batch| - 1].id)
  {
    hide Filter;
    var all := Filter(rows, p);
    var batch := Capped(all, cap);
    if batch != [] {
      CappedIsUpTo(rows, p, cap);
      FilterSplits(rows, p, batch[|batch| - 1].id);
    }
  }

  function Passes(f: Reader, feed: Feed, s: State, clock: seq<int>, cap: nat): State
    decreases |clock|
  {
    if clock == [] then s else Passes(f, feed, Pass(f, feed, s, clock[0], cap), clock[1..], cap)
  }

  lemma PendingAtAnyTime(feed: Feed, s: State, now: int, later: int)
    requires !FirstPass(feed, s)
    ensures Pending(feed, s, now) == Pending(feed, s, later)
  {
    FilterSame(s.rows, (r: Row) => r.id > s.cursor && (FirstPass(feed, s) ==> r.ts >= now - LOOKBACK_S),
               (r: Row) => r.id > s.cursor && (FirstPass(feed, s) ==> r.ts >= later - LOOKBACK_S));
  }

  lemma PassShrinks(f: Reader, feed: Feed, s: State, at: int, cap: nat, now: int)
    requires Numbered(s.rows) && !FirstPass(feed, s)
    ensures var t := Pass(f, feed, s, at, cap);
            && t.rows == s.rows && !FirstPass(feed, t)
            && |Pending(feed, t, now)| == if |Pending(feed, s, now)| <= cap then 0 else |Pending(feed, s, now)| - cap
  {
    hide Numbered, Pending, Pass, FirstPass;
    var t := Pass(f, feed, s, at, cap);
    PassKeepsRows(f, feed, s, at, cap);
    PassAdvances(f, feed, s, at, cap);
    PendingAtAnyTime(feed, s, now, at);
    StillLater(f, feed, s, at, cap);
    PendingAtAnyTime(feed, t, now, at);
  }

  /** Enough capped passes leave nothing behind. */
  lemma {:induction false} PassesDrain(f: Reader, feed: Feed, s: State, clock: seq<int>, cap: nat, now: int)
    requires Numbered(s.rows) && !FirstPass(feed, s)
    requires |Pending(feed, s, now)| <= |clock| * cap
    ensures Pending(feed, Passes(f, feed, s, clock, cap), now) == []
    ensures !FirstPass(feed, Passes(f, feed, s, clock, cap))
    decreases |clock|
  {
    hide Numbered, Pending, Pass, FirstPass;
    if clock == [] {
      assert |clock| * cap == 0;
    } else {
      var t := Pass(f, feed, s, clock[0], cap);
      PassShrinks(f, feed, s, clock[0], cap, now);
      assert |clock| * cap == |clock[1..]| * cap + cap;
      PassesDrain(f, feed, t, clock[1..], cap, now);
    }
  }

  lemma StillLater(f: Reader, feed: Feed, s: State, now: int, cap: nat)
    requires !FirstPass(feed, s)
    ensures !FirstPass(feed, Pass(f, feed, s, now, cap))
  {
    hide PutRows;
    var p := (r: Row) => r.id > s.cursor && (FirstPass(feed, s) ==> r.ts >= now - LOOKBACK_S);
    var batch := Capped(Pending(feed, s, now), cap);
    if batch != [] {
      FilterIn(s.rows, p, batch[|batch| - 1]);
    }
  }

  // ---------------------------------------------------------------- the adapters

  class Store {
    var rows: seq<Row>
    var cursor: nat
    var events: map<Key, Event>

    /** ``_emit``. */
    method Emit(e: (Key, Fact), now: int)
      modifies `events
      ensures events == Upsert(old(events), e, now)
      ensures e.0 in old(events) ==>
                var was := old(events)[e.0];
                events == old(events)[e.0 := Event(was.fact.(metrics := e.1.metrics), was.ingested)]
      ensures e.0 !in old(events) ==> events == old(events)[e.0 := Event(e.1, now)]
    {
      if e.0 in events {
        events := events[e.0 := events[e.0].(fact := events[e.0].fact.(metrics := e.1.metrics))];
      } else {
        events := events[e.0 := Event(e.1, now)];
      }
    }

    lemma PutSnoc(start: map<Key, Event>, facts: seq<(Key, Fact)>, e: (Key, Fact), now: int)
      ensures PutFacts(start, facts + [e], now) == Upsert(PutFacts(start, facts, now), e, now)
    {
      assert (facts + [e])[..|facts|] == facts;
    }

    /** The changed fields of a snapshot, at most so many of them. */
    method FindChanges(before: Items, after: Items) returns (changed: seq<(string, string)>)
      ensures changed == Capped(Changes(before, after), MAX_CHANGES_PER_SNAPSHOT)
    {
      changed := [];
      for i := 0 to |after|
        invariant changed == Changes(before, after[..i])
      {
        assert after[..i + 1][..i] == after[..i];
        if Changed(before, after[i]) {
          changed := changed + [after[i]];
        }
      }
      assert after[..|after|] == after;
      changed := Capped(changed, MAX_CHANGES_PER_SNAPSHOT);
    }

    method EmitChanges(f: Reader, r: Row, before: Items, changed: seq<(string, string)>, now: int)
      requires r.ApiRow?
      modifies `events
      ensures events == PutFacts(old(events), ChangeFacts(f, r, before, changed), now)
    {
      hide ChangeFact, Upsert;
      for i := 0 to |changed|
        invariant events == PutFacts(old(events), ChangeFacts(f, r, before, changed[..i]), now)
      {
        var e := ChangeFact(f, r, before, changed[i]);
        PutSnoc(old(events), ChangeFacts(f, r, before, changed[..i]), e, now);
        assert ChangeFacts(f, r, before, changed[..i + 1]) == ChangeFacts(f, r, before, changed[..i]) + [e];
        Emit(e, now);
      }
      assert changed[..|changed|] == changed;
    }

    method EmitPorts(f: Reader, r: Row, ifaces: seq<string>, now: int)
      requires r.ApiRow?
      modifies `events
      ensures events == PutFacts(old(events), PortFacts(f, r, ifaces), now)
    {
      hide PortFact, Upsert;
      for i := 0 to |ifaces|
        invariant events == PutFacts(old(events), PortFacts(f, r, ifaces[..i]), now)
      {
        var e := PortFact(f, r, ifaces[i]);
        PutSnoc(old(events), PortFacts(f, r, ifaces[..i]), e, now);
        assert PortFacts(f, r, ifaces[..i + 1]) == PortFacts(f, r, ifaces[..i]) + [e];
        Emit(e, now);
      }
      assert ifaces[..|ifaces|] == ifaces;
    }

    static lemma {:induction false} PutAppend(start: map<Key, Event>, a: seq<(Key, Fact)>, b: seq<(Key, Fact)>,
                                             now: int)
      ensures PutFacts(start, a + b, now) == PutFacts(PutFacts(start, a, now), b, now)
    {
      if b == [] {
        assert a + b == a;
      } else {
        PutAppend(start, a, b[..|b| - 1], now);
        assert (a + b)[..|a + b| - 1] == a + b[..|b| - 1];
      }
    }

    method EmitSnapshot(f: Reader, r: Row, now: int)
      requires r.ApiRow?
      modifies `events
      ensures events == PutFacts(old(events), FactsOf(f, rows, r), now)
    {
      hide StateFact, ChangeFacts, PortFacts, Changes, Capped, Upsert, Previous, FactsOf, PutFacts;
      PreviousIsApi(rows, r);
      FactsInOrder(f, rows, r);
      var state := StateFact(f, r);
      PutOne(events, state, now);
      Emit(state, now);
      if Silent(r) {
        return;
      }
      var previous := Previous(rows, r);
      ghost var changes: seq<(Key, Fact)> := [];
      if previous.Some? {
        var before := f.stable(previous.value.summary);
        var changed := FindChanges(before, f.stable(r.summary));
        changes := ChangeFacts(f, r, before, changed);
        EmitChanges(f, r, before, changed, now);
      }
      var ifaces := f.interfaces(r.kind, r.summary);
      EmitPorts(f, r, ifaces, now);
      PutAppend(old(events), [state], changes, now);
      PutAppend(old(events), [state] + changes, PortFacts(f, r, ifaces), now);
      assert previous.None? ==> [state] + changes == [state];
    }

    static lemma FactsInOrder(f: Reader, rows: seq<Row>, r: Row)
      requires r.ApiRow? && (Previous(rows, r).Some? ==> Previous(rows, r).value.ApiRow?)
      ensures FactsOf(f, rows, r)
              == if Silent(r) then [StateFact(f, r)]
                 else match Previous(rows, r)
                      case None => [StateFact(f, r)] + PortFacts(f, r, f.interfaces(r.kind, r.summary))
                      case Some(p) =>
                        [StateFact(f, r)] + ChangeFacts(f, r, f.stable(p.summary), Moved(f, r, p))
                        + PortFacts(f, r, f.interfaces(r.kind, r.summary))
    {
      hide StateFact, ChangeFacts, PortFacts, Previous, Moved;
      assert [StateFact(f, r)] + [] == [StateFact(f, r)];
      var ports := PortFacts(f, r, f.interfaces(r.kind, r.summary));
      assert [] + ports == ports;
    }

    static lemma PutOne(start: map<Key, Event>, e: (Key, Fact), now: int)
      ensures PutFacts(start, [e], now) == Upsert(start, e, now) && PutFacts(start, [], now) == start
    {
      hide Upsert;
      assert [e][..0] == [];
    }

    /** The loop over the selected rows; ``lastId`` ends as the greatest id met. */
    method EmitBatch(f: Reader, batch: seq<Row>, now: int) returns (lastId: nat)
      requires Numbered(batch) && forall i :: 0 <= i < |batch| ==> batch[i].id > cursor
      modifies `events
      ensures events == PutRows(f, rows, old(events), batch, now)
      ensures lastId == if batch == [] then cursor else batch[|batch| - 1].id
    {
      hide FactsOf, Upsert, PutFacts;
      lastId := cursor;
      for i := 0 to |batch|
        invariant events == PutRows(f, rows, old(events), batch[..i], now)
        invariant lastId == if i == 0 then cursor else batch[i - 1].id
      {
        var r := batch[i];
        assert batch[..i + 1][..i] == batch[..i];
        if r.LogRow? {
          EmitLog(f, r, now);
        } else {
          EmitSnapshot(f, r, now);
        }
        if r.id > lastId {
          lastId := r.id;
        }
      }
      assert batch[..|batch|] == batch;
    }

    static lemma NothingPut(f: Reader, rows: seq<Row>, events: map<Key, Event>, now: int)
      ensures PutRows(f, rows, events, [], now) == events
    {
    }

    /** What the query of an adapter selects. */
    static lemma SelectedIsPending(feed: Feed, s: State, now: int, cap: nat, p: Row -> bool)
      requires Numbered(s.rows)
      requires forall r :: p(r) == (r.id > s.cursor && (FirstPass(feed, s) ==> r.ts >= now - LOOKBACK_S))
      ensures Filter(s.rows, p) == Pending(feed, s, now)
      ensures var batch := Capped(Filter(s.rows, p), cap);
              Numbered(batch) && forall i :: 0 <= i < |batch| ==> batch[i].id > s.cursor
    {
      FilterSame(s.rows, p, (r: Row) => r.id > s.cursor && (FirstPass(feed, s) ==> r.ts >= now - LOOKBACK_S));
      FilterNumbered(s.rows, p);
      forall i | 0 <= i < |Filter(s.rows, p)|
        ensures Filter(s.rows, p)[i].id > s.cursor
      {
        FilterIn(s.rows, p, Filter(s.rows, p)[i]);
      }
    }

    /** ``_from_syslog`` and ``_from_api_observations``: the selected rows in id order, then the
        cursor. */
    method Project(f: Reader, feed: Feed, now: int, cap: nat) returns (count: nat, ghost after: State)
      requires Numbered(rows)
      modifies `events, `cursor
      ensures after == Pass(f, feed, State(rows, old(cursor), old(events), [], 0, 0), now, cap)
      ensures cursor == after.cursor && events == after.events && count == |after.projected|
    {
      hide FactsOf, PutRows;
      ghost var s := State(rows, cursor, events, [], 0, 0);
      after := Pass(f, feed, s, now, cap);
      var limited := feed == Syslog && cursor == 0;
      var at := cursor;
      var p := (r: Row) => r.id > at && (limited ==> r.ts >= now - LOOKBACK_S);
      var selected := Filter(rows, p);
      SelectedIsPending(feed, s, now, cap, p);
      hide Filter, Pending, Numbered, Capped;
      var batch := Capped(selected, cap);
      assert batch == Capped(Pending(feed, s, now), cap);
      var lastId := EmitBatch(f, batch, now);
      NothingPut(f, rows, s.events, now);
      if batch != [] {
        cursor := lastId;
      }
      count := |batch|;
    }

    method EmitLog(f: Reader, r: Row, now: int)
      requires r.LogRow?
      modifies `events
      ensures events == PutFacts(old(events), FactsOf(f, rows, r), now)
    {
      hide LogFact, Upsert;
      PutSnoc(events, [], LogFact(f, r), now);
      assert [] + [LogFact(f, r)] == [LogFact(f, r)];
      Emit(LogFact(f, r), now);
    }
  }
}
