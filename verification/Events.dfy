/** observability/normalize.py: what the event table holds, in terms of the rows it was projected from,
    without the functions that project them. */
module Events {
  import opened Wrappers
  import opened Projection

  // ---------------------------------------------------------------- what a row gives rise to

  /** ``p`` is the latest snapshot of the same device and kind before ``r``. */
  ghost predicate Precedes(rows: seq<Row>, r: Row, p: Row) {
    && p in rows && SameSeries(p, r) && p.id < r.id
    && (forall q :: q in rows && SameSeries(q, r) && q.id < r.id ==> q.id <= p.id)
  }

  predicate SameSeries(a: Row, b: Row) {
    a.ApiRow? && b.ApiRow? && a.device == b.device && a.kind == b.kind
  }

  /** The field was there with another value. */
  ghost predicate Differs(before: seq<(string, string)>, item: (string, string)) {
    exists i :: 0 <= i < |before| && before[i].0 == item.0 && before[i].1 != item.1
  }

  /** The positions before ``n`` of the fields that differ. */
  ghost function Differing(before: seq<(string, string)>, after: seq<(string, string)>, n: nat): set<nat>
    requires n <= |after|
  {
    set m: nat | m < n && Differs(before, after[m])
  }

  /** The ``n``-th field is one of the first twenty that differ. */
  ghost predicate Reported(before: seq<(string, string)>, after: seq<(string, string)>, n: int) {
    0 <= n < |after| && Differs(before, after[n]) && |Differing(before, after, n)| < 20
  }

  /** Where a snapshot of this kind comes from. */
  ghost predicate ComesFrom(kind: string, source: string) {
    var snmp, linux, windows := "snmp_" <= kind, "linux_" <= kind, "windows_" <= kind;
    && (snmp ==> source == "snmp")
    && (linux ==> source == "linux")
    && (windows ==> source == "windows")
    && (!snmp && !linux && !windows ==> source == "fortigate_api")
  }

  /** The event is about the row. */
  ghost predicate Dated(r: Row, e: Fact) {
    e.ts == r.ts && e.tenant == r.tenant && e.sourceId == r.id && e.device == r.device
  }

  ghost predicate GivesLog(f: Reader, r: Row, e: Fact) {
    r.LogRow? && Dated(r, e) && e.source == "syslog" && e.iface.None? && e.severity == r.severity &&
    var read := f.logFields(r.message);
    var action := if r.action != "" then r.action else read.action;
    && e.eventType == (if f.security(action) then LogSecurity else LogEvent)
    && e.entity == (if r.device != "" then r.device else if read.src != "" then read.src else "sconosciuto")
    && e.attrs == f.logAttrs(r, action)
    && e.metrics == if read.bytes == 0 then map[] else map["bytes" := read.bytes]
  }

  /** A poll without an answer is reported as such, and carries nothing that was measured. */
  ghost predicate GivesState(f: Reader, r: Row, e: Fact) {
    r.ApiRow? && Dated(r, e) && ComesFrom(r.kind, e.source) && e.iface.None? && e.severity.None? &&
    var silent := r.kind == "snmp_silent";
    && e.eventType == (if silent then DeviceUnreachable else DeviceState)
    && e.entity == r.device && e.attrs == map["kind" := r.kind]
    && e.metrics == if silent || f.ifaceKind(r.kind) then map[] else f.measured(r.summary)
  }

  /** What a change event says of one field, the values before and after being given. */
  ghost predicate TellsChange(f: Reader, r: Row, field: string, was: string, now: string, e: Fact) {
    && r.ApiRow? && Dated(r, e) && ComesFrom(r.kind, e.source) && e.severity == Some(5) && e.metrics == map[]
    && e.attrs == map["kind" := r.kind, "field" := field, "before" := was, "after" := now]
    && e.iface == f.ifaceOf(field, r.kind)
    && e.eventType == (if e.iface.Some? then InterfaceChange else DeviceChange)
    && e.entity == if e.iface.Some? then r.device + ":" + e.iface.value else r.device
  }

  /** Among the first twenty fields that differ from an earlier snapshot, with both values. */
  ghost predicate Moves(f: Reader, p: Row, r: Row, field: string, was: string, now: string)
    requires p.ApiRow? && r.ApiRow?
  {
    var before, after := f.stable(p.summary), f.stable(r.summary);
    exists n, b :: Reported(before, after, n) && after[n] == (field, now)
                   && 0 <= b < |before| && before[b] == (field, was)
  }

  /** A change of a field since the latest earlier snapshot of the series. */
  ghost predicate GivesChange(f: Reader, rows: seq<Row>, r: Row, field: string, e: Fact) {
    r.ApiRow? && r.kind != "snmp_silent" &&
    exists p, was, now :: Precedes(rows, r, p) && Moves(f, p, r, field, was, now)
                     && TellsChange(f, r, field, was, now, e)
  }

  ghost predicate GivesPort(f: Reader, r: Row, iface: string, e: Fact) {
    && r.ApiRow? && r.kind != "snmp_silent" && Dated(r, e) && ComesFrom(r.kind, e.source)
    && iface in f.interfaces(r.kind, r.summary)
    && e.eventType == InterfaceState && e.entity == r.device + ":" + iface && e.iface == Some(iface)
    && e.severity.None? && e.attrs == f.portState(r.summary, iface) && e.metrics == f.portMetrics(r.summary, iface)
  }

  ghost predicate Gives(f: Reader, rows: seq<Row>, r: Row, k: Key, e: Fact) {
    r.id == k.id &&
    match k
    case LogKey(_) => GivesLog(f, r, e)
    case ApiKey(_) => GivesState(f, r, e)
    case ChangeKey(_, field) => GivesChange(f, rows, r, field, e)
    case PortKey(_, iface) => GivesPort(f, r, iface, e)
  }

  // ---------------------------------------------------------------- the functions give just that

  /** The last row of a table has the greatest id. */
  lemma LastIsGreatest(rows: seq<Row>, q: Row)
    requires rows != [] && Numbered(rows)
    ensures q in rows <==> q in rows[..|rows| - 1] || q == rows[|rows| - 1]
    ensures q in rows[..|rows| - 1] ==> q.id < rows[|rows| - 1].id
  {
    assert rows == rows[..|rows| - 1] + [rows[|rows| - 1]];
    if q in rows[..|rows| - 1] {
      var i :| 0 <= i < |rows| - 1 && rows[..|rows| - 1][i] == q;
    }
  }

  lemma PrecedesSplits(rows: seq<Row>, r: Row, p: Row)
    requires rows != [] && Numbered(rows)
    ensures var n := |rows| - 1;
            Precedes(rows, r, p) <==>
            if SameSeries(rows[n], r) && rows[n].id < r.id then p == rows[n] else Precedes(rows[..n], r, p)
  {
    hide Numbered;
    var n := |rows| - 1;
    forall q ensures q in rows <==> q in rows[..n] || q == rows[n]
             ensures q in rows[..n] ==> q.id < rows[n].id
    {
      LastIsGreatest(rows, q);
    }
    assert rows[n] in rows;
  }

  lemma {:induction false} PreviousPrecedes(rows: seq<Row>, r: Row)
    requires r.ApiRow? && Numbered(rows)
    ensures forall p :: Previous(rows, r) == Some(p) <==> Precedes(rows, r, p)
  {
    if rows != [] {
      PreviousPrecedes(rows[..|rows| - 1], r);
      hide Precedes;
      forall p ensures Previous(rows, r) == Some(p) <==> Precedes(rows, r, p) {
        PrecedesSplits(rows, r, p);
      }
    }
  }

  lemma {:induction false} ValueIsThere(items: seq<(string, string)>, key: string)
    requires KeysUnrepeated(items)
    ensures forall v :: ValueOf(items, key) == Some(v) <==> exists i :: 0 <= i < |items| && items[i] == (key, v)
  {
    if items != [] {
      ValueIsThere(items[1..], key);
      forall v ensures ValueOf(items, key) == Some(v) <==> exists i :: 0 <= i < |items| && items[i] == (key, v) {
        if i :| 0 <= i < |items| && items[i] == (key, v) {
          assert i > 0 ==> items[1..][i - 1] == (key, v);
        }
        if items[0].0 != key && ValueOf(items, key) == Some(v) {
          var i :| 0 <= i < |items| - 1 && items[1..][i] == (key, v);
          assert items[i + 1] == (key, v);
        }
      }
    }
  }

  lemma ChangedDiffers(before: Items, item: (string, string))
    ensures Changed(before, item) <==> Differs(before, item)
  {
    ValueIsThere(before, item.0);
    hide ValueOf;
    var was := ValueOf(before, item.0);
    if Differs(before, item) {
      var i :| 0 <= i < |before| && before[i].0 == item.0 && before[i].1 != item.1;
      assert before[i] == (item.0, before[i].1);
    }
    if Changed(before, item) {
      var i :| 0 <= i < |before| && before[i] == (item.0, was.value);
    }
  }

  /** The changes are the fields that differ, each at the place that the number of those before it says. */
  lemma {:induction false} ChangesInPlace(before: Items, after: seq<(string, string)>, n: nat)
    requires n < |after|
    ensures |Differing(before, after, n)| <= |Changes(before, after)|
    ensures Differs(before, after[n]) ==>
              var k := |Differing(before, after, n)|;
              k < |Changes(before, after)| && Changes(before, after)[k] == after[n]
  {
    var m := |after| - 1;
    if n < m {
      ChangesInPlace(before, after[..m], n);
      assert Differing(before, after[..m], n) == Differing(before, after, n);
    } else {
      CountsDiffering(before, after[..m]);
      assert Differing(before, after[..m], m) == Differing(before, after, m);
      ChangedDiffers(before, after[n]);
    }
  }

  lemma {:induction false} CountsDiffering(before: Items, after: seq<(string, string)>)
    ensures |Differing(before, after, |after|)| == |Changes(before, after)|
  {
    if after == [] {
      assert Differing(before, after, 0) == {};
    } else {
      var m := |after| - 1;
      CountsDiffering(before, after[..m]);
      ChangedDiffers(before, after[m]);
      var front := Differing(before, after[..m], m);
      assert Differing(before, after, m + 1) == if Differs(before, after[m]) then front + {m} else front;
    }
  }

  lemma {:induction false} ChangesComeFrom(before: Items, after: seq<(string, string)>, k: nat) returns (n: nat)
    requires k < |Changes(before, after)|
    ensures n < |after| && Differs(before, after[n]) && |Differing(before, after, n)| == k
    ensures Changes(before, after)[k] == after[n]
  {
    var m := |after| - 1;
    if k < |Changes(before, after[..m])| {
      n := ChangesComeFrom(before, after[..m], k);
      assert Differing(before, after[..m], n) == Differing(before, after, n);
    } else {
      n := m;
      CountsDiffering(before, after[..m]);
      assert Differing(before, after[..m], m) == Differing(before, after, m);
      ChangedDiffers(before, after[m]);
    }
  }

  /** Under the cap are exactly the first twenty fields that differ. */
  lemma CappedIsReported(before: Items, after: seq<(string, string)>, item: (string, string))
    ensures item in Capped(Changes(before, after), MAX_CHANGES_PER_SNAPSHOT)
            <==> exists n :: Reported(before, after, n) && after[n] == item
  {
    var capped := Capped(Changes(before, after), MAX_CHANGES_PER_SNAPSHOT);
    if item in capped {
      var k :| 0 <= k < |capped| && capped[k] == item;
      var n := ChangesComeFrom(before, after, k);
      assert Reported(before, after, n);
    }
    if n :| Reported(before, after, n) && after[n] == item {
      ChangesInPlace(before, after, n);
      assert capped[|Differing(before, after, n)|] == item;
    }
  }

  lemma SourceComes(kind: string)
    ensures forall source :: ComesFrom(kind, source) <==> source == SourceOf(kind)
  {
    assert "snmp_" <= kind <==> StartsWith(kind, "snmp_");
    assert "linux_" <= kind <==> StartsWith(kind, "linux_");
    assert "windows_" <= kind <==> StartsWith(kind, "windows_");
    assert "snmp_"[0] != "linux_"[0] && "snmp_"[0] != "windows_"[0] && "linux_"[0] != "windows_"[0];
  }

  lemma LogIsGiven(f: Reader, rows: seq<Row>, r: Row, k: Key, e: Fact)
    requires r.LogRow?
    ensures FactOf(f, rows, r, k, e) <==> Gives(f, rows, r, k, e)
  {
    assert FactsOf(f, rows, r) == [LogFact(f, r)];
  }

  lemma StateIsGiven(f: Reader, r: Row, k: Key, e: Fact)
    requires r.ApiRow?
    ensures (k, e) == StateFact(f, r) <==> k == ApiKey(r.id) && GivesState(f, r, e)
  {
    hide SourceOf, ComesFrom;
    SourceComes(r.kind);
  }

  lemma PortsAreGiven(f: Reader, r: Row, k: Key, e: Fact)
    requires r.ApiRow? && !Silent(r)
    ensures (k, e) in PortFacts(f, r, f.interfaces(r.kind, r.summary))
            <==> k.PortKey? && k.id == r.id && GivesPort(f, r, k.iface, e)
  {
    hide SourceOf, ComesFrom;
    SourceComes(r.kind);
    var ifaces: seq<string> := f.interfaces(r.kind, r.summary);
    var facts := PortFacts(f, r, ifaces);
    if (k, e) in facts {
      var i :| 0 <= i < |facts| && facts[i] == (k, e);
      assert PortFact(f, r, ifaces[i]) == (k, e);
    }
    if k.PortKey? && k.id == r.id && GivesPort(f, r, k.iface, e) {
      var i :| 0 <= i < |ifaces| && ifaces[i] == k.iface;
      assert facts[i] == PortFact(f, r, ifaces[i]) == (k, e);
    }
  }

  lemma ChangeTells(f: Reader, r: Row, before: Items, item: (string, string), k: Key, e: Fact)
    requires r.ApiRow? && ValueOf(before, item.0).Some?
    ensures (k, e) == ChangeFact(f, r, before, item)
            <==> k == ChangeKey(r.id, item.0) && TellsChange(f, r, item.0, ValueOf(before, item.0).value, item.1, e)
  {
    hide SourceOf, ComesFrom, ValueOf;
    SourceComes(r.kind);
  }

  lemma ChangesAreGiven(f: Reader, r: Row, p: Row, k: Key, e: Fact)
    requires r.ApiRow? && p.ApiRow?
    ensures (k, e) in ChangeFacts(f, r, f.stable(p.summary), Moved(f, r, p))
            <==> k.ChangeKey? && k.id == r.id
                 && exists was, now :: Moves(f, p, r, k.field, was, now) && TellsChange(f, r, k.field, was, now, e)
  {
    if (k, e) in ChangeFacts(f, r, f.stable(p.summary), Moved(f, r, p)) {
      var was, now := ChangeIsMove(f, r, p, k, e);
    }
    if k.ChangeKey? && k.id == r.id
       && exists was, now :: Moves(f, p, r, k.field, was, now) && TellsChange(f, r, k.field, was, now, e) {
      var was, now :| Moves(f, p, r, k.field, was, now) && TellsChange(f, r, k.field, was, now, e);
      MoveIsChange(f, r, p, k, e, was, now);
    }
  }

  lemma ChangeIsMove(f: Reader, r: Row, p: Row, k: Key, e: Fact) returns (was: string, now: string)
    requires r.ApiRow? && p.ApiRow? && (k, e) in ChangeFacts(f, r, f.stable(p.summary), Moved(f, r, p))
    ensures k.ChangeKey? && k.id == r.id
    ensures Moves(f, p, r, k.field, was, now) && TellsChange(f, r, k.field, was, now, e)
  {
    var before: Items, after: Items := f.stable(p.summary), f.stable(r.summary);
    var moved := Moved(f, r, p);
    var facts := ChangeFacts(f, r, before, moved);
    hide Changes, Capped, TellsChange, Reported, ChangeFact, ValueOf;
    var i :| 0 <= i < |facts| && facts[i] == (k, e);
    var item := moved[i];
    CappedIsReported(before, after, item);
    MovedHadValue(before, after, item);
    ValueIsThere(before, item.0);
    ChangeTells(f, r, before, item, k, e);
    was, now := ValueOf(before, item.0).value, item.1;
  }

  lemma MoveIsChange(f: Reader, r: Row, p: Row, k: Key, e: Fact, was: string, now: string)
    requires r.ApiRow? && p.ApiRow? && k.ChangeKey? && k.id == r.id
    requires Moves(f, p, r, k.field, was, now) && TellsChange(f, r, k.field, was, now, e)
    ensures (k, e) in ChangeFacts(f, r, f.stable(p.summary), Moved(f, r, p))
  {
    var before: Items, after: Items := f.stable(p.summary), f.stable(r.summary);
    var moved := Moved(f, r, p);
    var facts := ChangeFacts(f, r, before, moved);
    hide Changes, Capped, TellsChange, Reported, ChangeFact, ValueOf;
    var item := (k.field, now);
    CappedIsReported(before, after, item);
    ValueIsThere(before, item.0);
    assert ValueOf(before, item.0) == Some(was);
    ChangeTells(f, r, before, item, k, e);
    var i :| 0 <= i < |moved| && moved[i] == item;
    assert facts[i] == ChangeFact(f, r, before, item);
  }

  lemma MovedHadValue(before: Items, after: seq<(string, string)>, item: (string, string))
    requires exists n :: Reported(before, after, n) && after[n] == item
    ensures ValueOf(before, item.0).Some?
  {
    ChangedDiffers(before, item);
  }

  lemma SnapshotIsGiven(f: Reader, rows: seq<Row>, r: Row, k: Key, e: Fact)
    requires r.ApiRow? && Numbered(rows)
    ensures FactOf(f, rows, r, k, e) <==> Gives(f, rows, r, k, e)
  {
    hide StateFact, ChangeFacts, PortFacts, Previous, Moved, GivesState, Precedes, Moves, TellsChange;
    StateIsGiven(f, r, k, e);
    if !Silent(r) {
      PortsAreGiven(f, r, k, e);
      PreviousPrecedes(rows, r);
      PreviousIsApi(rows, r);
      var previous := Previous(rows, r);
      if previous.Some? {
        ChangesAreGiven(f, r, previous.value, k, e);
      }
    } else {
      assert [StateFact(f, r)] + [] == [StateFact(f, r)];
    }
  }

  // ---------------------------------------------------------------- the event table

  /** A pass has gone over the row: it is not ahead of the cursor, and not one that the first pass over a
      log left behind as too old. */
  ghost predicate Covered(s: State, r: Row) {
    r in s.rows && r.id <= s.cursor && (r.id > s.origin || r.ts >= s.since)
  }

  /** After any arrivals and capped passes the event table holds an event if and only if a row that was
      gone over gives rise to it, with the content that it gives. */
  lemma EventsAreGiven(f: Reader, feed: Feed, moves: seq<Move>, k: Key, e: Fact)
    requires Numbered(Arrivals(moves))
    ensures var s := Run(f, feed, moves);
            (k in s.events && s.events[k].fact == e) <==> exists r :: Covered(s, r) && Gives(f, s.rows, r, k, e)
  {
    RunKeeps(f, feed, moves);
    var s := Run(f, feed, moves);
    assert Numbered(s.rows) && Forget(s.events) == Image(f, s.rows, Kept(s));
    hide Run, FactOf, Image, Gives, Kept, Covered, Numbered, Good, Arrivals;
    TableIsTheFacts(f, s, k, e);
    forall r ensures FactOf(f, s.rows, r, k, e) <==> Gives(f, s.rows, r, k, e) {
      if r.LogRow? {
        LogIsGiven(f, s.rows, r, k, e);
      } else {
        SnapshotIsGiven(f, s.rows, r, k, e);
      }
    }
  }

  lemma TableIsTheFacts(f: Reader, s: State, k: Key, e: Fact)
    requires Numbered(s.rows) && Forget(s.events) == Image(f, s.rows, Kept(s))
    ensures (k in s.events && s.events[k].fact == e) <==> exists r :: Covered(s, r) && FactOf(f, s.rows, r, k, e)
  {
    KeptIsNumbered(s);
    ImageIsTheFacts(f, s.rows, Kept(s));
    forall r ensures r in Kept(s) <==> Covered(s, r) {
      FilterIn(s.rows, (x: Row) => (x.id > s.origin || x.ts >= s.since) && x.id <= s.cursor, r);
    }
    hide Kept, Covered, FactOf, Image, Numbered;
    if k in s.events && s.events[k].fact == e {
      assert Forget(s.events)[k] == e && Accounted(f, s.rows, Kept(s), k);
    }
  }

  lemma KeptIsNumbered(s: State)
    requires Numbered(s.rows)
    ensures Numbered(Kept(s))
  {
    FilterNumbered(s.rows, (r: Row) => (r.id > s.origin || r.ts >= s.since) && r.id <= s.cursor);
  }
}
