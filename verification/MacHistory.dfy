/** collectors/mac_history.py: one row per position of a MAC, standing in for the journal of scans. */
module MacHistory {
  import opened Wrappers
  import opened IfaceNames
  import opened Text

  // ---------------------------------------------------------------- recording a scan

  datatype Position = Position(mac: string, switch: string, iface: string, vlan: string)

  /** A stored row: when the position was first and last seen, how often, and how it was last
      classified. */
  datatype Row = Row(first: int, last: int, count: nat, uplink: bool, channel: string)

  /** A sighting as a collector hands it over. */
  datatype Sighting = Sighting(mac: string, vlan: string, iface: string, channel: string, uplink: bool)

  type Table = map<Position, Row>

  predicate IsHex(c: char) { IsDigit(c) || 'a' <= Lower(c) <= 'f' }

  function HexOnly(s: string): string {
    if s == "" then "" else (if IsHex(s[0]) then [Lower(s[0])] else "") + HexOnly(s[1..])
  }

  /** Two by two, with colons in between. */
  function Pairs(h: string): string {
    if |h| <= 2 then h else h[..2] + ":" + Pairs(h[2..])
  }

  /** ``normalize_mac``: twelve hexadecimal digits in pairs, whatever separated them. */
  function NormalizeMac(raw: string): Option<string> {
    var h := HexOnly(raw);
    if |h| != 12 then None else Some(Pairs(h))
  }

  /** The hexadecimal digits of a text, in lower case, one by one. */
  lemma {:induction false} HexOnlyConcat(a: string, b: string)
    ensures HexOnly(a + b) == HexOnly(a) + HexOnly(b)
  {
    if a == "" {
      assert a + b == b;
    } else {
      assert (a + b)[1..] == a[1..] + b;
      HexOnlyConcat(a[1..], b);
    }
  }

  lemma {:induction false} HexStays(s: string)
    ensures HexOnly(HexOnly(s)) == HexOnly(s)
    ensures forall i :: 0 <= i < |HexOnly(s)| ==> IsHex(HexOnly(s)[i]) && Lower(HexOnly(s)[i]) == HexOnly(s)[i]
  {
    if s != "" {
      HexStays(s[1..]);
      var head := if IsHex(s[0]) then [Lower(s[0])] else "";
      HexOnlyConcat(head, HexOnly(s[1..]));
      assert head != "" ==> head[1..] == "" && HexOnly(head) == head + HexOnly("");
    }
  }

  lemma {:induction false} PairsRead(h: string)
    ensures HexOnly(Pairs(h)) == HexOnly(h)
  {
    if |h| > 2 {
      PairsRead(h[2..]);
      var head, rest := h[..2], Pairs(h[2..]);
      assert Pairs(h) == head + (":" + rest) && h == head + h[2..];
      ColonIsNoHex();
      hide HexOnly, Pairs;
      HexOnlyConcat(head, ":" + rest);
      HexOnlyConcat(":", rest);
      HexOnlyConcat(head, h[2..]);
    }
  }

  lemma ColonIsNoHex()
    ensures HexOnly(":") == ""
  {
  }

  /** Which characters are kept. */
  lemma HexCharacters(c: char)
    ensures HexOnly([c]) != "" <==> c in "0123456789abcdefABCDEF"
    ensures c in "0123456789abcdef" ==> HexOnly([c]) == [c]
  {
    assert [c][1..] == "" && HexOnly([c][1..]) == "";
    assert c in "0123456789" <==> IsDigit(c);
  }

  /** Where the digits are. */
  lemma {:induction false} PairsAt(h: string, i: nat)
    requires |h| % 2 == 0 && 0 < |h| && i < |h| + |h| / 2 - 1
    ensures |Pairs(h)| == |h| + |h| / 2 - 1
    ensures Pairs(h)[i] == if i % 3 == 2 then ':' else h[i / 3 * 2 + i % 3]
  {
    if |h| > 2 {
      var head, rest := h[..2], Pairs(h[2..]);
      PairsAt(h[2..], if i < 3 then 0 else i - 3);
      assert Pairs(h) == head + ":" + rest;
      hide Pairs;
      if i >= 3 {
        assert Pairs(h)[i] == rest[i - 3] && (i - 3) % 3 == i % 3 && (i - 3) / 3 == i / 3 - 1;
      }
    } else {
      assert Pairs(h) == h;
    }
  }

  /** A normalized address is twelve digits in lower case, in pairs with colons between them: those of the raw
      text in its order, so that two texts are the same address exactly when their digits are; and
      normalizing again changes nothing. */
  lemma NormalMac(raw: string, other: string)
    ensures NormalizeMac(raw).Some? <==> |HexOnly(raw)| == 12
    ensures NormalizeMac(raw).Some? ==>
              var h, m := HexOnly(raw), NormalizeMac(raw).value;
              && |m| == 17
              && (forall i :: 0 <= i < 17 ==> m[i] == if i % 3 == 2 then ':' else h[i / 3 * 2 + i % 3])
              && NormalizeMac(m) == Some(m)
              && (NormalizeMac(other) == Some(m) <==> HexOnly(other) == h)
  {
    if NormalizeMac(raw).Some? {
      var h := HexOnly(raw);
      HexStays(raw);
      HexStays(other);
      PairsRead(h);
      PairsRead(HexOnly(other));
      hide HexOnly, Pairs;
      PairsAt(h, 0);
      forall i | 0 <= i < 17 ensures Pairs(h)[i] == if i % 3 == 2 then ':' else h[i / 3 * 2 + i % 3] {
        PairsAt(h, i);
      }
    }
  }

  /** How addresses and interface names are made comparable before they are stored. */
  datatype Names = Names(mac: string -> Option<string>, iface: string -> string)

  const NAMES := Names(NormalizeMac, Expand)

  function PositionOf(names: Names, s: Sighting, switch: string): Option<Position> {
    match names.mac(s.mac)
    case None => None
    case Some(mac) => Some(Position(mac, switch, names.iface(s.iface), s.vlan))
  }

  function RecordOne(names: Names, t: Table, s: Sighting, switch: string, now: int): Table {
    match PositionOf(names, s, switch)
    case None => t
    case Some(p) =>
      var channel := names.iface(s.channel);
      t[p := if p in t then t[p].(last := now, count := t[p].count + 1, uplink := s.uplink, channel := channel)
             else Row(now, now, 1, s.uplink, channel)]
  }

  function Record(names: Names, t: Table, rows: seq<Sighting>, switch: string, now: int): Table {
    if rows == [] then t
    else RecordOne(names, Record(names, t, rows[..|rows| - 1], switch, now), rows[|rows| - 1], switch, now)
  }

  // ---------------------------------------------------------------- the journal

  datatype Scan = Scan(switch: string, at: int, rows: seq<Sighting>)

  function Replay(names: Names, journal: seq<Scan>): Table {
    if journal == [] then map[]
    else
      var s := journal[|journal| - 1];
      Record(names, Replay(names, journal[..|journal| - 1]), s.rows, s.switch, s.at)
  }

  /** How often a scan saw a position. */
  function Seen(names: Names, rows: seq<Sighting>, switch: string, p: Position): nat {
    if rows == [] then 0
    else Seen(names, rows[..|rows| - 1], switch, p)
         + if PositionOf(names, rows[|rows| - 1], switch) == Some(p) then 1 else 0
  }

  predicate Found(names: Names, s: Scan, p: Position) {
    Seen(names, s.rows, s.switch, p) > 0
  }

  function SeenOverall(names: Names, journal: seq<Scan>, p: Position): nat {
    if journal == [] then 0
    else SeenOverall(names, journal[..|journal| - 1], p)
         + Seen(names, journal[|journal| - 1].rows, journal[|journal| - 1].switch, p)
  }

  /** Within a scan, every position seen is stamped with the scan's time and counted. */
  lemma {:induction false} RecordRow(names: Names, t: Table, rows: seq<Sighting>, switch: string, now: int, p: Position)
    ensures var t', n := Record(names, t, rows, switch, now), Seen(names, rows, switch, p);
            && (p in t' <==> p in t || n > 0)
            && (n == 0 && p in t ==> t'[p] == t[p])
            && (n > 0 ==> t'[p].last == now && t'[p].first == (if p in t then t[p].first else now)
                          && t'[p].count == n + (if p in t then t[p].count else 0))
  {
    if rows != [] {
      RecordRow(names, t, rows[..|rows| - 1], switch, now, p);
    }
  }

  /** When the first and the last scan to find a position took place. */
  function FirstTime(names: Names, journal: seq<Scan>, p: Position): Option<int> {
    if journal == [] then None
    else
      var s := journal[|journal| - 1];
      var before := FirstTime(names, journal[..|journal| - 1], p);
      if before.Some? then before else if Found(names, s, p) then Some(s.at) else None
  }

  function LastTime(names: Names, journal: seq<Scan>, p: Position): Option<int> {
    if journal == [] then None
    else
      var s := journal[|journal| - 1];
      if Found(names, s, p) then Some(s.at) else LastTime(names, journal[..|journal| - 1], p)
  }

  /** The table is an index of the journal: a row per position ever found, with the times of its
      first and last find and the number of sightings. */
  lemma {:induction false} ReplayIndexes(names: Names, journal: seq<Scan>, p: Position)
    ensures var t := Replay(names, journal);
            && (p in t <==> LastTime(names, journal, p).Some?)
            && (p in t <==> FirstTime(names, journal, p).Some?)
            && (p in t <==> SeenOverall(names, journal, p) > 0)
            && (p in t ==> && Some(t[p].first) == FirstTime(names, journal, p)
                           && Some(t[p].last) == LastTime(names, journal, p)
                           && t[p].count == SeenOverall(names, journal, p))
  {
    if journal != [] {
      var n := |journal| - 1;
      ReplayIndexes(names, journal[..n], p);
      RecordRow(names, Replay(names, journal[..n]), journal[n].rows, journal[n].switch, journal[n].at, p);
    }
  }

  /** The ``j``-th row of the scan is a sighting of the position: same switch and VLAN, and the address
      and the interface as they are made comparable. */
  ghost predicate Sights(names: Names, scan: Scan, j: int, p: Position) {
    && 0 <= j < |scan.rows| && scan.switch == p.switch && scan.rows[j].vlan == p.vlan
    && names.mac(scan.rows[j].mac) == Some(p.mac) && names.iface(scan.rows[j].iface) == p.iface
  }

  ghost predicate Sighted(names: Names, scan: Scan, p: Position) {
    exists j :: Sights(names, scan, j, p)
  }

  ghost predicate LastInScan(names: Names, scan: Scan, j: int, p: Position) {
    Sights(names, scan, j, p) && forall k :: j < k ==> !Sights(names, scan, k, p)
  }

  /** The sighting is the last of the position in the whole journal. */
  ghost predicate LastSighting(names: Names, journal: seq<Scan>, i: int, j: int, p: Position) {
    && 0 <= i < |journal| && LastInScan(names, journal[i], j, p)
    && (forall m :: i < m < |journal| ==> !Sighted(names, journal[m], p))
  }

  /** The row says what a sighting at ``at`` says of the uplink and of the channel. */
  ghost predicate Tells(names: Names, row: Row, x: Sighting, at: int) {
    row.last == at && row.uplink == x.uplink && row.channel == names.iface(x.channel)
  }

  /** One more row: it is the last sighting if it is one, and otherwise changes nothing about that. */
  lemma OneMoreRow(names: Names, scan: Scan, p: Position)
    requires scan.rows != []
    ensures var n, front := |scan.rows| - 1, scan.(rows := scan.rows[..|scan.rows| - 1]);
            && (Sights(names, scan, n, p) <==> PositionOf(names, scan.rows[n], scan.switch) == Some(p))
            && (Sighted(names, scan, p) <==> Sighted(names, front, p) || Sights(names, scan, n, p))
            && (forall j :: LastInScan(names, scan, j, p) ==>
                  if Sights(names, scan, n, p) then j == n else j < n && LastInScan(names, front, j, p))
  {
    var n, front := |scan.rows| - 1, scan.(rows := scan.rows[..|scan.rows| - 1]);
    forall j | j < n ensures Sights(names, scan, j, p) <==> Sights(names, front, j, p) {
      assert 0 <= j ==> scan.rows[..n][j] == scan.rows[j];
    }
  }

  lemma {:induction false} RecordTells(names: Names, t: Table, scan: Scan, p: Position)
    ensures var t' := Record(names, t, scan.rows, scan.switch, scan.at);
            && (p in t' <==> p in t || Sighted(names, scan, p))
            && (forall j :: LastInScan(names, scan, j, p) ==> p in t' && Tells(names, t'[p], scan.rows[j], scan.at))
            && (!Sighted(names, scan, p) && p in t ==> t'[p] == t[p])
    decreases |scan.rows|
  {
    if scan.rows != [] {
      var n, front := |scan.rows| - 1, scan.(rows := scan.rows[..|scan.rows| - 1]);
      RecordTells(names, t, front, p);
      OneMoreRow(names, scan, p);
      hide Sights, Sighted, LastInScan, PositionOf;
    } else {
      assert !Sighted(names, scan, p);
    }
  }

  ghost predicate EverSighted(names: Names, journal: seq<Scan>, p: Position) {
    exists i :: 0 <= i < |journal| && Sighted(names, journal[i], p)
  }

  lemma OneMoreScan(names: Names, journal: seq<Scan>, p: Position)
    requires journal != []
    ensures var n, front := |journal| - 1, journal[..|journal| - 1];
            && (EverSighted(names, journal, p) <==> EverSighted(names, front, p) || Sighted(names, journal[n], p))
            && (forall i, j :: LastSighting(names, journal, i, j, p) ==>
                  if Sighted(names, journal[n], p) then i == n && LastInScan(names, journal[n], j, p)
                  else 0 <= i < n && journal[i] == front[i] && LastSighting(names, front, i, j, p))
  {
    var n, front := |journal| - 1, journal[..|journal| - 1];
    assert forall i :: 0 <= i < n ==> front[i] == journal[i];
    assert forall j :: LastInScan(names, journal[n], j, p) ==> Sighted(names, journal[n], p);
    hide Sighted, LastInScan, Sights;
  }

  /** The table in terms of the rows scanned: it has a row for exactly the positions ever sighted, and the
      row shows the uplink, the channel and the time of the last sighting. */
  lemma {:induction false} RowsTellLastSighting(names: Names, journal: seq<Scan>, p: Position)
    ensures var t := Replay(names, journal);
            && (p in t <==> EverSighted(names, journal, p))
            && (forall i, j :: LastSighting(names, journal, i, j, p) ==>
                  p in t && Tells(names, t[p], journal[i].rows[j], journal[i].at))
  {
    if journal != [] {
      var n := |journal| - 1;
      RowsTellLastSighting(names, journal[..n], p);
      RecordTells(names, Replay(names, journal[..n]), journal[n], p);
      OneMoreScan(names, journal, p);
      hide Sighted, EverSighted, Record, Tells;
    }
  }

  lemma {:induction false} FirstFind(names: Names, journal: seq<Scan>, p: Position) returns (i: nat)
    ensures FirstTime(names, journal, p).Some? ==>
              i < |journal| && Found(names, journal[i], p) && FirstTime(names, journal, p) == Some(journal[i].at)
              && (forall j :: 0 <= j < i ==> !Found(names, journal[j], p))
    ensures FirstTime(names, journal, p).None? ==> forall j :: 0 <= j < |journal| ==> !Found(names, journal[j], p)
  {
    i := 0;
    if journal != [] {
      var n := |journal| - 1;
      i := FirstFind(names, journal[..n], p);
      assert forall j :: 0 <= j < n ==> journal[..n][j] == journal[j];
      if FirstTime(names, journal[..n], p).None? {
        i := n;
      }
    }
  }

  lemma {:induction false} LastFind(names: Names, journal: seq<Scan>, p: Position) returns (i: nat)
    ensures LastTime(names, journal, p).Some? ==>
              i < |journal| && Found(names, journal[i], p) && LastTime(names, journal, p) == Some(journal[i].at)
              && (forall j :: i < j < |journal| ==> !Found(names, journal[j], p))
    ensures LastTime(names, journal, p).None? ==> forall j :: 0 <= j < |journal| ==> !Found(names, journal[j], p)
  {
    i := 0;
    if journal != [] {
      var n := |journal| - 1;
      if Found(names, journal[n], p) {
        i := n;
      } else {
        i := LastFind(names, journal[..n], p);
        assert forall j :: 0 <= j < n ==> journal[..n][j] == journal[j];
      }
    }
  }

  /** A stored position, with the scans that first and last found it. */
  lemma RowOf(names: Names, journal: seq<Scan>, p: Position) returns (i: nat, j: nat)
    requires p in Replay(names, journal)
    ensures i <= j < |journal| && Found(names, journal[i], p) && Found(names, journal[j], p)
    ensures forall k :: 0 <= k < i || j < k < |journal| ==> !Found(names, journal[k], p)
    ensures Replay(names, journal)[p].first == journal[i].at && Replay(names, journal)[p].last == journal[j].at
    ensures journal[i].switch == journal[j].switch == p.switch
  {
    ReplayIndexes(names, journal, p);
    i := FirstFind(names, journal, p);
    j := LastFind(names, journal, p);
    FoundOnItsSwitch(names, journal[i], p);
    FoundOnItsSwitch(names, journal[j], p);
  }

  lemma FoundIsStored(names: Names, journal: seq<Scan>, p: Position, i: nat)
    requires i < |journal| && Found(names, journal[i], p)
    ensures p in Replay(names, journal) && journal[i].switch == p.switch
  {
    ReplayIndexes(names, journal, p);
    FoundOnItsSwitch(names, journal[i], p);
    var _ := LastFind(names, journal, p);
  }

  // ---------------------------------------------------------------- the last scan of a switch

  /** ``MAX(last_seen)`` over the rows of a switch. */
  ghost predicate IsLastScan(t: Table, switch: string, at: int) {
    && (exists p :: p in t && p.switch == switch && t[p].last == at)
    && (forall p :: p in t && p.switch == switch ==> t[p].last <= at)
  }

  /** Scan ``i`` is the last of its switch to have found anything. */
  ghost predicate LastNonEmpty(names: Names, journal: seq<Scan>, switch: string, i: int) {
    && 0 <= i < |journal| && journal[i].switch == switch
    && (exists p :: Found(names, journal[i], p))
    && (forall j :: i < j < |journal| && journal[j].switch == switch ==> forall p :: !Found(names, journal[j], p))
  }

  ghost predicate NeverBackwards(journal: seq<Scan>) {
    forall i, j :: 0 <= i < j < |journal| && journal[i].switch == journal[j].switch ==> journal[i].at <= journal[j].at
  }

  ghost predicate StrictlyLater(journal: seq<Scan>) {
    forall i, j :: 0 <= i < j < |journal| && journal[i].switch == journal[j].switch ==> journal[i].at < journal[j].at
  }

  lemma {:induction false} FoundOnItsSwitch(names: Names, s: Scan, p: Position)
    requires Found(names, s, p)
    ensures p.switch == s.switch
    decreases |s.rows|
  {
    if PositionOf(names, s.rows[|s.rows| - 1], s.switch) != Some(p) {
      FoundOnItsSwitch(names, s.(rows := s.rows[..|s.rows| - 1]), p);
    }
  }

  /** The rows of the switch stamped ``at`` are the positions the scan found. */
  ghost predicate RowsAtAreScan(names: Names, t: Table, switch: string, at: int, s: Scan) {
    forall p: Position :: p.switch == switch ==> ((p in t && t[p].last == at) <==> Found(names, s, p))
  }

  /** Whatever earlier scans of the same second found, the last one found too. */
  ghost predicate NothingElseThatSecond(names: Names, journal: seq<Scan>, switch: string, last: int)
    requires 0 <= last < |journal|
  {
    forall i, p ::
      (0 <= i < last && journal[i].switch == switch && journal[i].at == journal[last].at && Found(names, journal[i], p))
      ==> Found(names, journal[last], p)
  }

  /** The rows at the maximum are exactly the positions of the last non-empty scan if, and only if,
      every earlier scan stamped with the same second had found nothing else. */
  lemma LastRowsAreLastScan(names: Names, journal: seq<Scan>, switch: string, last: int)
    requires NeverBackwards(journal) && LastNonEmpty(names, journal, switch, last)
    ensures IsLastScan(Replay(names, journal), switch, journal[last].at)
    ensures RowsAtAreScan(names, Replay(names, journal), switch, journal[last].at, journal[last])
            <==> NothingElseThatSecond(names, journal, switch, last)
  {
    var t, at := Replay(names, journal), journal[last].at;
    forall p | p in t && p.switch == switch ensures t[p].last <= at {
      var _, j := RowOf(names, journal, p);
      assert j <= last;
    }
    var found :| Found(names, journal[last], found);
    StampedByLast(names, journal, last, last, found);
    if NothingElseThatSecond(names, journal, switch, last) {
      forall p: Position | p.switch == switch ensures (p in t && t[p].last == at) <==> Found(names, journal[last], p) {
        if p in t && t[p].last == at {
          var _, j := RowOf(names, journal, p);
          assert j <= last;
        }
        if Found(names, journal[last], p) {
          StampedByLast(names, journal, last, last, p);
        }
      }
    }
    if RowsAtAreScan(names, t, switch, at, journal[last]) {
      forall i, p | 0 <= i < last && journal[i].switch == switch && journal[i].at == at && Found(names, journal[i], p)
        ensures Found(names, journal[last], p)
      {
        StampedByLast(names, journal, last, i, p);
      }
    }
  }

  /** What a scan of the last second found is stamped with that second. */
  lemma StampedByLast(names: Names, journal: seq<Scan>, last: int, i: int, p: Position)
    requires NeverBackwards(journal) && 0 <= last < |journal|
    requires LastNonEmpty(names, journal, journal[last].switch, last)
    requires 0 <= i <= last && journal[i].switch == journal[last].switch && journal[i].at == journal[last].at
    requires Found(names, journal[i], p)
    ensures p in Replay(names, journal) && Replay(names, journal)[p].last == journal[last].at
    ensures p.switch == journal[last].switch
  {
    FoundIsStored(names, journal, p, i);
    var _, j := RowOf(names, journal, p);
    assert i <= j <= last;
  }

  // ---------------------------------------------------------------- the history of a port

  datatype Status = New | Present | Gone

  datatype Span = Span(first: int, last: int)

  datatype Entry = Entry(span: Span, status: Status)

  /** A row as read for a port, after reclassification. */
  datatype Read = Read(p: Position, first: int, last: int, uplink: bool)

  function Widen(s: Span, r: Read): Span {
    Span(if r.first < s.first then r.first else s.first, if r.last > s.last then r.last else s.last)
  }

  /** One span per access MAC over all its rows. */
  function Spans(rows: seq<Read>): map<string, Span> {
    if rows == [] then map[]
    else
      var r := rows[|rows| - 1];
      var before := Spans(rows[..|rows| - 1]);
      if r.uplink then before
      else before[r.p.mac := if r.p.mac in before then Widen(before[r.p.mac], r) else Span(r.first, r.last)]
  }

  function StatusOf(s: Span, lastScan: int): Status {
    if s.last < lastScan then Gone else if s.first >= lastScan then New else Present
  }

  /** ``_port_mac_history``, as entries by MAC. */
  method PortMacHistory(rows: seq<Read>, lastScan: int) returns (history: map<string, Entry>)
    ensures history.Keys == Spans(rows).Keys
    ensures forall mac :: mac in history ==>
              history[mac] == Entry(Spans(rows)[mac], StatusOf(Spans(rows)[mac], lastScan))
  {
    var byMac: map<string, Span> := map[];
    var i := 0;
    while i < |rows|
      invariant 0 <= i <= |rows| && byMac == Spans(rows[..i])
    {
      var s := rows[i];
      assert rows[..i + 1][..i] == rows[..i];
      i := i + 1;
      if s.uplink {
        continue;
      }
      var m := if s.p.mac in byMac then byMac[s.p.mac] else Span(s.first, s.last);
      m := m.(first := if s.first < m.first then s.first else m.first);
      m := m.(last := if s.last > m.last then s.last else m.last);
      byMac := byMac[s.p.mac := m];
    }
    assert rows[..i] == rows;
    history := map[];
    var left := byMac.Keys;
    while left != {}
      invariant left <= byMac.Keys && history.Keys == byMac.Keys - left
      invariant forall mac :: mac in history ==> history[mac] == Entry(byMac[mac], StatusOf(byMac[mac], lastScan))
      decreases left
    {
      var mac :| mac in left;
      var m := byMac[mac];
      if m.last < lastScan {
        history := history[mac := Entry(m, Gone)];
      } else {
        history := history[mac := Entry(m, if m.first >= lastScan then New else Present)];
      }
      left := left - {mac};
    }
  }

  /** The span of a MAC has the first first-sighting and the last last-sighting of its rows. */
  lemma {:induction false} SpanBounds(rows: seq<Read>, mac: string)
    ensures mac in Spans(rows) <==> exists r :: r in rows && !r.uplink && r.p.mac == mac
    ensures mac in Spans(rows) ==>
              && (forall r :: r in rows && !r.uplink && r.p.mac == mac
                              ==> Spans(rows)[mac].first <= r.first && r.last <= Spans(rows)[mac].last)
              && (exists r :: r in rows && !r.uplink && r.p.mac == mac && r.first == Spans(rows)[mac].first)
              && (exists r :: r in rows && !r.uplink && r.p.mac == mac && r.last == Spans(rows)[mac].last)
  {
    if rows != [] {
      var n := |rows| - 1;
      SpanBounds(rows[..n], mac);
      assert rows == rows[..n] + [rows[n]];
      assert forall r :: r in rows[..n] ==> r in rows;
      assert rows[n] in rows;
    }
  }

  /** How ``port_occupancy`` reads a port: the rows of the switch whose interface normalises to the
      port, each classified as an uplink or not. */
  datatype Port = Port(switch: string, name: string, norm: string -> string, uplink: Position -> bool)

  predicate OnPort(port: Port, p: Position) {
    p.switch == port.switch && port.norm(p.iface) == port.name
  }

  ghost predicate ReadsPort(rows: seq<Read>, t: Table, port: Port) {
    && (forall r :: r in rows ==> r.p in t && OnPort(port, r.p) && r.uplink == port.uplink(r.p)
                                  && r.first == t[r.p].first && r.last == t[r.p].last)
    && (forall p :: p in t && OnPort(port, p) ==> exists r :: r in rows && r.p == p)
  }

  /** The scan saw the MAC at an access position of the port. */
  ghost predicate SawMac(names: Names, s: Scan, port: Port, mac: string) {
    exists p :: Found(names, s, p) && OnPort(port, p) && !port.uplink(p) && p.mac == mac
  }

  ghost predicate SawEarlier(names: Names, journal: seq<Scan>, last: int, port: Port, mac: string) {
    exists i :: 0 <= i < last && i < |journal| && SawMac(names, journal[i], port, mac)
  }

  lemma FirstFindTime(names: Names, journal: seq<Scan>, p: Position, last: int)
    requires StrictlyLater(journal) && LastNonEmpty(names, journal, p.switch, last) && p in Replay(names, journal)
    ensures Replay(names, journal)[p].first >= journal[last].at
            <==> forall i :: 0 <= i < last ==> !Found(names, journal[i], p)
    ensures Replay(names, journal)[p].last >= journal[last].at <==> Found(names, journal[last], p)
  {
    var i, j := RowOf(names, journal, p);
    assert j <= last;
    forall k | 0 <= k < last && Found(names, journal[k], p) ensures journal[k].switch == p.switch {
      FoundOnItsSwitch(names, journal[k], p);
    }
  }

  /** The aggregated rows answer as the journal would: a MAC of the port is new when the last scan
      is the only one that saw it, present when earlier ones did too, gone when only they did, and
      the port lists no other. */
  lemma PortHistoryIsTheJournals(names: Names, journal: seq<Scan>, port: Port, last: int, rows: seq<Read>, mac: string)
    requires StrictlyLater(journal) && LastNonEmpty(names, journal, port.switch, last)
    requires ReadsPort(rows, Replay(names, journal), port)
    ensures var spans, at := Spans(rows), journal[last].at;
            var now, before := SawMac(names, journal[last], port, mac), SawEarlier(names, journal, last, port, mac);
            && (mac in spans <==> now || before)
            && (mac in spans ==> StatusOf(spans[mac], at) == if !now then Gone else if before then Present else New)
  {
    SpanBounds(rows, mac);
    if mac in Spans(rows) {
      AnswersLast(names, journal, port, last, rows, mac);
      AnswersEarlier(names, journal, port, last, rows, mac);
      SomebodySaw(names, journal, port, last, rows, mac);
    } else {
      forall i, p | 0 <= i < |journal| && Found(names, journal[i], p) && OnPort(port, p) && p.mac == mac
        ensures port.uplink(p)
      {
        FoundIsStored(names, journal, p, i);
        var r :| r in rows && r.p == p;
      }
    }
  }

  lemma AnswersLast(names: Names, journal: seq<Scan>, port: Port, last: int, rows: seq<Read>, mac: string)
    requires StrictlyLater(journal) && LastNonEmpty(names, journal, port.switch, last)
    requires ReadsPort(rows, Replay(names, journal), port) && mac in Spans(rows)
    ensures Spans(rows)[mac].last >= journal[last].at <==> SawMac(names, journal[last], port, mac)
  {
    var t, span, at := Replay(names, journal), Spans(rows)[mac], journal[last].at;
    SpanBounds(rows, mac);
    if span.last >= at {
      var r :| r in rows && !r.uplink && r.p.mac == mac && r.last == span.last;
      FirstFindTime(names, journal, r.p, last);
    }
    if SawMac(names, journal[last], port, mac) {
      var p :| Found(names, journal[last], p) && OnPort(port, p) && !port.uplink(p) && p.mac == mac;
      FoundIsStored(names, journal, p, last);
      FirstFindTime(names, journal, p, last);
      var r :| r in rows && r.p == p;
    }
  }

  lemma AnswersEarlier(names: Names, journal: seq<Scan>, port: Port, last: int, rows: seq<Read>, mac: string)
    requires StrictlyLater(journal) && LastNonEmpty(names, journal, port.switch, last)
    requires ReadsPort(rows, Replay(names, journal), port) && mac in Spans(rows)
    ensures Spans(rows)[mac].first >= journal[last].at <==> !SawEarlier(names, journal, last, port, mac)
  {
    var t, span, at := Replay(names, journal), Spans(rows)[mac], journal[last].at;
    SpanBounds(rows, mac);
    if span.first < at {
      var r :| r in rows && !r.uplink && r.p.mac == mac && r.first == span.first;
      FirstFindTime(names, journal, r.p, last);
      var i :| 0 <= i < last && Found(names, journal[i], r.p);
      assert SawMac(names, journal[i], port, mac);
    }
    if SawEarlier(names, journal, last, port, mac) {
      var i :| 0 <= i < last && i < |journal| && SawMac(names, journal[i], port, mac);
      var p :| Found(names, journal[i], p) && OnPort(port, p) && !port.uplink(p) && p.mac == mac;
      FoundIsStored(names, journal, p, i);
      FirstFindTime(names, journal, p, last);
      var r :| r in rows && r.p == p;
    }
  }

  lemma SomebodySaw(names: Names, journal: seq<Scan>, port: Port, last: int, rows: seq<Read>, mac: string)
    requires StrictlyLater(journal) && LastNonEmpty(names, journal, port.switch, last)
    requires ReadsPort(rows, Replay(names, journal), port) && mac in Spans(rows)
    ensures SawMac(names, journal[last], port, mac) || SawEarlier(names, journal, last, port, mac)
  {
    SpanBounds(rows, mac);
    var r :| r in rows && !r.uplink && r.p.mac == mac;
    var _, i := RowOf(names, journal, r.p);
    assert i <= last;
    assert SawMac(names, journal[i], port, mac);
  }

  // ---------------------------------------------------------------- the table as it is updated

  class Store {
    const names: Names
    var rows: Table

    constructor (names: Names)
      ensures this.names == names && rows == map[]
    {
      this.names := names;
      rows := map[];
    }

    /** ``record_sightings``. */
    method RecordSightings(sightings: seq<Sighting>, switch: string, now: int)
      returns (added: nat, updated: nat, skipped: nat)
      modifies this
      ensures rows == Record(names, old(rows), sightings, switch, now)
      ensures added == |rows| - |old(rows)|
      ensures added + updated + skipped == |sightings|
      ensures skipped == Unreadable(names, sightings)
    {
      added, updated, skipped := 0, 0, 0;
      var i := 0;
      while i < |sightings|
        invariant 0 <= i <= |sightings|
        invariant rows == Record(names, old(rows), sightings[..i], switch, now)
        invariant added == |rows| - |old(rows)|
        invariant added + updated + skipped == i && skipped == Unreadable(names, sightings[..i])
      {
        var s := sightings[i];
        assert sightings[..i + 1][..i] == sightings[..i];
        i := i + 1;
        var mac := names.mac(s.mac);
        if mac.None? {
          skipped := skipped + 1;
          continue;
        }
        var p := Position(mac.value, switch, names.iface(s.iface), s.vlan);
        var channel := names.iface(s.channel);
        if p in rows {
          rows := rows[p := rows[p].(last := now, count := rows[p].count + 1, uplink := s.uplink, channel := channel)];
          updated := updated + 1;
        } else {
          rows := rows[p := Row(now, now, 1, s.uplink, channel)];
          added := added + 1;
        }
      }
      assert sightings[..i] == sightings;
    }
  }

  function Unreadable(names: Names, rows: seq<Sighting>): nat {
    if rows == [] then 0
    else Unreadable(names, rows[..|rows| - 1]) + if names.mac(rows[|rows| - 1].mac).None? then 1 else 0
  }

  lemma SeenAlone(names: Names, x: Sighting, switch: string, p: Position)
    ensures Seen(names, [x], switch, p) == if PositionOf(names, x, switch) == Some(p) then 1 else 0
  {
    hide PositionOf;
    assert [x][..0] == [];
    assert Seen(names, [x], switch, p)
           == Seen(names, [x][..0], switch, p) + if PositionOf(names, x, switch) == Some(p) then 1 else 0;
  }

  /** Two scans within one second: a position only the first found reads as found by the last. */
  lemma SameSecondHidesDeparture(names: Names, a: Sighting, b: Sighting, at: int)
    requires PositionOf(names, a, "s").Some? && PositionOf(names, b, "s").Some?
    requires PositionOf(names, a, "s") != PositionOf(names, b, "s")
    ensures var journal := [Scan("s", at, [a]), Scan("s", at, [b])];
            && LastNonEmpty(names, journal, "s", 1)
            && !RowsAtAreScan(names, Replay(names, journal), "s", at, journal[1])
  {
    var journal := [Scan("s", at, [a]), Scan("s", at, [b])];
    var p, q := PositionOf(names, a, "s").value, PositionOf(names, b, "s").value;
    SeenAlone(names, a, "s", p);
    SeenAlone(names, b, "s", p);
    SeenAlone(names, b, "s", q);
    assert Found(names, journal[0], p) && !Found(names, journal[1], p) && Found(names, journal[1], q);
    assert LastNonEmpty(names, journal, "s", 1);
    assert !NothingElseThatSecond(names, journal, "s", 1);
    LastRowsAreLastScan(names, journal, "s", 1);
  }
}
