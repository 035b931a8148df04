/** collectors/mac_history.py: rewriting the rows stored before interface names were expanded.

    The loop walks a snapshot of the table, so what it knows of a row may be out of date by the
    time it reaches it. */
module IfaceMigration {
  import opened Wrappers
  import IfaceNames

  /** A row of ``mac_sightings``; None in the table stands for a deleted id. */
  datatype Row = Row(mac: string, switch: string, iface: string, vlan: string, channel: string, count: nat, last: int)

  type Table = seq<Option<Row>>

  /** The upsert key. */
  datatype Key = Key(mac: string, switch: string, iface: string, vlan: string)

  function KeyOf(r: Row): Key { Key(r.mac, r.switch, r.iface, r.vlan) }

  /** Expansion as a parameter: all that is used of it is that it is idempotent. */
  ghost predicate Idempotent(expand: string -> string) {
    forall s :: expand(expand(s)) == expand(s)
  }

  function ExpandedKey(expand: string -> string, r: Row): Key {
    KeyOf(r).(iface := expand(r.iface))
  }

  predicate IsExpanded(expand: string -> string, r: Row) {
    expand(r.iface) == r.iface && expand(r.channel) == r.channel
  }

  ghost predicate UniqueKeys(t: Table) {
    forall i, j :: 0 <= i < j < |t| && t[i].Some? && t[j].Some? ==> KeyOf(t[i].value) != KeyOf(t[j].value)
  }

  /** Another row already at the key. */
  function Twin(t: Table, k: Key, id: nat): (r: Option<nat>)
    ensures r.Some? ==> r.value < |t| && r.value != id && t[r.value].Some? && KeyOf(t[r.value].value) == k
    ensures r.None? ==> forall j :: 0 <= j < |t| && j != id && t[j].Some? ==> KeyOf(t[j].value) != k
  {
    if t == [] then None
    else
      var n := |t| - 1;
      var earlier := Twin(t[..n], k, id);
      if earlier.Some? then earlier
      else if n != id && t[n].Some? && KeyOf(t[n].value) == k then Some(n)
      else None
  }

  /** How many sightings the table counts for an expanded key. */
  function Total(expand: string -> string, t: Table, k: Key): nat {
    if t == [] then 0
    else
      var r := t[|t| - 1];
      Total(expand, t[..|t| - 1], k) + if r.Some? && ExpandedKey(expand, r.value) == k then r.value.count else 0
  }

  /** The latest sighting for an expanded key. */
  function Latest(expand: string -> string, t: Table, k: Key): Option<int> {
    if t == [] then None
    else
      var r := t[|t| - 1];
      var before := Latest(expand, t[..|t| - 1], k);
      if r.Some? && ExpandedKey(expand, r.value) == k then Later(before, Some(r.value.last)) else before
  }

  function Later(a: Option<int>, b: Option<int>): Option<int> {
    if a.None? then b else if b.None? then a else Some(if a.value >= b.value then a.value else b.value)
  }

  // ---------------------------------------------------------------- one row of the snapshot

  /** The row left when ``r`` is folded into ``dup``. */
  function Merged(expand: string -> string, r: Row, dup: Row): Row {
    dup.(count := r.count + dup.count, last := if r.last >= dup.last then r.last else dup.last,
         iface := expand(r.iface), channel := expand(r.channel))
  }

  function Migrate(expand: string -> string, t: Table, r: Row, id: nat): Table
    requires id < |t| && t[id].Some?
  {
    var iface, channel := expand(r.iface), expand(r.channel);
    if iface == r.iface && channel == r.channel then t
    else
      match Twin(t, KeyOf(r).(iface := iface), id)
      case Some(d) =>
        t[d := Some(Merged(expand, r, t[d].value))][id := None]
      case None =>
        t[id := Some(t[id].value.(iface := iface, channel := channel))]
  }

  lemma {:induction false} TotalAfterUpdate(expand: string -> string, t: Table, i: nat, r: Option<Row>, k: Key)
    requires i < |t|
    ensures Total(expand, t[i := r], k) + Weight(expand, t[i], k) == Total(expand, t, k) + Weight(expand, r, k)
  {
    var n := |t| - 1;
    if i < n {
      assert t[i := r][..n] == t[..n][i := r];
      TotalAfterUpdate(expand, t[..n], i, r, k);
    } else {
      assert t[i := r][..n] == t[..n];
    }
  }

  function Weight(expand: string -> string, r: Option<Row>, k: Key): nat {
    if r.Some? && ExpandedKey(expand, r.value) == k then r.value.count else 0
  }

  function Stamp(expand: string -> string, r: Option<Row>, k: Key): Option<int> {
    if r.Some? && ExpandedKey(expand, r.value) == k then Some(r.value.last) else None
  }

  /** The latest sighting, leaving one row out of account. */
  function LatestBut(expand: string -> string, t: Table, k: Key, i: nat): Option<int>
    requires i < |t|
  {
    Latest(expand, t[i := None], k)
  }

  lemma {:induction false} LatestSplits(expand: string -> string, t: Table, i: nat, k: Key)
    requires i < |t|
    ensures Latest(expand, t, k) == Later(LatestBut(expand, t, k, i), Stamp(expand, t[i], k))
  {
    var n := |t| - 1;
    if i < n {
      assert t[i := None][..n] == t[..n][i := None];
      LatestSplits(expand, t[..n], i, k);
    } else {
      assert t[i := None][..n] == t[..n];
    }
  }

  /** Replacing one row by one of the same expanded key, count and time changes nothing per key. */
  lemma RenameConserves(expand: string -> string, t: Table, i: nat, r: Row, k: Key)
    requires i < |t| && t[i].Some?
    requires ExpandedKey(expand, r) == ExpandedKey(expand, t[i].value)
    requires r.count == t[i].value.count && r.last == t[i].value.last
    ensures Total(expand, t[i := Some(r)], k) == Total(expand, t, k)
    ensures Latest(expand, t[i := Some(r)], k) == Latest(expand, t, k)
  {
    TotalAfterUpdate(expand, t, i, Some(r), k);
    LatestSplits(expand, t, i, k);
    LatestSplits(expand, t[i := Some(r)], i, k);
    assert t[i := Some(r)][i := None] == t[i := None];
  }

  /** Folding one row into another of its expanded key conserves both aggregates. */
  lemma MergeConserves(expand: string -> string, t: Table, d: nat, merged: Row, id: nat, k: Key)
    requires d < |t| && id < |t| && d != id && t[d].Some? && t[id].Some?
    requires ExpandedKey(expand, merged) == ExpandedKey(expand, t[d].value) == ExpandedKey(expand, t[id].value)
    requires merged.count == t[d].value.count + t[id].value.count
    requires Some(merged.last) == Later(Some(t[id].value.last), Some(t[d].value.last))
    ensures var t' := t[d := Some(merged)][id := None];
            Total(expand, t', k) == Total(expand, t, k) && Latest(expand, t', k) == Latest(expand, t, k)
  {
    var t1 := t[d := Some(merged)];
    TotalAfterUpdate(expand, t, d, Some(merged), k);
    TotalAfterUpdate(expand, t1, id, None, k);
    LatestSplits(expand, t, id, k);
    LatestSplits(expand, t[id := None], d, k);
    LatestSplits(expand, t1[id := None], d, k);
    assert t[id := None][d := None] == t1[id := None][d := None];
    assert t1[id := None][id := None] == t1[id := None];
  }

  // ---------------------------------------------------------------- the walk over the snapshot

  /** ``order`` is the order in which the query returned the rows of the snapshot. */
  ghost predicate Lists(order: seq<nat>, snapshot: Table) {
    && (forall a :: 0 <= a < |order| ==> order[a] < |snapshot| && snapshot[order[a]].Some?)
    && (forall a, b :: 0 <= a < b < |order| ==> order[a] != order[b])
    && (forall id :: 0 <= id < |snapshot| && snapshot[id].Some? ==> id in order)
  }

  /** What the walk keeps while ``done`` rows of the snapshot are behind it: the rows behind are
      gone or expanded, and a row ahead whose name is not expanded yet is as the snapshot has it. */
  ghost predicate MidWalk(expand: string -> string, snapshot: Table, t: Table, order: seq<nat>, done: nat)
    requires Lists(order, snapshot) && done <= |order|
  {
    && MidShape(expand, snapshot, t, order, done)
    && Conserves(expand, snapshot, t)
  }

  /** Every expanded key has its sightings and its latest one. */
  ghost predicate Conserves(expand: string -> string, snapshot: Table, t: Table) {
    forall k :: Total(expand, t, k) == Total(expand, snapshot, k) && Latest(expand, t, k) == Latest(expand, snapshot, k)
  }

  ghost predicate MidShape(expand: string -> string, snapshot: Table, t: Table, order: seq<nat>, done: nat)
    requires Lists(order, snapshot) && done <= |order|
  {
    && |t| == |snapshot| && UniqueKeys(t)
    && (forall id :: 0 <= id < |t| && t[id].Some? ==> snapshot[id].Some?)
    && (forall a :: 0 <= a < done && t[order[a]].Some? ==> IsExpanded(expand, t[order[a]].value))
    && (forall a :: done <= a < |order| ==> Untouched(expand, snapshot[order[a]].value, t[order[a]]))
  }

  predicate Untouched(expand: string -> string, before: Row, now: Option<Row>) {
    && now.Some?
    && KeyOf(now.value) == KeyOf(before)
    && (expand(before.iface) != before.iface ==> now.value == before)
    && (now.value.channel == before.channel || expand(now.value.channel) == now.value.channel)
  }

  lemma MigrateStep(expand: string -> string, snapshot: Table, t: Table, order: seq<nat>, a: nat)
    requires Idempotent(expand) && Lists(order, snapshot) && a < |order|
    requires MidWalk(expand, snapshot, t, order, a)
    ensures MidWalk(expand, snapshot, Migrate(expand, t, snapshot[order[a]].value, order[a]), order, a + 1)
  {
    var id := order[a];
    var r := snapshot[id].value;
    var iface, channel := expand(r.iface), expand(r.channel);
    assert Untouched(expand, r, t[id]);
    if iface != r.iface || channel != r.channel {
      var key := KeyOf(r).(iface := iface);
      match Twin(t, key, id) {
        case Some(d) => MergeStep(expand, snapshot, t, order, a, d);
        case None => RenameStep(expand, snapshot, t, order, a);
      }
    }
  }

  lemma RenameStep(expand: string -> string, snapshot: Table, t: Table, order: seq<nat>, a: nat)
    requires Idempotent(expand) && Lists(order, snapshot) && a < |order|
    requires MidWalk(expand, snapshot, t, order, a)
    requires var r := snapshot[order[a]].value; Twin(t, KeyOf(r).(iface := expand(r.iface)), order[a]).None?
    ensures var r := snapshot[order[a]].value;
            MidWalk(expand, snapshot,
                    t[order[a] := Some(t[order[a]].value.(iface := expand(r.iface), channel := expand(r.channel)))],
                    order, a + 1)
  {
    var id := order[a];
    var r := snapshot[id].value;
    assert Untouched(expand, r, t[id]);
    var row := t[id].value.(iface := expand(r.iface), channel := expand(r.channel));
    RenameTotals(expand, snapshot, t, id, row);
    RenameShapes(expand, snapshot, t, order, a, row);
  }

  lemma RenameTotals(expand: string -> string, snapshot: Table, t: Table, id: nat, row: Row)
    requires Conserves(expand, snapshot, t) && id < |t| && t[id].Some?
    requires ExpandedKey(expand, row) == ExpandedKey(expand, t[id].value)
             && row.count == t[id].value.count && row.last == t[id].value.last
    ensures Conserves(expand, snapshot, t[id := Some(row)])
  {
    hide Total, Latest;
    forall k
      ensures var t' := t[id := Some(row)];
              Total(expand, t', k) == Total(expand, snapshot, k) && Latest(expand, t', k) == Latest(expand, snapshot, k)
    {
      RenameConserves(expand, t, id, row, k);
    }
  }

  lemma RenameShapes(expand: string -> string, snapshot: Table, t: Table, order: seq<nat>, a: nat, row: Row)
    requires Lists(order, snapshot) && a < |order| && MidShape(expand, snapshot, t, order, a)
    requires order[a] < |t| && IsExpanded(expand, row) && Twin(t, KeyOf(row), order[a]).None?
    ensures MidShape(expand, snapshot, t[order[a] := Some(row)], order, a + 1)
  {
    hide Twin, UniqueKeys, IsExpanded;
    var t' := t[order[a] := Some(row)];
    NoTwinNoClash(t, order[a], row);
    forall b | a + 1 <= b < |order|
      ensures Untouched(expand, snapshot[order[b]].value, t'[order[b]])
    {
      assert Untouched(expand, snapshot[order[b]].value, t[order[b]]);
    }
  }

  /** A row stored under a key no other row has keeps the keys unique. */
  lemma NoTwinNoClash(t: Table, id: nat, row: Row)
    requires UniqueKeys(t) && id < |t| && Twin(t, KeyOf(row), id).None?
    ensures UniqueKeys(t[id := Some(row)])
  {
    hide Twin;
  }

  lemma MigrateMerges(expand: string -> string, t: Table, r: Row, id: nat, d: nat)
    requires id < |t| && t[id].Some? && !(expand(r.iface) == r.iface && expand(r.channel) == r.channel)
    requires Twin(t, KeyOf(r).(iface := expand(r.iface)), id) == Some(d)
    ensures d < |t| && d != id && t[d].Some? && KeyOf(t[d].value) == KeyOf(r).(iface := expand(r.iface))
    ensures Migrate(expand, t, r, id) == t[d := Some(Merged(expand, r, t[d].value))][id := None]
  {
    hide Twin;
  }

  lemma MergeStep(expand: string -> string, snapshot: Table, t: Table, order: seq<nat>, a: nat, d: nat)
    requires Idempotent(expand) && Lists(order, snapshot) && a < |order|
    requires MidWalk(expand, snapshot, t, order, a)
    requires var r := snapshot[order[a]].value;
             !(expand(r.iface) == r.iface && expand(r.channel) == r.channel)
             && Twin(t, KeyOf(r).(iface := expand(r.iface)), order[a]) == Some(d)
    ensures t[order[a]] == snapshot[order[a]]
    ensures MidWalk(expand, snapshot, Migrate(expand, t, snapshot[order[a]].value, order[a]), order, a + 1)
  {
    hide Twin, Conserves, Migrate;
    var id := order[a];
    var r := snapshot[id].value;
    assert Untouched(expand, r, t[id]);
    MigrateMerges(expand, t, r, id, d);
    TwinsWereRenamed(expand, snapshot, t, order, a, d);
    MergeTotals(expand, snapshot, t, d, Merged(expand, r, t[d].value), id);
    MergeShapes(expand, snapshot, t, order, a, d, Merged(expand, r, t[d].value));
  }

  /** A row that meets a twin is still as the snapshot has it. */
  lemma TwinsWereRenamed(expand: string -> string, snapshot: Table, t: Table, order: seq<nat>, a: nat, d: nat)
    requires Lists(order, snapshot) && a < |order| && MidShape(expand, snapshot, t, order, a)
    requires var r := snapshot[order[a]].value;
             d < |t| && d != order[a] && t[d].Some? && KeyOf(t[d].value) == KeyOf(r).(iface := expand(r.iface))
    ensures t[order[a]] == snapshot[order[a]]
  {
    var r := snapshot[order[a]].value;
    assert Untouched(expand, r, t[order[a]]);
    assert KeyOf(t[order[a]].value) != KeyOf(t[d].value);
  }

  lemma MergeTotals(expand: string -> string, snapshot: Table, t: Table, d: nat, merged: Row, id: nat)
    requires Conserves(expand, snapshot, t)
    requires d < |t| && id < |t| && d != id && t[d].Some? && t[id].Some?
    requires ExpandedKey(expand, merged) == ExpandedKey(expand, t[d].value) == ExpandedKey(expand, t[id].value)
    requires merged.count == t[d].value.count + t[id].value.count
    requires Some(merged.last) == Later(Some(t[id].value.last), Some(t[d].value.last))
    ensures Conserves(expand, snapshot, t[d := Some(merged)][id := None])
  {
    hide Total, Latest;
    forall k
      ensures var t' := t[d := Some(merged)][id := None];
              Total(expand, t', k) == Total(expand, snapshot, k) && Latest(expand, t', k) == Latest(expand, snapshot, k)
    {
      MergeConserves(expand, t, d, merged, id, k);
    }
  }

  lemma MergeShapes(expand: string -> string, snapshot: Table, t: Table, order: seq<nat>, a: nat, d: nat, merged: Row)
    requires Lists(order, snapshot) && a < |order| && MidShape(expand, snapshot, t, order, a)
    requires d < |t| && d != order[a] && t[d].Some?
    requires IsExpanded(expand, merged) && KeyOf(merged) == KeyOf(t[d].value)
    ensures MidShape(expand, snapshot, t[d := Some(merged)][order[a] := None], order, a + 1)
  {
    var t' := t[d := Some(merged)][order[a] := None];
    forall i, j | 0 <= i < j < |t'| && t'[i].Some? && t'[j].Some?
      ensures KeyOf(t'[i].value) != KeyOf(t'[j].value)
    {
      assert KeyOf(t'[i].value) == KeyOf(t[i].value) && KeyOf(t'[j].value) == KeyOf(t[j].value);
    }
    forall b | a + 1 <= b < |order|
      ensures Untouched(expand, snapshot[order[b]].value, t'[order[b]])
    {
      assert Untouched(expand, snapshot[order[b]].value, t[order[b]]);
    }
  }

  // ---------------------------------------------------------------- port channels

  /** The expanded channel of the last row of the key, among the first ``done``, that was not expanded. */
  function LastChanged(expand: string -> string, snapshot: Table, order: seq<nat>, done: nat, k: Key): Option<string>
    requires done <= |order| && forall a :: 0 <= a < |order| ==> order[a] < |snapshot| && snapshot[order[a]].Some?
  {
    if done == 0 then None
    else
      var r := snapshot[order[done - 1]].value;
      if ExpandedKey(expand, r) == k && (expand(r.iface) != r.iface || expand(r.channel) != r.channel)
      then Some(expand(r.channel))
      else LastChanged(expand, snapshot, order, done - 1, k)
  }

  /** The row at an expanded position shows the channel of the last row that was moved there or expanded
      in place, and else its own. */
  ghost predicate Channels(expand: string -> string, snapshot: Table, t: Table, order: seq<nat>, done: nat)
    requires Lists(order, snapshot) && done <= |order| && |t| == |snapshot|
  {
    forall id ::
      0 <= id < |t| && t[id].Some? && expand(t[id].value.iface) == t[id].value.iface && snapshot[id].Some? ==>
      t[id].value.channel
      == LastChanged(expand, snapshot, order, done, KeyOf(t[id].value)).GetOr(snapshot[id].value.channel)
  }

  lemma OwnChannels(expand: string -> string, t: Table, order: seq<nat>)
    requires Lists(order, t)
    ensures Channels(expand, t, t, order, 0)
  {
  }

  lemma ChannelStep(expand: string -> string, snapshot: Table, t: Table, order: seq<nat>, a: nat)
    requires Idempotent(expand) && Lists(order, snapshot) && a < |order|
    requires MidShape(expand, snapshot, t, order, a) && Channels(expand, snapshot, t, order, a)
    requires order[a] < |t| && t[order[a]].Some?
    ensures var t' := Migrate(expand, t, snapshot[order[a]].value, order[a]);
            |t'| == |snapshot| && Channels(expand, snapshot, t', order, a + 1)
  {
    hide Twin;
    var id := order[a];
    var r := snapshot[id].value;
    var t' := Migrate(expand, t, r, id);
    var k := ExpandedKey(expand, r);
    assert Untouched(expand, r, t[id]);
    forall j | 0 <= j < |t'| && t'[j].Some? && expand(t'[j].value.iface) == t'[j].value.iface && snapshot[j].Some?
      ensures t'[j].value.channel
              == LastChanged(expand, snapshot, order, a + 1, KeyOf(t'[j].value)).GetOr(snapshot[j].value.channel)
    {
      assert KeyOf(t'[j].value) != k ==> t'[j] == t[j];
    }
  }

  class Store {
    var rows: Table

    constructor (rows: Table)
      ensures this.rows == rows
    {
      this.rows := rows;
    }

    /** ``_migrate_unexpanded_interfaces``. Afterwards every row is expanded, positions are still
        unique, and no expanded key has gained or lost a sighting or moved its latest one. */
    method MigrateUnexpanded(expand: string -> string, order: seq<nat>)
      requires Idempotent(expand) && UniqueKeys(rows) && Lists(order, rows)
      modifies this
      ensures |rows| == |old(rows)| && UniqueKeys(rows)
      ensures forall id :: 0 <= id < |rows| && rows[id].Some? ==>
        old(rows)[id].Some? && IsExpanded(expand, rows[id].value)
      ensures forall k :: Total(expand, rows, k) == Total(expand, old(rows), k)
      ensures forall k :: Latest(expand, rows, k) == Latest(expand, old(rows), k)
      ensures Channels(expand, old(rows), rows, order, |order|)
    {
      hide Total, Latest, Channels, LastChanged;
      OwnChannels(expand, rows, order);
      var snapshot := rows;
      var i := 0;
      while i < |order|
        invariant 0 <= i <= |order|
        invariant MidWalk(expand, snapshot, rows, order, i)
        invariant Channels(expand, snapshot, rows, order, i)
      {
        hide UniqueKeys, Conserves, Migrate;
        assert Untouched(expand, snapshot[order[i]].value, rows[order[i]]);
        MigrateStep(expand, snapshot, rows, order, i);
        ChannelStep(expand, snapshot, rows, order, i);
        MigrateOne(expand, snapshot[order[i]].value, order[i]);
        i := i + 1;
      }
      forall id | 0 <= id < |rows| && rows[id].Some?
        ensures IsExpanded(expand, rows[id].value)
      {
        var a :| 0 <= a < |order| && order[a] == id;
      }
    }

    /** The body of the loop, for one row of the snapshot. */
    method MigrateOne(expand: string -> string, r: Row, id: nat)
      requires id < |rows| && rows[id].Some?
      modifies this
      ensures rows == Migrate(expand, old(rows), r, id)
    {
      hide Twin;
      var iface, channel := expand(r.iface), expand(r.channel);
      if iface != r.iface || channel != r.channel {
        var twin := Twin(rows, Key(r.mac, r.switch, iface, r.vlan), id);
        if twin.Some? {
          var d := twin.value;
          var dup := rows[d].value;
          var last := if r.last >= dup.last then r.last else dup.last;
          rows := rows[d := Some(dup.(count := r.count + dup.count, last := last, iface := iface, channel := channel))];
          rows := rows[id := None];
        } else {
          rows := rows[id := Some(rows[id].value.(iface := iface, channel := channel))];
        }
      }
    }
  }

  /** The expansion in use is idempotent, so the migration may be run with it. */
  lemma ExpandMayBeUsed()
    ensures Idempotent(IfaceNames.Expand)
  {
    forall s ensures IfaceNames.Expand(IfaceNames.Expand(s)) == IfaceNames.Expand(s) {
      IfaceNames.ExpandIsIdempotent(s);
    }
  }
}
