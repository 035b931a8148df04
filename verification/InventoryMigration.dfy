/** core/inventory_migration.py: the one-shot import of the inventory files into inventory.db.

    A run is a list of file operations; a crash is the end of the list come early. */
module InventoryMigration {
  import opened Wrappers

  // ---------------------------------------------------------------- files

  datatype Name = Groups | Locations | Hosts | Decommissioned

  const SOURCES := [Groups, Locations, Hosts, Decommissioned]

  datatype Entry = Entry(org: string, data: string)

  datatype HostRow = HostRow(ip: string, group: string, location: string, rest: string)

  /** A parsed source: the JSON files hold an object, the CSV files rows. */
  datatype Content = Content(json: map<string, Entry>, rows: seq<HostRow>)

  datatype HostKey = HostKey(ip: string, group: string)

  datatype Inventory = Inventory(orgs: map<string, Entry>, locations: map<string, Entry>,
                                 hosts: map<HostKey, HostRow>, decommissioned: map<HostKey, HostRow>)

  const EMPTY := Inventory(map[], map[], map[], map[])

  /** The data directory. ``wal`` is the database as seen through its write-ahead log, while the
      log has not been folded back into ``tmp``. */
  datatype Files = Files(sources: map<Name, Content>, backups: map<Name, Content>, db: Option<Inventory>,
                         tmp: Option<Inventory>, wal: Option<Inventory>, shm: bool)

  datatype Op =
    | RemoveTmp | RemoveWal | RemoveShm
    | Connect
    | PutOrgs(orgs: map<string, Entry>) | PutLocations(locations: map<string, Entry>)
    | PutHosts(rows: seq<HostRow>) | PutDecommissioned(rows: seq<HostRow>)
    | Checkpoint | Disconnect
    | Publish
    | SetAside(name: Name)

  /** What a connection to the temp database reads. */
  function View(f: Files): Inventory {
    f.wal.GetOr(f.tmp.GetOr(EMPTY))
  }

  /** ``write_hosts``: a later row of the same key replaces the earlier one. */
  function Upsert(table: map<HostKey, HostRow>, rows: seq<HostRow>): map<HostKey, HostRow> {
    if rows == [] then table
    else
      var r := rows[|rows| - 1];
      Upsert(table, rows[..|rows| - 1])[HostKey(r.ip, r.group) := r]
  }

  function Do(f: Files, op: Op): Files {
    match op
    case RemoveTmp => f.(tmp := None)
    case RemoveWal => f.(wal := None)
    case RemoveShm => f.(shm := false)
    case Connect => f.(tmp := Some(f.tmp.GetOr(EMPTY)), shm := true)
    case PutOrgs(orgs) => f.(wal := Some(View(f).(orgs := orgs)))
    case PutLocations(locations) => f.(wal := Some(View(f).(locations := locations)))
    case PutHosts(rows) => f.(wal := Some(View(f).(hosts := Upsert(View(f).hosts, rows))))
    case PutDecommissioned(rows) => f.(wal := Some(View(f).(decommissioned := Upsert(View(f).decommissioned, rows))))
    case Checkpoint => f.(tmp := Some(View(f)), wal := None)
    case Disconnect => f.(tmp := Some(View(f)), wal := None, shm := false)
    case Publish => f.(db := f.tmp, tmp := None)
    case SetAside(n) =>
      if n in f.sources then f.(backups := f.backups[n := f.sources[n]], sources := f.sources - {n}) else f
  }

  function DoAll(f: Files, ops: seq<Op>): Files {
    if ops == [] then f else Do(DoAll(f, ops[..|ops| - 1]), ops[|ops| - 1])
  }

  // ---------------------------------------------------------------- what a run does

  datatype Import = Orphans | Ready(orgs: map<string, Entry>, locations: map<string, Entry>,
                                    hosts: seq<HostRow>, decommissioned: seq<HostRow>)

  function ObjectOf(sources: map<Name, Content>, n: Name): map<string, Entry> {
    if n in sources then sources[n].json else map[]
  }

  function RowsOf(sources: map<Name, Content>, n: Name): seq<HostRow> {
    if n in sources then sources[n].rows else []
  }

  function Blank(rows: seq<HostRow>): (r: seq<HostRow>)
    ensures |r| == |rows| && forall i :: 0 <= i < |rows| ==> r[i] == rows[i].(location := "")
  {
    seq(|rows|, i requires 0 <= i < |rows| => rows[i].(location := ""))
  }

  predicate Orphan(r: HostRow, locations: map<string, Entry>) {
    r.location != "" && r.location !in locations
  }

  /** Reading and checking the sources. An agent without locations keeps none. */
  function Prepare(sources: map<Name, Content>): Import {
    var locations := ObjectOf(sources, Locations);
    var agent := Locations !in sources;
    var hosts := if agent then Blank(RowsOf(sources, Hosts)) else RowsOf(sources, Hosts);
    var dec := if agent then Blank(RowsOf(sources, Decommissioned)) else RowsOf(sources, Decommissioned);
    if exists r | r in hosts + dec :: Orphan(r, locations) then Orphans
    else
      var named := ObjectOf(sources, Groups);
      var missing := map org | org in (set id | id in locations :: locations[id].org) && org !in named
                       :: Entry("", "");
      Ready(named + missing, locations, hosts, dec)
  }

  /** What the import makes of the sources. */
  function Imported(p: Import): Inventory
    requires p.Ready?
  {
    Inventory(p.orgs, p.locations, Upsert(map[], p.hosts), Upsert(map[], p.decommissioned))
  }

  function Consumable(f: Files): set<Name> {
    set n | n in f.sources && n !in f.backups
  }

  /** The renames of ``_consume`` among the first ``k`` sources. */
  function Renames(f: Files, k: nat): seq<Op>
    requires k <= |SOURCES|
  {
    if k == 0 then []
    else Renames(f, k - 1) + if SOURCES[k - 1] in Consumable(f) then [SetAside(SOURCES[k - 1])] else []
  }

  function Cleanup(f: Files): seq<Op> {
    (if f.tmp.Some? then [RemoveTmp] else []) + (if f.wal.Some? then [RemoveWal] else [])
    + (if f.shm then [RemoveShm] else [])
  }

  function Build(p: Import): seq<Op>
    requires p.Ready?
  {
    [Connect, PutOrgs(p.orgs), PutLocations(p.locations), PutHosts(p.hosts), PutDecommissioned(p.decommissioned),
     Checkpoint, Disconnect]
  }

  /** The file operations of an uninterrupted run. */
  function Plan(f: Files): seq<Op> {
    if f.db.Some? then Renames(f, |SOURCES|)
    else if f.sources == map[] then []
    else
      match Prepare(f.sources)
      case Orphans => []
      case p => Cleanup(f) + Build(p) + [Publish] + Renames(f, |SOURCES|)
  }

  function Complete(f: Files): Files {
    DoAll(f, Plan(f))
  }

  /** A run that crashes after ``k`` operations. */
  function Interrupted(f: Files, k: nat): Files {
    DoAll(f, if k <= |Plan(f)| then Plan(f)[..k] else Plan(f))
  }

  /** Crashed runs one after the other. */
  function Restarts(f: Files, crashes: seq<nat>): Files {
    if crashes == [] then f
    else Interrupted(Restarts(f, crashes[..|crashes| - 1]), crashes[|crashes| - 1])
  }

  // ---------------------------------------------------------------- where a run can be

  /** The directory with the sources of ``moved`` set aside. */
  function Moved(f: Files, moved: set<Name>): Files
    requires moved <= f.sources.Keys
  {
    f.(sources := f.sources - moved, backups := f.backups + map n | n in moved :: f.sources[n])
  }

  /** The directory right after the database has been renamed into place, if it was not there. */
  function Installed(f: Files): Files {
    if f.db.Some? || f.sources == map[] || Prepare(f.sources).Orphans? then f
    else f.(db := Some(Imported(Prepare(f.sources))), tmp := None, wal := None, shm := false)
  }

  /** Before the database exists nothing but the temp files has changed. */
  predicate Building(f0: Files, f: Files) {
    f.db.None? && f0.db.None? && f.sources == f0.sources && f.backups == f0.backups
  }

  /** Afterwards the database is complete and some sources may have been set aside. */
  ghost predicate Consuming(f0: Files, f: Files) {
    Installed(f0).db.Some? && exists moved: set<Name> :: moved <= Consumable(f0) && f == Moved(Installed(f0), moved)
  }

  lemma {:induction false} DoAllConcat(f: Files, a: seq<Op>, b: seq<Op>)
    ensures DoAll(f, a + b) == DoAll(DoAll(f, a), b)
  {
    if b == [] {
      assert a + b == a;
    } else {
      assert (a + b)[..|a + b| - 1] == a + b[..|b| - 1];
      DoAllConcat(f, a, b[..|b| - 1]);
    }
  }

  predicate Internal(op: Op) { !op.Publish? && !op.SetAside? }

  lemma {:induction false} InternalOps(f: Files, ops: seq<Op>)
    requires forall i :: 0 <= i < |ops| ==> Internal(ops[i])
    ensures var g := DoAll(f, ops); g.db == f.db && g.sources == f.sources && g.backups == f.backups
  {
    if ops != [] {
      InternalOps(f, ops[..|ops| - 1]);
    }
  }

  lemma CleanupClears(f: Files)
    ensures DoAll(f, Cleanup(f)) == f.(tmp := None, wal := None, shm := false)
  {
    var a := if f.tmp.Some? then [RemoveTmp] else [];
    var b := if f.wal.Some? then [RemoveWal] else [];
    var c := if f.shm then [RemoveShm] else [];
    DoAllConcat(f, a + b, c);
    DoAllConcat(f, a, b);
    DoFew(f, a);
    DoFew(DoAll(f, a), b);
    DoFew(DoAll(f, a + b), c);
  }

  lemma DoFew(f: Files, ops: seq<Op>)
    requires |ops| <= 1
    ensures DoAll(f, ops) == if ops == [] then f else Do(f, ops[0])
  {
    if ops != [] {
      assert ops[..0] == [];
      assert DoAll(f, ops[..|ops| - 1]) == f;
    }
  }

  lemma DoTwo(f: Files, a: Op, b: Op)
    ensures DoAll(f, [a, b]) == Do(Do(f, a), b)
  {
    assert [a, b] == [a] + [b];
    DoAllConcat(f, [a], [b]);
    DoFew(f, [a]);
    DoFew(Do(f, a), [b]);
  }

  lemma BuildFills(f: Files, p: Import)
    requires p.Ready? && f.tmp.None? && f.wal.None? && !f.shm
    ensures DoAll(f, Build(p)) == f.(tmp := Some(Imported(p)))
  {
    var a, b, c, d := [Connect, PutOrgs(p.orgs)], [PutLocations(p.locations), PutHosts(p.hosts)],
                      [PutDecommissioned(p.decommissioned), Checkpoint], [Disconnect];
    assert Build(p) == ((a + b) + c) + d;
    DoAllConcat(f, (a + b) + c, d);
    DoAllConcat(f, a + b, c);
    DoAllConcat(f, a, b);
    DoTwo(f, a[0], a[1]);
    var f1 := DoAll(f, a);
    DoTwo(f1, b[0], b[1]);
    var f2 := DoAll(f1, b);
    DoTwo(f2, c[0], c[1]);
    DoFew(DoAll(f2, c), d);
    assert View(f1) == EMPTY.(orgs := p.orgs);
  }

  /** Renames of different sources, all among ``names``. */
  ghost predicate Asides(ops: seq<Op>, names: set<Name>) {
    && (forall i :: 0 <= i < |ops| ==> ops[i].SetAside? && ops[i].name in names)
    && (forall i, j :: 0 <= i < j < |ops| ==> ops[i] != ops[j])
  }

  function NamesOf(ops: seq<Op>): set<Name> {
    set op | op in ops && op.SetAside? :: op.name
  }

  lemma MoveOne(f0: Files, moved: set<Name>, n: Name)
    requires moved <= Consumable(f0) && n in Consumable(f0) - moved
    ensures Do(Moved(f0, moved), SetAside(n)) == Moved(f0, moved + {n})
  {
    hide Prepare, View;
    var f := Moved(f0, moved);
    assert n in f.sources && f.sources[n] == f0.sources[n];
    hide Consumable;
    assert f.sources - {n} == f0.sources - (moved + {n});
    OneMoreBackup(f0.sources, f0.backups, moved, n);
  }

  lemma OneMoreBackup(sources: map<Name, Content>, backups: map<Name, Content>, moved: set<Name>, n: Name)
    requires moved <= sources.Keys && n in sources
    ensures (backups + map m | m in moved :: sources[m])[n := sources[n]]
            == backups + map m | m in moved + {n} :: sources[m]
  {
  }

  /** Setting aside further consumable sources, in any order. */
  lemma {:induction false} AsidesMove(f0: Files, moved: set<Name>, ops: seq<Op>)
    requires moved <= Consumable(f0) && Asides(ops, Consumable(f0) - moved)
    ensures NamesOf(ops) <= Consumable(f0)
    ensures DoAll(Moved(f0, moved), ops) == Moved(f0, moved + NamesOf(ops))
  {
    hide Moved, Consumable, Do;
    if ops == [] {
      assert moved + NamesOf(ops) == moved;
    } else {
      var n := |ops| - 1;
      AsidesMove(f0, moved, ops[..n]);
      LastName(ops, Consumable(f0) - moved);
      MoveOne(f0, moved + NamesOf(ops[..n]), ops[n].name);
      assert moved + NamesOf(ops[..n]) + {ops[n].name} == moved + NamesOf(ops);
    }
  }

  lemma LastName(ops: seq<Op>, names: set<Name>)
    requires ops != [] && Asides(ops, names)
    ensures var n := |ops| - 1;
            && ops[n].SetAside? && ops[n].name in names && ops[n].name !in NamesOf(ops[..n])
            && NamesOf(ops) == NamesOf(ops[..n]) + {ops[n].name}
            && Asides(ops[..n], names)
  {
    var n := |ops| - 1;
    assert ops == ops[..n] + [ops[n]];
    assert ops[n] !in ops[..n];
  }

  lemma {:induction false} RenamesAreAsides(f: Files, k: nat)
    requires k <= |SOURCES|
    ensures Asides(Renames(f, k), Consumable(f))
    ensures forall n :: SetAside(n) in Renames(f, k) <==> n in Consumable(f) && n in SOURCES[..k]
  {
    if k > 0 {
      RenamesAreAsides(f, k - 1);
      assert SOURCES[..k] == SOURCES[..k - 1] + [SOURCES[k - 1]];
      assert SOURCES[k - 1] !in SOURCES[..k - 1];
      var front := Renames(f, k - 1);
      forall i | 0 <= i < |front| ensures front[i] != SetAside(SOURCES[k - 1]) {
        assert front[i] in front;
      }
    }
  }

  lemma FullRenames(f: Files)
    ensures Asides(Renames(f, |SOURCES|), Consumable(f))
    ensures NamesOf(Renames(f, |SOURCES|)) == Consumable(f)
  {
    RenamesAreAsides(f, |SOURCES|);
    forall n | n in Consumable(f) ensures SetAside(n) in Renames(f, |SOURCES|) {
      EveryNameIsListed(n);
    }
    forall n | n in NamesOf(Renames(f, |SOURCES|)) ensures n in Consumable(f) {
      assert SetAside(n) in Renames(f, |SOURCES|);
    }
    forall n | n in Consumable(f) ensures n in NamesOf(Renames(f, |SOURCES|)) {
      assert SetAside(n) in Renames(f, |SOURCES|);
    }
  }

  lemma EveryNameIsListed(n: Name)
    ensures n in SOURCES[..|SOURCES|]
  {
    assert SOURCES[..|SOURCES|] == SOURCES;
    assert SOURCES[0] == Groups && SOURCES[1] == Locations && SOURCES[2] == Hosts && SOURCES[3] == Decommissioned;
  }

  /** The renames of a run, cut short or not, from a directory already partly consumed. */
  lemma RenamesMove(f0: Files, moved: set<Name>, g: Files, ops: seq<Op>)
    requires moved <= Consumable(f0) && Consumable(g) == Consumable(f0) - moved
    requires ops <= Renames(g, |SOURCES|)
    ensures moved + NamesOf(ops) <= Consumable(f0)
    ensures DoAll(Moved(f0, moved), ops) == Moved(f0, moved + NamesOf(ops))
    ensures ops == Renames(g, |SOURCES|) ==> moved + NamesOf(ops) == Consumable(f0)
  {
    FullRenames(g);
    assert forall i :: 0 <= i < |ops| ==> ops[i] == Renames(g, |SOURCES|)[i];
    AsidesMove(f0, moved, ops);
  }

  // ---------------------------------------------------------------- one run, from where it finds things

  /** A run that finds the database only sets sources aside. */
  lemma ConsumingStep(f0: Files, f: Files, ops: seq<Op>)
    requires Consuming(f0, f) && ops <= Plan(f)
    ensures Consuming(f0, DoAll(f, ops))
    ensures ops == Plan(f) ==> DoAll(f, ops) == Moved(Installed(f0), Consumable(f0))
  {
    hide Prepare, Imported, Do, DoAll, Cleanup, Build;
    var moved: set<Name> :| moved <= Consumable(f0) && f == Moved(Installed(f0), moved);
    assert Consumable(Installed(f0)) == Consumable(f0);
    assert Consumable(f) == Consumable(f0) - moved;
    RenamesMove(Installed(f0), moved, f, ops);
  }

  /** A run that does not find it builds it from the untouched sources, whatever temp files an
      earlier attempt left behind. */
  lemma BuildingStep(f0: Files, f: Files, ops: seq<Op>)
    requires Building(f0, f) && ops <= Plan(f)
    ensures Building(f0, DoAll(f, ops)) || Consuming(f0, DoAll(f, ops))
    ensures ops == Plan(f) && Installed(f0).db.Some? ==> DoAll(f, ops) == Moved(Installed(f0), Consumable(f0))
    ensures Installed(f0).db.None? ==> Plan(f) == [] && Plan(f0) == []
  {
    if f.sources != map[] && Prepare(f.sources).Ready? {
      var p := Prepare(f.sources);
      var pre := Cleanup(f) + Build(p);
      assert Plan(f) == pre + [Publish] + Renames(f, |SOURCES|);
      if |ops| <= |pre| {
        assert ops == pre[..|ops|];
        InternalOps(f, ops);
      } else {
        var tail := ops[|pre| + 1..];
        assert ops[..|pre| + 1] == Plan(f)[..|pre| + 1] == pre + [Publish];
        assert ops == pre + [Publish] + tail;
        assert Plan(f)[|pre| + 1..] == Renames(f, |SOURCES|);
        AfterPublish(f0, f, p, tail);
      }
    } else {
      assert ops == [];
    }
  }

  lemma AfterPublish(f0: Files, f: Files, p: Import, tail: seq<Op>)
    requires Building(f0, f) && f.sources != map[] && p == Prepare(f.sources) && p.Ready?
    requires tail <= Renames(f, |SOURCES|)
    ensures var g := DoAll(f, Cleanup(f) + Build(p) + [Publish] + tail);
            && Consuming(f0, g)
            && (tail == Renames(f, |SOURCES|) ==> g == Moved(Installed(f0), Consumable(f0)))
  {
    var base := Installed(f0);
    PublishInstalls(f0, f, p);
    DoAllConcat(f, Cleanup(f) + Build(p) + [Publish], tail);
    assert Moved(base, {}) == base;
    assert Consumable(f) == Consumable(base) - {} == Consumable(f0);
    RenamesMove(base, {}, f, tail);
    assert {} + NamesOf(tail) <= Consumable(f0);
  }

  lemma PublishInstalls(f0: Files, f: Files, p: Import)
    requires Building(f0, f) && f.sources != map[] && p == Prepare(f.sources) && p.Ready?
    ensures DoAll(f, Cleanup(f) + Build(p) + [Publish]) == Installed(f0)
  {
    var pre := Cleanup(f) + Build(p);
    DoAllConcat(f, pre, [Publish]);
    DoAllConcat(f, Cleanup(f), Build(p));
    CleanupClears(f);
    BuildFills(f.(tmp := None, wal := None, shm := false), p);
    DoFew(DoAll(f, pre), [Publish]);
  }

  // ---------------------------------------------------------------- any number of crashes

  lemma {:induction false} RestartsStayOnTrack(f0: Files, crashes: seq<nat>)
    ensures var f := Restarts(f0, crashes); Building(f0, f) || Consuming(f0, f)
  {
    if crashes == [] {
      if f0.db.Some? {
        assert Moved(Installed(f0), {}) == f0;
      }
    } else {
      var n := |crashes| - 1;
      var f, k := Restarts(f0, crashes[..n]), crashes[n];
      RestartsStayOnTrack(f0, crashes[..n]);
      var ops := if k <= |Plan(f)| then Plan(f)[..k] else Plan(f);
      if Building(f0, f) {
        BuildingStep(f0, f, ops);
      } else {
        ConsumingStep(f0, f, ops);
      }
    }
  }

  /** Wherever the crashes fall: until the database exists every source and backup is as it was;
      once it does, it is the one found at the start or the complete import. Every source survives,
      in place or as its own backup, and no backup is ever overwritten. */
  lemma CrashesLoseNothing(f0: Files, crashes: seq<nat>)
    ensures var f := Restarts(f0, crashes);
            && (f.db.None? ==> f.sources == f0.sources && f.backups == f0.backups)
            && (f0.db.Some? ==> f.db == f0.db)
            && (f0.db.None? && f.db.Some? ==> Prepare(f0.sources).Ready? && f.db == Some(Imported(Prepare(f0.sources))))
            && (forall n :: n in f0.sources ==>
                  if n in f.sources then f.sources[n] == f0.sources[n]
                  else n in f.backups && f.backups[n] == f0.sources[n])
            && (forall n :: n in f0.backups ==> n in f.backups && f.backups[n] == f0.backups[n])
  {
    RestartsStayOnTrack(f0, crashes);
  }

  // ---------------------------------------------------------------- the database in terms of the files

  function FileRows(sources: map<Name, Content>, file: Name): seq<HostRow> {
    if file in sources then sources[file].rows else []
  }

  function FileObject(sources: map<Name, Content>, file: Name): map<string, Entry> {
    if file in sources then sources[file].json else map[]
  }

  predicate IsHost(r: HostRow, k: HostKey) {
    r.ip == k.ip && r.group == k.group
  }

  ghost predicate Lists(rows: seq<HostRow>, k: HostKey) {
    exists r :: r in rows && IsHost(r, k)
  }

  /** The last row of the file with this address and group. */
  ghost predicate LastOf(rows: seq<HostRow>, k: HostKey, i: int) {
    0 <= i < |rows| && IsHost(rows[i], k) && forall j :: i < j < |rows| ==> !IsHost(rows[j], k)
  }

  /** The table has an entry for exactly the devices of the file, each with its last row, without its
      location when there is no locations file. */
  ghost predicate HoldsHosts(table: map<HostKey, HostRow>, sources: map<Name, Content>, file: Name) {
    var rows := FileRows(sources, file);
    && (forall k :: k in table <==> Lists(rows, k))
    && (forall k, i :: LastOf(rows, k, i) ==>
          k in table && table[k] == if Locations in sources then rows[i] else rows[i].(location := ""))
  }

  ghost predicate OrgOfLocation(sources: map<Name, Content>, org: string) {
    exists id :: id in FileObject(sources, Locations) && FileObject(sources, Locations)[id].org == org
  }

  /** The organizations of the groups file, and an empty one for each that only a location names. */
  ghost predicate HoldsOrgs(orgs: map<string, Entry>, sources: map<Name, Content>) {
    var named := FileObject(sources, Groups);
    && (forall org :: org in orgs <==> org in named || OrgOfLocation(sources, org))
    && (forall org :: org in orgs ==> orgs[org] == if org in named then named[org] else Entry("", ""))
  }

  /** A host row names a location that the locations file does not have. */
  ghost predicate NamesNoLocation(sources: map<Name, Content>) {
    Locations in sources
    && exists r :: (r in FileRows(sources, Hosts) || r in FileRows(sources, Decommissioned))
                   && r.location != "" && r.location !in sources[Locations].json
  }

  ghost predicate HoldsSources(db: Inventory, sources: map<Name, Content>) {
    && HoldsHosts(db.hosts, sources, Hosts) && HoldsHosts(db.decommissioned, sources, Decommissioned)
    && HoldsOrgs(db.orgs, sources) && db.locations == FileObject(sources, Locations)
  }

  lemma {:induction false} UpsertKeepsLast(rows: seq<HostRow>)
    ensures var table := Upsert(map[], rows);
            && (forall k :: k in table <==> Lists(rows, k))
            && (forall k, i :: LastOf(rows, k, i) ==> k in table && table[k] == rows[i])
  {
    if rows != [] {
      var n := |rows| - 1;
      var before, last := Upsert(map[], rows[..n]), rows[n];
      UpsertKeepsLast(rows[..n]);
      var table := Upsert(map[], rows);
      assert table == before[HostKey(last.ip, last.group) := last];
      hide Upsert;
      forall k, i | LastOf(rows, k, i) ensures k in table && table[k] == rows[i] {
        assert i < n ==> LastOf(rows[..n], k, i) && !IsHost(last, k);
      }
      forall k ensures k in table <==> Lists(rows, k) {
        ListsSplit(rows, k);
      }
    }
  }

  lemma ListsSplit(rows: seq<HostRow>, k: HostKey)
    requires rows != []
    ensures Lists(rows, k) <==> Lists(rows[..|rows| - 1], k) || IsHost(rows[|rows| - 1], k)
  {
    assert rows == rows[..|rows| - 1] + [rows[|rows| - 1]];
  }

  lemma BlankRows(rows: seq<HostRow>)
    ensures forall k :: Lists(rows, k) <==> Lists(Blank(rows), k)
    ensures forall k, i :: LastOf(rows, k, i) <==> LastOf(Blank(rows), k, i)
  {
    var blank := Blank(rows);
    hide Blank;
    assert forall i :: 0 <= i < |rows| ==> blank[i] == rows[i].(location := "");
    forall k ensures Lists(rows, k) <==> Lists(blank, k) {
      if Lists(rows, k) {
        var i :| 0 <= i < |rows| && IsHost(rows[i], k);
        assert blank[i] in blank && IsHost(blank[i], k);
      }
      if Lists(blank, k) {
        var i :| 0 <= i < |blank| && IsHost(blank[i], k);
        assert rows[i] in rows && IsHost(rows[i], k);
      }
    }
    forall k, i ensures LastOf(rows, k, i) <==> LastOf(blank, k, i) {
      assert forall j :: 0 <= j < |rows| ==> (IsHost(rows[j], k) <==> IsHost(blank[j], k));
    }
  }

  lemma HostsHeld(sources: map<Name, Content>, file: Name)
    ensures var rows := RowsOf(sources, file);
            HoldsHosts(Upsert(map[], if Locations in sources then rows else Blank(rows)), sources, file)
  {
    hide Upsert, Blank;
    var rows := RowsOf(sources, file);
    BlankRows(rows);
    UpsertKeepsLast(if Locations in sources then rows else Blank(rows));
  }

  lemma OrgsHeld(sources: map<Name, Content>)
    requires Prepare(sources).Ready?
    ensures HoldsOrgs(Prepare(sources).orgs, sources)
  {
    hide Blank, Orphan;
    var locations, named := ObjectOf(sources, Locations), ObjectOf(sources, Groups);
    var orgs := set id | id in locations :: locations[id].org;
    forall org ensures org in orgs <==> OrgOfLocation(sources, org) {
      if org in orgs {
        var id :| id in locations && locations[id].org == org;
        assert id in FileObject(sources, Locations);
      }
    }
  }

  lemma OrphansAreRefused(sources: map<Name, Content>)
    ensures Prepare(sources).Orphans? <==> NamesNoLocation(sources)
  {
    var hosts, dec, locations := RowsOf(sources, Hosts), RowsOf(sources, Decommissioned), ObjectOf(sources, Locations);
    if Locations in sources {
      assert forall r :: r in hosts + dec <==> r in hosts || r in dec;
      if NamesNoLocation(sources) {
        var r :| (r in hosts || r in dec) && r.location != "" && r.location !in locations;
        assert r in hosts + dec && Orphan(r, locations);
      }
    } else {
      forall r | r in Blank(hosts) + Blank(dec) ensures !Orphan(r, locations) {
        assert r in Blank(hosts) || r in Blank(dec);
      }
    }
  }

  lemma NoSourcesNoOrphans(sources: map<Name, Content>)
    ensures NamesNoLocation(sources) ==> sources != map[]
  {
  }

  /** Whatever the crashes, the database that a directory without one ends up with holds exactly what its
      source files say. */
  lemma DatabaseHoldsTheSources(f0: Files, crashes: seq<nat>)
    requires f0.db.None? && Restarts(f0, crashes).db.Some?
    ensures HoldsSources(Restarts(f0, crashes).db.value, f0.sources) && !NamesNoLocation(f0.sources)
  {
    CrashesLoseNothing(f0, crashes);
    OrphansAreRefused(f0.sources);
    OrgsHeld(f0.sources);
    HostsHeld(f0.sources, Hosts);
    HostsHeld(f0.sources, Decommissioned);
    hide HoldsHosts, HoldsOrgs, NamesNoLocation, Upsert, Blank, Restarts;
  }

  /** A directory without a database gets one, by a run that finishes after any crashes, unless there is
      nothing to import or a host row names a location that does not exist. */
  lemma ImportsUnlessRefused(f0: Files, crashes: seq<nat>)
    requires f0.db.None?
    ensures var f := Complete(Restarts(f0, crashes));
            f.db.Some? <==> f0.sources != map[] && !NamesNoLocation(f0.sources)
    ensures var f := Complete(Restarts(f0, crashes));
            f.db.Some? ==> HoldsSources(f.db.value, f0.sources)
  {
    hide HoldsHosts, HoldsOrgs, NamesNoLocation, Upsert, Blank, Restarts, Complete, Consumable;
    OrphansAreRefused(f0.sources);
    if Installed(f0).db.Some? {
      CrashesLeaveNoTrace(f0, crashes);
      OrgsHeld(f0.sources);
      HostsHeld(f0.sources, Hosts);
      HostsHeld(f0.sources, Decommissioned);
    } else {
      RefusalTouchesNothing(f0, crashes);
    }
  }

  /** A run that is allowed to finish after any crashes leaves exactly what an uninterrupted one
      would have left, down to the temp files. */
  lemma CrashesLeaveNoTrace(f0: Files, crashes: seq<nat>)
    requires Installed(f0).db.Some?
    ensures Complete(Restarts(f0, crashes)) == Complete(f0) == Moved(Installed(f0), Consumable(f0))
  {
    var f := Restarts(f0, crashes);
    RestartsStayOnTrack(f0, crashes);
    assert Restarts(f0, []) == f0;
    RestartsStayOnTrack(f0, []);
    forall g | Building(f0, g) || Consuming(f0, g) ensures Complete(g) == Moved(Installed(f0), Consumable(f0)) {
      if Building(f0, g) {
        BuildingStep(f0, g, Plan(g));
      } else {
        ConsumingStep(f0, g, Plan(g));
      }
    }
  }

  /** When there is nothing to import, or a row names a location that does not exist, no run ever
      touches a file. */
  lemma RefusalTouchesNothing(f0: Files, crashes: seq<nat>)
    requires Installed(f0).db.None?
    ensures Restarts(f0, crashes) == f0 == Complete(f0)
  {
    assert Plan(f0) == [];
    if crashes != [] {
      RefusalTouchesNothing(f0, crashes[..|crashes| - 1]);
    }
  }

  // ---------------------------------------------------------------- the run as it executes

  /** The data directory; ``log`` records the file operations performed. */
  class DataDir {
    var sources: map<Name, Content>
    var backups: map<Name, Content>
    var db: Option<Inventory>
    var tmp: Option<Inventory>
    var wal: Option<Inventory>
    var shm: bool
    ghost var log: seq<Op>

    constructor (f: Files)
      ensures Now() == f && log == []
    {
      sources, backups, db, tmp, wal, shm := f.sources, f.backups, f.db, f.tmp, f.wal, f.shm;
      log := [];
    }

    ghost function Now(): Files
      reads this
    {
      Files(sources, backups, db, tmp, wal, shm)
    }

    method Perform(op: Op)
      modifies this
      ensures Now() == Do(old(Now()), op) && log == old(log) + [op]
    {
      var seen := wal.GetOr(tmp.GetOr(EMPTY));
      log := log + [op];
      match op {
        case RemoveTmp => tmp := None;
        case RemoveWal => wal := None;
        case RemoveShm => shm := false;
        case Connect => tmp, shm := Some(tmp.GetOr(EMPTY)), true;
        case PutOrgs(orgs) => wal := Some(seen.(orgs := orgs));
        case PutLocations(locations) => wal := Some(seen.(locations := locations));
        case PutHosts(rows) => wal := Some(seen.(hosts := Upsert(seen.hosts, rows)));
        case PutDecommissioned(rows) => wal := Some(seen.(decommissioned := Upsert(seen.decommissioned, rows)));
        case Checkpoint => tmp, wal := Some(seen), None;
        case Disconnect => tmp, wal, shm := Some(seen), None, false;
        case Publish => db, tmp := tmp, None;
        case SetAside(n) =>
          if n in sources {
            backups, sources := backups[n := sources[n]], sources - {n};
          }
      }
    }

    /** ``_consume``: a source whose backup exists stays where it is. */
    method Consume()
      modifies this
      ensures log == old(log) + Renames(old(Now()), |SOURCES|)
      ensures Now() == DoAll(old(Now()), Renames(old(Now()), |SOURCES|))
    {
      ghost var f := Now();
      var i := 0;
      while i < |SOURCES|
        invariant 0 <= i <= |SOURCES|
        invariant log == old(log) + Renames(f, i) && Now() == DoAll(f, Renames(f, i))
      {
        var name := SOURCES[i];
        RenamesStep(f, i);
        i := i + 1;
        if name !in sources {
          continue;
        }
        if name !in backups {
          Perform(SetAside(name));
        }
      }
    }

    method RemoveLeftovers()
      modifies this
      ensures log == old(log) + Cleanup(old(Now()))
      ensures Now() == old(Now()).(tmp := None, wal := None, shm := false)
    {
      if tmp.Some? { Perform(RemoveTmp); }
      if wal.Some? { Perform(RemoveWal); }
      if shm { Perform(RemoveShm); }
    }

    method WriteDatabase(p: Import)
      requires p.Ready? && tmp.None? && wal.None? && !shm
      modifies this
      ensures log == old(log) + Build(p)
      ensures Now() == old(Now()).(tmp := Some(Imported(p)))
    {
      hide Do, Imported;
      ghost var f := Now();
      Perform(Connect);
      Perform(PutOrgs(p.orgs));
      Perform(PutLocations(p.locations));
      Perform(PutHosts(p.hosts));
      Perform(PutDecommissioned(p.decommissioned));
      Perform(Checkpoint);
      Perform(Disconnect);
      BuildImports(f, p);
    }

    /** ``migrate``: performs exactly the planned operations, in order; refuses on orphans. */
    method Migrate() returns (refused: bool)
      modifies this
      ensures log == old(log) + Plan(old(Now()))
      ensures Now() == Complete(old(Now()))
      ensures refused <==> old(db).None? && NamesNoLocation(old(sources))
      ensures old(db).None? ==> (db.Some? <==> old(sources) != map[] && !refused)
      ensures old(db).None? && db.Some? ==> HoldsSources(db.value, old(sources))
    {
      hide NamesNoLocation, HoldsSources, Prepare;
      refused := false;
      ghost var f := Now();
      OrphansAreRefused(sources);
      NoSourcesNoOrphans(sources);
      if db.None? {
        assert Restarts(f, []) == f;
        ImportsUnlessRefused(f, []);
      }
      if db.Some? {
        Consume();
        return;
      }
      if sources == map[] {
        return;
      }
      var p := Prepare(sources);
      if p.Orphans? {
        return true;
      }
      ImportSources(p);
    }

    method ImportSources(p: Import)
      requires db.None? && sources != map[] && p == Prepare(sources) && p.Ready?
      modifies this
      ensures log == old(log) + Plan(old(Now())) && Now() == Complete(old(Now()))
    {
      hide Cleanup, Build, DoAll, Prepare, Renames;
      ghost var f := Now();
      ghost var front, renames := Cleanup(f) + Build(p) + [Publish], Renames(f, |SOURCES|);
      assert Plan(f) == front + renames;
      hide Plan;
      assert Plan(Now()) == front + renames;
      DoAllConcat(f, front, renames);
      Install(p);
      SameRenames(f, Now(), |SOURCES|);
      Consume();
    }

    /** From the leftovers to the rename of the finished database. */
    method Install(p: Import)
      requires db.None? && sources != map[] && p == Prepare(sources) && p.Ready?
      modifies this
      ensures log == old(log) + (Cleanup(old(Now())) + Build(p) + [Publish])
      ensures Now() == DoAll(old(Now()), Cleanup(old(Now())) + Build(p) + [Publish])
      ensures sources == old(sources) && backups == old(backups)
    {
      hide Cleanup, Build, DoAll, Prepare;
      ghost var f := Now();
      PublishInstalls(f, f, p);
      RemoveLeftovers();
      WriteDatabase(p);
      Perform(Publish);
    }
  }

  /** While the earlier sources are being renamed, the next one is still as the run found it. */
  lemma RenamesStep(f: Files, i: nat)
    requires i < |SOURCES|
    ensures var g, n := DoAll(f, Renames(f, i)), SOURCES[i];
            && (n in g.sources <==> n in f.sources) && (n in g.backups <==> n in f.backups)
            && Renames(f, i + 1) == Renames(f, i) + (if n in Consumable(f) then [SetAside(n)] else [])
            && DoAll(f, Renames(f, i + 1)) == if n in Consumable(f) then Do(g, SetAside(n)) else g
  {
    hide Do, DoAll, Consumable, Moved;
    RenamesSoFar(f, i);
    RenamesSnoc(f, i);
    if SOURCES[i] in Consumable(f) {
      DoAllSnoc(f, Renames(f, i), SetAside(SOURCES[i]));
    } else {
      assert Renames(f, i) + [] == Renames(f, i);
    }
  }

  lemma RenamesSnoc(f: Files, i: nat)
    requires i < |SOURCES|
    ensures Renames(f, i + 1) == Renames(f, i) + (if SOURCES[i] in Consumable(f) then [SetAside(SOURCES[i])] else [])
  {
  }

  /** On a directory without leftovers the operations of the build leave the import under its
      temporary name. */
  lemma BuildImports(f: Files, p: Import)
    requires p.Ready? && f.tmp.None? && f.wal.None? && !f.shm
    ensures var staged := Do(Do(Do(Do(Do(f, Connect), PutOrgs(p.orgs)), PutLocations(p.locations)), PutHosts(p.hosts)),
                             PutDecommissioned(p.decommissioned));
            Do(Do(staged, Checkpoint), Disconnect) == f.(tmp := Some(Imported(p)))
  {
    hide Upsert;
  }

  lemma DoAllSnoc(f: Files, ops: seq<Op>, op: Op)
    ensures DoAll(f, ops + [op]) == Do(DoAll(f, ops), op)
  {
    hide Do;
    assert (ops + [op])[..|ops|] == ops;
  }

  lemma RenamesSoFar(f: Files, i: nat)
    requires i < |SOURCES|
    ensures var g, n := DoAll(f, Renames(f, i)), SOURCES[i];
            (n in g.sources <==> n in f.sources) && (n in g.backups <==> n in f.backups)
  {
    hide Do, DoAll, Consumable, Renames;
    var n := SOURCES[i];
    RenamesAreAsides(f, i);
    SourcesDiffer(i);
    assert SetAside(n) !in Renames(f, i);
    assert n !in NamesOf(Renames(f, i));
    assert Consumable(f) - {} == Consumable(f);
    assert Moved(f, {}) == f;
    AsidesMove(f, {}, Renames(f, i));
  }

  lemma SourcesDiffer(i: nat)
    requires i < |SOURCES|
    ensures SOURCES[i] !in SOURCES[..i]
  {
  }

  lemma {:induction false} SameRenames(f: Files, g: Files, k: nat)
    requires k <= |SOURCES| && f.sources == g.sources && f.backups == g.backups
    ensures Renames(f, k) == Renames(g, k)
  {
    if k > 0 {
      SameRenames(f, g, k - 1);
    }
  }
}
