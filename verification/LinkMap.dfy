/** core/core_engine.py: the links of the network map, merged from what each device announces.

    Targets are already resolved to node names. Port names, channel-groups and the recognition of
    Port-channel names are given by the configuration backups and are arbitrary here. */
module LinkMap {
  import opened Wrappers

  datatype Neighbour = Neighbour(target: string, localPort: string, remotePort: string)

  datatype Device = Device(ip: string, neighbours: seq<Neighbour>)

  datatype Announcement = Announcement(ip: string, target: string, localPort: string, remotePort: string)

  datatype Facts = Facts(normal: string -> string, channelOf: (string, string) -> Option<string>,
                         aggregate: string -> bool)

  const UNKNOWN := "Unknown"

  // ---------------------------------------------------------------- unordered pairs

  /** Strings compare character by character; a prefix comes first. */
  predicate AtMost(a: string, b: string) {
    a == "" || (b != "" && (a[0] < b[0] || (a[0] == b[0] && AtMost(a[1..], b[1..]))))
  }

  lemma {:induction false} OrderIsTotal(a: string, b: string)
    ensures AtMost(a, b) || AtMost(b, a)
    ensures AtMost(a, b) && AtMost(b, a) ==> a == b
  {
    if a != "" && b != "" && a[0] == b[0] {
      OrderIsTotal(a[1..], b[1..]);
      assert a == [a[0]] + a[1..] && b == [b[0]] + b[1..];
    }
  }

  type Pair = (string, string)

  /** ``(min(a, b), max(a, b))``. */
  function PairOf(a: string, b: string): Pair {
    if AtMost(a, b) then (a, b) else (b, a)
  }

  lemma PairsAreUnordered(a: string, b: string, c: string, d: string)
    ensures PairOf(a, b) == PairOf(c, d) <==> (a == c && b == d) || (a == d && b == c)
  {
    OrderIsTotal(a, b);
    OrderIsTotal(c, d);
  }

  // ---------------------------------------------------------------- accumulation

  /** One link under construction: the ports each side announced of itself, the ports the other
      side guessed for it, and the aggregates they belong to. */
  datatype Entry = Entry(
    source: string, target: string,
    srcPorts: map<string, string>, tgtPorts: map<string, string>,
    srcGuess: map<string, string>, tgtGuess: map<string, string>,
    srcChannels: set<string>, tgtChannels: set<string>,
    channels: set<string>, named: bool)

  function NewEntry(x: Announcement): Entry {
    Entry(x.ip, x.target, map[], map[], map[], map[], {}, {}, {}, false)
  }

  /** A channel-group the configuration gives, when it gives one with a name. */
  function Channel(f: Facts, device: string, port: string): set<string> {
    match f.channelOf(device, f.normal(port))
    case Some(name) => if name != "" then {name} else {}
    case None => {}
  }

  function Port(f: Facts, port: string): map<string, string> {
    if port != UNKNOWN then map[f.normal(port) := port] else map[]
  }

  function NamesAggregate(f: Facts, x: Announcement): bool {
    f.aggregate(x.localPort) || f.aggregate(x.remotePort)
  }

  function Update(f: Facts, e: Entry, x: Announcement): Entry {
    var own, far := Port(f, x.localPort), Port(f, x.remotePort);
    var mine, theirs := Channel(f, x.ip, x.localPort), Channel(f, x.target, x.remotePort);
    var grown := e.(channels := e.channels + mine + theirs, named := e.named || NamesAggregate(f, x));
    if x.ip == e.source then
      grown.(srcPorts := e.srcPorts + own, tgtGuess := e.tgtGuess + far,
             srcChannels := e.srcChannels + mine, tgtChannels := e.tgtChannels + theirs)
    else
      grown.(tgtPorts := e.tgtPorts + own, srcGuess := e.srcGuess + far,
             tgtChannels := e.tgtChannels + mine, srcChannels := e.srcChannels + theirs)
  }

  function Add(f: Facts, acc: map<Pair, Entry>, x: Announcement): map<Pair, Entry> {
    var key := PairOf(x.ip, x.target);
    acc[key := Update(f, if key in acc then acc[key] else NewEntry(x), x)]
  }

  function Collect(f: Facts, anns: seq<Announcement>): map<Pair, Entry> {
    if anns == [] then map[] else Add(f, Collect(f, anns[..|anns| - 1]), anns[|anns| - 1])
  }

  function Announced(ip: string, n: Neighbour): Announcement {
    Announcement(ip, n.target, n.localPort, n.remotePort)
  }

  function AnnouncedBy(ip: string, ns: seq<Neighbour>): seq<Announcement> {
    seq(|ns|, i requires 0 <= i < |ns| => Announced(ip, ns[i]))
  }

  function AllAnnounced(devices: seq<Device>): seq<Announcement> {
    if devices == [] then []
    else
      var d := devices[|devices| - 1];
      AllAnnounced(devices[..|devices| - 1]) + AnnouncedBy(d.ip, d.neighbours)
  }

  lemma CollectSnoc(f: Facts, anns: seq<Announcement>, x: Announcement)
    ensures Collect(f, anns + [x]) == Add(f, Collect(f, anns), x)
  {
    assert (anns + [x])[..|anns|] == anns;
  }

  lemma NothingAnnounced(f: Facts)
    ensures Collect(f, AllAnnounced([])) == map[]
  {
  }

  lemma NothingAnnouncedBy(ip: string, ns: seq<Neighbour>)
    ensures ns == [] ==> AnnouncedBy(ip, ns) == []
  {
  }

  lemma AnnouncedSnoc(d: Device, j: nat)
    requires j < |d.neighbours|
    ensures AnnouncedBy(d.ip, d.neighbours[..j + 1])
            == AnnouncedBy(d.ip, d.neighbours[..j]) + [Announced(d.ip, d.neighbours[j])]
  {
  }

  lemma AllAnnouncedSnoc(devices: seq<Device>, i: nat)
    requires i < |devices|
    ensures AllAnnounced(devices[..i + 1])
            == AllAnnounced(devices[..i]) + AnnouncedBy(devices[i].ip, devices[i].neighbours)
  {
    assert devices[..i + 1][..i] == devices[..i];
  }

  /** The accumulating loops of ``_generate_network_map``. */
  method CollectLinks(f: Facts, devices: seq<Device>) returns (acc: map<Pair, Entry>)
    ensures acc == Collect(f, AllAnnounced(devices))
  {
    hide Update, Add, AllAnnounced, AnnouncedBy, Collect;
    acc := map[];
    NothingAnnounced(f);
    for i := 0 to |devices|
      invariant acc == Collect(f, AllAnnounced(devices[..i]))
    {
      var d := devices[i];
      ghost var before := AllAnnounced(devices[..i]);
      NothingAnnouncedBy(d.ip, d.neighbours[..0]);
      assert before + [] == before;
      for j := 0 to |d.neighbours|
        invariant acc == Collect(f, before + AnnouncedBy(d.ip, d.neighbours[..j]))
      {
        var x := Announced(d.ip, d.neighbours[j]);
        ghost var listed := before + AnnouncedBy(d.ip, d.neighbours[..j]);
        CollectSnoc(f, listed, x);
        AnnouncedSnoc(d, j);
        assert listed + [x] == before + AnnouncedBy(d.ip, d.neighbours[..j + 1]);
        acc := AddOne(f, acc, x);
      }
      assert d.neighbours[..|d.neighbours|] == d.neighbours;
      AllAnnouncedSnoc(devices, i);
    }
    assert devices[..|devices|] == devices;
  }

  lemma PutPort(f: Facts, ports: map<string, string>, port: string)
    ensures ports + Port(f, port) == if port != UNKNOWN then ports[f.normal(port) := port] else ports
  {
  }

  /** The body of the loop: the entry is created if missing and updated in place. */
  method AddOne(f: Facts, acc: map<Pair, Entry>, x: Announcement) returns (r: map<Pair, Entry>)
    ensures r == Add(f, acc, x)
  {
    var key := PairOf(x.ip, x.target);
    var e := if key in acc then acc[key] else NewEntry(x);
    PutPort(f, e.srcPorts, x.localPort);
    PutPort(f, e.tgtPorts, x.localPort);
    PutPort(f, e.srcGuess, x.remotePort);
    PutPort(f, e.tgtGuess, x.remotePort);
    if f.aggregate(x.localPort) || f.aggregate(x.remotePort) {
      e := e.(named := true);
    }
    var mine, theirs := Channel(f, x.ip, x.localPort), Channel(f, x.target, x.remotePort);
    if x.ip == e.source {
      if x.localPort != UNKNOWN {
        e := e.(srcPorts := e.srcPorts[f.normal(x.localPort) := x.localPort]);
      }
      if x.remotePort != UNKNOWN {
        e := e.(tgtGuess := e.tgtGuess[f.normal(x.remotePort) := x.remotePort]);
      }
      e := e.(srcChannels := e.srcChannels + mine, tgtChannels := e.tgtChannels + theirs);
    } else {
      if x.localPort != UNKNOWN {
        e := e.(tgtPorts := e.tgtPorts[f.normal(x.localPort) := x.localPort]);
      }
      if x.remotePort != UNKNOWN {
        e := e.(srcGuess := e.srcGuess[f.normal(x.remotePort) := x.remotePort]);
      }
      e := e.(tgtChannels := e.tgtChannels + mine, srcChannels := e.srcChannels + theirs);
    }
    e := e.(channels := e.channels + mine + theirs);
    r := acc[key := e];
  }

  // ---------------------------------------------------------------- the reference: what was announced

  /** What ``d`` announces about ``o``, as a set: neither order nor repetition is in it. */
  ghost function Reports(anns: set<Announcement>, d: string, o: string): set<Announcement> {
    set x | x in anns && x.ip == d && x.target == o
  }

  /** What the other end announces back; a device linked to itself has no other end. */
  ghost function Replies(anns: set<Announcement>, d: string, o: string): set<Announcement> {
    if d == o then {} else Reports(anns, o, d)
  }

  ghost function OwnPorts(f: Facts, reports: set<Announcement>): set<string> {
    set x | x in reports && x.localPort != UNKNOWN :: f.normal(x.localPort)
  }

  ghost function FarPorts(f: Facts, reports: set<Announcement>): set<string> {
    set x | x in reports && x.remotePort != UNKNOWN :: f.normal(x.remotePort)
  }

  /** The configuration of the device puts the port, by its normalized name, into a named channel-group. */
  ghost predicate InChannel(f: Facts, device: string, port: string) {
    f.channelOf(device, f.normal(port)).Some? && f.channelOf(device, f.normal(port)).value != ""
  }

  ghost function OwnChannels(f: Facts, reports: set<Announcement>): set<string> {
    set x | x in reports && InChannel(f, x.ip, x.localPort) :: f.channelOf(x.ip, f.normal(x.localPort)).value
  }

  ghost function FarChannels(f: Facts, reports: set<Announcement>): set<string> {
    set x | x in reports && InChannel(f, x.target, x.remotePort) :: f.channelOf(x.target, f.normal(x.remotePort)).value
  }

  ghost predicate SomeAggregate(f: Facts, reports: set<Announcement>) {
    exists x :: x in reports && (f.aggregate(x.localPort) || f.aggregate(x.remotePort))
  }

  /** The entry holds what its source reports and what the target replies, and nothing else. */
  ghost predicate Holds(f: Facts, e: Entry, reports: set<Announcement>, replies: set<Announcement>) {
    && e.srcPorts.Keys == OwnPorts(f, reports)
    && e.tgtGuess.Keys == FarPorts(f, reports)
    && e.tgtPorts.Keys == OwnPorts(f, replies)
    && e.srcGuess.Keys == FarPorts(f, replies)
    && e.srcChannels == OwnChannels(f, reports) + FarChannels(f, replies)
    && e.tgtChannels == FarChannels(f, reports) + OwnChannels(f, replies)
    && e.channels == e.srcChannels + e.tgtChannels
    && e.named == (SomeAggregate(f, reports) || SomeAggregate(f, replies))
  }

  lemma OneMorePort(f: Facts, reports: set<Announcement>, x: Announcement)
    ensures OwnPorts(f, reports + {x}) == OwnPorts(f, reports) + Port(f, x.localPort).Keys
    ensures FarPorts(f, reports + {x}) == FarPorts(f, reports) + Port(f, x.remotePort).Keys
  {
    assert x in reports + {x};
  }

  lemma OneMoreChannel(f: Facts, reports: set<Announcement>, x: Announcement)
    ensures OwnChannels(f, reports + {x}) == OwnChannels(f, reports) + Channel(f, x.ip, x.localPort)
    ensures FarChannels(f, reports + {x}) == FarChannels(f, reports) + Channel(f, x.target, x.remotePort)
    ensures SomeAggregate(f, reports + {x}) <==> SomeAggregate(f, reports) || NamesAggregate(f, x)
  {
    assert x in reports + {x};
  }

  lemma UpdateHolds(f: Facts, e: Entry, x: Announcement, reports: set<Announcement>, replies: set<Announcement>)
    requires Holds(f, e, reports, replies)
    ensures x.ip == e.source ==> Holds(f, Update(f, e, x), reports + {x}, replies)
    ensures x.ip != e.source ==> Holds(f, Update(f, e, x), reports, replies + {x})
  {
    hide OwnPorts, FarPorts, OwnChannels, FarChannels, SomeAggregate, Port, Channel, NamesAggregate;
    OneMorePort(f, reports, x);
    OneMoreChannel(f, reports, x);
    OneMorePort(f, replies, x);
    OneMoreChannel(f, replies, x);
  }

  lemma NewHolds(f: Facts, x: Announcement)
    ensures Holds(f, NewEntry(x), {}, {})
  {
  }

  ghost function Members(anns: seq<Announcement>): set<Announcement> {
    set x | x in anns
  }

  ghost predicate Joins(x: Announcement, key: Pair) {
    PairOf(x.ip, x.target) == key
  }

  lemma NoReports(anns: set<Announcement>, d: string, o: string)
    requires forall x :: x in anns ==> !Joins(x, PairOf(d, o))
    ensures Reports(anns, d, o) == {} && Replies(anns, d, o) == {}
  {
    PairsAreUnordered(d, o, o, d);
  }

  lemma OneMoreReport(anns: set<Announcement>, x: Announcement, d: string, o: string)
    ensures Reports(anns + {x}, d, o) == Reports(anns, d, o) + if x.ip == d && x.target == o then {x} else {}
    ensures Replies(anns + {x}, d, o) ==
            Replies(anns, d, o) + if d != o && x.ip == o && x.target == d then {x} else {}
  {
  }

  /** What the accumulator holds for one pair. */
  ghost predicate Right(f: Facts, acc: map<Pair, Entry>, anns: set<Announcement>, key: Pair) {
    && (key in acc <==> exists x :: x in anns && Joins(x, key))
    && (key in acc ==>
          && PairOf(acc[key].source, acc[key].target) == key
          && Holds(f, acc[key], Reports(anns, acc[key].source, acc[key].target),
                   Replies(anns, acc[key].source, acc[key].target)))
  }

  lemma AddKeepsOthers(f: Facts, acc: map<Pair, Entry>, anns: set<Announcement>, x: Announcement, key: Pair)
    requires Right(f, acc, anns, key) && !Joins(x, key)
    ensures Right(f, Add(f, acc, x), anns + {x}, key)
  {
    hide Holds, Update, Reports, Replies, PairOf;
    if key in acc {
      OneMoreReport(anns, x, acc[key].source, acc[key].target);
      PairsAreUnordered(x.ip, x.target, acc[key].source, acc[key].target);
      assert Reports(anns + {x}, acc[key].source, acc[key].target) == Reports(anns, acc[key].source, acc[key].target);
      assert Replies(anns + {x}, acc[key].source, acc[key].target) == Replies(anns, acc[key].source, acc[key].target);
    }
    forall y | y in anns + {x} && Joins(y, key)
      ensures y in anns
    {
    }
  }

  lemma AddExtends(f: Facts, acc: map<Pair, Entry>, anns: set<Announcement>, x: Announcement, key: Pair)
    requires Right(f, acc, anns, key) && Joins(x, key)
    ensures Right(f, Add(f, acc, x), anns + {x}, key)
  {
    hide Holds, Update, Reports, Replies, PairOf;
    var e := if key in acc then acc[key] else NewEntry(x);
    if key !in acc {
      NewHolds(f, x);
      NoReports(anns, x.ip, x.target);
    }
    OneMoreReport(anns, x, e.source, e.target);
    PairsAreUnordered(x.ip, x.target, e.source, e.target);
    UpdateHolds(f, e, x, Reports(anns, e.source, e.target), Replies(anns, e.source, e.target));
    UpdateKeepsEnds(f, e, x);
    assert x in anns + {x};
    if x.ip == e.source {
      assert x.target == e.target;
      assert Reports(anns + {x}, e.source, e.target) == Reports(anns, e.source, e.target) + {x};
      assert Replies(anns + {x}, e.source, e.target) == Replies(anns, e.source, e.target);
    } else {
      assert Reports(anns + {x}, e.source, e.target) == Reports(anns, e.source, e.target);
      assert Replies(anns + {x}, e.source, e.target) == Replies(anns, e.source, e.target) + {x};
    }
  }

  lemma UpdateKeepsEnds(f: Facts, e: Entry, x: Announcement)
    ensures Update(f, e, x).source == e.source && Update(f, e, x).target == e.target
  {
  }

  /** A pair is in the accumulator exactly when one of its ends announced the other, and its entry is
      what was announced, each end's share kept apart. */
  lemma {:induction false} CollectIsWhatWasAnnounced(f: Facts, anns: seq<Announcement>, key: Pair)
    ensures Right(f, Collect(f, anns), Members(anns), key)
  {
    if anns != [] {
      var n := |anns| - 1;
      CollectIsWhatWasAnnounced(f, anns[..n], key);
      var x := anns[n];
      assert anns == anns[..n] + [x];
      assert Members(anns) == Members(anns[..n]) + {x};
      if Joins(x, key) {
        AddExtends(f, Collect(f, anns[..n]), Members(anns[..n]), x, key);
      } else {
        AddKeepsOthers(f, Collect(f, anns[..n]), Members(anns[..n]), x, key);
      }
    }
  }

  // ---------------------------------------------------------------- emission

  datatype End = End(device: string, ports: set<string>, channels: set<string>)

  /** The emitted link; port lists are kept as the sets of their normalized names. */
  datatype Link = Link(source: End, target: End, isPortChannel: bool, channels: set<string>, members: nat)

  function Flip(l: Link): Link {
    l.(source := l.target, target := l.source)
  }

  /** The ports a side announced, or else those guessed for it. */
  function Shown(ports: set<string>, guess: set<string>): set<string> {
    if ports != {} then ports else guess
  }

  function Max(a: nat, b: nat): nat {
    if a >= b then a else b
  }

  function Emit(e: Entry): Link {
    var src, tgt := Shown(e.srcPorts.Keys, e.srcGuess.Keys), Shown(e.tgtPorts.Keys, e.tgtGuess.Keys);
    var bundle := |e.srcPorts| > 1 && |e.tgtPorts| > 1;
    var most := Max(|src|, |tgt|);
    Link(End(e.source, src, e.srcChannels), End(e.target, tgt, e.tgtChannels),
         e.channels != {} || e.named || bundle, e.channels, if most == 0 then 1 else most)
  }

  /** The link of two ends in terms of what they announced, whoever spoke first: a side shows the ports it
      announced itself, and only when there are none those the other side named for it; the link is an
      aggregate if some end names one or both announced several ports; it has as many members as the side
      that shows more ports, and at least one. */
  ghost function LinkOf(f: Facts, anns: set<Announcement>, s: string, t: string): Link {
    var there, back := Reports(anns, s, t), Replies(anns, s, t);
    var src := if OwnPorts(f, there) != {} then OwnPorts(f, there) else FarPorts(f, back);
    var tgt := if OwnPorts(f, back) != {} then OwnPorts(f, back) else FarPorts(f, there);
    var srcCh, tgtCh := OwnChannels(f, there) + FarChannels(f, back), FarChannels(f, there) + OwnChannels(f, back);
    var most := if |src| >= |tgt| then |src| else |tgt|;
    Link(End(s, src, srcCh), End(t, tgt, tgtCh),
         || srcCh + tgtCh != {}
         || SomeAggregate(f, there) || SomeAggregate(f, back)
         || (|OwnPorts(f, there)| > 1 && |OwnPorts(f, back)| > 1),
         srcCh + tgtCh, if most == 0 then 1 else most)
  }

  lemma EmitIsLinkOf(f: Facts, anns: seq<Announcement>, key: Pair)
    requires key in Collect(f, anns)
    ensures var e := Collect(f, anns)[key];
            && PairOf(e.source, e.target) == key
            && Emit(e) == LinkOf(f, Members(anns), e.source, e.target)
  {
    hide OwnPorts, FarPorts, OwnChannels, FarChannels, SomeAggregate, Collect, Reports, Replies, PairOf;
    CollectIsWhatWasAnnounced(f, anns, key);
    var e := Collect(f, anns)[key];
    assert |e.srcPorts| == |e.srcPorts.Keys| && |e.tgtPorts| == |e.tgtPorts.Keys|;
  }

  lemma LinkOfFlips(f: Facts, anns: set<Announcement>, s: string, t: string)
    requires s != t
    ensures LinkOf(f, anns, t, s) == Flip(LinkOf(f, anns, s, t))
  {
    hide OwnPorts, FarPorts, OwnChannels, FarChannels, SomeAggregate, Reports;
    var there, back := Reports(anns, s, t), Reports(anns, t, s);
    assert OwnChannels(f, there) + FarChannels(f, back) == FarChannels(f, back) + OwnChannels(f, there);
    assert OwnChannels(f, back) + FarChannels(f, there) == FarChannels(f, there) + OwnChannels(f, back);
    var a := OwnChannels(f, there) + FarChannels(f, back);
    var b := FarChannels(f, there) + OwnChannels(f, back);
    assert a + b == b + a;
  }

  /** Whatever the order, and however often repeated, the same announcements give the same links up
      to which end is called the source: same pairs, ports of each end, aggregates and member count. */
  lemma ArrivalOrderIsInvisible(f: Facts, anns: seq<Announcement>, other: seq<Announcement>)
    requires forall x :: x in anns <==> x in other
    ensures Collect(f, anns).Keys == Collect(f, other).Keys
    ensures forall key :: key in Collect(f, anns) ==>
                            var l, m := Emit(Collect(f, anns)[key]), Emit(Collect(f, other)[key]);
                            m == l || m == Flip(l)
  {
    hide Emit, LinkOf, Collect, PairOf, Holds;
    assert Members(anns) == Members(other);
    forall key
      ensures key in Collect(f, anns) <==> key in Collect(f, other)
    {
      CollectIsWhatWasAnnounced(f, anns, key);
      CollectIsWhatWasAnnounced(f, other, key);
    }
    forall key | key in Collect(f, anns)
      ensures var l, m := Emit(Collect(f, anns)[key]), Emit(Collect(f, other)[key]);
              m == l || m == Flip(l)
    {
      EmitIsLinkOf(f, anns, key);
      EmitIsLinkOf(f, other, key);
      var e, g := Collect(f, anns)[key], Collect(f, other)[key];
      PairsAreUnordered(e.source, e.target, g.source, g.target);
      if e.source != g.source {
        LinkOfFlips(f, Members(anns), e.source, e.target);
      }
    }
  }

  /** Which pair a link joins. */
  ghost predicate LinkJoins(l: Link, key: Pair) {
    PairOf(l.source.device, l.target.device) == key
  }

  /** The emitting loop, over the accumulator in any order: exactly one link for each pair of which
      one end announced the other, and no link for any other pair. */
  method EmitLinks(f: Facts, devices: seq<Device>) returns (links: seq<Link>)
    ensures forall i, j :: 0 <= i < j < |links| ==>
                             !LinkJoins(links[j], PairOf(links[i].source.device, links[i].target.device))
    ensures forall l :: l in links ==>
                          l == LinkOf(f, Members(AllAnnounced(devices)), l.source.device, l.target.device)
    ensures forall x :: x in AllAnnounced(devices) ==> exists l :: l in links && LinkJoins(l, PairOf(x.ip, x.target))
    ensures forall l :: l in links ==> exists x :: x in AllAnnounced(devices) && LinkJoins(l, PairOf(x.ip, x.target))
  {
    hide Emit, LinkOf, PairOf, Collect, AllAnnounced;
    var acc := CollectLinks(f, devices);
    ghost var anns := AllAnnounced(devices);
    links := [];
    var todo := acc.Keys;
    ghost var keys: seq<Pair> := [];
    while todo != {}
      invariant todo <= acc.Keys
      invariant |keys| == |links|
      invariant forall i, j :: 0 <= i < j < |keys| ==> keys[i] != keys[j]
      invariant forall k :: k in acc <==> k in todo || k in keys
      invariant forall k :: k in keys ==> k !in todo
      invariant forall i :: 0 <= i < |keys| ==>
                              LinkJoins(links[i], keys[i])
                              && links[i] == LinkOf(f, Members(anns), links[i].source.device, links[i].target.device)
      decreases todo
    {
      var k :| k in todo;
      EmitIsLinkOf(f, anns, k);
      EmitKeepsEnds(acc[k]);
      todo := todo - {k};
      keys := keys + [k];
      links := links + [Emit(acc[k])];
    }
    forall x | x in anns
      ensures exists l :: l in links && LinkJoins(l, PairOf(x.ip, x.target))
    {
      var k := PairOf(x.ip, x.target);
      CollectIsWhatWasAnnounced(f, anns, k);
      assert Joins(x, k) && k in keys;
      var i :| 0 <= i < |keys| && keys[i] == k;
      assert links[i] in links;
    }
    forall l | l in links
      ensures exists x :: x in anns && LinkJoins(l, PairOf(x.ip, x.target))
    {
      var i :| 0 <= i < |links| && links[i] == l;
      assert keys[i] in keys;
      CollectIsWhatWasAnnounced(f, anns, keys[i]);
      var x :| x in Members(anns) && Joins(x, keys[i]);
      assert x in anns;
    }
  }

  lemma EmitKeepsEnds(e: Entry)
    ensures Emit(e).source.device == e.source && Emit(e).target.device == e.target
  {
  }
}
