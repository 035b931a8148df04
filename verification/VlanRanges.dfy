/** VLAN lists: the range printer and the VLAN coverage of the IOS to Catalyst 1200 conversion
    (ai/convert_c1200.py), and the list expander it shares with the analyzers (ai/config_analyzer.py). */
module VlanRanges {
  import opened Wrappers
  import opened Text

  const MAX_SPAN := 5000

  // ---------------------------------------------------------------- expanding a list

  function Drop(s: string, c: char): string {
    if s == "" then "" else (if s[0] == c then "" else [s[0]]) + Drop(s[1..], c)
  }

  /** Digits, with single underscores allowed between them. */
  predicate DigitGroups(s: string) {
    && s != "" && IsDigit(s[0])
    && (|s| == 1 || DigitGroups(s[1..]) || (s[1] == '_' && DigitGroups(s[2..])))
  }

  lemma {:induction false} GroupsAreDigits(s: string)
    requires DigitGroups(s)
    ensures AllDigits(Drop(s, '_')) && Drop(s, '_') != ""
  {
    if |s| > 1 {
      if DigitGroups(s[1..]) {
        GroupsAreDigits(s[1..]);
      } else {
        GroupsAreDigits(s[2..]);
        assert s[1..][1..] == s[2..];
        assert Drop(s[1..], '_') == Drop(s[2..], '_');
      }
    }
  }

  function Unsigned(s: string): Option<nat> {
    if DigitGroups(s) then
      GroupsAreDigits(s);
      Some(Value(Drop(s, '_')))
    else None
  }

  /** ``int`` of a piece of a range; None where it would raise. */
  function ParseInt(s: string): (r: Option<int>)
    ensures r.Some? && r.value < 0 ==> '-' in s
  {
    StripFrom(s);
    var t := Strip(s);
    if t != "" && t[0] == '+' then Signed(Unsigned(t[1..]), 1)
    else if t != "" && t[0] == '-' then Signed(Unsigned(t[1..]), -1)
    else Signed(Unsigned(t), 1)
  }

  function Signed(n: Option<nat>, sign: int): Option<int> {
    match n
    case Some(v) => Some(sign * v)
    case None => None
  }

  lemma StripFrom(s: string)
    ensures forall c :: c in Strip(s) ==> c in s
  {
    var l := StripLeft(s);
    assert forall c :: c in l ==> c in s;
  }

  /** A run of digits reads as its value. */
  lemma DigitsParse(s: string)
    requires s != "" && AllDigits(s)
    ensures ParseInt(s) == Some(Value(s))
  {
    hide Value, Strip, Unsigned, AllDigits, IsDigit;
    DigitsAreTrimmed(s);
    DigitsAreUnsigned(s);
  }

  lemma DigitsAreTrimmed(s: string)
    requires s != "" && AllDigits(s)
    ensures Strip(s) == s && s[0] != '+' && s[0] != '-'
  {
    hide Strip;
    StripTrims(s);
    assert IsDigit(s[0]) && IsDigit(s[|s| - 1]);
    hide IsDigit, IsSpace;
    DigitsAreNoBlanks();
  }

  lemma DigitsAreUnsigned(s: string)
    requires s != "" && AllDigits(s)
    ensures Unsigned(s) == Some(Value(s))
  {
    hide Value, DigitGroups, Drop;
    NotDigits();
    DigitsAreGroups(s);
    DigitsHaveNo(s, '_');
    DropNothing(s, '_');
  }

  lemma DigitsAreNoBlanks()
    ensures forall c :: IsDigit(c) ==> !IsSpace(c) && c != '+' && c != '-'
  {
  }

  lemma {:induction false} DigitsAreGroups(s: string)
    requires s != "" && AllDigits(s)
    ensures DigitGroups(s)
  {
    if |s| > 1 {
      DigitsAreGroups(s[1..]);
    }
  }

  /** The numbers from ``a`` up to, not including, ``b``. */
  function Range(a: nat, b: nat): seq<nat>
    decreases b - a
  {
    if a >= b then [] else [a] + Range(a + 1, b)
  }

  function Print(ids: seq<nat>): (r: seq<string>)
    ensures |r| == |ids|
  {
    if ids == [] then [] else [Decimal(ids[0])] + Print(ids[1..])
  }

  function ExpandChunk(chunk: string): seq<string> {
    if '-' in chunk then
      var n := Find(chunk, '-');
      match (ParseInt(chunk[..n]), ParseInt(chunk[n + 1..]))
      case (Some(a), Some(b)) => if a <= b && b - a < MAX_SPAN then Print(Range(a, b + 1)) else []
      case _ => []
    else if chunk != "" && AllDigits(chunk) then [chunk]
    else []
  }

  function ExpandChunks(chunks: seq<string>): seq<string> {
    if chunks == [] then [] else ExpandChunk(chunks[0]) + ExpandChunks(chunks[1..])
  }

  function Expand(spec: string): seq<string> {
    ExpandChunks(Split(Drop(spec, ' '), ','))
  }

  /** What one chunk of the list adds. */
  method ExpandPiece(chunk: string) returns (out: seq<string>)
    ensures out == ExpandChunk(chunk)
  {
    hide Decimal, Value, Range, Print, ParseInt, AllDigits;
    out := [];
    if chunk == "" {
      return;
    }
    if '-' in chunk {
      var n := Find(chunk, '-');
      var a, b := ParseInt(chunk[..n]), ParseInt(chunk[n + 1..]);
      if a.Some? && b.Some? && a.value <= b.value && b.value - a.value < MAX_SPAN {
        out := Print(Range(a.value, b.value + 1));
      }
    } else if AllDigits(chunk) {
      out := [chunk];
    }
  }

  /** ``_expand_vlan_list``. */
  method ExpandVlanList(spec: string) returns (out: seq<string>)
    ensures out == Expand(spec)
  {
    hide ExpandChunk, Split, Drop;
    var chunks := Split(Drop(spec, ' '), ',');
    out := [];
    var i := 0;
    while i < |chunks|
      invariant 0 <= i <= |chunks|
      invariant out + ExpandChunks(chunks[i..]) == ExpandChunks(chunks)
    {
      var piece := ExpandPiece(chunks[i]);
      assert chunks[i..][0] == chunks[i] && chunks[i..][1..] == chunks[i + 1..];
      out := out + piece;
      i := i + 1;
    }
    assert chunks[i..] == [];
  }

  ghost predicate FirstDash(chunk: string, n: int) {
    0 <= n < |chunk| && chunk[n] == '-' && '-' !in chunk[..n]
  }

  /** A piece of a list denotes a number: as its digits, or as one between two ends that are in order and
      less than 5000 apart. */
  ghost predicate Denotes(chunk: string, v: nat) {
    if '-' in chunk then
      exists n :: FirstDash(chunk, n) &&
        match (ParseInt(chunk[..n]), ParseInt(chunk[n + 1..]))
        case (Some(low), Some(high)) => low <= v <= high && high - low < 5000
        case _ => false
    else chunk != "" && AllDigits(chunk) && Value(chunk) == v
  }

  // ---------------------------------------------------------------- printing ranges

  datatype Run = Run(low: nat, high: nat)

  ghost predicate Ascending(ids: seq<nat>) {
    forall i, j :: 0 <= i < j < |ids| ==> ids[i] < ids[j]
  }

  /** The maximal runs of consecutive numbers. */
  function Runs(ids: seq<nat>): (r: seq<Run>)
    ensures ids == [] <==> r == []
    ensures r != [] ==> r[|r| - 1].high == ids[|ids| - 1]
  {
    if ids == [] then []
    else
      var n := |ids| - 1;
      var before := Runs(ids[..n]);
      if before != [] && ids[n] == before[|before| - 1].high + 1
      then before[..|before| - 1] + [before[|before| - 1].(high := ids[n])]
      else before + [Run(ids[n], ids[n])]
  }

  function Members(runs: seq<Run>): seq<nat> {
    if runs == [] then []
    else Members(runs[..|runs| - 1]) + Range(runs[|runs| - 1].low, runs[|runs| - 1].high + 1)
  }

  /** Each run is in order and the next one starts beyond its neighbour. */
  ghost predicate Separated(runs: seq<Run>) {
    && (forall i :: 0 <= i < |runs| ==> runs[i].low <= runs[i].high)
    && (forall i :: 0 <= i < |runs| - 1 ==> runs[i].high + 1 < runs[i + 1].low)
  }

  lemma {:induction false} RangeSnoc(a: nat, b: nat)
    requires a <= b
    ensures Range(a, b + 1) == Range(a, b) + [b]
    decreases b - a
  {
    if a < b {
      RangeSnoc(a + 1, b);
    }
  }

  /** One more number: it lengthens the last run or starts a new one. */
  lemma RunsGrow(before: seq<Run>, v: nat)
    requires Separated(before) && (before != [] ==> before[|before| - 1].high < v)
    ensures before != [] && v == before[|before| - 1].high + 1 ==>
              var runs := before[..|before| - 1] + [before[|before| - 1].(high := v)];
              Members(runs) == Members(before) + [v] && Separated(runs)
    ensures (before == [] || v != before[|before| - 1].high + 1) ==>
              Members(before + [Run(v, v)]) == Members(before) + [v] && Separated(before + [Run(v, v)])
  {
    hide Range;
    if before != [] && v == before[|before| - 1].high + 1 {
      var last := before[|before| - 1];
      var runs := before[..|before| - 1] + [last.(high := v)];
      assert runs[..|runs| - 1] == before[..|before| - 1];
      RangeSnoc(last.low, v);
    } else {
      assert (before + [Run(v, v)])[..|before|] == before;
      RangeOfOne(v);
    }
  }

  lemma RangeOfOne(v: nat)
    ensures Range(v, v + 1) == [v]
  {
    RangeSnoc(v, v);
  }

  /** The runs list the numbers, in order and nothing else, and no two of them touch. */
  lemma {:induction false} RunsCover(ids: seq<nat>)
    requires Ascending(ids)
    ensures Members(Runs(ids)) == ids && Separated(Runs(ids))
  {
    hide Members, Separated;
    if ids == [] {
      NoRuns();
    } else {
      var n := |ids| - 1;
      RunsCover(ids[..n]);
      assert ids == ids[..n] + [ids[n]];
      RunsGrow(Runs(ids[..n]), ids[n]);
    }
  }

  lemma NoRuns()
    ensures Members([]) == [] && Separated([])
  {
  }

  function PrintRun(r: Run): string {
    if r.low == r.high then Decimal(r.low) else Decimal(r.low) + "-" + Decimal(r.high)
  }

  function PrintRuns(runs: seq<Run>): string {
    if runs == [] then ""
    else if |runs| == 1 then PrintRun(runs[0])
    else PrintRun(runs[0]) + "," + PrintRuns(runs[1..])
  }

  ghost predicate IsLeast(m: nat, s: set<nat>) {
    m in s && forall x :: x in s ==> m <= x
  }

  lemma LeastExists(s: set<nat>)
    requires s != {}
    ensures exists m :: IsLeast(m, s)
    decreases |s|
  {
    var a: nat :| a in s;
    var others := s - {a};
    forall x | x in s
      ensures x == a || x in others
    {
    }
    if others == {} {
      assert IsLeast(a, s);
    } else {
      LeastExists(others);
      var m :| IsLeast(m, others);
      assert IsLeast(if a <= m then a else m, s);
    }
  }

  function Least(s: set<nat>): (m: nat)
    requires s != {}
    ensures IsLeast(m, s)
  {
    LeastExists(s);
    var m :| m in s && forall x :: x in s ==> m <= x;
    m
  }

  /** ``sorted``. */
  function Sorted(s: set<nat>): (r: seq<nat>)
    ensures |r| == |s| && (forall x :: x in r <==> x in s) && Ascending(r)
  {
    if s == {} then []
    else
      var m := Least(s);
      var rest := Sorted(s - {m});
      PutFirst(m, rest);
      [m] + rest
  }

  lemma PutFirst(m: nat, rest: seq<nat>)
    requires Ascending(rest) && forall x :: x in rest ==> m < x
    ensures Ascending([m] + rest)
  {
    var r := [m] + rest;
    forall i, j | 0 <= i < j < |r|
      ensures r[i] < r[j]
    {
      assert r[j] == rest[j - 1] && rest[j - 1] in rest;
    }
  }

  /** ``_compact``. */
  method Compact(ids: set<nat>) returns (text: string, runs: seq<Run>)
    requires ids != {}
    ensures runs == Runs(Sorted(ids)) && text == PrintRuns(runs)
  {
    hide PrintRuns, Sorted, Ascending, Runs;
    var sorted := Sorted(ids);
    assert |sorted| > 0;
    FirstRun(sorted);
    runs := [Run(sorted[0], sorted[0])];
    var i := 1;
    while i < |sorted|
      invariant 1 <= i <= |sorted| && runs != []
      invariant runs == Runs(sorted[..i])
    {
      var v := sorted[i];
      NextRun(sorted, i);
      var last := runs[|runs| - 1];
      if v == last.high + 1 {
        runs := runs[..|runs| - 1] + [last.(high := v)];
      } else {
        runs := runs + [Run(v, v)];
      }
      i := i + 1;
    }
    assert sorted[..i] == sorted;
    text := PrintRuns(runs);
  }

  lemma NextRun(ids: seq<nat>, i: nat)
    requires 0 < i < |ids|
    ensures Runs(ids[..i]) != []
    ensures var runs, v := Runs(ids[..i]), ids[i];
            var last := runs[|runs| - 1];
            Runs(ids[..i + 1]) == if v == last.high + 1 then runs[..|runs| - 1] + [last.(high := v)]
                                  else runs + [Run(v, v)]
  {
    assert ids[..i + 1][..i] == ids[..i];
  }

  lemma FirstRun(ids: seq<nat>)
    requires ids != []
    ensures Runs(ids[..1]) == [Run(ids[0], ids[0])]
  {
    assert ids[..1] == [ids[0]] && ids[..1][..0] == [];
    assert Runs(ids[..1][..0]) == [];
  }

  // ---------------------------------------------------------------- the round trip

  lemma DigitsHaveNo(s: string, c: char)
    requires AllDigits(s) && !IsDigit(c)
    ensures c !in s
  {
  }

  /** What a printed run expands to: its numbers, or nothing when it is too long. */
  function Expanded(r: Run): seq<string> {
    if r.high - r.low < MAX_SPAN then Print(Range(r.low, r.high + 1)) else []
  }

  lemma RunExpands(r: Run)
    requires r.low <= r.high
    ensures ExpandChunk(PrintRun(r)) == Expanded(r)
    ensures ',' !in PrintRun(r) && ' ' !in PrintRun(r)
  {
    hide Decimal, Value, Range, IsDigit, ParseInt, Find, AllDigits;
    NotDigits();
    var a, b := Decimal(r.low), Decimal(r.high);
    DigitsHaveNo(a, '-'); DigitsHaveNo(a, ','); DigitsHaveNo(a, ' ');
    DigitsHaveNo(b, '-'); DigitsHaveNo(b, ','); DigitsHaveNo(b, ' ');
    ValueOfDecimal(r.low);
    ValueOfDecimal(r.high);
    if r.low == r.high {
      RangeOfOne(r.low);
      PrintOne(r.low);
    } else {
      PairExpands(a, b);
    }
  }

  lemma NotDigits()
    ensures !IsDigit('-') && !IsDigit(',') && !IsDigit(' ') && !IsDigit('_')
  {
  }

  lemma PrintOne(v: nat)
    ensures Print([v]) == [Decimal(v)]
  {
    hide Decimal;
    assert [v][1..] == [] && Print([v][1..]) == [];
  }

  lemma PairExpands(a: string, b: string)
    requires a != "" && b != "" && AllDigits(a) && AllDigits(b) && '-' !in a
    ensures ExpandChunk(a + "-" + b)
            == if Value(a) <= Value(b) && Value(b) - Value(a) < MAX_SPAN then Print(Range(Value(a), Value(b) + 1))
               else []
  {
    hide Value, Range, Print, AllDigits, Find, ParseInt;
    PairSplits(a, b);
    DigitsParse(a);
    DigitsParse(b);
  }

  lemma PairSplits(a: string, b: string)
    requires '-' !in a
    ensures var chunk := a + "-" + b;
            && '-' in chunk && Find(chunk, '-') == |a| < |chunk|
            && chunk[..|a|] == a && chunk[|a| + 1..] == b
  {
    var chunk := a + "-" + b;
    FindAt(a, '-', "-" + b);
    assert chunk == a + ("-" + b);
    assert chunk[|a|] == '-';
  }

  lemma {:induction false} DropNothing(s: string, c: char)
    requires c !in s
    ensures Drop(s, c) == s
  {
    if s != "" {
      assert s[0] in s && forall x :: x in s[1..] ==> x in s;
      DropNothing(s[1..], c);
    }
  }

  function ExpandedAll(runs: seq<Run>): seq<string> {
    if runs == [] then [] else Expanded(runs[0]) + ExpandedAll(runs[1..])
  }

  lemma {:induction false} RunsExpand(runs: seq<Run>)
    requires runs != [] && forall i :: 0 <= i < |runs| ==> runs[i].low <= runs[i].high
    ensures ExpandChunks(Split(PrintRuns(runs), ',')) == ExpandedAll(runs)
    ensures ' ' !in PrintRuns(runs)
  {
    var first := PrintRun(runs[0]);
    RunExpands(runs[0]);
    if |runs| == 1 {
      SplitFirst(first, ',', "");
      assert [first][1..] == [] && runs[1..] == [];
      assert ExpandChunks([first]) == ExpandChunk(first) + ExpandChunks([first][1..]);
    } else {
      RunsExpand(runs[1..]);
      SplitFirst(first, ',', PrintRuns(runs[1..]));
      assert PrintRuns(runs) == first + [','] + PrintRuns(runs[1..]);
      var rest := Split(PrintRuns(runs[1..]), ',');
      assert ([first] + rest)[1..] == rest;
    }
  }

  lemma {:induction false} PrintConcat(a: seq<nat>, b: seq<nat>)
    ensures Print(a + b) == Print(a) + Print(b)
  {
    if a == [] {
      assert a + b == b;
    } else {
      assert (a + b)[1..] == a[1..] + b;
      PrintConcat(a[1..], b);
    }
  }

  predicate Short(runs: seq<Run>) {
    forall i :: 0 <= i < |runs| ==> runs[i].high - runs[i].low < MAX_SPAN
  }

  lemma {:induction false} MembersHead(runs: seq<Run>)
    requires runs != []
    ensures Members(runs) == Range(runs[0].low, runs[0].high + 1) + Members(runs[1..])
  {
    hide Range;
    var n := |runs| - 1;
    var last := Range(runs[n].low, runs[n].high + 1);
    if n == 0 {
      assert runs[..0] == [] && runs[1..] == [];
    } else {
      var front, tail := runs[..n], runs[1..];
      MembersHead(front);
      assert tail[..|tail| - 1] == front[1..] && tail[|tail| - 1] == runs[n];
      var head, middle := Range(runs[0].low, runs[0].high + 1), Members(front[1..]);
      assert Members(tail) == middle + last;
      assert (head + middle) + last == head + (middle + last);
    }
  }

  lemma RangeLength(a: nat, b: nat)
    requires a <= b
    ensures |Range(a, b)| == b - a
    decreases b - a
  {
  }

  lemma {:induction false} ExpandedShort(runs: seq<Run>)
    requires forall i :: 0 <= i < |runs| ==> runs[i].low <= runs[i].high
    ensures |ExpandedAll(runs)| <= |Members(runs)|
    ensures Short(runs) ==> ExpandedAll(runs) == Print(Members(runs))
    ensures !Short(runs) ==> |ExpandedAll(runs)| < |Members(runs)|
  {
    hide Range, Print, Members, Short;
    if runs == [] {
      NoneShort();
    } else {
      assert forall i :: 0 <= i < |runs| - 1 ==> runs[1..][i] == runs[i + 1];
      ExpandedShort(runs[1..]);
      ShortSplits(runs);
      MembersHead(runs);
      RangeLength(runs[0].low, runs[0].high + 1);
      PrintConcat(Range(runs[0].low, runs[0].high + 1), Members(runs[1..]));
    }
  }

  lemma NoneShort()
    ensures Short([]) && Members([]) == [] && Print([]) == []
  {
  }

  lemma ShortSplits(runs: seq<Run>)
    requires runs != []
    ensures Short(runs) <==> runs[0].high - runs[0].low < MAX_SPAN && Short(runs[1..])
  {
    assert forall i :: 0 < i < |runs| ==> runs[i] == runs[1..][i - 1];
    assert forall i :: 0 <= i < |runs| - 1 ==> runs[1..][i] == runs[i + 1];
  }

  /** Round trip: expanding the compact form of a set gives its numbers in ascending order, each
      once, if and only if none of its runs spans 5000 or more. */
  lemma CompactExpands(ids: set<nat>)
    requires ids != {}
    ensures var runs := Runs(Sorted(ids));
            && Separated(runs)
            && (Expand(PrintRuns(runs)) == Print(Sorted(ids)) <==> Short(runs))
  {
    var sorted := Sorted(ids);
    var runs := Runs(sorted);
    RunsCover(sorted);
    RunsExpand(runs);
    DropNothing(PrintRuns(runs), ' ');
    ExpandedShort(runs);
  }

  // ---------------------------------------------------------------- the conversion

  /** What a block of the running-config contributes. ``port`` is the physical port the interface
      converts to, when it has one. */
  datatype Block =
    | VlanBlock(spec: string)
    | Interface(access: string, native: string, voice: string, svi: string, allowed: string, port: Option<string>)
    | Other

  const BUILTIN := {1, 1002, 1003, 1004, 1005}

  function Numbers(texts: seq<string>): set<nat> {
    set t | t in texts && t != "" && AllDigits(t) :: Value(t)
  }

  /** ``_vlans_used``: a trunk list over most of the range is no selection. */
  function VlansUsed(b: Block): set<nat>
    requires b.Interface?
  {
    var allowed := Expand(b.allowed);
    Numbers([b.access, b.native, b.voice, b.svi] + if |allowed| <= 256 then allowed else [])
  }

  function Referenced(blocks: seq<Block>): set<nat> {
    if blocks == [] then {}
    else Referenced(blocks[..|blocks| - 1])
         + if blocks[|blocks| - 1].Interface? then VlansUsed(blocks[|blocks| - 1]) else {}
  }

  function Defined(blocks: seq<Block>): set<nat> {
    if blocks == [] then {}
    else Defined(blocks[..|blocks| - 1])
         + if blocks[|blocks| - 1].VlanBlock? then Numbers(Expand(blocks[|blocks| - 1].spec)) else {}
  }

  /** The lists of the ``vlan`` blocks, carried over as they are. */
  function VlanLines(blocks: seq<Block>): seq<string> {
    if blocks == [] then []
    else VlanLines(blocks[..|blocks| - 1])
         + if blocks[|blocks| - 1].VlanBlock? then [blocks[|blocks| - 1].spec] else []
  }

  /** The physical ports in the order emitted: an interface whose port is taken emits none. */
  function Ports(blocks: seq<Block>): seq<string> {
    if blocks == [] then []
    else
      var before, b := Ports(blocks[..|blocks| - 1]), blocks[|blocks| - 1];
      before + if b.Interface? && b.port.Some? && b.port.value !in before then [b.port.value] else []
  }

  function Missing(blocks: seq<Block>, named: set<nat>): set<nat> {
    (Referenced(blocks) + named) - Defined(blocks) - BUILTIN
  }

  /** The ``vlan`` lines of the result. */
  function Lines(blocks: seq<Block>, named: set<nat>): seq<string> {
    (if Missing(blocks, named) == {} then [] else [PrintRuns(Runs(Sorted(Missing(blocks, named))))])
    + VlanLines(blocks)
  }

  /** What one block adds. */
  method ConvertBlock(b: Block, lines: seq<string>, ports: seq<string>, defined: set<nat>, referenced: set<nat>)
    returns (lines': seq<string>, ports': seq<string>, defined': set<nat>, referenced': set<nat>)
    ensures lines' == lines + if b.VlanBlock? then [b.spec] else []
    ensures ports' == ports + if b.Interface? && b.port.Some? && b.port.value !in ports then [b.port.value] else []
    ensures defined' == defined + if b.VlanBlock? then Numbers(Expand(b.spec)) else {}
    ensures referenced' == referenced + if b.Interface? then VlansUsed(b) else {}
    ensures forall v :: v in defined' <==> v in defined || Defines(b, v)
    ensures forall v :: v in referenced' <==> v in referenced || Uses(b, v)
  {
    BlockMeans(b);
    hide Expand, Numbers, VlansUsed, Uses, Defines;
    lines', ports', defined', referenced' := lines, ports, defined, referenced;
    match b {
      case VlanBlock(spec) =>
        var vlans := ExpandVlanList(spec);
        defined' := defined + Numbers(vlans);
        lines' := lines + [spec];
      case Interface(_, _, _, _, _, port) =>
        referenced' := referenced + VlansUsed(b);
        if port.Some? && port.value !in ports {
          ports' := ports + [port.value];
        }
      case Other =>
    }
  }

  /** The VLAN side of ``convert_ios_to_c1200``: the ``vlan`` lines of the result, ``named`` being
      the VLANs that a show-vlan table in the text lists, and the ports in the order emitted. */
  method ConvertVlans(blocks: seq<Block>, named: set<nat>) returns (lines: seq<string>, ports: seq<string>)
    ensures lines == Lines(blocks, named) && ports == Ports(blocks)
  {
    hide Expand, Numbers, VlansUsed, Runs, Sorted, PrintRuns;
    lines, ports := [], [];
    var defined, referenced: set<nat> := {}, {};
    var i := 0;
    while i < |blocks|
      invariant 0 <= i <= |blocks|
      invariant defined == Defined(blocks[..i]) && referenced == Referenced(blocks[..i])
      invariant lines == VlanLines(blocks[..i]) && ports == Ports(blocks[..i])
    {
      assert blocks[..i + 1][..i] == blocks[..i];
      lines, ports, defined, referenced := ConvertBlock(blocks[i], lines, ports, defined, referenced);
      i := i + 1;
    }
    assert blocks[..i] == blocks;
    var missing := (referenced + named) - defined - BUILTIN;
    if missing != {} {
      var text, runs := Compact(missing);
      lines := [text] + lines;
    }
  }

  // ---------------------------------------------------------------- what the result covers

  ghost predicate Creates(lines: seq<string>, v: nat) {
    exists i :: 0 <= i < |lines| && v in Numbers(Expand(lines[i]))
  }

  lemma CreatesEither(a: seq<string>, b: seq<string>, v: nat)
    ensures Creates(a + b, v) <==> Creates(a, v) || Creates(b, v)
  {
    hide Numbers, Expand;
    if Creates(a, v) {
      var i :| 0 <= i < |a| && v in Numbers(Expand(a[i]));
      assert (a + b)[i] == a[i];
    }
    if Creates(b, v) {
      var i :| 0 <= i < |b| && v in Numbers(Expand(b[i]));
      assert (a + b)[|a| + i] == b[i];
    }
  }

  lemma CreatesOne(line: string, v: nat)
    ensures Creates([line], v) <==> v in Numbers(Expand(line))
  {
    hide Numbers, Expand;
    assert [line][0] == line;
  }

  lemma {:induction false} DefinedIsCreated(blocks: seq<Block>, v: nat)
    ensures Creates(VlanLines(blocks), v) <==> v in Defined(blocks)
  {
    hide Numbers, Expand, Creates;
    if blocks == [] {
      NothingCreated(v);
    } else {
      var n := |blocks| - 1;
      DefinedIsCreated(blocks[..n], v);
      if blocks[n].VlanBlock? {
        CreatesEither(VlanLines(blocks[..n]), [blocks[n].spec], v);
        CreatesOne(blocks[n].spec, v);
      } else {
        assert VlanLines(blocks) == VlanLines(blocks[..n]);
      }
    }
  }

  lemma NothingCreated(v: nat)
    ensures !Creates([], v)
  {
  }

  lemma {:induction false} NumbersOfPrint(ids: seq<nat>)
    ensures forall v :: v in Numbers(Print(ids)) <==> v in ids
  {
    hide Decimal, Value, Numbers;
    if ids == [] {
      NoNumbers();
    } else {
      NumbersOfPrint(ids[1..]);
      ValueOfDecimal(ids[0]);
      NumbersCons(Decimal(ids[0]), Print(ids[1..]));
      assert ids == [ids[0]] + ids[1..];
    }
  }

  lemma NoNumbers()
    ensures Numbers([]) == {}
  {
  }

  lemma NumbersCons(t: string, texts: seq<string>)
    ensures Numbers([t] + texts) == (if t != "" && AllDigits(t) then {Value(t)} else {}) + Numbers(texts)
  {
    hide Value, AllDigits;
    assert forall x :: x in [t] + texts <==> x == t || x in texts;
    assert t in [t] + texts;
  }

  lemma {:induction false} NumbersConcat(a: seq<string>, b: seq<string>)
    ensures Numbers(a + b) == Numbers(a) + Numbers(b)
  {
    hide Value, AllDigits, Numbers;
    if a == [] {
      NoNumbers();
      assert a + b == b;
    } else {
      NumbersConcat(a[1..], b);
      NumbersCons(a[0], a[1..]);
      NumbersCons(a[0], a[1..] + b);
      assert a == [a[0]] + a[1..] && a + b == [a[0]] + (a[1..] + b);
    }
  }

  lemma {:induction false} InRange(a: nat, b: nat, v: nat)
    ensures v in Range(a, b) <==> a <= v < b
    decreases b - a
  {
    if a < b {
      InRange(a + 1, b, v);
    }
  }

  lemma OneFirstDash(chunk: string, n: int)
    requires FirstDash(chunk, n)
    ensures n == Find(chunk, '-')
  {
  }

  lemma ChunkDenotes(chunk: string, v: nat)
    ensures v in Numbers(ExpandChunk(chunk)) <==> Denotes(chunk, v)
  {
    hide Value, AllDigits, Numbers, Print, Range, ParseInt, Find, FirstDash;
    NoNumbers();
    if '-' in chunk {
      var n := Find(chunk, '-');
      DashIsFirst(chunk);
      forall m | FirstDash(chunk, m) ensures m == n {
        OneFirstDash(chunk, m);
      }
      match (ParseInt(chunk[..n]), ParseInt(chunk[n + 1..])) {
        case (Some(low), Some(high)) =>
          if low <= high {
            NumbersOfPrint(Range(low, high + 1));
            InRange(low, high + 1, v);
          }
        case _ =>
      }
    } else if chunk != "" && AllDigits(chunk) {
      NumbersCons(chunk, []);
      assert [chunk] + [] == [chunk];
    }
  }

  lemma DashIsFirst(chunk: string)
    requires '-' in chunk
    ensures FirstDash(chunk, Find(chunk, '-'))
  {
  }

  lemma {:induction false} ChunksDenote(chunks: seq<string>, v: nat)
    ensures v in Numbers(ExpandChunks(chunks)) <==> exists c :: c in chunks && Denotes(c, v)
  {
    hide Numbers, Denotes, ExpandChunk;
    if chunks == [] {
      NoNumbers();
    } else {
      ChunksDenote(chunks[1..], v);
      ChunkDenotes(chunks[0], v);
      NumbersConcat(ExpandChunk(chunks[0]), ExpandChunks(chunks[1..]));
      assert chunks == [chunks[0]] + chunks[1..];
    }
  }

  /** The expanded list names exactly the numbers that some piece between commas denotes, blanks apart. */
  lemma ListDenotes(spec: string, v: nat)
    ensures v in Numbers(Expand(spec)) <==> exists c :: c in Split(Drop(spec, ' '), ',') && Denotes(c, v)
  {
    hide Numbers, Denotes, ExpandChunks, Split, Drop;
    ChunksDenote(Split(Drop(spec, ' '), ','), v);
  }

  lemma RunsAreOrdered(runs: seq<Run>)
    requires Separated(runs)
    ensures forall i :: 0 <= i < |runs| ==> runs[i].low <= runs[i].high
  {
  }

  /** Some run that is not too long holds the number. */
  ghost predicate InShortRun(runs: seq<Run>, v: nat) {
    exists i :: 0 <= i < |runs| && runs[i].low <= v <= runs[i].high && runs[i].high - runs[i].low < MAX_SPAN
  }

  ghost predicate InRun(runs: seq<Run>, v: nat) {
    exists i :: 0 <= i < |runs| && runs[i].low <= v <= runs[i].high
  }

  lemma {:induction false} ExpandedHolds(runs: seq<Run>, v: nat)
    ensures v in Numbers(ExpandedAll(runs)) <==> InShortRun(runs, v)
  {
    hide Numbers, Range, Print;
    if runs == [] {
      NoNumbers();
    } else {
      ExpandedHolds(runs[1..], v);
      NumbersConcat(Expanded(runs[0]), ExpandedAll(runs[1..]));
      NumbersOfPrint(Range(runs[0].low, runs[0].high + 1));
      InRange(runs[0].low, runs[0].high + 1, v);
      NoNumbers();
      assert forall i :: 0 < i < |runs| ==> runs[i] == runs[1..][i - 1];
      assert forall i :: 0 <= i < |runs| - 1 ==> runs[1..][i] == runs[i + 1];
    }
  }

  lemma {:induction false} MembersInRun(runs: seq<Run>, v: nat)
    ensures v in Members(runs) <==> InRun(runs, v)
  {
    hide Range;
    if runs != [] {
      var n := |runs| - 1;
      MembersInRun(runs[..n], v);
      InRange(runs[n].low, runs[n].high + 1, v);
      assert forall i :: 0 <= i < n ==> runs[..n][i] == runs[i];
    }
  }

  /** Five thousand and one consecutive numbers, ``v`` among them, all in the set. */
  ghost predicate InStretch(ids: set<nat>, v: nat) {
    exists a: nat :: a <= v <= a + 5000 && Stretch(ids, a)
  }

  ghost predicate Stretch(ids: set<nat>, a: nat) {
    forall v: nat :: a <= v <= a + 5000 ==> v in ids
  }

  /** What follows a number in its run stays in the run. */
  lemma {:induction false} StaysInRun(runs: seq<Run>, i: nat, v: nat, w: nat)
    requires Separated(runs) && i < |runs| && runs[i].low <= v <= runs[i].high && v <= w
    requires forall x: nat :: v <= x <= w ==> InRun(runs, x)
    ensures w <= runs[i].high
    decreases w - v
  {
    if v < w {
      StaysInRun(runs, i, v, w - 1);
      assert InRun(runs, w);
      var j :| 0 <= j < |runs| && runs[j].low <= w <= runs[j].high;
      if i < j {
        RunsApart(runs, i, j);
      } else if j < i {
        RunsApart(runs, j, i);
      }
    }
  }

  lemma {:induction false} RunsApart(runs: seq<Run>, i: nat, j: nat)
    requires Separated(runs) && i < j < |runs|
    ensures runs[i].high + 1 < runs[j].low
    decreases j - i
  {
    if i + 1 < j {
      RunsApart(runs, i, j - 1);
    }
  }

  lemma OneRunEach(runs: seq<Run>, i: nat, j: nat, v: nat)
    requires Separated(runs) && i < |runs| && j < |runs|
    requires runs[i].low <= v <= runs[i].high && runs[j].low <= v <= runs[j].high
    ensures i == j
  {
    if i < j {
      RunsApart(runs, i, j);
    } else if j < i {
      RunsApart(runs, j, i);
    }
  }

  lemma StretchFillsRun(runs: seq<Run>, i: nat, ids: set<nat>, a: nat, v: nat)
    requires Separated(runs) && i < |runs| && runs[i].low <= v <= runs[i].high
    requires forall x :: x in ids <==> InRun(runs, x)
    requires Stretch(ids, a) && a <= v <= a + 5000
    ensures runs[i].high - runs[i].low >= 5000
  {
    assert a in ids;
    var j :| 0 <= j < |runs| && runs[j].low <= a <= runs[j].high;
    StaysInRun(runs, j, a, a + 5000);
    if i < j {
      RunsApart(runs, i, j);
    } else if j < i {
      RunsApart(runs, j, i);
    }
  }

  /** The compact line creates a number of the set exactly when it is not in a stretch of more than
      5000. */
  lemma CompactCreates(missing: set<nat>, v: nat)
    requires missing != {}
    ensures v in Numbers(Expand(PrintRuns(Runs(Sorted(missing))))) <==> v in missing && !InStretch(missing, v)
  {
    hide Numbers, Sorted, Runs, PrintRuns, ExpandedAll, Members;
    var runs := Runs(Sorted(missing));
    RunsCover(Sorted(missing));
    RunsAreOrdered(runs);
    RunsExpand(runs);
    DropNothing(PrintRuns(runs), ' ');
    ExpandedHolds(runs, v);
    hide Separated, Expand;
    forall x ensures x in missing <==> InRun(runs, x) {
      MembersInRun(runs, x);
    }
    if i: nat :| i < |runs| && runs[i].low <= v <= runs[i].high {
      if runs[i].high - runs[i].low >= 5000 {
        var a := if v + 5000 <= runs[i].high then v else runs[i].high - 5000;
        assert Stretch(missing, a);
        forall j | 0 <= j < |runs| && runs[j].low <= v <= runs[j].high ensures j == i {
          OneRunEach(runs, i, j, v);
        }
      } else if InStretch(missing, v) {
        var a: nat :| a <= v <= a + 5000 && Stretch(missing, a);
        StretchFillsRun(runs, i, missing, a, v);
      }
    }
  }

  // ---------------------------------------------------------------- coverage in terms of the blocks

  /** The text is a VLAN number. */
  ghost predicate Reads(text: string, v: nat) {
    text != "" && AllDigits(text) && Value(text) == v
  }

  /** An interface uses the VLANs of its access, native, voice and SVI fields, and those of its allowed
      list when that has at most 256 entries. */
  ghost predicate Uses(b: Block, v: nat) {
    && b.Interface?
    && (Reads(b.access, v) || Reads(b.native, v) || Reads(b.voice, v) || Reads(b.svi, v)
        || (|Expand(b.allowed)| <= 256 && exists t :: t in Expand(b.allowed) && Reads(t, v)))
  }

  ghost predicate Defines(b: Block, v: nat) {
    b.VlanBlock? && exists t :: t in Expand(b.spec) && Reads(t, v)
  }

  ghost predicate Used(blocks: seq<Block>, v: nat) {
    exists i :: 0 <= i < |blocks| && Uses(blocks[i], v)
  }

  ghost predicate DefinedBy(blocks: seq<Block>, v: nat) {
    exists i :: 0 <= i < |blocks| && Defines(blocks[i], v)
  }

  /** The VLAN has to be added: used or named, but neither defined nor built in. */
  ghost predicate ToAdd(blocks: seq<Block>, named: set<nat>, v: nat) {
    (Used(blocks, v) || v in named) && !DefinedBy(blocks, v) && v != 1 && !(1002 <= v <= 1005)
  }

  /** 5001 consecutive VLANs have to be added. */
  ghost predicate TooMany(blocks: seq<Block>, named: set<nat>, a: nat) {
    forall v: nat :: a <= v <= a + 5000 ==> ToAdd(blocks, named, v)
  }

  lemma UsesMeans(b: Block, v: nat)
    requires b.Interface?
    ensures v in VlansUsed(b) <==> Uses(b, v)
  {
    hide Expand, AllDigits, Value;
    var allowed := if |Expand(b.allowed)| <= 256 then Expand(b.allowed) else [];
    var fields := [b.access, b.native, b.voice, b.svi];
    assert forall t :: t in fields <==> t == b.access || t == b.native || t == b.voice || t == b.svi;
    assert forall t :: t in fields + allowed <==> t in fields || t in allowed;
    assert v in Numbers(fields + allowed) <==> exists t :: t in fields + allowed && Reads(t, v);
    if Uses(b, v) {
      var t :| t in fields + allowed && Reads(t, v);
    }
  }

  lemma BlockMeans(b: Block)
    ensures forall v :: Uses(b, v) <==> b.Interface? && v in VlansUsed(b)
    ensures forall v :: Defines(b, v) <==> b.VlanBlock? && v in Numbers(Expand(b.spec))
  {
    hide VlansUsed, Expand, AllDigits, Value;
    forall v ensures Uses(b, v) <==> b.Interface? && v in VlansUsed(b) {
      if b.Interface? {
        UsesMeans(b, v);
      }
    }
  }

  lemma {:induction false} BlocksMean(blocks: seq<Block>, v: nat)
    ensures v in Referenced(blocks) <==> Used(blocks, v)
    ensures v in Defined(blocks) <==> DefinedBy(blocks, v)
  {
    if blocks != [] {
      var n := |blocks| - 1;
      BlocksMean(blocks[..n], v);
      BlockMeans(blocks[n]);
      hide VlansUsed, Expand, Uses, Defines, Used, DefinedBy, Numbers;
      OneMoreBlock(blocks, v);
    }
  }

  lemma OneMoreBlock(blocks: seq<Block>, v: nat)
    requires blocks != []
    ensures var n := |blocks| - 1;
            && (Used(blocks, v) <==> Used(blocks[..n], v) || Uses(blocks[n], v))
            && (DefinedBy(blocks, v) <==> DefinedBy(blocks[..n], v) || Defines(blocks[n], v))
  {
    hide Uses, Defines;
    var n := |blocks| - 1;
    assert forall i :: 0 <= i < n ==> blocks[..n][i] == blocks[i];
  }

  lemma MissingMeans(blocks: seq<Block>, named: set<nat>)
    ensures forall v :: v in Missing(blocks, named) <==> ToAdd(blocks, named, v)
    ensures forall a :: Stretch(Missing(blocks, named), a) <==> TooMany(blocks, named, a)
  {
    hide Referenced, Defined, Used, DefinedBy;
    forall v ensures v in Missing(blocks, named) <==> ToAdd(blocks, named, v) {
      BlocksMean(blocks, v);
    }
  }

  /** The result creates exactly the VLANs that some block defines and those that have to be added, but
      for stretches of more than 5000. */
  lemma CreatedExactly(blocks: seq<Block>, named: set<nat>, v: nat)
    ensures Creates(Lines(blocks, named), v)
            <==> DefinedBy(blocks, v)
                 || (ToAdd(blocks, named, v) && !exists a: nat :: a <= v <= a + 5000 && TooMany(blocks, named, a))
  {
    hide Expand, Numbers, Runs, Sorted, PrintRuns, Creates, Defined, VlanLines, ToAdd, TooMany, Stretch, Referenced;
    hide DefinedBy;
    var missing := Missing(blocks, named);
    DefinedIsCreated(blocks, v);
    BlocksMean(blocks, v);
    MissingMeans(blocks, named);
    if missing == {} {
      assert [] + VlanLines(blocks) == VlanLines(blocks);
    } else {
      var text := PrintRuns(Runs(Sorted(missing)));
      CompactCreates(missing, v);
      CreatesEither([text], VlanLines(blocks), v);
      CreatesOne(text, v);
    }
  }

  /** Every VLAN that an interface uses or show vlan names is built in or created, if and only if there are
      no 5001 consecutive VLANs to be added. */
  lemma ConversionCovers(blocks: seq<Block>, named: set<nat>)
    ensures (forall v: nat :: Used(blocks, v) || v in named ==>
               v == 1 || 1002 <= v <= 1005 || Creates(Lines(blocks, named), v))
            <==> forall a: nat :: !TooMany(blocks, named, a)
  {
    hide Creates, Used, DefinedBy, Lines;
    forall v: nat
      ensures Creates(Lines(blocks, named), v)
              <==> DefinedBy(blocks, v)
                   || (ToAdd(blocks, named, v) && !exists a: nat :: a <= v <= a + 5000 && TooMany(blocks, named, a))
    {
      CreatedExactly(blocks, named, v);
    }
    if a: nat :| TooMany(blocks, named, a) {
      assert ToAdd(blocks, named, a);
    }
  }

  ghost predicate Claims(blocks: seq<Block>, p: string) {
    exists i :: 0 <= i < |blocks| && blocks[i].Interface? && blocks[i].port == Some(p)
  }

  /** Every physical port some interface converts to is emitted, and none twice. */
  lemma {:induction false} PortsEmittedOnce(blocks: seq<Block>)
    ensures forall i, j :: 0 <= i < j < |Ports(blocks)| ==> Ports(blocks)[i] != Ports(blocks)[j]
    ensures forall p :: p in Ports(blocks) <==> Claims(blocks, p)
  {
    if blocks != [] {
      var n := |blocks| - 1;
      PortsEmittedOnce(blocks[..n]);
      forall p
        ensures Claims(blocks, p) <==>
                Claims(blocks[..n], p) || (blocks[n].Interface? && blocks[n].port == Some(p))
      {
        assert forall i :: 0 <= i < n ==> blocks[..n][i] == blocks[i];
      }
    }
  }
}
