/** observability/iface_errors.py: growth of interface error counters and the verdict on it. */
module IfaceCounters {
  import opened Wrappers

  datatype Counter =
    | InErrors | OutErrors
    | Crc | Alignment | Symbol | Runts | Giants
    | LateCollisions | ExcessiveCollisions | CarrierSense
    | MacRxErrors | MacTxErrors
    | InDiscards | OutDiscards

  datatype Class = Physical | Duplex | Hardware | Errors | Discards

  const FIELDS: seq<Counter> := [
    InErrors, OutErrors, Crc, Alignment, Symbol, Runts, Giants, LateCollisions, ExcessiveCollisions,
    CarrierSense, MacRxErrors, MacTxErrors, InDiscards, OutDiscards
  ]

  /** The counters that are part of a total. */
  const DETAILS: seq<Counter> := [
    Crc, Alignment, Symbol, Runts, Giants, MacRxErrors, LateCollisions, ExcessiveCollisions, MacTxErrors, CarrierSense
  ]

  const CLASS_ORDER: seq<Class> := [Physical, Duplex, Hardware, Errors, Discards]

  function ClassOf(c: Counter): Class {
    match c
    case InErrors | OutErrors => Errors
    case Crc | Alignment | Symbol | Runts | Giants => Physical
    case LateCollisions | ExcessiveCollisions | CarrierSense => Duplex
    case MacRxErrors | MacTxErrors => Hardware
    case InDiscards | OutDiscards => Discards
  }

  function TotalOf(c: Counter): Option<Counter> {
    match c
    case Crc | Alignment | Symbol | Runts | Giants | MacRxErrors => Some(InErrors)
    case LateCollisions | ExcessiveCollisions | MacTxErrors | CarrierSense => Some(OutErrors)
    case InErrors | OutErrors | InDiscards | OutDiscards => None
  }

  type Reading = map<Counter, int>

  datatype Metric = Number(value: int) | NotANumber

  // ---------------------------------------------------------------- one reading

  predicate Numeric(metrics: map<Counter, Metric>, c: Counter) {
    c in metrics && metrics[c].Number?
  }

  /** A detail larger than its total is not a measure. */
  predicate Garbage(metrics: map<Counter, Metric>, c: Counter)
    requires Numeric(metrics, c)
  {
    && TotalOf(c).Some?
    && Numeric(metrics, TotalOf(c).value)
    && metrics[c].value > metrics[TotalOf(c).value].value
  }

  function Readable(metrics: map<Counter, Metric>): Reading {
    map c | c in metrics && Numeric(metrics, c) && !Garbage(metrics, c) :: metrics[c].value
  }

  /** ``counters_of``: every number first, then the details that outgrow their total are deleted
      one by one. */
  method CountersOf(metrics: map<Counter, Metric>) returns (out: Reading)
    ensures out == Readable(metrics)
  {
    out := map c | c in metrics && Numeric(metrics, c) :: metrics[c].value;
    var i := 0;
    while i < |DETAILS|
      invariant 0 <= i <= |DETAILS|
      invariant forall c :: c in out <==>
                              && c in metrics && Numeric(metrics, c)
                              && !(c in DETAILS[..i] && Garbage(metrics, c))
      invariant forall c :: c in out ==> out[c] == metrics[c].value
    {
      var detail := DETAILS[i];
      var total := TotalOf(detail).value;
      assert total !in DETAILS[..i];
      if detail in out && total in out && out[detail] > out[total] {
        out := out - {detail};
      }
      assert DETAILS[..i + 1] == DETAILS[..i] + [detail];
      i := i + 1;
    }
    assert DETAILS[..i] == DETAILS;
    assert forall c: Counter :: TotalOf(c).Some? ==> c in DETAILS;
  }

  // ---------------------------------------------------------------- growth over samples

  datatype Growth = Growth(delta: Reading, reset: bool)

  function Get<K>(m: map<K, int>, k: K): int {
    if k in m then m[k] else 0
  }

  function Plus(a: Reading, b: Reading): Reading {
    map c | c in a.Keys + b.Keys :: Get(a, c) + Get(b, c)
  }

  function Rise(before: int, now: int): int {
    if now >= before then now - before else 0
  }

  predicate Drops(before: Reading, now: Reading, c: Counter) {
    c in now && c in before && now[c] < before[c]
  }

  function Between(before: Reading, now: Reading): Growth {
    Growth(map c | c in now && c in before :: Rise(before[c], now[c]),
           exists c :: c in now && Drops(before, now, c))
  }

  function Both(g: Growth, h: Growth): Growth {
    Growth(Plus(g.delta, h.delta), g.reset || h.reset)
  }

  /** What ``increments`` returns, as a fold over the steps from one sample to the next. */
  function Increments(samples: seq<Reading>): Growth {
    if |samples| < 2 then Growth(map[], false)
    else
      var n := |samples| - 1;
      Both(Increments(samples[..n]), Between(samples[n - 1], samples[n]))
  }

  /** One step of ``increments``: the fields of the later reading, in whatever order it lists them. */
  method AddStep(before: Growth, prev: Reading, cur: Reading) returns (g: Growth)
    ensures g == Both(before, Between(prev, cur))
  {
    var delta, reset := before.delta, before.reset;
    var fields := cur.Keys;
    while fields != {}
      invariant fields <= cur.Keys
      invariant forall c :: c in delta <==> c in before.delta || (c in cur && c in prev && c !in fields)
      invariant forall c :: c in delta ==>
                              delta[c] == Get(before.delta, c) + (if c in cur && c in prev && c !in fields
                                                                  then Rise(prev[c], cur[c]) else 0)
      invariant reset <==> before.reset || exists c :: c in cur && c !in fields && Drops(prev, cur, c)
      decreases fields
    {
      var field :| field in fields;
      fields := fields - {field};
      if field in prev {
        var inc := 0;
        if cur[field] >= prev[field] {
          inc := cur[field] - prev[field];
        } else {
          reset := true;
          assert field in cur && field !in fields && Drops(prev, cur, field);
        }
        delta := delta[field := Get(delta, field) + inc];
      }
    }
    g := Growth(delta, reset);
  }

  /** ``increments``. */
  method AddUp(samples: seq<Reading>) returns (g: Growth)
    ensures g == Increments(samples)
  {
    hide Both, Between;
    g := Growth(map[], false);
    if samples == [] {
      return;
    }
    var i := 1;
    while i < |samples|
      invariant 1 <= i <= |samples|
      invariant g == Increments(samples[..i])
    {
      assert samples[..i + 1][..i] == samples[..i];
      g := AddStep(g, samples[i - 1], samples[i]);
      i := i + 1;
    }
    assert samples[..i] == samples;
  }

  lemma PlusNothing(a: Reading)
    ensures Plus(a, map[]) == a
  {
  }

  lemma PlusAssociates(a: Reading, b: Reading, c: Reading)
    ensures Plus(Plus(a, b), c) == Plus(a, Plus(b, c))
  {
  }

  /** Cut a window at a sample both halves share: the growths add up, and a reset is in one or the
      other. */
  lemma {:induction false} CutsAddUp(left: seq<Reading>, shared: Reading, right: seq<Reading>)
    ensures Increments(left + [shared] + right) == Both(Increments(left + [shared]), Increments([shared] + right))
  {
    hide Plus, Between;
    if right == [] {
      assert left + [shared] + right == left + [shared];
      PlusNothing(Increments(left + [shared]).delta);
    } else {
      var n := |right| - 1;
      var whole, tail := left + [shared] + right, [shared] + right;
      CutsAddUp(left, shared, right[..n]);
      assert whole[..|whole| - 1] == left + [shared] + right[..n];
      assert tail[..|tail| - 1] == [shared] + right[..n];
      assert whole[|whole| - 2] == tail[|tail| - 2];
      PlusAssociates(Increments(left + [shared]).delta, Increments([shared] + right[..n]).delta,
                     Between(tail[|tail| - 2], tail[|tail| - 1]).delta);
    }
  }

  /** How much a counter lost at the steps where it went down. */
  function Lost(samples: seq<Reading>, c: Counter): (n: int)
    requires forall k :: 0 <= k < |samples| ==> c in samples[k]
    ensures n >= 0
  {
    if |samples| < 2 then 0
    else
      var n := |samples| - 1;
      Lost(samples[..n], c) + Rise(samples[n][c], samples[n - 1][c])
  }

  /** A counter every sample carries: its last value is the first plus the growth less the drops. */
  lemma {:induction false} Balance(samples: seq<Reading>, c: Counter)
    requires samples != [] && forall k :: 0 <= k < |samples| ==> c in samples[k]
    ensures samples[|samples| - 1][c] == samples[0][c] + Get(Increments(samples).delta, c) - Lost(samples, c)
  {
    if |samples| >= 2 {
      Balance(samples[..|samples| - 1], c);
    }
  }

  ghost predicate StepDrops(samples: seq<Reading>, k: int, c: Counter) {
    0 <= k < |samples| - 1 && Drops(samples[k], samples[k + 1], c)
  }

  ghost predicate StepCarries(samples: seq<Reading>, k: int, c: Counter) {
    0 <= k < |samples| - 1 && c in samples[k] && c in samples[k + 1]
  }

  /** The reset flag tells exactly whether some counter went down at some step. */
  lemma {:induction false} ResetMeansDrop(samples: seq<Reading>)
    ensures Increments(samples).reset <==> exists k, c :: StepDrops(samples, k, c)
  {
    if |samples| >= 2 {
      var n := |samples| - 1;
      ResetMeansDrop(samples[..n]);
      forall k, c | StepDrops(samples, k, c) && k < n - 1
        ensures StepDrops(samples[..n], k, c)
      {
      }
      if Increments(samples[..n]).reset {
        var k, c :| StepDrops(samples[..n], k, c);
        assert StepDrops(samples, k, c);
      }
      if Between(samples[n - 1], samples[n]).reset {
        var c :| c in samples[n] && Drops(samples[n - 1], samples[n], c);
        assert StepDrops(samples, n - 1, c);
      }
    }
  }

  /** A counter has a growth, never negative, exactly when two samples in a row carry it. */
  lemma {:induction false} GrowthIsReported(samples: seq<Reading>, c: Counter)
    ensures c in Increments(samples).delta <==> exists k :: StepCarries(samples, k, c)
    ensures Get(Increments(samples).delta, c) >= 0
  {
    if |samples| >= 2 {
      var n := |samples| - 1;
      GrowthIsReported(samples[..n], c);
      assert c in Increments(samples).delta <==> c in Increments(samples[..n]).delta || StepCarries(samples, n - 1, c);
      forall k | 0 <= k < n - 1
        ensures StepCarries(samples[..n], k, c) <==> StepCarries(samples, k, c)
      {
      }
    }
  }

  // ---------------------------------------------------------------- the verdict

  datatype Status = SingleSample | NoCounters | Erroring | OnlyDiscards | Clean

  datatype Verdict = Verdict(status: Status, worst: Option<Class>, errors: int)

  /** What a counter adds to the error count: discards nothing, a detail nothing beside its total. */
  function Counted(delta: Reading, c: Counter): int {
    if ClassOf(c) == Discards || (TotalOf(c).Some? && TotalOf(c).value in delta) then 0 else Get(delta, c)
  }

  function InClass(delta: Reading, class_: Class, c: Counter): int {
    if ClassOf(c) == class_ then Get(delta, c) else 0
  }

  function Sum(weigh: Counter -> int, cs: seq<Counter>): int {
    if cs == [] then 0 else Sum(weigh, cs[..|cs| - 1]) + weigh(cs[|cs| - 1])
  }

  function ErrorWeight(delta: Reading): Counter -> int {
    c => Counted(delta, c)
  }

  function ClassWeight(delta: Reading, class_: Class): Counter -> int {
    c => InClass(delta, class_, c)
  }

  function ErrorCount(delta: Reading): int {
    Sum(ErrorWeight(delta), FIELDS)
  }

  function ClassCount(delta: Reading, class_: Class): int {
    Sum(ClassWeight(delta, class_), FIELDS)
  }

  function FirstGrown(delta: Reading, classes: seq<Class>): Option<Class> {
    if classes == [] then None
    else if ClassCount(delta, classes[0]) != 0 then Some(classes[0])
    else FirstGrown(delta, classes[1..])
  }

  function Judge(delta: Option<Reading>): Verdict {
    match delta
    case None => Verdict(SingleSample, None, 0)
    case Some(d) =>
      if d == map[] then Verdict(NoCounters, None, 0)
      else if ErrorCount(d) != 0 then Verdict(Erroring, FirstGrown(d, CLASS_ORDER), ErrorCount(d))
      else if ClassCount(d, Discards) != 0 then Verdict(OnlyDiscards, FirstGrown(d, CLASS_ORDER), 0)
      else Verdict(Clean, None, 0)
  }

  predicate Distinct(cs: seq<Counter>) {
    forall i, j :: 0 <= i < j < |cs| ==> cs[i] != cs[j]
  }

  lemma {:induction false} SumWithout(weigh: Counter -> int, cs: seq<Counter>, k: nat)
    requires k < |cs|
    ensures Sum(weigh, cs) == Sum(weigh, cs[..k] + cs[k + 1..]) + weigh(cs[k])
  {
    var n := |cs| - 1;
    if k == n {
      assert cs[..k] + cs[k + 1..] == cs[..n];
    } else {
      SumWithout(weigh, cs[..n], k);
      var rest := cs[..k] + cs[k + 1..];
      assert rest[..|rest| - 1] == cs[..n][..k] + cs[..n][k + 1..];
    }
  }

  lemma {:induction false} SumOfNothing(weigh: Counter -> int, cs: seq<Counter>)
    requires forall c :: c in cs ==> weigh(c) == 0
    ensures Sum(weigh, cs) == 0
  {
    if cs != [] {
      SumOfNothing(weigh, cs[..|cs| - 1]);
    }
  }

  /** A sum over the counters at hand, in any order, is the sum over all of them. */
  lemma {:induction false} SumOverAll(weigh: Counter -> int, cs: seq<Counter>, all: seq<Counter>)
    requires Distinct(cs) && Distinct(all)
    requires forall c :: c in cs ==> c in all
    requires forall c :: c in all && c !in cs ==> weigh(c) == 0
    ensures Sum(weigh, cs) == Sum(weigh, all)
  {
    if cs == [] {
      SumOfNothing(weigh, all);
    } else {
      var n := |cs| - 1;
      assert cs[n] in all;
      var rest := TakeOut(weigh, all, cs[n]);
      SumOverAll(weigh, cs[..n], rest);
    }
  }

  lemma TakeOut(weigh: Counter -> int, all: seq<Counter>, c: Counter) returns (rest: seq<Counter>)
    requires Distinct(all) && c in all
    ensures Distinct(rest) && forall x :: x in rest <==> x in all && x != c
    ensures Sum(weigh, all) == Sum(weigh, rest) + weigh(c)
  {
    var k :| 0 <= k < |all| && all[k] == c;
    rest := all[..k] + all[k + 1..];
    SumWithout(weigh, all, k);
    forall x | x in all && x != c
      ensures x in rest
    {
      var j :| 0 <= j < |all| && all[j] == x;
      assert x == if j < k then rest[j] else rest[j - 1];
    }
  }

  lemma SameSum(f: Counter -> int, g: Counter -> int, cs: seq<Counter>)
    requires forall c :: f(c) == g(c)
    ensures Sum(f, cs) == Sum(g, cs)
  {
    if cs != [] {
      SameSum(f, g, cs[..|cs| - 1]);
    }
  }

  /** The growths, in whatever order the dictionary lists them. */
  ghost predicate Lists(order: seq<Counter>, delta: Reading) {
    Distinct(order) && forall c :: c in order <==> c in delta
  }

  lemma EveryCounter(c: Counter)
    ensures c in FIELDS
  {
    assert FIELDS[0] == InErrors && FIELDS[1] == OutErrors && FIELDS[2] == Crc && FIELDS[3] == Alignment;
    assert FIELDS[4] == Symbol && FIELDS[5] == Runts && FIELDS[6] == Giants && FIELDS[7] == LateCollisions;
    assert FIELDS[8] == ExcessiveCollisions && FIELDS[9] == CarrierSense && FIELDS[10] == MacRxErrors;
    assert FIELDS[11] == MacTxErrors && FIELDS[12] == InDiscards && FIELDS[13] == OutDiscards;
  }

  lemma SumOverFields(weigh: Counter -> int, order: seq<Counter>, delta: Reading)
    requires Lists(order, delta)
    requires forall c :: c !in delta ==> weigh(c) == 0
    ensures Sum(weigh, order) == Sum(weigh, FIELDS)
  {
    forall c ensures c in FIELDS { EveryCounter(c); }
    assert Distinct(FIELDS);
    SumOverAll(weigh, order, FIELDS);
  }

  /** The growth per class. */
  method ByClass(delta: Reading, order: seq<Counter>) returns (byClass: map<Class, int>)
    requires Lists(order, delta)
    ensures forall k :: Get(byClass, k) == ClassCount(delta, k)
  {
    byClass := map[];
    var i := 0;
    while i < |order|
      invariant 0 <= i <= |order|
      invariant forall k :: Get(byClass, k) == Sum(ClassWeight(delta, k), order[..i])
    {
      var field := order[i];
      assert order[..i + 1][..i] == order[..i];
      if delta[field] != 0 {
        var class_ := ClassOf(field);
        byClass := byClass[class_ := Get(byClass, class_) + delta[field]];
      }
      i := i + 1;
    }
    assert order[..i] == order;
    forall k
      ensures Get(byClass, k) == ClassCount(delta, k)
    {
      SumOverFields(ClassWeight(delta, k), order, delta);
    }
  }

  method CountErrors(delta: Reading, order: seq<Counter>) returns (errors: int)
    requires Lists(order, delta)
    ensures errors == ErrorCount(delta)
  {
    errors := 0;
    var i := 0;
    while i < |order|
      invariant 0 <= i <= |order|
      invariant errors == Sum(ErrorWeight(delta), order[..i])
    {
      var field := order[i];
      assert order[..i + 1][..i] == order[..i];
      if delta[field] != 0 && ClassOf(field) != Discards && !(TotalOf(field).Some? && TotalOf(field).value in delta) {
        errors := errors + delta[field];
      }
      i := i + 1;
    }
    assert order[..i] == order;
    SumOverFields(ErrorWeight(delta), order, delta);
  }

  /** ``verdict``. */
  method VerdictOf(delta: Option<Reading>, order: seq<Counter>) returns (v: Verdict)
    requires delta.Some? ==> Lists(order, delta.value)
    ensures v == Judge(delta)
  {
    hide ClassCount, ErrorCount;
    if delta.None? {
      return Verdict(SingleSample, None, 0);
    }
    var d := delta.value;
    if d == map[] {
      return Verdict(NoCounters, None, 0);
    }
    var byClass := ByClass(d, order);
    var errors := CountErrors(d, order);
    var worst := None;
    var j := 0;
    while j < |CLASS_ORDER| && worst == None
      invariant 0 <= j <= |CLASS_ORDER|
      invariant FirstGrown(d, CLASS_ORDER) ==
                  if worst.Some? then worst else FirstGrown(d, CLASS_ORDER[j..])
    {
      if Get(byClass, CLASS_ORDER[j]) != 0 {
        worst := Some(CLASS_ORDER[j]);
      }
      j := j + 1;
    }
    if errors != 0 {
      return Verdict(Erroring, worst, errors);
    }
    if Get(byClass, Discards) != 0 {
      return Verdict(OnlyDiscards, worst, 0);
    }
    return Verdict(Clean, None, 0);
  }

  // ---------------------------------------------------------------- what a verdict means

  predicate Grew(delta: Reading, c: Counter) {
    c in delta && delta[c] > 0
  }

  /** A detail whose total was read as well and did not move. */
  predicate Hidden(delta: Reading, c: Counter) {
    TotalOf(c).Some? && TotalOf(c).value in delta && delta[TotalOf(c).value] == 0
  }

  ghost predicate NeverShrinks(delta: Reading) {
    forall c :: c in delta ==> delta[c] >= 0
  }

  /** Some counter that is not a discard grew in plain sight. */
  ghost predicate VisibleErrors(delta: Reading) {
    exists c :: Grew(delta, c) && ClassOf(c) != Discards && !Hidden(delta, c)
  }

  ghost predicate DiscardsGrew(delta: Reading) {
    exists c :: Grew(delta, c) && ClassOf(c) == Discards
  }

  lemma {:induction false} SumIsZero(weigh: Counter -> int, cs: seq<Counter>)
    requires forall c :: weigh(c) >= 0
    ensures Sum(weigh, cs) >= 0
    ensures Sum(weigh, cs) == 0 <==> forall c :: c in cs ==> weigh(c) == 0
  {
    if cs != [] {
      var n := |cs| - 1;
      SumIsZero(weigh, cs[..n]);
      assert forall c :: c in cs <==> c in cs[..n] || c == cs[n];
    }
  }

  lemma ErrorsAreVisible(delta: Reading)
    requires NeverShrinks(delta)
    ensures ErrorCount(delta) >= 0
    ensures ErrorCount(delta) != 0 <==> VisibleErrors(delta)
  {
    SumIsZero(ErrorWeight(delta), FIELDS);
    if ErrorCount(delta) != 0 {
      var c :| c in FIELDS && ErrorWeight(delta)(c) != 0;
      assert Grew(delta, c) && ClassOf(c) != Discards && !Hidden(delta, c);
    }
    if c :| Grew(delta, c) && ClassOf(c) != Discards && !Hidden(delta, c) {
      CountedOrItsTotal(delta, c);
    }
  }

  /** A growth in plain sight is counted, or else its total is. */
  lemma CountedOrItsTotal(delta: Reading, c: Counter)
    requires NeverShrinks(delta) && Grew(delta, c) && ClassOf(c) != Discards && !Hidden(delta, c)
    ensures exists f :: f in FIELDS && ErrorWeight(delta)(f) != 0
  {
    hide FIELDS;
    var f := if Counted(delta, c) != 0 then c else TotalOf(c).value;
    EveryCounter(f);
    assert ErrorWeight(delta)(f) != 0;
  }

  lemma ClassGrew(delta: Reading, class_: Class)
    requires NeverShrinks(delta)
    ensures ClassCount(delta, class_) != 0 <==> exists c :: Grew(delta, c) && ClassOf(c) == class_
  {
    SumIsZero(ClassWeight(delta, class_), FIELDS);
    if ClassCount(delta, class_) != 0 {
      var c :| c in FIELDS && InClass(delta, class_, c) != 0;
      assert Grew(delta, c) && ClassOf(c) == class_;
    }
    if c :| Grew(delta, c) && ClassOf(c) == class_ {
      EveryCounter(c);
      assert InClass(delta, class_, c) != 0;
    }
  }

  /** What each status says, exactly: a detail that grows while its total stands still is not seen. */
  lemma StatusMeans(delta: Reading)
    requires delta != map[] && NeverShrinks(delta)
    ensures Judge(Some(delta)).status == Erroring <==> VisibleErrors(delta)
    ensures Judge(Some(delta)).status == OnlyDiscards <==> !VisibleErrors(delta) && DiscardsGrew(delta)
    ensures Judge(Some(delta)).status == Clean <==> forall c :: Grew(delta, c) ==> Hidden(delta, c)
  {
    ErrorsAreVisible(delta);
    ClassGrew(delta, Discards);
  }

  /** How soon a class is to be looked at. */
  function Urgency(k: Class): nat {
    match k
    case Physical => 0
    case Duplex => 1
    case Hardware => 2
    case Errors => 3
    case Discards => 4
  }

  lemma {:induction false} FirstGrownMeans(delta: Reading, classes: seq<Class>)
    requires forall i, j :: 0 <= i < j < |classes| ==> Urgency(classes[i]) < Urgency(classes[j])
    ensures match FirstGrown(delta, classes)
            case None => forall k :: k in classes ==> ClassCount(delta, k) == 0
            case Some(k) => && ClassCount(delta, k) != 0
                            && forall m :: m in classes && ClassCount(delta, m) != 0 ==> Urgency(k) <= Urgency(m)
  {
    hide ClassCount, Urgency;
    if classes != [] {
      FirstGrownMeans(delta, classes[1..]);
      assert classes == [classes[0]] + classes[1..];
    }
  }

  /** The class named with a port is the most urgent of those in which some counter grew, hidden ones
      included; a class is named for exactly the ports that are erroring or have discards, and only
      erroring ones have a count. */
  lemma WorstIsMostUrgent(delta: Reading)
    requires delta != map[] && NeverShrinks(delta)
    ensures var v := Judge(Some(delta));
            && (v.worst.Some? <==> v.status == Erroring || v.status == OnlyDiscards)
            && (v.worst.Some? ==>
                  && (exists c :: Grew(delta, c) && ClassOf(c) == v.worst.value)
                  && (forall c :: Grew(delta, c) ==> Urgency(v.worst.value) <= Urgency(ClassOf(c))))
            && (v.errors > 0 <==> v.status == Erroring)
  {
    hide ClassCount, ErrorCount, ClassOf;
    forall k ensures ClassCount(delta, k) != 0 <==> exists c :: Grew(delta, c) && ClassOf(c) == k {
      ClassGrew(delta, k);
    }
    ErrorsAreVisible(delta);
    FirstGrownMeans(delta, CLASS_ORDER);
    forall k ensures k in CLASS_ORDER {
      assert CLASS_ORDER[Urgency(k)] == k;
    }
    if VisibleErrors(delta) {
      var c :| Grew(delta, c) && ClassOf(c) != Discards && !Hidden(delta, c);
      assert ClassCount(delta, ClassOf(c)) != 0;
    }
  }

  /** One of these counters grew. */
  ghost predicate AnyGrew(delta: Reading, cs: set<Counter>) {
    exists c :: c in cs && Grew(delta, c)
  }

  /** Which class is named, counter by counter: physical before duplex before hardware before the bare
      totals before discards. */
  lemma WorstByCounter(delta: Reading)
    requires delta != map[] && NeverShrinks(delta) && Judge(Some(delta)).worst.Some?
    ensures var worst := Judge(Some(delta)).worst.value;
            worst == if AnyGrew(delta, {Crc, Alignment, Symbol, Runts, Giants}) then Physical
                     else if AnyGrew(delta, {LateCollisions, ExcessiveCollisions, CarrierSense}) then Duplex
                     else if AnyGrew(delta, {MacRxErrors, MacTxErrors}) then Hardware
                     else if AnyGrew(delta, {InErrors, OutErrors}) then Errors
                     else Discards
  {
    WorstIsMostUrgent(delta);
    hide Judge;
  }

  /** No detail outgrows the total it is part of. */
  ghost predicate Consistent(delta: Reading) {
    forall c :: c in delta && TotalOf(c).Some? && TotalOf(c).value in delta ==> delta[c] <= delta[TotalOf(c).value]
  }

  /** While no detail outgrows its total, clean means that nothing grew, and only discards that
      nothing else did. */
  lemma ConsistentCleanMeansQuiet(delta: Reading)
    requires delta != map[] && NeverShrinks(delta) && Consistent(delta)
    ensures Judge(Some(delta)).status == Clean <==> forall c :: !Grew(delta, c)
    ensures Judge(Some(delta)).status == OnlyDiscards ==>
              Judge(Some(delta)).worst == Some(Discards) && forall c :: Grew(delta, c) ==> ClassOf(c) == Discards
  {
    StatusMeans(delta);
    forall k: Class
      ensures ClassCount(delta, k) != 0 <==> exists c :: Grew(delta, c) && ClassOf(c) == k
    {
      ClassGrew(delta, k);
    }
    if Judge(Some(delta)).status == OnlyDiscards {
      forall c | Grew(delta, c)
        ensures ClassOf(c) == Discards
      {
        assert !Hidden(delta, c);
      }
      assert CLASS_ORDER[4..][0] == Discards;
      FirstGrownSkips(delta, CLASS_ORDER, 4);
    }
  }

  lemma {:induction false} FirstGrownSkips(delta: Reading, classes: seq<Class>, n: nat)
    requires n < |classes| && ClassCount(delta, classes[n]) != 0
    requires forall i :: 0 <= i < n ==> ClassCount(delta, classes[i]) == 0
    ensures FirstGrown(delta, classes) == Some(classes[n])
  {
    if n > 0 {
      FirstGrownSkips(delta, classes[1..], n - 1);
    }
  }

  /** Two readings, each of them sound, whose growth is not: corrupt frames are counted and the
      port is reported clean. */
  lemma HiddenGrowthLooksClean()
    ensures var before, after :=
              map[Crc := Number(0), InErrors := Number(10)], map[Crc := Number(5), InErrors := Number(10)];
            var g := Increments([Readable(before), Readable(after)]);
            && Grew(g.delta, Crc) && !g.reset
            && Judge(Some(g.delta)) == Verdict(Clean, None, 0)
  {
    hide ClassCount, ErrorCount, Readable, Increments;
    var quiet: Reading := map[Crc := 5, InErrors := 0];
    HiddenPair(map[Crc := Number(0), InErrors := Number(10)], map[Crc := Number(5), InErrors := Number(10)], quiet);
    assert Crc in quiet;
    StatusMeans(quiet);
  }

  /** With discards beside them it is reported for its discards, under the class physical. */
  lemma HiddenGrowthNamesTheClass()
    ensures var before := map[Crc := Number(0), InErrors := Number(10), InDiscards := Number(0)];
            var after := map[Crc := Number(5), InErrors := Number(10), InDiscards := Number(1)];
            Judge(Some(Increments([Readable(before), Readable(after)]).delta))
            == Verdict(OnlyDiscards, Some(Physical), 0)
  {
    hide Judge, Readable, Increments;
    var busy: Reading := map[Crc := 5, InErrors := 0, InDiscards := 1];
    HiddenPair(map[Crc := Number(0), InErrors := Number(10), InDiscards := Number(0)],
               map[Crc := Number(5), InErrors := Number(10), InDiscards := Number(1)], busy);
    HiddenJudged(busy);
  }

  lemma HiddenJudged(delta: Reading)
    requires delta == map[Crc := 5, InErrors := 0, InDiscards := 1]
    ensures Judge(Some(delta)) == Verdict(OnlyDiscards, Some(Physical), 0)
  {
    hide ClassCount, ErrorCount;
    assert Grew(delta, InDiscards) && Grew(delta, Crc);
    StatusMeans(delta);
    ClassGrew(delta, Physical);
    FirstGrownSkips(delta, CLASS_ORDER, 0);
  }

  lemma HiddenPair(before: map<Counter, Metric>, after: map<Counter, Metric>, delta: Reading)
    requires before.Keys == after.Keys == delta.Keys
    requires forall c :: c in before ==>
      before[c].Number? && after[c].Number? && !Garbage(before, c) && !Garbage(after, c)
    requires forall c :: c in before ==> after[c].value - before[c].value == delta[c] >= 0
    ensures Increments([Readable(before), Readable(after)]) == Growth(delta, false)
  {
    var samples := [Readable(before), Readable(after)];
    assert Increments(samples[..1]) == Growth(map[], false);
    assert Plus(map[], Between(samples[0], samples[1]).delta) == delta;
  }

  /** A detail beside its total never moves the error count. */
  lemma DetailsAreNotCountedTwice(delta: Reading, c: Counter, value: int)
    requires c in delta && TotalOf(c).Some? && TotalOf(c).value in delta
    ensures ErrorCount(delta[c := value]) == ErrorCount(delta)
  {
    SameSum(ErrorWeight(delta[c := value]), ErrorWeight(delta), FIELDS);
  }

  /** With both totals read, the error count is what they grew by. */
  lemma TotalsDecide(delta: Reading)
    requires InErrors in delta && OutErrors in delta
    ensures ErrorCount(delta) == delta[InErrors] + delta[OutErrors]
  {
    var two := [InErrors, OutErrors];
    SumOfTwo(ErrorWeight(delta), InErrors, OutErrors);
    forall c | c in two
      ensures c in FIELDS
    {
      EveryCounter(c);
    }
    assert Distinct(FIELDS);
    SumOverAll(ErrorWeight(delta), two, FIELDS);
  }

  lemma SumOfTwo(weigh: Counter -> int, a: Counter, b: Counter)
    ensures Sum(weigh, [a, b]) == weigh(a) + weigh(b)
  {
    assert [a, b][..1] == [a] && [a][..0] == [];
    assert Sum(weigh, [a]) == weigh(a);
  }

  lemma {:induction false} SumConcat(weigh: Counter -> int, a: seq<Counter>, b: seq<Counter>)
    ensures Sum(weigh, a + b) == Sum(weigh, a) + Sum(weigh, b)
  {
    if b == [] {
      assert a + b == a;
    } else {
      assert (a + b)[..|a + b| - 1] == a + b[..|b| - 1];
      SumConcat(weigh, a, b[..|b| - 1]);
    }
  }

  lemma SumOfFour(weigh: Counter -> int, a: Counter, b: Counter, c: Counter, d: Counter)
    ensures Sum(weigh, [a, b, c, d]) == weigh(a) + weigh(b) + weigh(c) + weigh(d)
  {
    SumOfTwo(weigh, a, b);
    SumOfTwo(weigh, c, d);
    SumConcat(weigh, [a, b], [c, d]);
    assert [a, b] + [c, d] == [a, b, c, d];
  }

  lemma SumByCounter(weigh: Counter -> int)
    ensures Sum(weigh, FIELDS)
            == weigh(InErrors) + weigh(OutErrors) + weigh(Crc) + weigh(Alignment)
               + (weigh(Symbol) + weigh(Runts) + weigh(Giants) + weigh(LateCollisions))
               + (weigh(ExcessiveCollisions) + weigh(CarrierSense) + weigh(MacRxErrors) + weigh(MacTxErrors))
               + (weigh(InDiscards) + weigh(OutDiscards))
  {
    var a, b := [InErrors, OutErrors, Crc, Alignment], [Symbol, Runts, Giants, LateCollisions];
    var c, d := [ExcessiveCollisions, CarrierSense, MacRxErrors, MacTxErrors], [InDiscards, OutDiscards];
    SumOfFour(weigh, a[0], a[1], a[2], a[3]);
    SumOfFour(weigh, b[0], b[1], b[2], b[3]);
    SumOfFour(weigh, c[0], c[1], c[2], c[3]);
    SumOfTwo(weigh, d[0], d[1]);
    hide Sum;
    SumConcat(weigh, a, b);
    SumConcat(weigh, a + b, c);
    SumConcat(weigh, a + b + c, d);
    assert FIELDS == a + b + c + d;
  }

  /** The error count, counter by counter: for either direction what the total grew by or, when the total is
      not read, what the details that are part of it did; discards never count. */
  lemma ErrorCountByCounter(delta: Reading)
    ensures var received := Get(delta, Crc) + Get(delta, Alignment) + Get(delta, Symbol) + Get(delta, Runts)
                            + Get(delta, Giants) + Get(delta, MacRxErrors);
            var sent := Get(delta, LateCollisions) + Get(delta, ExcessiveCollisions) + Get(delta, MacTxErrors)
                        + Get(delta, CarrierSense);
            ErrorCount(delta) == (if InErrors in delta then delta[InErrors] else received)
                                 + (if OutErrors in delta then delta[OutErrors] else sent)
  {
    SumByCounter(ErrorWeight(delta));
  }

  /** A reading, counter by counter: every number is kept but the details that exceed their total. */
  lemma ReadableByCounter(metrics: map<Counter, Metric>, c: Counter)
    ensures var received := c in {Crc, Alignment, Symbol, Runts, Giants, MacRxErrors};
            var sent := c in {LateCollisions, ExcessiveCollisions, MacTxErrors, CarrierSense};
            c in Readable(metrics) <==>
            && c in metrics && metrics[c].Number?
            && (received && InErrors in metrics && metrics[InErrors].Number? ==>
                  metrics[c].value <= metrics[InErrors].value)
            && (sent && OutErrors in metrics && metrics[OutErrors].Number? ==>
                  metrics[c].value <= metrics[OutErrors].value)
    ensures c in Readable(metrics) ==> Readable(metrics)[c] == metrics[c].value
  {
  }
}
