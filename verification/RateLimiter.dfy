/** ai/ai_assistant.py: the sliding-window limit on requests towards the AI provider.

    Times are seconds of a monotonic clock, as reals. */
module RateLimiter {
  /** What the limiter keeps: the limit in force and its deque of recent requests. */
  datatype Limiter = Limiter(rpm: int, times: seq<real>)

  datatype Answer = Allowed | Refused(wait: real)

  datatype Call = Configure(rpm: int) | Ask(now: real)

  const WINDOW := 60.0

  function Wait(now: real, oldest: real): real {
    var left := WINDOW - (now - oldest);
    if left > 0.0 then left else 0.0
  }

  /** Popping from the left while the oldest request is out of the window. */
  function Prune(times: seq<real>, start: real): seq<real> {
    if times != [] && times[0] < start then Prune(times[1..], start) else times
  }

  function Pruned(l: Limiter, now: real): Limiter {
    if l.rpm <= 0 then l else l.(times := Prune(l.times, now - WINDOW))
  }

  function Reply(l: Limiter, now: real): Answer {
    if l.rpm <= 0 || |Pruned(l, now).times| < l.rpm then Allowed
    else Refused(Wait(now, Pruned(l, now).times[0]))
  }

  function After(l: Limiter, now: real): Limiter {
    var p := Pruned(l, now);
    if l.rpm > 0 && |p.times| < l.rpm then p.(times := p.times + [now]) else p
  }

  function Step(l: Limiter, c: Call): Limiter {
    match c
    case Configure(n) => l.(rpm := n)
    case Ask(now) => After(l, now)
  }

  function Run(rpm: int, calls: seq<Call>): Limiter {
    if calls == [] then Limiter(rpm, []) else Step(Run(rpm, calls[..|calls| - 1]), calls[|calls| - 1])
  }

  function Replies(rpm: int, calls: seq<Call>): seq<Answer> {
    if calls == [] then []
    else
      var before := calls[..|calls| - 1];
      match calls[|calls| - 1]
      case Configure(_) => Replies(rpm, before)
      case Ask(now) => Replies(rpm, before) + [Reply(Run(rpm, before), now)]
  }

  // ---------------------------------------------------------------- the reference

  /** The limit in force and every request ever allowed under one, none forgotten. */
  datatype Ledger = Ledger(rpm: int, granted: seq<real>)

  function Recent(times: seq<real>, start: real): seq<real> {
    if times == [] then []
    else
      var n := |times| - 1;
      Recent(times[..n], start) + if times[n] >= start then [times[n]] else []
  }

  function Judge(b: Ledger, now: real): Answer {
    var recent := Recent(b.granted, now - WINDOW);
    if b.rpm <= 0 || |recent| < b.rpm then Allowed else Refused(Wait(now, recent[0]))
  }

  function Enter(b: Ledger, c: Call): Ledger {
    match c
    case Configure(n) => b.(rpm := n)
    case Ask(now) => if b.rpm > 0 && Judge(b, now) == Allowed then b.(granted := b.granted + [now]) else b
  }

  function Book(rpm: int, calls: seq<Call>): Ledger {
    if calls == [] then Ledger(rpm, []) else Enter(Book(rpm, calls[..|calls| - 1]), calls[|calls| - 1])
  }

  function Judgements(rpm: int, calls: seq<Call>): seq<Answer> {
    if calls == [] then []
    else
      var before := calls[..|calls| - 1];
      match calls[|calls| - 1]
      case Configure(_) => Judgements(rpm, before)
      case Ask(now) => Judgements(rpm, before) + [Judge(Book(rpm, before), now)]
  }

  ghost predicate Ascending(times: seq<real>) {
    forall i, j :: 0 <= i < j < |times| ==> times[i] <= times[j]
  }

  ghost predicate UpTo(times: seq<real>, now: real) {
    forall i :: 0 <= i < |times| ==> times[i] <= now
  }

  /** The clock never goes back. */
  ghost predicate Monotone(calls: seq<Call>) {
    forall i, j :: 0 <= i < j < |calls| && calls[i].Ask? && calls[j].Ask? ==> calls[i].now <= calls[j].now
  }

  // ---------------------------------------------------------------- pruning is filtering

  lemma {:induction false} RecentOfAll(times: seq<real>, start: real)
    requires forall i :: 0 <= i < |times| ==> times[i] >= start
    ensures Recent(times, start) == times
  {
    if times != [] {
      var n := |times| - 1;
      RecentOfAll(times[..n], start);
      assert times == times[..n] + [times[n]];
    }
  }

  lemma {:induction false} RecentOfTail(times: seq<real>, start: real)
    requires times != [] && times[0] < start
    ensures Recent(times, start) == Recent(times[1..], start)
  {
    var n := |times| - 1;
    if n > 0 {
      RecentOfTail(times[..n], start);
      assert times[..n][1..] == times[1..][..n - 1];
    }
  }

  lemma {:induction false} PruneFilters(times: seq<real>, start: real)
    requires Ascending(times)
    ensures Prune(times, start) == Recent(times, start)
  {
    if times != [] && times[0] < start {
      RecentOfTail(times, start);
      PruneFilters(times[1..], start);
    } else {
      RecentOfAll(times, start);
    }
  }

  /** A later window only sees what an earlier one kept. */
  lemma {:induction false} RecentTwice(times: seq<real>, start: real, later: real)
    requires start <= later
    ensures Recent(Recent(times, start), later) == Recent(times, later)
  {
    if times != [] {
      var n := |times| - 1;
      RecentTwice(times[..n], start, later);
      if times[n] >= start {
        RecentSnoc(Recent(times[..n], start), times[n], later);
      } else {
        assert Recent(times, start) == Recent(times[..n], start);
      }
    }
  }

  lemma RecentSnoc(times: seq<real>, t: real, start: real)
    ensures Recent(times + [t], start) == Recent(times, start) + if t >= start then [t] else []
  {
    assert (times + [t])[..|times|] == times;
  }

  lemma {:induction false} RecentKeepsOrder(times: seq<real>, start: real, now: real)
    requires Ascending(times) && UpTo(times, now)
    ensures Ascending(Recent(times, start)) && UpTo(Recent(times, start), now)
  {
    if times != [] {
      var n := |times| - 1;
      assert UpTo(times[..n], times[n]);
      RecentKeepsOrder(times[..n], start, times[n]);
    }
  }

  /** The deque and the ledger agree on every window that a clock not before ``clock`` opens. */
  ghost predicate Agree(l: Limiter, b: Ledger, clock: real) {
    && l.rpm == b.rpm
    && Ascending(l.times) && UpTo(l.times, clock)
    && Ascending(b.granted) && UpTo(b.granted, clock)
    && forall start :: start >= clock - WINDOW ==> Recent(l.times, start) == Recent(b.granted, start)
  }

  lemma SameWindow(held: seq<real>, granted: seq<real>, start: real, now: real, later: real)
    requires start <= later
    requires Recent(held, later) == Recent(granted, later)
    ensures Recent(Recent(held, start), later) == Recent(granted, later)
    ensures Recent(Recent(held, start) + [now], later) == Recent(granted + [now], later)
  {
    RecentTwice(held, start, later);
    RecentSnoc(Recent(held, start), now, later);
    RecentSnoc(granted, now, later);
  }

  lemma AgreeOnReply(l: Limiter, b: Ledger, clock: real, now: real)
    requires Agree(l, b, clock) && clock <= now
    ensures Reply(l, now) == Judge(b, now)
    ensures Agree(After(l, now), Enter(b, Ask(now)), now)
  {
    hide Recent, Prune;
    var start := now - WINDOW;
    var kept := Recent(l.times, start);
    PruneFilters(l.times, start);
    RecentKeepsOrder(l.times, start, clock);
    forall later | later >= start
      ensures Recent(kept, later) == Recent(b.granted, later)
      ensures Recent(kept + [now], later) == Recent(b.granted + [now], later)
    {
      SameWindow(l.times, b.granted, start, now, later);
    }
  }

  /** When the last question was asked; ``start`` before the first. */
  function Clock(calls: seq<Call>, start: real): real {
    if calls == [] then start
    else match calls[|calls| - 1]
         case Ask(now) => now
         case Configure(_) => Clock(calls[..|calls| - 1], start)
  }

  lemma {:induction false} ClockLags(calls: seq<Call>, start: real, now: real)
    requires forall i :: 0 <= i < |calls| && calls[i].Ask? ==> start <= calls[i].now <= now
    requires start <= now
    ensures start <= Clock(calls, start) <= now
  {
    if calls != [] && calls[|calls| - 1].Configure? {
      ClockLags(calls[..|calls| - 1], start, now);
    }
  }

  lemma {:induction false} RunsAgree(rpm: int, calls: seq<Call>, start: real)
    requires Monotone(calls)
    requires forall i :: 0 <= i < |calls| && calls[i].Ask? ==> start <= calls[i].now
    ensures Agree(Run(rpm, calls), Book(rpm, calls), Clock(calls, start))
    ensures Replies(rpm, calls) == Judgements(rpm, calls)
  {
    if calls != [] {
      var before := calls[..|calls| - 1];
      RunsAgree(rpm, before, start);
      match calls[|calls| - 1] {
        case Configure(_) =>
        case Ask(now) =>
          ClockLags(before, start, now);
          AgreeOnReply(Run(rpm, before), Book(rpm, before), Clock(before, start), now);
      }
    }
  }

  function Earliest(calls: seq<Call>): (m: real)
    ensures forall i :: 0 <= i < |calls| && calls[i].Ask? ==> m <= calls[i].now
  {
    if calls == [] then 0.0
    else
      var n := |calls| - 1;
      var m := Earliest(calls[..n]);
      if calls[n].Ask? && calls[n].now < m then calls[n].now else m
  }

  /** However the limit is reconfigured on the way, forgetting what left the window changes no
      answer, the suggested wait included. */
  lemma PruningIsFiltering(rpm: int, calls: seq<Call>)
    requires Monotone(calls)
    ensures Replies(rpm, calls) == Judgements(rpm, calls)
  {
    RunsAgree(rpm, calls, Earliest(calls));
  }

  // ---------------------------------------------------------------- the limit

  /** Any ``limit`` + 1 consecutive requests take more than a minute. */
  ghost predicate Spaced(times: seq<real>, limit: nat) {
    forall i, j :: 0 <= i && i + limit <= j < |times| ==> times[j] - times[i] > WINDOW
  }

  lemma {:induction false} RecentHolds(times: seq<real>, start: real, i: nat)
    requires Ascending(times) && i < |times| && times[i] >= start
    ensures |Recent(times, start)| >= |times| - i
  {
    var n := |times| - 1;
    if i < n {
      RecentHolds(times[..n], start, i);
    }
  }

  lemma SpacedStep(b: Ledger, now: real, limit: nat)
    requires Ascending(b.granted) && Spaced(b.granted, limit)
    requires 0 < b.rpm <= limit && |Recent(b.granted, now - WINDOW)| < b.rpm
    ensures Spaced(b.granted + [now], limit)
  {
    forall i | 0 <= i && i + limit <= |b.granted|
      ensures now - b.granted[i] > WINDOW
    {
      if b.granted[i] >= now - WINDOW {
        RecentHolds(b.granted, now - WINDOW, i);
      }
    }
  }

  lemma {:induction false} BookIsSpaced(rpm: int, calls: seq<Call>, limit: nat)
    requires Monotone(calls)
    requires rpm <= limit && forall i :: 0 <= i < |calls| && calls[i].Configure? ==> calls[i].rpm <= limit
    ensures Book(rpm, calls).rpm <= limit
    ensures Spaced(Book(rpm, calls).granted, limit)
  {
    hide Recent, Run, Replies, Judgements;
    if calls != [] {
      var before := calls[..|calls| - 1];
      BookIsSpaced(rpm, before, limit);
      RunsAgree(rpm, before, Earliest(before));
      var b := Book(rpm, before);
      var c := calls[|calls| - 1];
      if c.Ask? && b.rpm > 0 && Judge(b, c.now) == Allowed {
        SpacedStep(b, c.now, limit);
      }
    }
  }

  ghost function Within(times: seq<real>, from: real): set<nat> {
    set i: nat | i < |times| && from <= times[i] <= from + 60.0
  }

  lemma {:induction false} CountFrom(s: set<nat>, low: nat, n: nat)
    requires forall i :: i in s ==> low <= i < low + n
    ensures |s| <= n
  {
    if n == 0 {
      assert s == {};
    } else {
      CountFrom(s - {low + n - 1}, low, n - 1);
    }
  }

  lemma {:induction false} LowestOf(s: set<nat>) returns (low: nat)
    requires s != {}
    ensures low in s && forall i :: i in s ==> low <= i
    decreases |s|
  {
    var first: nat :| first in s;
    var rest := s - {first};
    low := first;
    if rest != {} {
      var least := LowestOf(rest);
      low := if least < first then least else first;
      forall i | i in s
        ensures low <= i
      {
        assert i == first || i in rest;
      }
    }
  }

  /** While no limit above ``limit`` is ever in force, no closed minute holds more than ``limit``
      requests that were allowed under a limit. */
  lemma NoMinuteExceedsTheLimit(rpm: int, calls: seq<Call>, limit: nat, from: real)
    requires Monotone(calls)
    requires rpm <= limit && forall i :: 0 <= i < |calls| && calls[i].Configure? ==> calls[i].rpm <= limit
    ensures |Within(Book(rpm, calls).granted, from)| <= limit
  {
    BookIsSpaced(rpm, calls, limit);
    var times := Book(rpm, calls).granted;
    var inside := Within(times, from);
    if inside != {} {
      var low := LowestOf(inside);
      forall i | i in inside
        ensures low <= i < low + limit
      {
        var span := times[i] - times[low];
        assert span <= WINDOW;
      }
      CountFrom(inside, low, limit);
    }
  }

  function Asked(calls: seq<Call>): seq<real> {
    if calls == [] then []
    else
      var n := |calls| - 1;
      match calls[n]
      case Configure(_) => Asked(calls[..n])
      case Ask(now) => Asked(calls[..n]) + [now]
  }

  /** The questions answered with a yes. */
  function Granted(rpm: int, calls: seq<Call>): seq<real> {
    if calls == [] then []
    else
      var before := calls[..|calls| - 1];
      match calls[|calls| - 1]
      case Configure(_) => Granted(rpm, before)
      case Ask(now) => Granted(rpm, before) + if Reply(Run(rpm, before), now) == Allowed then [now] else []
  }

  lemma {:induction false} GrantedIsBooked(rpm: int, calls: seq<Call>)
    requires Monotone(calls) && rpm > 0
    requires forall i :: 0 <= i < |calls| ==> calls[i].Ask?
    ensures Granted(rpm, calls) == Book(rpm, calls).granted && Book(rpm, calls).rpm == rpm
  {
    if calls != [] {
      var before := calls[..|calls| - 1];
      GrantedIsBooked(rpm, before);
      var now := calls[|calls| - 1].now;
      RunsAgree(rpm, before, Earliest(calls));
      ClockLags(before, Earliest(calls), now);
      AgreeOnReply(Run(rpm, before), Book(rpm, before), Clock(before, Earliest(calls)), now);
    }
  }

  /** With a constant positive limit, no closed minute sees more than that many yeses. */
  lemma ConstantLimitHolds(rpm: nat, calls: seq<Call>, from: real)
    requires Monotone(calls) && rpm > 0
    requires forall i :: 0 <= i < |calls| ==> calls[i].Ask?
    ensures |Within(Granted(rpm, calls), from)| <= rpm
  {
    GrantedIsBooked(rpm, calls);
    NoMinuteExceedsTheLimit(rpm, calls, rpm, from);
  }

  // ---------------------------------------------------------------- the suggested wait

  /** Asked again with nothing in between, the limiter says yes as soon as enough of what it holds
      is more than a minute old; until the suggested wait is over, and at that very instant, it still says no. */
  lemma RetryAfterTheWait(l: Limiter, now: real, again: real)
    requires Ascending(l.times) && UpTo(l.times, now) && now <= again
    requires Reply(l, now).Refused?
    ensures var held := After(l, now).times;
            && |held| >= l.rpm > 0
            && 0.0 <= Reply(l, now).wait <= 60.0
            && (Reply(After(l, now), again) == Allowed <==> again > held[|held| - l.rpm] + 60.0)
            && (|held| == l.rpm ==> (Reply(After(l, now), again) == Allowed <==> again > now + Reply(l, now).wait))
            && (again <= now + Reply(l, now).wait ==> Reply(After(l, now), again).Refused?)
  {
    var held := After(l, now).times;
    PruneFilters(l.times, now - WINDOW);
    RecentKeepsOrder(l.times, now - WINDOW, now);
    RecentStarts(l.times, now - WINDOW);
    PruneCounts(held, again - WINDOW, |held| - l.rpm);
    assert held[0] <= held[|held| - l.rpm];
  }

  lemma {:induction false} RecentStarts(times: seq<real>, start: real)
    ensures forall i :: 0 <= i < |Recent(times, start)| ==> Recent(times, start)[i] >= start
  {
    if times != [] {
      RecentStarts(times[..|times| - 1], start);
    }
  }

  lemma {:induction false} PruneCounts(times: seq<real>, start: real, k: nat)
    requires Ascending(times) && k < |times|
    ensures |Prune(times, start)| < |times| - k <==> times[k] < start
  {
    if times[0] < start {
      if k > 0 {
        PruneCounts(times[1..], start, k - 1);
      } else {
        PruneShrinks(times[1..], start);
      }
    }
  }

  lemma {:induction false} PruneShrinks(times: seq<real>, start: real)
    ensures |Prune(times, start)| <= |times|
  {
    if times != [] {
      PruneShrinks(times[1..], start);
    }
  }

  // ---------------------------------------------------------------- the object

  class SlidingWindow {
    var rpm: int
    var timestamps: seq<real>

    constructor (limit: int)
      ensures State() == Run(limit, [])
    {
      rpm := limit;
      timestamps := [];
    }

    function State(): Limiter
      reads this
    {
      Limiter(rpm, timestamps)
    }

    method Reconfigure(limit: int)
      modifies this
      ensures State() == Step(old(State()), Configure(limit))
    {
      rpm := limit;
    }

    method Allow(now: real) returns (answer: Answer)
      modifies this
      ensures State() == Step(old(State()), Ask(now))
      ensures answer == Reply(old(State()), now)
    {
      if rpm <= 0 {
        return Allowed;
      }
      var start := now - WINDOW;
      while timestamps != [] && timestamps[0] < start
        invariant rpm == old(rpm)
        invariant Prune(timestamps, start) == Prune(old(timestamps), start)
        decreases |timestamps|
      {
        timestamps := timestamps[1..];
      }
      if |timestamps| >= rpm {
        return Refused(Wait(now, timestamps[0]));
      }
      timestamps := timestamps + [now];
      return Allowed;
    }
  }
}
