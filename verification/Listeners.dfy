/** observability/listener_manager.py: live UDP listeners and background tasks kept in step with
    the configuration. Each call runs to its end before the next one starts. */
module Listeners {
  import opened Wrappers

  datatype Protocol = Ipfix | Netflow | Sflow | Syslog

  datatype Collector = Api | Snmp | Linux | Layer2

  datatype Service = Retention | Correlation

  datatype Address = Address(bind: string, port: int)

  datatype Handle = Handle(id: nat, address: Address)

  datatype Task = Task(id: nat, interval: int)

  datatype ListenerConfig = ListenerConfig(enabled: bool, port: int)

  datatype Config = Config(enabled: bool, bind: string, listeners: map<Protocol, ListenerConfig>,
                           intervals: map<Collector, int>) {
    /** Every protocol has its section; an absent interval is 0. */
    ghost predicate Complete() {
      forall p: Protocol :: p in listeners
    }

    function Wanted(p: Protocol): Option<Address>
      requires Complete()
    {
      if enabled && listeners[p].enabled then Some(Address(bind, listeners[p].port)) else None
    }

    function Interval(c: Collector): int {
      if enabled && c in intervals then intervals[c] else 0
    }
  }

  // ---------------------------------------------------------------- one listener

  /** What the operating system saw of one listener. */
  datatype Act = Started(handle: Handle) | Stopped(handle: Handle) | BindFailed(address: Address)

  datatype Status = Unknown | Active(address: Address) | Inactive | Broken

  datatype Slot = Slot(handle: Option<Handle>, current: Option<Address>, status: Status, log: seq<Act>)

  const IDLE := Slot(None, None, Unknown, [])

  /** Stage 1: stop what is no longer wanted as it runs. */
  function StopStale(s: Slot, want: Option<Address>): Slot {
    if s.handle.Some? && (want.None? || want != s.current)
    then Slot(None, None, if want.None? then Inactive else s.status, s.log + [Stopped(s.handle.value)])
    else s
  }

  /** Stage 2: start what is wanted and does not run. A failing bind skips the listener. */
  function StartMissing(s: Slot, want: Option<Address>, bindable: bool): Slot {
    if want.Some? && s.handle.None? then
      if bindable then
        var h := Handle(|s.log|, want.value);
        Slot(Some(h), want, Active(want.value), s.log + [Started(h)])
      else s.(status := Broken, log := s.log + [BindFailed(want.value)])
    else s
  }

  /** Stage 3: what was never active says so. */
  function MarkInactive(s: Slot, want: Option<Address>): Slot {
    if want.None? && s.status.Unknown? then s.(status := Inactive) else s
  }

  function ApplySlot(s: Slot, want: Option<Address>, bindable: bool): Slot {
    MarkInactive(StartMissing(StopStale(s, want), want, bindable), want)
  }

  function CloseSlot(s: Slot): Slot {
    if s.handle.Some? then s.(handle := None, current := None, log := s.log + [Stopped(s.handle.value)])
    else s
  }

  // ---------------------------------------------------------------- one background task

  datatype TaskAct = Created(task: Task) | Cancelled(task: Task)

  datatype Runner = Runner(task: Option<Task>, interval: int, log: seq<TaskAct>)

  const ASLEEP := Runner(None, 0, [])

  function Cancel(r: Runner): Runner {
    if r.task.Some? then r.(task := None, log := r.log + [Cancelled(r.task.value)]) else r
  }

  function Create(r: Runner, interval: int): Runner {
    var t := Task(|r.log|, interval);
    r.(task := Some(t), log := r.log + [Created(t)])
  }

  /** A poller is replaced when its interval changes, and created when it is missing. */
  function ApplyRunner(r: Runner, desired: int): Runner {
    if desired != r.interval || (desired > 0 && r.task.None?) then
      var stopped := Cancel(r);
      (if desired > 0 then Create(stopped, desired) else stopped).(interval := desired)
    else r
  }

  /** Retention and correlation start with the master switch and then stay. */
  function ApplyService(r: Runner, enabled: bool): Runner {
    if enabled && r.task.None? then Create(r, 0) else r
  }

  function CloseRunner(r: Runner): Runner {
    Cancel(r).(interval := 0)
  }

  // ---------------------------------------------------------------- the whole state

  datatype State = State(slots: map<Protocol, Slot>, pollers: map<Collector, Runner>, services: map<Service, Runner>) {
    ghost predicate Complete() {
      && (forall p: Protocol :: p in slots)
      && (forall c: Collector :: c in pollers)
      && (forall s: Service :: s in services)
    }
  }

  function Protocols(): (all: set<Protocol>)
    ensures forall p: Protocol :: p in all
  {
    var all := {Ipfix, Netflow, Sflow, Syslog};
    EveryProtocol(all);
    all
  }

  lemma EveryProtocol(all: set<Protocol>)
    requires all == {Ipfix, Netflow, Sflow, Syslog}
    ensures forall p: Protocol :: p in all
  {
    forall p: Protocol
      ensures p in all
    {
      match p {
        case Ipfix =>
        case Netflow =>
        case Sflow =>
        case Syslog =>
      }
    }
  }

  function Collectors(): (all: set<Collector>)
    ensures forall c: Collector :: c in all
  {
    var all := {Api, Snmp, Linux, Layer2};
    EveryCollector(all);
    all
  }

  lemma EveryCollector(all: set<Collector>)
    requires all == {Api, Snmp, Linux, Layer2}
    ensures forall c: Collector :: c in all
  {
    forall c: Collector
      ensures c in all
    {
      match c {
        case Api =>
        case Snmp =>
        case Linux =>
        case Layer2 =>
      }
    }
  }

  function Services(): (all: set<Service>)
    ensures forall k: Service :: k in all
  {
    var all := {Retention, Correlation};
    EveryService(all);
    all
  }

  lemma EveryService(all: set<Service>)
    requires all == {Retention, Correlation}
    ensures forall k: Service :: k in all
  {
    forall k: Service
      ensures k in all
    {
      match k {
        case Retention =>
        case Correlation =>
      }
    }
  }

  function Start(): (s: State)
    ensures s.Complete()
  {
    State(map p | p in Protocols() :: IDLE, map c | c in Collectors() :: ASLEEP, map k | k in Services() :: ASLEEP)
  }

  datatype Op = Apply(config: Config, bindable: set<Protocol>) | Shutdown

  function Step(s: State, op: Op): (r: State)
    requires s.Complete() && (op.Apply? ==> op.config.Complete())
    ensures r.Complete()
  {
    match op
    case Apply(config, bindable) =>
      State(map p | p in Protocols() :: ApplySlot(s.slots[p], config.Wanted(p), p in bindable),
            map c | c in Collectors() :: ApplyRunner(s.pollers[c], config.Interval(c)),
            map k | k in Services() :: ApplyService(s.services[k], config.enabled))
    case Shutdown =>
      State(map p | p in Protocols() :: CloseSlot(s.slots[p]),
            map c | c in Collectors() :: CloseRunner(s.pollers[c]),
            map k | k in Services() :: Cancel(s.services[k]))
  }

  ghost predicate Proper(ops: seq<Op>) {
    forall i :: 0 <= i < |ops| && ops[i].Apply? ==> ops[i].config.Complete()
  }

  function Run(ops: seq<Op>): (r: State)
    requires Proper(ops)
    ensures r.Complete()
  {
    if ops == [] then Start() else Step(Run(ops[..|ops| - 1]), ops[|ops| - 1])
  }

  // ---------------------------------------------------------------- what every run keeps

  /** The log leaves exactly this handle open, and never had two open at once. */
  ghost predicate Leaves(log: seq<Act>, held: Option<Handle>) {
    if log == [] then held == None
    else
      var before := log[..|log| - 1];
      match log[|log| - 1]
      case Started(h) => held == Some(h) && h.id == |before| && Leaves(before, None)
      case Stopped(h) => held == None && Leaves(before, Some(h))
      case BindFailed(_) => held == None && Leaves(before, None)
  }

  ghost predicate LeavesTask(log: seq<TaskAct>, held: Option<Task>) {
    if log == [] then held == None
    else
      var before := log[..|log| - 1];
      match log[|log| - 1]
      case Created(t) => held == Some(t) && t.id == |before| && LeavesTask(before, None)
      case Cancelled(t) => held == None && LeavesTask(before, Some(t))
  }

  /** The handle, the recorded address and the operating system agree. */
  ghost predicate Sound(s: Slot) {
    && s.current == (match s.handle case Some(h) => Some(h.address) case None => None)
    && Leaves(s.log, s.handle)
  }

  ghost predicate SoundPoller(r: Runner) {
    && (r.task.Some? <==> r.interval > 0)
    && (r.task.Some? ==> r.task.value.interval == r.interval)
    && LeavesTask(r.log, r.task)
  }

  ghost predicate SoundState(s: State) {
    && s.Complete()
    && (forall p: Protocol :: Sound(s.slots[p]))
    && (forall c: Collector :: SoundPoller(s.pollers[c]))
    && (forall k: Service :: LeavesTask(s.services[k].log, s.services[k].task))
  }

  lemma LeavesMore(log: seq<Act>, a: Act)
    ensures (log + [a])[..|log|] == log
  {
  }

  lemma SlotKeeps(s: Slot, want: Option<Address>, bindable: bool)
    requires Sound(s)
    ensures Sound(ApplySlot(s, want, bindable)) && Sound(CloseSlot(s))
  {
    if s.handle.Some? {
      LeavesMore(s.log, Stopped(s.handle.value));
    }
    var t := StopStale(s, want);
    assert Sound(t);
    if want.Some? {
      LeavesMore(t.log, Started(Handle(|t.log|, want.value)));
      LeavesMore(t.log, BindFailed(want.value));
    }
  }

  lemma CancelKeeps(r: Runner)
    requires LeavesTask(r.log, r.task)
    ensures LeavesTask(Cancel(r).log, None)
  {
    if r.task.Some? {
      assert (r.log + [Cancelled(r.task.value)])[..|r.log|] == r.log;
    }
  }

  lemma CreateKeeps(r: Runner, interval: int)
    requires LeavesTask(r.log, None)
    ensures LeavesTask(Create(r, interval).log, Create(r, interval).task)
  {
    assert (r.log + [Created(Task(|r.log|, interval))])[..|r.log|] == r.log;
  }

  lemma RunnerKeeps(r: Runner, desired: int)
    requires SoundPoller(r)
    ensures SoundPoller(ApplyRunner(r, desired)) && SoundPoller(CloseRunner(r))
  {
    CancelKeeps(r);
    CreateKeeps(Cancel(r), desired);
  }

  /** After any sequence of calls, whatever binds failed: handles and recorded addresses name the same
      listeners at their real addresses, no listener is ever open twice, a poller task exists exactly
      when its interval is positive, and no task but the recorded one is alive. */
  lemma {:induction false} RunKeeps(ops: seq<Op>)
    requires Proper(ops)
    ensures SoundState(Run(ops))
  {
    if ops != [] {
      var before := ops[..|ops| - 1];
      RunKeeps(before);
      var s := Run(before);
      var op := ops[|ops| - 1];
      forall p: Protocol
        ensures Sound(Step(s, op).slots[p])
      {
        SlotKeeps(s.slots[p], if op.Apply? then op.config.Wanted(p) else None, op.Apply? && p in op.bindable);
      }
      forall c: Collector
        ensures SoundPoller(Step(s, op).pollers[c])
      {
        RunnerKeeps(s.pollers[c], if op.Apply? then op.config.Interval(c) else 0);
      }
      forall k: Service
        ensures LeavesTask(Step(s, op).services[k].log, Step(s, op).services[k].task)
      {
        CancelKeeps(s.services[k]);
        if s.services[k].task.None? {
          CreateKeeps(s.services[k], 0);
        }
      }
    }
  }

  /** Between two starts of a listener its first handle is stopped, and handles are never reused. */
  lemma {:induction false} StoppedBeforeRestart(log: seq<Act>, held: Option<Handle>, i: nat, j: nat)
    requires Leaves(log, held) && i < j < |log| && log[i].Started? && log[j].Started?
    ensures log[i].handle.id < log[j].handle.id
    ensures exists k :: i < k < j && log[k] == Stopped(log[i].handle)
  {
    var atStart := LeavesPrefix(log, held, j);
    StopFound(log[..j], log[i].handle, i);
    var k :| i < k < j && log[..j][k] == Stopped(log[i].handle);
    assert log[k] == Stopped(log[i].handle);
    var first := LeavesPrefix(log, held, i + 1);
    var second := LeavesPrefix(log, held, j + 1);
    assert log[..i + 1][..i] == log[..i] && log[..j + 1][..j] == log[..j];
  }

  lemma {:induction false} LeavesPrefix(log: seq<Act>, held: Option<Handle>, n: nat) returns (open: Option<Handle>)
    requires Leaves(log, held) && n <= |log|
    ensures Leaves(log[..n], open)
    ensures n < |log| && log[n].Started? ==> open == None
  {
    if n == |log| {
      assert log[..n] == log;
      open := held;
    } else if n == |log| - 1 {
      open := match log[n] case Started(_) => None case Stopped(h) => Some(h) case BindFailed(_) => None;
    } else {
      var m := |log| - 1;
      var h := match log[m] case Started(_) => None case Stopped(h) => Some(h) case BindFailed(_) => None;
      open := LeavesPrefix(log[..m], h, n);
      assert log[..m][..n] == log[..n];
    }
  }

  /** A handle that was started and is not open any more was stopped since. */
  lemma {:induction false} StopFound(log: seq<Act>, h: Handle, i: nat)
    requires i < |log| && log[i] == Started(h) && Leaves(log, None)
    ensures exists k :: i < k < |log| && log[k] == Stopped(h)
  {
    var n := |log| - 1;
    var before := log[..n];
    match log[n] {
      case Stopped(last) =>
        if last != h {
          StopFoundOpen(before, last, h, i);
          var k :| i < k < n && before[k] == Stopped(h);
          assert log[k] == Stopped(h);
        }
      case BindFailed(_) =>
        StopFound(before, h, i);
        var k :| i < k < n && before[k] == Stopped(h);
        assert log[k] == Stopped(h);
    }
  }

  lemma {:induction false} StopFoundOpen(log: seq<Act>, open: Handle, h: Handle, i: nat)
    requires i < |log| && log[i] == Started(h) && Leaves(log, Some(open)) && open != h
    ensures exists k :: i < k < |log| && log[k] == Stopped(h)
  {
    var n := |log| - 1;
    StopFound(log[..n], h, i);
    var k :| i < k < n && log[..n][k] == Stopped(h);
    assert log[k] == Stopped(h);
  }

  /** Every poller or service task ever created is cancelled, unless it is the recorded one. */
  lemma {:induction false} NoTaskIsDropped(log: seq<TaskAct>, held: Option<Task>, i: nat)
    requires LeavesTask(log, held) && i < |log| && log[i].Created?
    ensures held == Some(log[i].task) || exists k :: i < k < |log| && log[k] == Cancelled(log[i].task)
  {
    var n := |log| - 1;
    if i < n {
      var before := log[..n];
      var was := match log[n] case Created(_) => None case Cancelled(t) => Some(t);
      NoTaskIsDropped(before, was, i);
      if was != Some(log[i].task) {
        var k :| i < k < n && before[k] == Cancelled(log[i].task);
        assert log[k] == Cancelled(log[i].task);
      }
    }
  }

  // ---------------------------------------------------------------- one call

  /** A wanted listener runs if it can bind or already ran as wanted, and then it is not touched;
      one that is not wanted does not run. */
  lemma SlotReaches(s: Slot, want: Option<Address>, bindable: bool)
    requires Sound(s)
    ensures var t := ApplySlot(s, want, bindable);
            && t.current == (if bindable || s.current == want then want else None)
            && (s.current == want && want.Some? ==> t.handle == s.handle && t.log == s.log)
  {
  }

  /** What a call leaves running: each wanted listener that binds or already ran as wanted, no other;
      each poller at its interval; and a listener that already ran as wanted is not touched. */
  lemma ApplyReaches(s: State, config: Config, bindable: set<Protocol>)
    requires SoundState(s) && config.Complete()
    ensures var t := Step(s, Apply(config, bindable));
            && (forall p: Protocol ::
                  t.slots[p].current ==
                    if p in bindable || s.slots[p].current == config.Wanted(p) then config.Wanted(p) else None)
            && (forall p: Protocol ::
                  (s.slots[p].current == config.Wanted(p) && config.Wanted(p).Some?) ==>
                    t.slots[p].handle == s.slots[p].handle && t.slots[p].log == s.slots[p].log)
            && (forall c: Collector ::
                  t.pollers[c].interval == config.Interval(c) && (t.pollers[c].task.Some? <==> config.Interval(c) > 0))
            && (forall k: Service ::
                  t.services[k].task == if config.enabled && s.services[k].task.None?
                                        then Some(Task(|s.services[k].log|, 0)) else s.services[k].task)
  {
    hide ApplySlot, ApplyRunner;
    forall p: Protocol
      ensures var t, want := ApplySlot(s.slots[p], config.Wanted(p), p in bindable), config.Wanted(p);
              && t.current == (if p in bindable || s.slots[p].current == want then want else None)
              && (s.slots[p].current == want && want.Some? ==> t.handle == s.slots[p].handle && t.log == s.slots[p].log)
    {
      SlotReaches(s.slots[p], config.Wanted(p), p in bindable);
    }
    forall c: Collector
      ensures SoundPoller(ApplyRunner(s.pollers[c], config.Interval(c)))
      ensures ApplyRunner(s.pollers[c], config.Interval(c)).interval == config.Interval(c)
    {
      RunnerKeeps(s.pollers[c], config.Interval(c));
      RunnerReaches(s.pollers[c], config.Interval(c));
    }
  }

  lemma RunnerReaches(r: Runner, desired: int)
    ensures ApplyRunner(r, desired).interval == desired
    ensures SoundPoller(r) ==> ApplyRunner(ApplyRunner(r, desired), desired) == ApplyRunner(r, desired)
  {
  }

  ghost predicate Reached(s: State, config: Config)
    requires s.Complete() && config.Complete()
  {
    forall p: Protocol :: s.slots[p].current == config.Wanted(p)
  }

  lemma SlotRepeats(s: Slot, want: Option<Address>, first: bool, again: bool)
    requires Sound(s)
    ensures var t := ApplySlot(s, want, first);
            ApplySlot(t, want, again) == t <==> t.current == want
  {
    var t := ApplySlot(s, want, first);
    SlotKeeps(s, want, first);
    if t.current != want {
      assert want.Some? && t.handle.None?;
      assert |ApplySlot(t, want, again).log| == |t.log| + 1;
    }
  }

  /** Repeating a call does nothing at all exactly when the first one brought up every wanted
      listener; otherwise the failed binds are tried again. */
  lemma RepeatIsIdle(s: State, config: Config, first: set<Protocol>, again: set<Protocol>)
    requires SoundState(s) && config.Complete()
    ensures var t := Step(s, Apply(config, first));
            Step(t, Apply(config, again)) == t <==> Reached(t, config)
  {
    hide ApplySlot, ApplyRunner, Step;
    var t := Step(s, Apply(config, first));
    var u := Step(t, Apply(config, again));
    StepEach(s, config, first);
    StepEach(t, config, again);
    forall p: Protocol
      ensures u.slots[p] == t.slots[p] <==> t.slots[p].current == config.Wanted(p)
    {
      SlotRepeats(s.slots[p], config.Wanted(p), p in first, p in again);
    }
    forall c: Collector
      ensures u.pollers[c] == t.pollers[c]
    {
      RunnerReaches(s.pollers[c], config.Interval(c));
    }
    if Reached(t, config) {
      SameState(t, u);
    }
  }

  lemma StepEach(s: State, config: Config, bindable: set<Protocol>)
    requires s.Complete() && config.Complete()
    ensures var t := Step(s, Apply(config, bindable));
            && (forall p: Protocol :: t.slots[p] == ApplySlot(s.slots[p], config.Wanted(p), p in bindable))
            && (forall c: Collector :: t.pollers[c] == ApplyRunner(s.pollers[c], config.Interval(c)))
            && (forall k: Service :: t.services[k] == ApplyService(s.services[k], config.enabled))
  {
    hide ApplySlot, ApplyRunner, ApplyService;
  }

  lemma SameState(t: State, u: State)
    requires t.Complete() && u.Complete()
    requires forall p: Protocol :: u.slots[p] == t.slots[p]
    requires forall c: Collector :: u.pollers[c] == t.pollers[c]
    requires forall k: Service :: u.services[k] == t.services[k]
    ensures u == t
  {
    assert u.slots == t.slots && u.pollers == t.pollers && u.services == t.services;
  }

  /** With every wanted bind succeeding, a call reaches the configuration. */
  lemma CleanApplyReaches(s: State, config: Config, bindable: set<Protocol>)
    requires SoundState(s) && config.Complete()
    requires forall p: Protocol :: config.Wanted(p).Some? ==> p in bindable
    ensures Reached(Step(s, Apply(config, bindable)), config)
  {
    ApplyReaches(s, config, bindable);
  }

  /** What a call makes of one listener, in terms of the settings: open at ``address`` when both the master
      switch and its own are on and it binds or is open there already, and in that last case not touched;
      closed otherwise. */
  ghost predicate Obeys(on: bool, address: Address, binds: bool, before: Slot, after: Slot) {
    var there := before.current == Some(address);
    && (on && (binds || there) ==> after.handle.Some? && after.handle.value.address == address)
    && (on && there ==> after.handle == before.handle && after.log == before.log)
    && (!on || !(binds || there) ==> after.handle.None?)
  }

  /** After a call each listener, poller and service is as the settings say, whatever ran before. */
  lemma ApplyObeysSettings(s: State, config: Config, bindable: set<Protocol>)
    requires SoundState(s) && config.Complete()
    ensures var t := Step(s, Apply(config, bindable));
            && (forall p: Protocol ::
                  var settings := config.listeners[p];
                  Obeys(config.enabled && settings.enabled, Address(config.bind, settings.port), p in bindable,
                        s.slots[p], t.slots[p]))
            && (forall c: Collector ::
                  t.pollers[c].interval == if config.enabled && c in config.intervals then config.intervals[c] else 0)
            && (forall c: Collector :: t.pollers[c].task.Some? <==> t.pollers[c].interval > 0)
            && (forall k: Service :: t.services[k].task.Some? <==> config.enabled || s.services[k].task.Some?)
  {
    ApplyReaches(s, config, bindable);
    hide ApplySlot, ApplyRunner;
    forall p: Protocol ensures Sound(ApplySlot(s.slots[p], config.Wanted(p), p in bindable)) {
      SlotKeeps(s.slots[p], config.Wanted(p), p in bindable);
    }
  }

  // ---------------------------------------------------------------- the status shown

  /** The status says active exactly when a listener is open, and at which address. */
  ghost predicate Truthful(s: Slot) {
    && (s.status.Active? <==> s.handle.Some?)
    && (s.status.Active? ==> s.handle.value.address == s.status.address)
  }

  /** A status left behind by a shutdown. */
  ghost predicate Stale(s: Slot) {
    s.handle.None? && s.status.Active?
  }

  /** One step of the status: a call that wants the listener makes it truthful, any other leaves it
      as truthful as it was, and a shutdown makes it stale if the listener is open. */
  lemma StatusStep(s: Slot, want: Option<Address>, bindable: bool)
    requires Sound(s) && (Truthful(s) || Stale(s))
    ensures var t := ApplySlot(s, want, bindable);
            (Truthful(t) || Stale(t)) && (Truthful(t) <==> want.Some? || Truthful(s))
    ensures var t := CloseSlot(s);
            (Truthful(t) || Stale(t)) && (Truthful(t) <==> s.handle.None? && Truthful(s))
  {
  }

  /** Some shutdown closed the listener while it was open, and no later call wanted it. */
  ghost predicate ClosedUnnoticed(ops: seq<Op>, p: Protocol)
    requires Proper(ops)
  {
    exists k :: ClosedAt(ops, p, k) && UnwantedAfter(ops, p, k)
  }

  ghost predicate ClosedAt(ops: seq<Op>, p: Protocol, k: int)
    requires Proper(ops)
  {
    0 <= k < |ops| && ops[k].Shutdown? && Run(ops[..k]).slots[p].handle.Some?
  }

  ghost predicate UnwantedAfter(ops: seq<Op>, p: Protocol, k: int)
    requires Proper(ops)
  {
    forall j :: 0 <= j && k < j < |ops| && ops[j].Apply? ==> ops[j].config.Wanted(p).None?
  }

  lemma ClosedUnnoticedStep(ops: seq<Op>, p: Protocol)
    requires Proper(ops) && ops != []
    ensures var n := |ops| - 1;
            ClosedUnnoticed(ops, p) <==>
            match ops[n]
            case Apply(config, _) => config.Wanted(p).None? && ClosedUnnoticed(ops[..n], p)
            case Shutdown => Run(ops[..n]).slots[p].handle.Some? || ClosedUnnoticed(ops[..n], p)
  {
    hide Run;
    var n := |ops| - 1;
    forall k | 0 <= k < n
      ensures ClosedAt(ops, p, k) <==> ClosedAt(ops[..n], p, k)
      ensures UnwantedAfter(ops, p, k) <==>
              UnwantedAfter(ops[..n], p, k) && (ops[n].Apply? ==> ops[n].config.Wanted(p).None?)
    {
      assert ops[..n][..k] == ops[..k];
      assert forall j :: 0 <= j < n ==> ops[..n][j] == ops[j];
    }
    if ops[n].Shutdown? && Run(ops[..n]).slots[p].handle.Some? {
      assert ClosedAt(ops, p, n) && UnwantedAfter(ops, p, n);
    }
    if ClosedUnnoticed(ops[..n], p) {
      var k :| ClosedAt(ops[..n], p, k) && UnwantedAfter(ops[..n], p, k);
      assert ClosedAt(ops, p, k);
    }
  }

  lemma {:induction false} StatusOfRun(ops: seq<Op>, p: Protocol)
    requires Proper(ops)
    ensures var s := Run(ops).slots[p];
            (Truthful(s) || Stale(s)) && (Truthful(s) <==> !ClosedUnnoticed(ops, p))
  {
    hide Sound, Truthful, Stale, ApplySlot, CloseSlot, ClosedUnnoticed;
    if ops == [] {
      NothingClosed(p);
    } else {
      var n := |ops| - 1;
      StatusOfRun(ops[..n], p);
      RunKeeps(ops[..n]);
      ClosedUnnoticedStep(ops, p);
      var s := Run(ops[..n]).slots[p];
      match ops[n] {
        case Apply(config, bindable) => StatusStep(s, config.Wanted(p), p in bindable);
        case Shutdown => StatusStep(s, None, false);
      }
    }
  }

  lemma NothingClosed(p: Protocol)
    ensures Truthful(Start().slots[p]) && !ClosedUnnoticed([], p)
  {
  }

  /** After any calls and failed binds the status of a listener says active exactly when the listener
      is open, at its address, if and only if no shutdown closed it while it was open without a later
      call wanting it; and then the status still says active. */
  lemma StatusIsTruthful(ops: seq<Op>, p: Protocol)
    requires Proper(ops)
    ensures Truthful(Run(ops).slots[p]) <==> !ClosedUnnoticed(ops, p)
    ensures ClosedUnnoticed(ops, p) ==> Run(ops).slots[p].status.Active? && Run(ops).slots[p].handle.None?
  {
    StatusOfRun(ops, p);
  }

  /** Such a state is reached by starting and shutting down: every listener the call opened is shown
      active after the shutdown, and no other. */
  lemma ShutdownLeavesStatus(config: Config, bindable: set<Protocol>, p: Protocol)
    requires config.Complete()
    ensures var ops := [Apply(config, bindable), Shutdown];
            && Proper(ops)
            && (ClosedUnnoticed(ops, p) <==> config.Wanted(p).Some? && p in bindable)
            && (Truthful(Run(ops).slots[p]) <==> config.Wanted(p).None? || p !in bindable)
  {
    var ops := [Apply(config, bindable), Shutdown];
    assert ops[..1] == [ops[0]] && ops[..1][..0] == [];
    assert Proper(ops) && Proper(ops[..1]);
    hide Step, Truthful, ClosedUnnoticed, Start;
    OpenedByFirst(config, bindable, p);
    NothingClosed(p);
    ClosedUnnoticedStep(ops[..1], p);
    ClosedUnnoticedStep(ops, p);
    assert Run(ops[..1]) == Step(Start(), ops[0]);
    StatusIsTruthful(ops, p);
  }

  lemma OpenedByFirst(config: Config, bindable: set<Protocol>, p: Protocol)
    requires config.Complete()
    ensures Step(Start(), Apply(config, bindable)).slots[p].handle.Some? <==> config.Wanted(p).Some? && p in bindable
  {
  }

  // ---------------------------------------------------------------- the module's own state

  class Manager {
    var handles: map<Protocol, Handle>
    var current: map<Protocol, Address>
    var status: map<Protocol, Status>
    var log: map<Protocol, seq<Act>>
    var tasks: map<Collector, Task>
    var intervals: map<Collector, int>
    var taskLog: map<Collector, seq<TaskAct>>
    var services: map<Service, Task>
    var serviceLog: map<Service, seq<TaskAct>>

    ghost predicate ValidSlots()
      reads `log, `status
    {
      (forall p: Protocol :: p in log) && (forall p: Protocol :: p in status ==> status[p] != Unknown)
    }

    ghost predicate ValidPollers()
      reads `intervals, `taskLog
    {
      forall c: Collector :: c in intervals && c in taskLog
    }

    ghost predicate ValidServices()
      reads `serviceLog
    {
      forall k: Service :: k in serviceLog
    }

    ghost predicate Valid()
      reads this
    {
      ValidSlots() && ValidPollers() && ValidServices()
    }

    ghost function SlotOf(p: Protocol): Slot
      reads `handles, `current, `status, `log
      requires ValidSlots()
    {
      Slot(if p in handles then Some(handles[p]) else None,
           if p in current then Some(current[p]) else None,
           if p in status then status[p] else Unknown,
           log[p])
    }

    ghost function PollerOf(c: Collector): Runner
      reads `tasks, `intervals, `taskLog
      requires ValidPollers()
    {
      Runner(if c in tasks then Some(tasks[c]) else None, intervals[c], taskLog[c])
    }

    ghost function ServiceOf(k: Service): Runner
      reads `services, `serviceLog
      requires ValidServices()
    {
      Runner(if k in services then Some(services[k]) else None, 0, serviceLog[k])
    }

    /** The fields hold this state. */
    ghost predicate Shows(s: State)
      reads this
      requires Valid() && s.Complete()
    {
      && (forall p: Protocol :: SlotOf(p) == s.slots[p])
      && (forall c: Collector :: PollerOf(c) == s.pollers[c])
      && (forall k: Service :: ServiceOf(k) == s.services[k])
    }

    lemma ShownIsHeld(s: State)
      requires Valid() && s.Complete() && Shows(s)
      ensures Tables() == s
    {
      assert Tables().slots == s.slots && Tables().pollers == s.pollers && Tables().services == s.services;
    }

    ghost function Tables(): (t: State)
      reads this
      requires Valid()
      ensures t.Complete() && Shows(t)
    {
      State(map p | p in Protocols() :: SlotOf(p),
            map c | c in Collectors() :: PollerOf(c),
            map k | k in Services() :: ServiceOf(k))
    }

    constructor ()
      ensures Valid() && Tables() == Start()
    {
      handles, current, status := map[], map[], map[];
      log := map p | p in Protocols() :: [];
      tasks, services := map[], map[];
      intervals := map c | c in Collectors() :: 0;
      taskLog := map c | c in Collectors() :: [];
      serviceLog := map k | k in Services() :: [];
      new;
      ShownIsHeld(Start());
    }

    /** Stage 1 for one listener; a stop that raises is logged by the program and goes no further. */
    method StopOne(p: Protocol, desired: map<Protocol, Address>)
      requires ValidSlots() && p in handles
      modifies `handles, `current, `status, `log
      ensures ValidSlots()
      ensures SlotOf(p) == StopStale(old(SlotOf(p)), if p in desired then Some(desired[p]) else None)
      ensures forall q: Protocol :: q != p ==> SlotOf(q) == old(SlotOf(q))
    {
      if p !in desired || p !in current || desired[p] != current[p] {
        var handle := handles[p];
        handles, current := handles - {p}, current - {p};
        log := log[p := log[p] + [Stopped(handle)]];
        if p !in desired {
          status := status[p := Inactive];
        }
      }
    }

    method StartOne(p: Protocol, address: Address, bindable: bool)
      requires ValidSlots()
      modifies `handles, `current, `status, `log
      ensures ValidSlots()
      ensures SlotOf(p) == StartMissing(old(SlotOf(p)), Some(address), bindable)
      ensures forall q: Protocol :: q != p ==> SlotOf(q) == old(SlotOf(q))
    {
      if p in handles {
        return;
      }
      if bindable {
        var handle := Handle(|log[p]|, address);
        handles, current := handles[p := handle], current[p := address];
        status := status[p := Active(address)];
        log := log[p := log[p] + [Started(handle)]];
      } else {
        status := status[p := Broken];
        log := log[p := log[p] + [BindFailed(address)]];
      }
    }

    ghost predicate Covers(desired: map<Protocol, Address>, config: Config)
      requires config.Complete()
    {
      forall p: Protocol :: config.Wanted(p) == if p in desired then Some(desired[p]) else None
    }

    method StopAll(config: Config, desired: map<Protocol, Address>)
      requires ValidSlots() && config.Complete() && Covers(desired, config)
      modifies `handles, `current, `status, `log
      ensures ValidSlots()
      ensures forall p: Protocol :: SlotOf(p) == StopStale(old(SlotOf(p)), config.Wanted(p))
    {
      var todo := handles.Keys;
      while todo != {}
        invariant ValidSlots() && todo <= handles.Keys
        invariant forall p: Protocol :: p in todo ==> SlotOf(p) == old(SlotOf(p))
        invariant forall p: Protocol :: p !in todo ==> SlotOf(p) == StopStale(old(SlotOf(p)), config.Wanted(p))
        decreases todo
      {
        var p :| p in todo;
        todo := todo - {p};
        StopOne(p, desired);
        assert forall q: Protocol :: q in todo ==> SlotOf(q).handle.Some?;
      }
    }

    method StartAll(config: Config, desired: map<Protocol, Address>, bindable: set<Protocol>)
      requires ValidSlots() && config.Complete() && Covers(desired, config)
      modifies `handles, `current, `status, `log
      ensures ValidSlots()
      ensures forall p: Protocol :: SlotOf(p) == StartMissing(old(SlotOf(p)), config.Wanted(p), p in bindable)
    {
      var todo := desired.Keys;
      while todo != {}
        invariant ValidSlots() && todo <= desired.Keys
        invariant forall p: Protocol :: p in todo ==> SlotOf(p) == old(SlotOf(p))
        invariant forall p: Protocol :: p !in todo ==>
                                          SlotOf(p) == StartMissing(old(SlotOf(p)), config.Wanted(p), p in bindable)
        decreases todo
      {
        var p :| p in todo;
        todo := todo - {p};
        StartOne(p, desired[p], p in bindable);
      }
    }

    /** Stage 3 for one protocol: what is not wanted and has no status is inactive. */
    method MarkOne(p: Protocol, desired: map<Protocol, Address>)
      requires ValidSlots()
      modifies `status
      ensures ValidSlots()
      ensures SlotOf(p) == MarkInactive(old(SlotOf(p)), if p in desired then Some(desired[p]) else None)
      ensures forall q: Protocol :: q != p ==> SlotOf(q) == old(SlotOf(q))
    {
      if p !in desired && p !in status {
        status := status[p := Inactive];
      }
    }

    method MarkAll(config: Config, desired: map<Protocol, Address>)
      requires ValidSlots() && config.Complete() && Covers(desired, config)
      modifies `status
      ensures ValidSlots()
      ensures forall p: Protocol :: SlotOf(p) == MarkInactive(old(SlotOf(p)), config.Wanted(p))
    {
      hide MarkInactive;
      var todo := Protocols();
      while todo != {}
        invariant ValidSlots()
        invariant forall p: Protocol :: p in todo ==> SlotOf(p) == old(SlotOf(p))
        invariant forall p: Protocol :: p !in todo ==> SlotOf(p) == MarkInactive(old(SlotOf(p)), config.Wanted(p))
        decreases todo
      {
        var p :| p in todo;
        todo := todo - {p};
        MarkOne(p, desired);
      }
    }

    /** ``_apply_listeners``: the open listeners first, then the wanted ones, each in any order. */
    method ApplyListeners(config: Config, bindable: set<Protocol>)
      requires ValidSlots() && config.Complete()
      modifies `handles, `current, `status, `log
      ensures ValidSlots()
      ensures forall p: Protocol :: SlotOf(p) == ApplySlot(old(SlotOf(p)), config.Wanted(p), p in bindable)
    {
      hide StopStale, StartMissing, MarkInactive;
      var desired := map p | p in Protocols() && config.Wanted(p).Some? :: config.Wanted(p).value;
      StopAll(config, desired);
      StartAll(config, desired, bindable);
      MarkAll(config, desired);
    }

    method ApplyPoller(c: Collector, desired: int)
      requires ValidPollers()
      modifies `tasks, `intervals, `taskLog
      ensures ValidPollers()
      ensures PollerOf(c) == ApplyRunner(old(PollerOf(c)), desired)
      ensures forall d: Collector :: d != c ==> PollerOf(d) == old(PollerOf(d))
    {
      if desired != intervals[c] || (desired > 0 && c !in tasks) {
        if c in tasks {
          taskLog := taskLog[c := taskLog[c] + [Cancelled(tasks[c])]];
          tasks := tasks - {c};
        }
        if desired > 0 {
          var task := Task(|taskLog[c]|, desired);
          tasks := tasks[c := task];
          taskLog := taskLog[c := taskLog[c] + [Created(task)]];
        }
        intervals := intervals[c := desired];
      }
    }

    method StartService(k: Service)
      requires ValidServices()
      modifies `services, `serviceLog
      ensures ValidServices()
      ensures ServiceOf(k) == ApplyService(old(ServiceOf(k)), true)
      ensures forall j: Service :: j != k ==> ServiceOf(j) == old(ServiceOf(j))
    {
      if k !in services {
        var task := Task(|serviceLog[k]|, 0);
        services := services[k := task];
        serviceLog := serviceLog[k := serviceLog[k] + [Created(task)]];
      }
    }

    method ApplyPollers(config: Config)
      requires ValidPollers()
      modifies `tasks, `intervals, `taskLog
      ensures ValidPollers()
      ensures forall c: Collector :: PollerOf(c) == ApplyRunner(old(PollerOf(c)), config.Interval(c))
    {
      hide PollerOf, ApplyRunner;
      ApplyPoller(Api, config.Interval(Api));
      ApplyPoller(Snmp, config.Interval(Snmp));
      ApplyPoller(Linux, config.Interval(Linux));
      ApplyPoller(Layer2, config.Interval(Layer2));
    }

    method StartServices(enabled: bool)
      requires ValidServices()
      modifies `services, `serviceLog
      ensures ValidServices()
      ensures forall k: Service :: ServiceOf(k) == ApplyService(old(ServiceOf(k)), enabled)
    {
      if enabled {
        StartService(Retention);
        StartService(Correlation);
      }
    }

    lemma Assembled(s: State, config: Config, bindable: set<Protocol>)
      requires Valid() && s.Complete() && config.Complete()
      requires forall p: Protocol :: SlotOf(p) == ApplySlot(s.slots[p], config.Wanted(p), p in bindable)
      requires forall c: Collector :: PollerOf(c) == ApplyRunner(s.pollers[c], config.Interval(c))
      requires forall k: Service :: ServiceOf(k) == ApplyService(s.services[k], config.enabled)
      ensures Tables() == Step(s, Apply(config, bindable))
    {
      hide SlotOf, PollerOf, ServiceOf, ApplySlot, ApplyRunner, ApplyService;
      ShownIsHeld(Step(s, Apply(config, bindable)));
    }

    /** ``apply_obs_config``. */
    method ApplyConfig(config: Config, bindable: set<Protocol>)
      requires Valid() && config.Complete()
      modifies this
      ensures Valid()
      ensures Tables() == Step(old(Tables()), Apply(config, bindable))
    {
      hide SlotOf, PollerOf, ServiceOf, ApplySlot, ApplyRunner, ApplyService, Step, Tables;
      ghost var before := Tables();
      ApplyListeners(config, bindable);
      StartServices(config.enabled);
      ApplyPollers(config);
      Assembled(before, config, bindable);
    }

    method CancelPoller(c: Collector)
      requires ValidPollers()
      modifies `tasks, `intervals, `taskLog
      ensures ValidPollers()
      ensures PollerOf(c) == CloseRunner(old(PollerOf(c)))
      ensures forall d: Collector :: d != c ==> PollerOf(d) == old(PollerOf(d))
    {
      if c in tasks {
        taskLog := taskLog[c := taskLog[c] + [Cancelled(tasks[c])]];
      }
      tasks, intervals := tasks - {c}, intervals[c := 0];
    }

    method CancelService(k: Service)
      requires ValidServices()
      modifies `services, `serviceLog
      ensures ValidServices()
      ensures ServiceOf(k) == Cancel(old(ServiceOf(k)))
      ensures forall j: Service :: j != k ==> ServiceOf(j) == old(ServiceOf(j))
    {
      if k in services {
        serviceLog := serviceLog[k := serviceLog[k] + [Cancelled(services[k])]];
      }
      services := services - {k};
    }

    method CancelTasks()
      requires ValidPollers() && ValidServices()
      modifies `tasks, `intervals, `taskLog, `services, `serviceLog
      ensures ValidPollers() && ValidServices()
      ensures forall c: Collector :: PollerOf(c) == CloseRunner(old(PollerOf(c)))
      ensures forall k: Service :: ServiceOf(k) == Cancel(old(ServiceOf(k)))
    {
      hide PollerOf, ServiceOf, CloseRunner, Cancel;
      CancelService(Retention);
      CancelService(Correlation);
      CancelPoller(Api);
      CancelPoller(Snmp);
      CancelPoller(Linux);
      CancelPoller(Layer2);
    }

    lemma Closed(s: State)
      requires Valid() && s.Complete()
      requires forall p: Protocol :: SlotOf(p) == CloseSlot(s.slots[p])
      requires forall c: Collector :: PollerOf(c) == CloseRunner(s.pollers[c])
      requires forall k: Service :: ServiceOf(k) == Cancel(s.services[k])
      ensures Tables() == Step(s, Shutdown)
    {
      hide SlotOf, PollerOf, ServiceOf, CloseSlot, CloseRunner, Cancel;
      ShownIsHeld(Step(s, Shutdown));
    }

    /** ``shutdown``. */
    method ShutDown()
      requires Valid()
      modifies this
      ensures Valid()
      ensures Tables() == Step(old(Tables()), Shutdown)
    {
      hide SlotOf, PollerOf, ServiceOf, CloseSlot, CloseRunner, Cancel, Step, Tables;
      ghost var before := Tables();
      CancelTasks();
      CloseListeners();
      Closed(before);
    }

    method CloseListeners()
      requires ValidSlots()
      modifies `handles, `current, `log
      ensures ValidSlots()
      ensures forall p: Protocol :: SlotOf(p) == CloseSlot(old(SlotOf(p)))
    {
      var todo := handles.Keys;
      while todo != {}
        invariant ValidSlots() && todo <= handles.Keys
        invariant forall p: Protocol :: p in todo ==> SlotOf(p) == old(SlotOf(p))
        invariant forall p: Protocol :: p !in todo ==> SlotOf(p) == CloseSlot(old(SlotOf(p)))
        decreases todo
      {
        var p :| p in todo;
        todo := todo - {p};
        CloseOne(p);
        assert forall q: Protocol :: q in todo ==> SlotOf(q).handle.Some?;
      }
    }

    method CloseOne(p: Protocol)
      requires ValidSlots() && p in handles
      modifies `handles, `current, `log
      ensures ValidSlots()
      ensures SlotOf(p) == CloseSlot(old(SlotOf(p)))
      ensures forall q: Protocol :: q != p ==> SlotOf(q) == old(SlotOf(q))
    {
      log := log[p := log[p] + [Stopped(handles[p])]];
      handles, current := handles - {p}, current - {p};
    }
  }
}
