/** The outage guard under concurrent deciders: reading the count and writing the disable row are
    two steps, and anything may happen between them. */
module OutageGuard {
  import opened Wrappers
  import opened Failover
  import Ladder = ThrottleLadder

  /** A decider that the guard let through holds the account it is about to disable. */
  datatype Decider = Idle | Passed(account: string, reason: Reason)

  datatype State = State(events: seq<Event>, clock: int, deciders: seq<Decider>)

  datatype Step =
    | Tick(dt: nat)
    | Log(event: Event)                                           // any row that is not a disable
    | ReadGuard(decider: nat, account: string, reason: Reason)
    | WriteDisable(decider: nat)

  function Next(s: State, c: Settings, step: Step): State {
    match step
    case Tick(dt) => s.(clock := s.clock + dt)
    case Log(e) => if IsDisable(e) then s else s.(events := s.events + [e.(at := s.clock)])
    case ReadGuard(i, a, r) =>
      if i < |s.deciders| && s.deciders[i].Idle? && (r == ConsecFail || r == Evict) && GuardOpen(s.events, c, s.clock)
      then s.(deciders := s.deciders[i := Passed(a, r)])
      else s
    case WriteDisable(i) =>
      if i < |s.deciders| && s.deciders[i].Passed?
      then s.(events := s.events + [Event(s.deciders[i].account, Failure, s.deciders[i].reason, 0, s.clock)],
              deciders := s.deciders[i := Idle])
      else s
  }

  function Run(s: State, c: Settings, steps: seq<Step>): State
    decreases |steps|
  {
    if steps == [] then s else Run(Next(s, c, steps[0]), c, steps[1..])
  }

  function Start(k: nat, clock: int): State { State([], clock, seq(k, _ => Idle)) }

  /** The accounts disabled in the window that starts at `from`. */
  function DisabledIn(es: seq<Event>, from: int, window: int): set<string> {
    set e | e in es && IsDisable(e) && from <= e.at <= from + window :: e.account
  }

  function Pending(ds: seq<Decider>): nat {
    if ds == [] then 0 else Pending(ds[..|ds| - 1]) + if ds[|ds| - 1].Passed? then 1 else 0
  }

  // ---------------------------------------------------------------- the bound

  ghost predicate WithinBudget(s: State, c: Settings, k: nat, from: int) {
    |DisabledIn(s.events, from, c.outageWindow)| + (if s.clock <= from + c.outageWindow then Pending(s.deciders) else 0)
      <= c.outageLimit + k - 1
  }

  ghost predicate Inv(s: State, c: Settings, k: nat) {
    |s.deciders| == k && forall from :: WithinBudget(s, c, k, from)
  }

  lemma {:induction false} PendingUpdate(ds: seq<Decider>, i: nat, d: Decider)
    requires i < |ds|
    ensures Pending(ds[i := d]) == Pending(ds) - (if ds[i].Passed? then 1 else 0) + (if d.Passed? then 1 else 0)
  {
    if i < |ds| - 1 {
      PendingUpdate(ds[..|ds| - 1], i, d);
      assert ds[i := d][..|ds| - 1] == ds[..|ds| - 1][i := d];
    } else {
      assert ds[i := d][..|ds| - 1] == ds[..|ds| - 1];
    }
  }

  lemma {:induction false} PendingBound(ds: seq<Decider>)
    ensures Pending(ds) <= |ds|
  {
    if ds != [] { PendingBound(ds[..|ds| - 1]); }
  }

  lemma SubsetSize<T>(a: set<T>, b: set<T>)
    requires a <= b
    ensures |a| <= |b|
  {
    assert b == a + (b - a);
  }

  lemma DisabledAppend(es: seq<Event>, e: Event, from: int, window: int)
    ensures DisabledIn(es + [e], from, window) ==
            DisabledIn(es, from, window) + if IsDisable(e) && from <= e.at <= from + window then {e.account} else {}
  {
    assert forall x :: x in es + [e] <==> x in es || x == e;
  }

  /** While the window is still open, the guard's own count includes everything disabled in it. */
  lemma GuardSeesWindow(es: seq<Event>, c: Settings, now: int, from: int)
    requires now <= from + c.outageWindow
    ensures |DisabledIn(es, from, c.outageWindow)| <= |RecentlyDisabled(es, now - c.outageWindow)|
  {
    SubsetSize(DisabledIn(es, from, c.outageWindow), RecentlyDisabled(es, now - c.outageWindow));
  }

  lemma ReadKeepsBudget(s: State, c: Settings, k: nat, i: nat, a: string, r: Reason, from: int)
    requires Usable(c) && |s.deciders| == k && WithinBudget(s, c, k, from)
    ensures WithinBudget(Next(s, c, ReadGuard(i, a, r)), c, k, from)
  {
    var t := Next(s, c, ReadGuard(i, a, r));
    PendingBound(t.deciders);
    if t != s && s.clock <= from + c.outageWindow {
      GuardSeesWindow(s.events, c, s.clock, from);
    }
  }

  lemma WriteKeepsBudget(s: State, c: Settings, k: nat, i: nat, from: int)
    requires Usable(c) && |s.deciders| == k && WithinBudget(s, c, k, from)
    ensures WithinBudget(Next(s, c, WriteDisable(i)), c, k, from)
  {
    if i < |s.deciders| && s.deciders[i].Passed? {
      DisabledAppend(s.events, Event(s.deciders[i].account, Failure, s.deciders[i].reason, 0, s.clock), from,
                     c.outageWindow);
      PendingUpdate(s.deciders, i, Idle);
    }
  }

  lemma StepKeepsBudget(s: State, c: Settings, k: nat, step: Step, from: int)
    requires Usable(c) && |s.deciders| == k && WithinBudget(s, c, k, from)
    ensures WithinBudget(Next(s, c, step), c, k, from)
  {
    match step
    case Tick(dt) =>
    case Log(e) =>
      DisabledAppend(s.events, e.(at := s.clock), from, c.outageWindow);
    case ReadGuard(i, a, r) => ReadKeepsBudget(s, c, k, i, a, r, from);
    case WriteDisable(i) => WriteKeepsBudget(s, c, k, i, from);
  }

  lemma {:induction false} RunInv(s: State, c: Settings, k: nat, steps: seq<Step>)
    requires Usable(c) && Inv(s, c, k)
    ensures Inv(Run(s, c, steps), c, k)
    decreases |steps|
  {
    if steps != [] {
      forall from ensures WithinBudget(Next(s, c, steps[0]), c, k, from) {
        StepKeepsBudget(s, c, k, steps[0], from);
      }
      RunInv(Next(s, c, steps[0]), c, k, steps[1..]);
    }
  }

  lemma {:induction false} AllIdle(k: nat)
    ensures Pending(seq(k, _ => Idle)) == 0
  {
    if k > 0 {
      AllIdle(k - 1);
      assert seq(k, _ => Idle)[..k - 1] == seq(k - 1, _ => Idle);
    }
  }

  /** Every window of the guard's length sees at most limit + k - 1 accounts disabled, under any
      interleaving of k deciders. */
  lemma DisablesAreBounded(c: Settings, k: nat, clock: int, steps: seq<Step>, from: int)
    requires Usable(c) && k > 0
    ensures |DisabledIn(Run(Start(k, clock), c, steps).events, from, c.outageWindow)| <= c.outageLimit + k - 1
  {
    AllIdle(k);
    var s := Start(k, clock);
    forall x ensures WithinBudget(s, c, k, x) {}
    RunInv(s, c, k, steps);
    assert WithinBudget(Run(s, c, steps), c, k, from);
  }

  // ---------------------------------------------------------------- runs in parts

  lemma {:induction false} RunConcat(s: State, c: Settings, a: seq<Step>, b: seq<Step>)
    ensures Run(s, c, a + b) == Run(Run(s, c, a), c, b)
    decreases |a|
  {
    if a == [] {
      assert a + b == b;
    } else {
      RunConcat(Next(s, c, a[0]), c, a[1..], b);
      assert (a + b)[1..] == a[1..] + b;
    }
  }

  lemma RunTwo(s: State, c: Settings, a: Step, b: Step)
    ensures Run(s, c, [a, b]) == Next(Next(s, c, a), c, b)
  {
    assert [a, b][1..] == [b];
    assert Run(Next(s, c, a), c, [b]) == Next(Next(s, c, a), c, b);
  }

  // ---------------------------------------------------------------- rows, for a limit of one

  /** The disable rows in the window that starts at `from`. */
  function RowsIn(es: seq<Event>, from: int, window: int): nat {
    if es == [] then 0
    else
      var e := es[|es| - 1];
      RowsIn(es[..|es| - 1], from, window) + if IsDisable(e) && from <= e.at <= from + window then 1 else 0
  }

  lemma RowsAppend(es: seq<Event>, e: Event, from: int, window: int)
    ensures RowsIn(es + [e], from, window) ==
            RowsIn(es, from, window) + if IsDisable(e) && from <= e.at <= from + window then 1 else 0
  {
    assert (es + [e])[..|es|] == es;
  }

  lemma {:induction false} NobodyRecent(es: seq<Event>, c: Settings, now: int, from: int)
    requires RecentlyDisabled(es, now - c.outageWindow) == {} && now <= from + c.outageWindow
    ensures RowsIn(es, from, c.outageWindow) == 0
  {
    if es != [] {
      var init, e := es[..|es| - 1], es[|es| - 1];
      assert es == init + [e];
      RecentAppend(init, e, now - c.outageWindow);
      NobodyRecent(init, c, now, from);
    }
  }

  ghost predicate RowBudget(s: State, c: Settings, k: nat, from: int) {
    RowsIn(s.events, from, c.outageWindow) + (if s.clock <= from + c.outageWindow then Pending(s.deciders) else 0) <= k
  }

  lemma StepKeepsRows(s: State, c: Settings, k: nat, step: Step, from: int)
    requires Usable(c) && c.outageLimit == 1 && |s.deciders| == k && RowBudget(s, c, k, from)
    ensures RowBudget(Next(s, c, step), c, k, from)
  {
    var t := Next(s, c, step);
    match step
    case Tick(_) =>
    case Log(e) => RowsAppend(s.events, e.(at := s.clock), from, c.outageWindow);
    case ReadGuard(_, _, _) =>
      PendingBound(t.deciders);
      if t != s && s.clock <= from + c.outageWindow { NobodyRecent(s.events, c, s.clock, from); }
    case WriteDisable(i) =>
      if i < |s.deciders| && s.deciders[i].Passed? {
        RowsAppend(s.events, Event(s.deciders[i].account, Failure, s.deciders[i].reason, 0, s.clock), from,
                   c.outageWindow);
        PendingUpdate(s.deciders, i, Idle);
      }
  }

  lemma {:induction false} RunKeepsRows(s: State, c: Settings, k: nat, steps: seq<Step>, from: int)
    requires Usable(c) && c.outageLimit == 1 && |s.deciders| == k && RowBudget(s, c, k, from)
    ensures RowBudget(Run(s, c, steps), c, k, from)
    decreases |steps|
  {
    if steps != [] {
      StepKeepsRows(s, c, k, steps[0], from);
      RunKeepsRows(Next(s, c, steps[0]), c, k, steps[1..], from);
    }
  }

  /** With a limit of one the guard bounds rows as well as accounts: at most k in every window. */
  lemma RowsAreBounded(c: Settings, k: nat, clock: int, steps: seq<Step>, from: int)
    requires Usable(c) && c.outageLimit == 1
    ensures RowsIn(Run(Start(k, clock), c, steps).events, from, c.outageWindow) <= k
  {
    AllIdle(k);
    RunKeepsRows(Start(k, clock), c, k, steps, from);
  }

  // ---------------------------------------------------------------- the controller, one call at a time

  function TimeAfter(i: Ladder.Input, clock: int): int {
    if i.Succeed? then clock else i.at
  }

  function EndTime(inputs: seq<Ladder.Input>, clock: int): int {
    if inputs == [] then clock else TimeAfter(inputs[|inputs| - 1], EndTime(inputs[..|inputs| - 1], clock))
  }

  predicate Ordered(inputs: seq<Ladder.Input>, clock: int) {
    inputs == []
    || (var init := inputs[..|inputs| - 1];
        Ordered(init, clock) && EndTime(init, clock) <= TimeAfter(inputs[|inputs| - 1], EndTime(init, clock)))
  }

  /** What every account's settings agree on. */
  function GuardSettings(u: Ladder.Setup): Settings { Ladder.SettingsOf(u, "") }

  lemma SameGuard(u: Ladder.Setup, id: string, es: seq<Event>, now: int)
    ensures Usable(GuardSettings(u)) && Usable(Ladder.SettingsOf(u, id))
    ensures GuardOpen(es, Ladder.SettingsOf(u, id), now) <==> GuardOpen(es, GuardSettings(u), now)
  {
    OverridesLeaveTheGuard(u.global, u.fallback, None);
    OverridesLeaveTheGuard(u.global, u.fallback, if id != "" && id in u.overrides then Some(u.overrides[id]) else None);
  }

  function Quiet(es: seq<Event>, clock: int): State { State(es, clock, [Idle]) }

  /** Some steps of the machine lead from one event log to another. */
  ghost predicate Reaches(c: Settings, es: seq<Event>, clock: int, fs: seq<Event>, later: int) {
    exists steps :: Run(Quiet(es, clock), c, steps) == Quiet(fs, later)
  }

  lemma ReachesTrans(c: Settings, es: seq<Event>, t: int, fs: seq<Event>, t': int, gs: seq<Event>, t'': int)
    requires Reaches(c, es, t, fs, t') && Reaches(c, fs, t', gs, t'')
    ensures Reaches(c, es, t, gs, t'')
  {
    var a :| Run(Quiet(es, t), c, a) == Quiet(fs, t');
    var b :| Run(Quiet(fs, t'), c, b) == Quiet(gs, t'');
    RunConcat(Quiet(es, t), c, a, b);
  }

  lemma ReachesTime(c: Settings, es: seq<Event>, clock: int, later: int)
    requires clock <= later
    ensures Reaches(c, es, clock, es, later)
  {
    var s, step := Quiet(es, clock), Tick(later - clock);
    assert Next(s, c, step) == Quiet(es, later);
    assert Run(s, c, [step]) == Run(Next(s, c, step), c, []) == Quiet(es, later);
  }

  lemma ReachesLog(c: Settings, es: seq<Event>, clock: int, e: Event)
    requires !IsDisable(e) && e.at == clock
    ensures Reaches(c, es, clock, es + [e], clock)
  {
    var s, step := Quiet(es, clock), Log(e);
    assert e.(at := clock) == e;
    assert Next(s, c, step) == Quiet(es + [e], clock);
    assert Run(s, c, [step]) == Run(Next(s, c, step), c, []) == Quiet(es + [e], clock);
  }

  lemma ReachesDisable(c: Settings, es: seq<Event>, clock: int, id: string, reason: Reason)
    requires (reason == ConsecFail || reason == Evict) && GuardOpen(es, c, clock)
    ensures Reaches(c, es, clock, es + [Event(id, Failure, reason, 0, clock)], clock)
  {
    var s := Quiet(es, clock);
    RunTwo(s, c, ReadGuard(0, id, reason), WriteDisable(0));
    assert Next(s, c, ReadGuard(0, id, reason)).deciders == [Passed(id, reason)];
    assert Run(s, c, [ReadGuard(0, id, reason), WriteDisable(0)]) ==
      Quiet(es + [Event(id, Failure, reason, 0, clock)], clock);
  }

  lemma FailureFollows(c: Settings, g: Settings, p: Pool, id: string, httpStatus: int, now: int)
    requires forall es :: GuardOpen(es, c, now) <==> GuardOpen(es, g, now)
    ensures Reaches(g, p.events, now, AfterFailure(p, c, id, httpStatus, now).events, now)
  {
    var e := FailureEvent(id, httpStatus, now);
    var es := p.events + [e];
    ReachesTime(g, p.events, now, now);
    ReachesLog(g, p.events, now, e);
    if GuardOpen(es, c, now) {
      ReachesDisable(g, es, now, id, ConsecFail);
      ReachesTrans(g, p.events, now, es, now, es + [Event(id, Failure, ConsecFail, 0, now)], now);
    }
  }

  lemma ThrottleFollows(c: Settings, g: Settings, p: Pool, id: string, risk: bool, now: int)
    requires forall es :: GuardOpen(es, c, now) <==> GuardOpen(es, g, now)
    ensures Reaches(g, p.events, now, AfterThrottle(p, c, id, risk, now).events, now)
  {
    var es := Ladder.Logged(p, id, risk, now).events;
    var fs := Ladder.Listed(p, id, risk, now).events;
    ReachesTime(g, p.events, now, now);
    ReachesLog(g, p.events, now, ThrottleEvent(id, risk, now));
    ReachesLog(g, es, now, Event(id, Blacklist, Throttled, 429, now));
    ReachesTrans(g, p.events, now, es, now, fs, now);
    if GuardOpen(fs, c, now) {
      ReachesDisable(g, fs, now, id, Evict);
      ReachesTrans(g, p.events, now, fs, now, fs + [Event(id, Failure, Evict, 0, now)], now);
    }
  }

  /** One call of the controller is a run of the machine with a single decider. */
  lemma RecordFollows(u: Ladder.Setup, p: Pool, i: Ladder.Input, clock: int)
    requires clock <= TimeAfter(i, clock)
    ensures Reaches(GuardSettings(u), p.events, clock, Ladder.Record(u, p, i).events, TimeAfter(i, clock))
  {
    var g, c, now := GuardSettings(u), Ladder.SettingsOf(u, i.account), TimeAfter(i, clock);
    forall es ensures GuardOpen(es, c, now) <==> GuardOpen(es, g, now) { SameGuard(u, i.account, es, now); }
    ReachesTime(g, p.events, clock, now);
    match i {
      case Fail(a, h, _) => FailureFollows(c, g, p, a, h, now);
      case Slow(a, r, _) => ThrottleFollows(c, g, p, a, r, now);
      case Succeed(_) => ReachesTime(g, p.events, now, now);
    }
    ReachesTrans(g, p.events, clock, p.events, now, Ladder.Record(u, p, i).events, now);
  }

  lemma {:induction false} RecordsFollow(u: Ladder.Setup, p: Pool, inputs: seq<Ladder.Input>, clock: int)
    requires Ordered(inputs, clock)
    ensures Reaches(GuardSettings(u), p.events, clock, Ladder.Run(u, p, inputs).events, EndTime(inputs, clock))
  {
    if inputs == [] {
      ReachesTime(GuardSettings(u), p.events, clock, clock);
    } else {
      var init, last := inputs[..|inputs| - 1], inputs[|inputs| - 1];
      RecordsFollow(u, p, init, clock);
      var q, t := Ladder.Run(u, p, init), EndTime(init, clock);
      RecordFollows(u, q, last, t);
      ReachesTrans(GuardSettings(u), p.events, clock, q.events, t, Ladder.Run(u, p, inputs).events,
                   EndTime(inputs, clock));
    }
  }

  /** Called one at a time, on any accounts with any overrides, the controller disables at most
      the limit in every window. */
  lemma SerialDisablesAreBounded(u: Ladder.Setup, p: Pool, inputs: seq<Ladder.Input>, clock: int, from: int)
    requires p.events == [] && Ordered(inputs, clock)
    ensures var g := GuardSettings(u);
            |DisabledIn(Ladder.Run(u, p, inputs).events, from, g.outageWindow)| <= g.outageLimit
  {
    var g := GuardSettings(u);
    SameGuard(u, "", [], clock);
    RecordsFollow(u, p, inputs, clock);
    var steps :| Run(Quiet(p.events, clock), g, steps) ==
      Quiet(Ladder.Run(u, p, inputs).events, EndTime(inputs, clock));
    assert Start(1, clock) == Quiet(p.events, clock);
    DisablesAreBounded(g, 1, clock, steps, from);
  }

  // ---------------------------------------------------------------- repeated disables

  function Repeated(id: string, at: int, n: nat): seq<Ladder.Input> { seq(n, _ => Ladder.Slow(id, false, at)) }

  lemma RepeatedSnoc(id: string, at: int, n: nat)
    requires n > 0
    ensures Repeated(id, at, n)[..n - 1] == Repeated(id, at, n - 1)
            && Repeated(id, at, n)[n - 1] == Ladder.Slow(id, false, at)
  {}

  lemma {:induction false} RepeatedIsOrdered(id: string, at: int, n: nat)
    ensures Ordered(Repeated(id, at, n), at) && EndTime(Repeated(id, at, n), at) == at
    ensures Ladder.Throttles(Repeated(id, at, n), id) == n
  {
    if n > 0 {
      RepeatedIsOrdered(id, at, n - 1);
      RepeatedSnoc(id, at, n);
    }
  }

  ghost predicate OnlyOf(es: seq<Event>, id: string) { forall e :: e in es ==> e.account == id }

  /** The disable row of a record at the top of the ladder. */
  lemma ThrottleRows(p: Pool, c: Settings, id: string, now: int, n: nat)
    requires Usable(c) && c.enabled && c.throttleEnabled && id != "" && OnlyOf(p.events, id) && c.outageLimit >= 2
    requires Ladder.Rung(p, c, id, now, n)
    ensures var q := AfterThrottle(p, c, id, false, now);
            OnlyOf(q.events, id)
            && RowsIn(q.events, now, c.outageWindow) ==
               RowsIn(p.events, now, c.outageWindow) + if n + 1 >= c.judgeCount + c.evictCount - 1 then 1 else 0
  {
    Ladder.ThrottleWrites(p, c, id, false, now, now, n);
    AloneIsOpen(p.events, c, id, now);
    ThreeRows(p.events, ThrottleEvent(id, false, now), Event(id, Blacklist, Throttled, 429, now),
              Event(id, Failure, Evict, 0, now), now, c.outageWindow);
  }

  lemma AloneIsOpen(es: seq<Event>, c: Settings, id: string, now: int)
    requires OnlyOf(es, id) && c.outageLimit >= 2
    ensures GuardOpen(es, c, now)
  {
    SubsetSize(RecentlyDisabled(es, now - c.outageWindow), {id});
  }

  lemma ThreeRows(es: seq<Event>, a: Event, b: Event, d: Event, from: int, window: int)
    requires !IsDisable(a) && !IsDisable(b) && IsDisable(d) && from <= d.at <= from + window
    ensures RowsIn(es + [a], from, window) == RowsIn(es, from, window)
    ensures RowsIn(es + [a] + [b], from, window) == RowsIn(es, from, window)
    ensures RowsIn(es + [a] + [b] + [d], from, window) == RowsIn(es, from, window) + 1
  {
    RowsAppend(es, a, from, window);
    RowsAppend(es + [a], b, from, window);
    RowsAppend(es + [a] + [b], d, from, window);
  }

  lemma {:induction false} RepeatedRows(u: Ladder.Setup, p: Pool, id: string, at: int, n: nat)
    requires var c := Ladder.SettingsOf(u, id);
             c.enabled && c.throttleEnabled && c.outageLimit >= 2 && id != "" && id in p.accounts && p.events == []
    ensures var c, q := Ladder.SettingsOf(u, id), Ladder.Run(u, p, Repeated(id, at, n));
            var top := c.judgeCount + c.evictCount - 1;
            Ladder.Rung(q, c, id, at, n) && OnlyOf(q.events, id)
            && RowsIn(q.events, at, c.outageWindow) == if n < top then 0 else n - top + 1
  {
    var c := Ladder.SettingsOf(u, id);
    SameGuard(u, id, [], at);
    if n == 0 {
      Ladder.CleanIsBottom(p, c, id, at);
    } else {
      RepeatedSnoc(id, at, n);
      RepeatedRows(u, p, id, at, n - 1);
      var q := Ladder.Run(u, p, Repeated(id, at, n - 1));
      ThrottleRows(q, c, id, at, n - 1);
      Ladder.ThrottleClimbs(q, c, id, false, at, at, n - 1);
    }
  }

  /** The controller itself, one call at a time: however many disables of one account are asked
      for, throttle records of that account alone bring them about at one instant, if the limit is
      above one. */
  lemma RepeatDisablesAreUnbounded(u: Ladder.Setup, p: Pool, id: string, at: int, n: nat)
    requires var c := Ladder.SettingsOf(u, id); c.enabled && c.throttleEnabled && c.outageLimit >= 2
    requires id != "" && id in p.accounts && p.events == []
    ensures exists inputs :: Ordered(inputs, at)
              && RowsIn(Ladder.Run(u, p, inputs).events, at, GuardSettings(u).outageWindow) == n
  {
    var c := Ladder.SettingsOf(u, id);
    SameGuard(u, id, [], at);
    OverridesLeaveTheGuard(u.global, u.fallback, if id != "" && id in u.overrides then Some(u.overrides[id]) else None);
    var m := if n == 0 then 0 else c.judgeCount + c.evictCount - 2 + n;
    RepeatedIsOrdered(id, at, m);
    RepeatedRows(u, p, id, at, m);
  }

  ghost predicate RowPerWindow(u: Ladder.Setup, p: Pool, inputs: seq<Ladder.Input>) {
    forall from :: RowsIn(Ladder.Run(u, p, inputs).events, from, GuardSettings(u).outageWindow) <= 1
  }

  lemma SerialRowsAreBounded(u: Ladder.Setup, p: Pool, inputs: seq<Ladder.Input>, clock: int)
    requires p.events == [] && Ordered(inputs, clock) && GuardSettings(u).outageLimit == 1
    ensures RowPerWindow(u, p, inputs)
  {
    var g := GuardSettings(u);
    SameGuard(u, "", [], clock);
    RecordsFollow(u, p, inputs, clock);
    var steps :| Run(Quiet(p.events, clock), g, steps) ==
      Quiet(Ladder.Run(u, p, inputs).events, EndTime(inputs, clock));
    assert Start(1, clock) == Quiet(p.events, clock);
    forall from ensures RowsIn(Ladder.Run(u, p, inputs).events, from, g.outageWindow) <= 1 {
      RowsAreBounded(g, 1, clock, steps, from);
    }
  }

  /** Exactly when the guard bounds disable rows and not just accounts: on a pool with an account
      subject to the throttle ladder, every serial run of the controller has at most one disable row
      in every window if and only if the limit is one. */
  lemma RowsAreBoundedIff(u: Ladder.Setup, p: Pool, id: string, clock: int)
    requires Ladder.SettingsOf(u, id).enabled && Ladder.SettingsOf(u, id).throttleEnabled
    requires id != "" && id in p.accounts && p.events == []
    ensures GuardSettings(u).outageLimit == 1 <==>
            forall inputs :: Ordered(inputs, clock) ==> RowPerWindow(u, p, inputs)
  {
    SameGuard(u, id, [], clock);
    OverridesLeaveTheGuard(u.global, u.fallback, if id != "" && id in u.overrides then Some(u.overrides[id]) else None);
    if GuardSettings(u).outageLimit == 1 {
      forall inputs | Ordered(inputs, clock) ensures RowPerWindow(u, p, inputs) {
        SerialRowsAreBounded(u, p, inputs, clock);
      }
    } else {
      RepeatDisablesAreUnbounded(u, p, id, clock, 2);
      var inputs :| Ordered(inputs, clock)
        && RowsIn(Ladder.Run(u, p, inputs).events, clock, GuardSettings(u).outageWindow) == 2;
      assert !RowPerWindow(u, p, inputs);
    }
  }
}
