/** k concurrent calls of the controller's entry points, with per-account overrides, one read or
    write of a store at a time. */
module ControllerCalls {
  import opened Wrappers
  import opened Failover
  import Ladder = ThrottleLadder
  import G = OutageGuard
  import T = ThrottleCalls

  datatype Cause = ByStreak | ByLadder

  function ReasonOf(x: Cause): Reason { if x == ByStreak then ConsecFail else Evict }

  /** Where a call stands: what it does next, and for which account. */
  datatype Caller =
    | Resting
    | Bumping(account: string)                  // raise the streak
    | Judging(account: string)                  // count the throttle rows
    | Listing(account: string)                  // write the blacklist row
    | Cooling(account: string)                  // mark the account throttled
    | Escalating(account: string)               // count the blacklist rows
    | Guarding(account: string, cause: Cause)   // read the outage guard
    | Disabling(account: string, cause: Cause)  // write the disable row
    | Marking(account: string)                  // mark the account disabled

  datatype Call =
    | Fail(account: string, httpStatus: int)
    | Slow(account: string, risk: bool)
    | Succeed(account: string)

  datatype State = State(pool: Pool, clock: int, callers: seq<Caller>)

  datatype Step =
    | Tick(dt: nat)
    | Begin(caller: nat, call: Call)  // a resting caller makes its first write
    | Move(caller: nat)               // a caller at work does its next read or write

  function Logging(p: Pool, e: Event): Pool { p.(events := p.events + [e]) }

  function Started(s: State, u: Ladder.Setup, i: nat, call: Call): State
    requires i < |s.callers|
  {
    var c := Ladder.SettingsOf(u, call.account);
    match call
    case Fail(a, h) =>
      if a == "" || !c.enabled || !c.consecEnabled then s
      else s.(pool := Logging(s.pool, FailureEvent(a, h, s.clock)), callers := s.callers[i := Bumping(a)])
    case Slow(a, r) =>
      if a == "" || !c.enabled || !c.throttleEnabled then s
      else s.(pool := Logging(s.pool, ThrottleEvent(a, r, s.clock)), callers := s.callers[i := Judging(a)])
    case Succeed(a) => s.(pool := AfterSuccess(s.pool, a))
  }

  /** What a caller's next move leaves of log and accounts. */
  function Written(p: Pool, now: int, u: Ladder.Setup, x: Caller): Pool {
    match x
    case Bumping(a) =>
      if a in p.accounts then p.(accounts := p.accounts[a := p.accounts[a].(streak := p.accounts[a].streak + 1)]) else p
    case Listing(a) => Logging(p, Event(a, Blacklist, Throttled, 429, now))
    case Cooling(a) =>
      if a in p.accounts
      then p.(accounts := p.accounts[a := p.accounts[a].(status := CoolingDown,
                                                         until := now + Ladder.SettingsOf(u, a).cooldown)])
      else p
    case Disabling(a, why) => Logging(p, Event(a, Failure, ReasonOf(why), 0, now))
    case Marking(a) =>
      if a in p.accounts
      then p.(accounts := p.accounts[a := p.accounts[a].(status := Disabled, streak := p.accounts[a].streak + 1)])
      else p
    case _ => p
  }

  /** ... and what it does after that. */
  function Moved(p: Pool, now: int, u: Ladder.Setup, x: Caller): Caller {
    match x
    case Resting => Resting
    case Bumping(a) =>
      if a in p.accounts && p.accounts[a].streak + 1 >= Ladder.SettingsOf(u, a).failLimit then Guarding(a, ByStreak)
      else Resting
    case Judging(a) =>
      var c := Ladder.SettingsOf(u, a);
      if CountEvents(p.events, a, Throttle, now - c.judgeWindow) < c.judgeCount then Resting else Listing(a)
    case Listing(a) => Cooling(a)
    case Cooling(a) => if a in p.accounts then Escalating(a) else Resting
    case Escalating(a) =>
      var c := Ladder.SettingsOf(u, a);
      if CountEvents(p.events, a, Blacklist, now - c.evictWindow) < c.evictCount then Resting else Guarding(a, ByLadder)
    case Guarding(a, why) => if GuardOpen(p.events, Ladder.SettingsOf(u, a), now) then Disabling(a, why) else Resting
    case Disabling(a, _) => Marking(a)
    case Marking(_) => Resting
  }

  function GuardSettings(u: Ladder.Setup): Settings { G.GuardSettings(u) }

  function Next(s: State, u: Ladder.Setup, step: Step): State {
    match step
    case Tick(dt) => s.(clock := s.clock + dt)
    case Begin(i, call) => if i < |s.callers| && s.callers[i].Resting? then Started(s, u, i, call) else s
    case Move(i) =>
      if i >= |s.callers| then s
      else s.(pool := Written(s.pool, s.clock, u, s.callers[i]),
              callers := s.callers[i := Moved(s.pool, s.clock, u, s.callers[i])])
  }

  function Run(s: State, u: Ladder.Setup, steps: seq<Step>): State
    decreases |steps|
  {
    if steps == [] then s else Run(Next(s, u, steps[0]), u, steps[1..])
  }

  function Start(p: Pool, k: nat, clock: int): State { State(p, clock, seq(k, _ => Resting)) }

  // ---------------------------------------------------------------- an undisturbed call

  function Moves(i: nat, n: nat): seq<Step> { if n == 0 then [] else [Move(i)] + Moves(i, n - 1) }

  /** n moves of a caller that nobody interrupts. */
  function Work(p: Pool, now: int, u: Ladder.Setup, x: Caller, n: nat): (Pool, Caller)
    decreases n
  {
    if n == 0 then (p, x) else Work(Written(p, now, u, x), now, u, Moved(p, now, u, x), n - 1)
  }

  lemma {:induction false} MovesWork(s: State, u: Ladder.Setup, i: nat, n: nat)
    requires i < |s.callers|
    ensures var (p, x) := Work(s.pool, s.clock, u, s.callers[i], n);
            Run(s, u, Moves(i, n)) == s.(pool := p, callers := s.callers[i := x])
    decreases n
  {
    if n == 0 {
      assert s.callers[i := s.callers[i]] == s.callers;
    } else {
      var t := Next(s, u, Move(i));
      MovesWork(t, u, i, n - 1);
      assert Moves(i, n)[1..] == Moves(i, n - 1);
      var w := Work(s.pool, s.clock, u, s.callers[i], n);
      assert t.callers[i := w.1] == s.callers[i := w.1];
    }
  }

  lemma {:induction false} RestingWork(p: Pool, now: int, u: Ladder.Setup, n: nat)
    ensures Work(p, now, u, Resting, n) == (p, Resting)
  {
    if n > 0 { RestingWork(p, now, u, n - 1); }
  }

  lemma {:induction false} DisableWork(p: Pool, now: int, u: Ladder.Setup, a: string, why: Cause, n: nat)
    requires n >= 2
    ensures Work(p, now, u, Disabling(a, why), n) == (AfterDisable(p, a, ReasonOf(why), now), Resting)
  {
    RestingWork(AfterDisable(p, a, ReasonOf(why), now), now, u, n - 2);
    var q := Written(p, now, u, Disabling(a, why));
    assert Work(q, now, u, Marking(a), n - 1) == Work(Written(q, now, u, Marking(a)), now, u, Resting, n - 2);
  }

  lemma {:induction false} GuardWork(p: Pool, now: int, u: Ladder.Setup, a: string, why: Cause, n: nat)
    requires n >= 3
    ensures Work(p, now, u, Guarding(a, why), n) ==
            (if GuardOpen(p.events, Ladder.SettingsOf(u, a), now) then AfterDisable(p, a, ReasonOf(why), now) else p,
             Resting)
  {
    RestingWork(p, now, u, n - 1);
    DisableWork(p, now, u, a, why, n - 1);
  }

  lemma {:induction false} EscalatingWork(p: Pool, now: int, u: Ladder.Setup, a: string, n: nat)
    requires n >= 4
    ensures var c := Ladder.SettingsOf(u, a);
            Work(p, now, u, Escalating(a), n) ==
            (if CountEvents(p.events, a, Blacklist, now - c.evictWindow) >= c.evictCount && GuardOpen(p.events, c, now)
             then AfterDisable(p, a, Evict, now) else p,
             Resting)
  {
    RestingWork(p, now, u, n - 1);
    GuardWork(p, now, u, a, ByLadder, n - 1);
  }

  lemma {:induction false} CoolingWork(p: Pool, now: int, u: Ladder.Setup, a: string, n: nat)
    requires n >= 5
    ensures Work(p, now, u, Cooling(a), n) == (AfterCooldown(p, Ladder.SettingsOf(u, a), a, now), Resting)
  {
    RestingWork(p, now, u, n - 1);
    EscalatingWork(Written(p, now, u, Cooling(a)), now, u, a, n - 1);
  }

  lemma {:induction false} SlowWork(p: Pool, now: int, u: Ladder.Setup, a: string, n: nat)
    requires n >= 7
    ensures var c := Ladder.SettingsOf(u, a);
            Work(p, now, u, Judging(a), n) ==
            (if CountEvents(p.events, a, Throttle, now - c.judgeWindow) < c.judgeCount then p
             else AfterCooldown(Logging(p, Event(a, Blacklist, Throttled, 429, now)), c, a, now),
             Resting)
  {
    RestingWork(p, now, u, n - 1);
    var q := Written(p, now, u, Listing(a));
    CoolingWork(q, now, u, a, n - 2);
    assert Work(p, now, u, Listing(a), n - 1) == Work(q, now, u, Cooling(a), n - 2);
  }

  lemma {:induction false} FailWork(p: Pool, now: int, u: Ladder.Setup, a: string, n: nat)
    requires n >= 4
    ensures var c, q := Ladder.SettingsOf(u, a), Written(p, now, u, Bumping(a));
            Work(p, now, u, Bumping(a), n) ==
            (if a in q.accounts && q.accounts[a].streak >= c.failLimit && GuardOpen(q.events, c, now)
             then AfterDisable(q, a, ConsecFail, now) else q,
             Resting)
  {
    var q := Written(p, now, u, Bumping(a));
    RestingWork(q, now, u, n - 1);
    GuardWork(q, now, u, a, ByStreak, n - 1);
  }

  function InputOf(call: Call, now: int): Ladder.Input {
    match call
    case Fail(a, h) => Ladder.Fail(a, h, now)
    case Slow(a, r) => Ladder.Slow(a, r, now)
    case Succeed(a) => Ladder.Succeed(a)
  }

  lemma FailRecords(s: State, u: Ladder.Setup, i: nat, a: string, h: int)
    requires i < |s.callers| && s.callers[i] == Resting
    ensures var t := Started(s, u, i, Call.Fail(a, h));
            Work(t.pool, s.clock, u, t.callers[i], 7) == (Ladder.Record(u, s.pool, Ladder.Fail(a, h, s.clock)), Resting)
  {
    var t := Started(s, u, i, Call.Fail(a, h));
    RestingWork(t.pool, s.clock, u, 7);
    FailWork(t.pool, s.clock, u, a, 7);
  }

  lemma ThrottleIs(p: Pool, q: Pool, c: Settings, a: string, r: bool, now: int)
    requires a != "" && c.enabled && c.throttleEnabled && q == Logging(p, ThrottleEvent(a, r, now))
    ensures AfterThrottle(p, c, a, r, now) ==
            if CountEvents(q.events, a, Throttle, now - c.judgeWindow) < c.judgeCount then q
            else AfterCooldown(Logging(q, Event(a, Blacklist, Throttled, 429, now)), c, a, now)
  {}

  lemma SlowRecords(s: State, u: Ladder.Setup, i: nat, a: string, r: bool)
    requires i < |s.callers| && s.callers[i] == Resting
    ensures var t := Started(s, u, i, Slow(a, r));
            Work(t.pool, s.clock, u, t.callers[i], 7) == (Ladder.Record(u, s.pool, Ladder.Slow(a, r, s.clock)), Resting)
  {
    var c, t := Ladder.SettingsOf(u, a), Started(s, u, i, Slow(a, r));
    if a == "" || !c.enabled || !c.throttleEnabled {
      RestingWork(t.pool, s.clock, u, 7);
    } else {
      ThrottleIs(s.pool, t.pool, c, a, r, s.clock);
      SlowWork(t.pool, s.clock, u, a, 7);
    }
  }

  lemma Keeps(s: State, u: Ladder.Setup, i: nat, call: Call)
    requires i < |s.callers| && s.callers[i] == Resting
    ensures var t := Started(s, u, i, call);
            t.clock == s.clock && |t.callers| == |s.callers| && t.callers[i := Resting] == s.callers
  {}

  /** Undisturbed, a call's single steps leave the log and the accounts as the controller's method
      does. */
  lemma UndisturbedCall(s: State, u: Ladder.Setup, i: nat, call: Call)
    requires i < |s.callers| && s.callers[i] == Resting
    ensures Run(s, u, [Begin(i, call)] + Moves(i, 7)) == s.(pool := Ladder.Record(u, s.pool, InputOf(call, s.clock)))
  {
    var t := Started(s, u, i, call);
    assert ([Begin(i, call)] + Moves(i, 7))[1..] == Moves(i, 7);
    Keeps(s, u, i, call);
    MovesWork(t, u, i, 7);
    match call {
      case Fail(a, h) => FailRecords(s, u, i, a, h);
      case Slow(a, r) => SlowRecords(s, u, i, a, r);
      case Succeed(_) => RestingWork(t.pool, s.clock, u, 7);
    }
  }

  // ---------------------------------------------------------------- refinement

  function Decider(x: Caller): G.Decider { if x.Disabling? then G.Passed(x.account, ReasonOf(x.cause)) else G.Idle }

  function Seen(s: State): G.State { G.State(s.pool.events, s.clock, Apply(Decider, s.callers)) }

  /** What a step is to the guard machine. */
  function Guarded(s: State, u: Ladder.Setup, step: Step): G.Step {
    match step
    case Tick(dt) => G.Tick(dt)
    case Begin(i, call) =>
      if i < |s.callers| && s.callers[i].Resting? && Next(s, u, step).pool.events != s.pool.events
      then G.Log(if call.Fail? then FailureEvent(call.account, call.httpStatus, s.clock)
                 else ThrottleEvent(call.account, call.Slow? && call.risk, s.clock))
      else G.Tick(0)
    case Move(i) =>
      if i >= |s.callers| then G.Tick(0)
      else
        match s.callers[i]
        case Listing(a) => G.Log(Event(a, Blacklist, Throttled, 429, s.clock))
        case Guarding(a, why) => G.ReadGuard(i, a, ReasonOf(why))
        case Disabling(_, _) => G.WriteDisable(i)
        case _ => G.Tick(0)
  }

  lemma DecidersUpdate(cs: seq<Caller>, i: nat, x: Caller)
    requires i < |cs|
    ensures Apply(Decider, cs[i := x]) == Apply(Decider, cs)[i := Decider(x)]
    ensures Decider(x) == Decider(cs[i]) ==> Apply(Decider, cs[i := x]) == Apply(Decider, cs)
  {}

  lemma BeginRefines(s: State, u: Ladder.Setup, i: nat, call: Call)
    requires i < |s.callers| && s.callers[i] == Resting
    ensures G.Next(Seen(s), GuardSettings(u), Guarded(s, u, Begin(i, call))) == Seen(Next(s, u, Begin(i, call)))
  {
    var t := Next(s, u, Begin(i, call));
    DecidersUpdate(s.callers, i, t.callers[i]);
    assert t.callers == s.callers[i := t.callers[i]];
  }

  lemma MoveRefines(s: State, u: Ladder.Setup, i: nat)
    requires i < |s.callers|
    ensures G.Next(Seen(s), GuardSettings(u), Guarded(s, u, Move(i))) == Seen(Next(s, u, Move(i)))
  {
    var x := s.callers[i];
    DecidersUpdate(s.callers, i, Moved(s.pool, s.clock, u, x));
    if x.Guarding? { G.SameGuard(u, x.account, s.pool.events, s.clock); }
  }

  lemma StepRefines(s: State, u: Ladder.Setup, step: Step)
    ensures G.Next(Seen(s), GuardSettings(u), Guarded(s, u, step)) == Seen(Next(s, u, step))
  {
    match step
    case Tick(_) =>
    case Begin(i, call) => if i < |s.callers| && s.callers[i].Resting? { BeginRefines(s, u, i, call); }
    case Move(i) => if i < |s.callers| { MoveRefines(s, u, i); }
  }

  function GuardedRun(s: State, u: Ladder.Setup, steps: seq<Step>): seq<G.Step>
    decreases |steps|
  {
    if steps == [] then [] else [Guarded(s, u, steps[0])] + GuardedRun(Next(s, u, steps[0]), u, steps[1..])
  }

  /** Every run of the calls is a run of the guard machine. */
  lemma {:induction false} RunRefines(s: State, u: Ladder.Setup, steps: seq<Step>)
    ensures G.Run(Seen(s), GuardSettings(u), GuardedRun(s, u, steps)) == Seen(Run(s, u, steps))
    decreases |steps|
  {
    if steps != [] {
      StepRefines(s, u, steps[0]);
      RunRefines(Next(s, u, steps[0]), u, steps[1..]);
      assert GuardedRun(s, u, steps)[1..] == GuardedRun(Next(s, u, steps[0]), u, steps[1..]);
    }
  }

  lemma StartSeen(p: Pool, k: nat, clock: int)
    requires p.events == []
    ensures Seen(Start(p, k, clock)) == G.Start(k, clock)
  {}

  /** So k concurrent calls, whatever they record and whatever overrides the accounts have, disable
      at most limit + k - 1 accounts in every window. */
  lemma CallsAreBounded(u: Ladder.Setup, p: Pool, k: nat, clock: int, steps: seq<Step>, from: int)
    requires p.events == [] && k > 0
    ensures var c := GuardSettings(u);
            |G.DisabledIn(Run(Start(p, k, clock), u, steps).pool.events, from, c.outageWindow)| <= c.outageLimit + k - 1
  {
    StartSeen(p, k, clock);
    RunRefines(Start(p, k, clock), u, steps);
    G.SameGuard(u, "", [], clock);
    G.DisablesAreBounded(GuardSettings(u), k, clock, GuardedRun(Start(p, k, clock), u, steps), from);
  }

  /** With a limit of one they write at most k disable rows in every window. */
  lemma RowsAreBounded(u: Ladder.Setup, p: Pool, k: nat, clock: int, steps: seq<Step>, from: int)
    requires p.events == [] && GuardSettings(u).outageLimit == 1
    ensures G.RowsIn(Run(Start(p, k, clock), u, steps).pool.events, from, GuardSettings(u).outageWindow) <= k
  {
    StartSeen(p, k, clock);
    RunRefines(Start(p, k, clock), u, steps);
    G.SameGuard(u, "", [], clock);
    G.RowsAreBounded(GuardSettings(u), k, clock, GuardedRun(Start(p, k, clock), u, steps), from);
  }

  // ---------------------------------------------------------------- the bound is attained

  function Lift(x: T.Caller): Caller {
    match x
    case Resting => Resting
    case Judging(a) => Judging(a)
    case Listing(a) => Listing(a)
    case Escalating(a) => Escalating(a)
    case Guarding(a) => Guarding(a, ByLadder)
    case Disabling(a) => Disabling(a, ByLadder)
  }

  /** The throttle calls' state as one of the controller's. */
  function Lifted(s: T.State, accounts: map<string, Row>): State {
    State(Pool(s.events, accounts), s.clock, Apply(Lift, s.callers))
  }

  ghost predicate Like(s: T.State, t: State) { t == Lifted(s, t.pool.accounts) }

  /** What the witness asks of the accounts: rows for all of them and the throttle ladder on, with
      no overrides. */
  ghost predicate Plain(u: Ladder.Setup, c: Settings) {
    u.overrides == map[] && c == GuardSettings(u) && c.enabled && c.throttleEnabled
  }

  ghost predicate Known(s: T.State, accounts: map<string, Row>) {
    forall i :: 0 <= i < |s.callers| && !s.callers[i].Resting? ==> s.callers[i].account in accounts
  }

  ghost predicate Names(steps: seq<T.Step>, accounts: map<string, Row>) {
    forall i :: 0 <= i < |steps| && steps[i].Record? ==> steps[i].account in accounts
  }

  /** The same step, with the writes to the account's row that follow it. */
  function LiftStep(s: T.State, step: T.Step): seq<Step> {
    match step
    case Tick(dt) => [Tick(dt)]
    case Record(i, a) => [Begin(i, Slow(a, false))]
    case Move(i) =>
      if i < |s.callers| && (s.callers[i].Listing? || s.callers[i].Disabling?) then [Move(i), Move(i)] else [Move(i)]
  }

  lemma RunOne(s: State, u: Ladder.Setup, a: Step)
    ensures Run(s, u, [a]) == Next(s, u, a)
  {
    assert Run(s, u, [a]) == Run(Next(s, u, a), u, []);
  }

  lemma RunTwo(s: State, u: Ladder.Setup, a: Step, b: Step)
    ensures Run(s, u, [a, b]) == Next(Next(s, u, a), u, b)
  {
    assert [a, b][1..] == [b];
    RunOne(Next(s, u, a), u, b);
  }

  lemma {:induction false} RunConcat(s: State, u: Ladder.Setup, a: seq<Step>, b: seq<Step>)
    ensures Run(s, u, a + b) == Run(Run(s, u, a), u, b)
    decreases |a|
  {
    if a == [] {
      assert a + b == b;
    } else {
      RunConcat(Next(s, u, a[0]), u, a[1..], b);
      assert (a + b)[1..] == a[1..] + b;
    }
  }

  lemma LiftUpdate(cs: seq<T.Caller>, i: nat, x: T.Caller)
    requires i < |cs|
    ensures Apply(Lift, cs[i := x]) == Apply(Lift, cs)[i := Lift(x)]
  {}

  lemma RecordLifts(s: T.State, t: State, u: Ladder.Setup, c: Settings, i: nat, a: string)
    requires Like(s, t) && Plain(u, c)
    ensures Like(T.Next(s, c, T.Record(i, a)), Next(t, u, Begin(i, Slow(a, false))))
    ensures Next(t, u, Begin(i, Slow(a, false))).pool.accounts == t.pool.accounts
  {
    if i < |s.callers| { LiftUpdate(s.callers, i, T.Judging(a)); }
  }

  lemma ReadLifts(s: T.State, t: State, u: Ladder.Setup, c: Settings, i: nat)
    requires Like(s, t) && Plain(u, c) && i < |s.callers| && !s.callers[i].Listing? && !s.callers[i].Disabling?
    ensures Like(T.Next(s, c, T.Move(i)), Next(t, u, Move(i)))
    ensures Next(t, u, Move(i)).pool.accounts == t.pool.accounts
  {
    LiftUpdate(s.callers, i, T.Moved(s, c, s.callers[i]));
    assert s.events + [] == s.events;
  }

  lemma WriteLifts(s: T.State, t: State, u: Ladder.Setup, c: Settings, i: nat)
    requires Like(s, t) && Plain(u, c) && i < |s.callers| && (s.callers[i].Listing? || s.callers[i].Disabling?)
    requires s.callers[i].account in t.pool.accounts
    ensures Like(T.Next(s, c, T.Move(i)), Next(Next(t, u, Move(i)), u, Move(i)))
    ensures Next(Next(t, u, Move(i)), u, Move(i)).pool.accounts.Keys == t.pool.accounts.Keys
  {
    var x := T.Moved(s, c, s.callers[i]);
    LiftUpdate(s.callers, i, x);
    var t1 := Next(t, u, Move(i));
    var t2 := Next(t1, u, Move(i));
    assert t2.callers == t.callers[i := Lift(x)];
  }

  lemma StepLifts(s: T.State, t: State, u: Ladder.Setup, c: Settings, step: T.Step)
    requires Like(s, t) && Plain(u, c) && Known(s, t.pool.accounts) && Names([step], t.pool.accounts)
    ensures var t' := Run(t, u, LiftStep(s, step));
            Like(T.Next(s, c, step), t') && t'.pool.accounts.Keys == t.pool.accounts.Keys
            && Known(T.Next(s, c, step), t'.pool.accounts)
  {
    assert step == [step][0];
    match step
    case Tick(dt) => RunOne(t, u, Tick(dt));
    case Record(i, a) =>
      RunOne(t, u, Begin(i, Slow(a, false)));
      RecordLifts(s, t, u, c, i, a);
    case Move(i) =>
      if i >= |s.callers| {
        RunOne(t, u, Move(i));
      } else if s.callers[i].Listing? || s.callers[i].Disabling? {
        RunTwo(t, u, Move(i), Move(i));
        WriteLifts(s, t, u, c, i);
      } else {
        RunOne(t, u, Move(i));
        ReadLifts(s, t, u, c, i);
      }
  }

  /** A run of the throttle calls is a run of the controller's. */
  lemma {:induction false} RunLifts(s: T.State, t: State, u: Ladder.Setup, c: Settings, steps: seq<T.Step>)
    returns (lifted: seq<Step>)
    requires Like(s, t) && Plain(u, c) && Known(s, t.pool.accounts) && Names(steps, t.pool.accounts)
    ensures Like(T.Run(s, c, steps), Run(t, u, lifted))
    decreases |steps|
  {
    if steps == [] {
      lifted := [];
    } else {
      assert [steps[0]][0] == steps[0];
      StepLifts(s, t, u, c, steps[0]);
      var t' := Run(t, u, LiftStep(s, steps[0]));
      var rest := RunLifts(T.Next(s, c, steps[0]), t', u, c, steps[1..]);
      lifted := LiftStep(s, steps[0]) + rest;
      RunConcat(t, u, LiftStep(s, steps[0]), rest);
    }
  }

  function Named(steps: seq<T.Step>): (accounts: map<string, Row>)
    ensures Names(steps, accounts)
  {
    if steps == [] then map[]
    else
      var rest := Named(steps[1..]);
      if steps[0].Record? then rest[steps[0].account := Row(Active, 0, 0)] else rest
  }

  /** The bound is reached: for every limit, every k and every ladder, on accounts without overrides
      some run of k concurrent calls disables limit + k - 1 accounts at one instant. */
  lemma BoundIsAttained(u: Ladder.Setup, k: nat, clock: int)
    requires Plain(u, GuardSettings(u)) && k > 0
    ensures exists p: Pool, steps :: p.events == [] &&
              |G.DisabledIn(Run(Start(p, k, clock), u, steps).pool.events, clock, GuardSettings(u).outageWindow)|
              == GuardSettings(u).outageLimit + k - 1
  {
    var c := GuardSettings(u);
    G.SameGuard(u, "", [], clock);
    T.BoundIsAttained(c, k, clock);
    var steps :|
      |G.DisabledIn(T.Run(T.Start(k, clock), c, steps).events, clock, c.outageWindow)| == c.outageLimit + k - 1;
    var p := Pool([], Named(steps));
    assert Like(T.Start(k, clock), Start(p, k, clock));
    var lifted := RunLifts(T.Start(k, clock), Start(p, k, clock), u, c, steps);
    assert Run(Start(p, k, clock), u, lifted).pool.events == T.Run(T.Start(k, clock), c, steps).events;
  }
}
