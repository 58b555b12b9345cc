/** How k concurrent calls of RecordThrottle reach the guard's bound. The accounts exist and have no
    overrides; their rows are left to ControllerCalls, of whose runs these are runs. */
module ThrottleCalls {
  import opened Wrappers
  import opened Failover
  import Ladder = ThrottleLadder
  import G = OutageGuard

  /** Where a call stands: what it does next, and for which account. */
  datatype Caller =
    | Resting
    | Judging(account: string)     // count the throttle rows
    | Listing(account: string)     // write the blacklist row
    | Escalating(account: string)  // count the blacklist rows
    | Guarding(account: string)    // read the outage guard
    | Disabling(account: string)   // write the disable row

  datatype State = State(events: seq<Event>, clock: int, callers: seq<Caller>)

  datatype Step =
    | Tick(dt: nat)
    | Record(caller: nat, account: string)  // a resting caller writes a throttle row
    | Move(caller: nat)                     // a caller at work does its next read or write

  /** The row that a caller's next move writes, if any. */
  function Writes(s: State, x: Caller): seq<Event> {
    match x
    case Listing(a) => [Event(a, Blacklist, Throttled, 429, s.clock)]
    case Disabling(a) => [Event(a, Failure, Evict, 0, s.clock)]
    case _ => []
  }

  function Moved(s: State, c: Settings, x: Caller): Caller {
    match x
    case Resting => Resting
    case Judging(a) =>
      if CountEvents(s.events, a, Throttle, s.clock - c.judgeWindow) < c.judgeCount then Resting else Listing(a)
    case Listing(a) => Escalating(a)
    case Escalating(a) =>
      if CountEvents(s.events, a, Blacklist, s.clock - c.evictWindow) < c.evictCount then Resting else Guarding(a)
    case Guarding(a) => if GuardOpen(s.events, c, s.clock) then Disabling(a) else Resting
    case Disabling(_) => Resting
  }

  function Next(s: State, c: Settings, step: Step): State {
    match step
    case Tick(dt) => s.(clock := s.clock + dt)
    case Record(i, a) =>
      if i >= |s.callers| || !s.callers[i].Resting? || a == "" then s
      else s.(events := s.events + [ThrottleEvent(a, false, s.clock)], callers := s.callers[i := Judging(a)])
    case Move(i) =>
      if i >= |s.callers| then s
      else s.(events := s.events + Writes(s, s.callers[i]), callers := s.callers[i := Moved(s, c, s.callers[i])])
  }

  function Run(s: State, c: Settings, steps: seq<Step>): State
    decreases |steps|
  {
    if steps == [] then s else Run(Next(s, c, steps[0]), c, steps[1..])
  }

  function Start(k: nat, clock: int): State { State([], clock, seq(k, _ => Resting)) }

  // ---------------------------------------------------------------- runs in parts

  lemma {:induction false} RunConcat(s: State, c: Settings, a: seq<Step>, b: seq<Step>)
    ensures Run(s, c, a + b) == Run(Run(s, c, a), c, b)
    decreases |a|
  {
    if a == [] {
      assert a + b == b;
    } else {
      RunConcat(Next(s, c, a[0]), c, a[1..], b);
      assert (a + b)[1..] == a[1..] + b;
    }
  }

  lemma RunOne(s: State, c: Settings, a: Step)
    ensures Run(s, c, [a]) == Next(s, c, a)
  {
    assert Run(s, c, [a]) == Run(Next(s, c, a), c, []);
  }

  // ---------------------------------------------------------------- one call

  /** The account has had n throttle records, all at `clock`. */
  ghost predicate Recorded(es: seq<Event>, c: Settings, a: string, clock: int, n: nat) {
    && (forall since :: since <= clock ==> CountEvents(es, a, Throttle, since) == n)
    && (forall since :: since <= clock ==> CountEvents(es, a, Blacklist, since) == Ladder.Listings(c, n))
  }

  /** Up to the guard: a call's record and its reads and writes but the last. */
  function CallSteps(i: nat, a: string): seq<Step> { [Record(i, a), Move(i), Move(i), Move(i), Move(i)] }

  function CallRows(c: Settings, a: string, clock: int, n: nat): seq<Event> {
    [ThrottleEvent(a, false, clock)]
    + if n + 1 < c.judgeCount then [] else [Event(a, Blacklist, Throttled, 429, clock)]
  }

  lemma RunCall(s: State, c: Settings, i: nat, a: string)
    ensures Run(s, c, CallSteps(i, a)) ==
            Next(Next(Next(Next(Next(s, c, Record(i, a)), c, Move(i)), c, Move(i)), c, Move(i)), c, Move(i))
  {
    var s1 := Next(s, c, Record(i, a));
    var s2 := Next(s1, c, Move(i));
    var s3 := Next(s2, c, Move(i));
    var s4 := Next(s3, c, Move(i));
    assert CallSteps(i, a) == [Record(i, a)] + ([Move(i)] + ([Move(i)] + ([Move(i)] + [Move(i)])));
    RunOne(s, c, Record(i, a));
    RunOne(s1, c, Move(i));
    RunOne(s2, c, Move(i));
    RunOne(s3, c, Move(i));
    RunOne(s4, c, Move(i));
    RunConcat(s, c, [Record(i, a)], [Move(i)] + ([Move(i)] + ([Move(i)] + [Move(i)])));
    RunConcat(s1, c, [Move(i)], [Move(i)] + ([Move(i)] + [Move(i)]));
    RunConcat(s2, c, [Move(i)], [Move(i)] + [Move(i)]);
    RunConcat(s3, c, [Move(i)], [Move(i)]);
  }

  lemma CountAfter(es: seq<Event>, e: Event, a: string, clock: int)
    requires e.account == a && e.at == clock
    ensures forall kind, since :: since <= clock ==>
              CountEvents(es + [e], a, kind, since) == CountEvents(es, a, kind, since) + if e.kind == kind then 1 else 0
  {
    forall kind, since | since <= clock
      ensures CountEvents(es + [e], a, kind, since) ==
              CountEvents(es, a, kind, since) + if e.kind == kind then 1 else 0 {
      CountAppend(es, e, a, kind, since);
    }
  }

  lemma RowsRecord(es: seq<Event>, c: Settings, a: string, clock: int, n: nat)
    requires Usable(c) && Recorded(es, c, a, clock, n)
    ensures Recorded(es + CallRows(c, a, clock, n), c, a, clock, n + 1)
    ensures forall since :: since <= clock ==>
            CountEvents(es + [ThrottleEvent(a, false, clock)], a, Throttle, since) == n + 1
  {
    var e, f := ThrottleEvent(a, false, clock), Event(a, Blacklist, Throttled, 429, clock);
    CountAfter(es, e, a, clock);
    CountAfter(es + [e], f, a, clock);
    assert es + ([e] + [f]) == es + [e] + [f] && es + ([e] + []) == es + [e];
  }

  /** Rows that are not disables leave the guard and the disabled accounts alone. */
  lemma RowsAreQuiet(es: seq<Event>, c: Settings, a: string, clock: int, n: nat)
    ensures var fs := es + CallRows(c, a, clock, n);
            RecentlyDisabled(fs, clock - c.outageWindow) == RecentlyDisabled(es, clock - c.outageWindow)
            && G.DisabledIn(fs, clock, c.outageWindow) == G.DisabledIn(es, clock, c.outageWindow)
  {
    var e, f := ThrottleEvent(a, false, clock), Event(a, Blacklist, Throttled, 429, clock);
    RecentAppend(es, e, clock - c.outageWindow);
    RecentAppend(es + [e], f, clock - c.outageWindow);
    G.DisabledAppend(es, e, clock, c.outageWindow);
    G.DisabledAppend(es + [e], f, clock, c.outageWindow);
    assert es + ([e] + [f]) == es + [e] + [f] && es + ([e] + []) == es + [e];
  }

  lemma GuardStays(es: seq<Event>, c: Settings, a: string, clock: int, n: nat)
    ensures GuardOpen(es + CallRows(c, a, clock, n), c, clock) <==> GuardOpen(es, c, clock)
  {
    RowsAreQuiet(es, c, a, clock, n);
  }

  /** The first two steps: the throttle row and the judge's count. */
  lemma JudgeRuns(s: State, c: Settings, i: nat, a: string, n: nat)
    requires Usable(c) && i < |s.callers| && s.callers[i] == Resting && a != "" && Recorded(s.events, c, a, s.clock, n)
    ensures Next(Next(s, c, Record(i, a)), c, Move(i)) ==
            s.(events := s.events + [ThrottleEvent(a, false, s.clock)],
               callers := s.callers[i := if n + 1 < c.judgeCount then Resting else Listing(a)])
  {
    RowsRecord(s.events, c, a, s.clock, n);
    var s1 := Next(s, c, Record(i, a));
    assert s1.events + [] == s1.events;
  }

  /** A call that nothing interrupts, up to the guard. */
  lemma CallRuns(s: State, c: Settings, i: nat, a: string, n: nat)
    requires Usable(c) && i < |s.callers| && s.callers[i] == Resting && a != "" && Recorded(s.events, c, a, s.clock, n)
    ensures var top := n + 1 >= c.judgeCount + c.evictCount - 1;
            Run(s, c, CallSteps(i, a)) ==
            s.(events := s.events + CallRows(c, a, s.clock, n),
               callers := s.callers[i := if top && GuardOpen(s.events, c, s.clock) then Disabling(a) else Resting])
  {
    RunCall(s, c, i, a);
    JudgeRuns(s, c, i, a, n);
    var s2 := Next(Next(s, c, Record(i, a)), c, Move(i));
    if n + 1 < c.judgeCount {
      assert CallRows(c, a, s.clock, n) == [ThrottleEvent(a, false, s.clock)];
      RestingStays(s2, c, i);
    } else {
      JudgedRuns(s, s2, c, i, a, n);
    }
  }

  lemma JudgedRuns(s: State, s2: State, c: Settings, i: nat, a: string, n: nat)
    requires Usable(c) && i < |s.callers| && Recorded(s.events, c, a, s.clock, n) && n + 1 >= c.judgeCount
    requires s2 == s.(events := s.events + [ThrottleEvent(a, false, s.clock)], callers := s.callers[i := Listing(a)])
    ensures var top := n + 1 >= c.judgeCount + c.evictCount - 1;
            Next(Next(Next(s2, c, Move(i)), c, Move(i)), c, Move(i)) ==
            s.(events := s.events + CallRows(c, a, s.clock, n),
               callers := s.callers[i := if top && GuardOpen(s.events, c, s.clock) then Disabling(a) else Resting])
  {
    RowsRecord(s.events, c, a, s.clock, n);
    GuardStays(s.events, c, a, s.clock, n);
    assert s2.events + [Event(a, Blacklist, Throttled, 429, s.clock)] == s.events + CallRows(c, a, s.clock, n);
    ListedRuns(s2, c, i, a, n + 1);
  }

  lemma RestingStays(s: State, c: Settings, i: nat)
    requires i < |s.callers| && s.callers[i] == Resting
    ensures Next(s, c, Move(i)) == s
  {
    assert s.events + [] == s.events;
  }

  /** ... from its blacklist row on. */
  lemma ListedRuns(s: State, c: Settings, i: nat, a: string, n: nat)
    requires Usable(c) && i < |s.callers| && s.callers[i] == Listing(a)
    requires Recorded(s.events + [Event(a, Blacklist, Throttled, 429, s.clock)], c, a, s.clock, n) && n >= c.judgeCount
    ensures var fs := s.events + [Event(a, Blacklist, Throttled, 429, s.clock)];
            Next(Next(Next(s, c, Move(i)), c, Move(i)), c, Move(i)) ==
            s.(events := fs,
               callers := s.callers[i := if n >= c.judgeCount + c.evictCount - 1 && GuardOpen(fs, c, s.clock)
                                         then Disabling(a) else Resting])
  {
    var s1 := Next(s, c, Move(i));
    var s2 := Next(s1, c, Move(i));
    assert s2.events == s1.events + [] == s1.events;
    if s2.callers[i].Resting? {
      RestingStays(s2, c, i);
    } else {
      assert Next(s2, c, Move(i)).events == s2.events + [] == s2.events;
    }
  }

  // ---------------------------------------------------------------- from a clean account to the guard

  function Calls(i: nat, a: string, n: nat): seq<Step> {
    if n == 0 then [] else Calls(i, a, n - 1) + CallSteps(i, a)
  }

  /** Rows of accounts with names no longer than n. */
  ghost predicate Below(es: seq<Event>, n: nat) { forall e :: e in es ==> |e.account| <= n }

  lemma {:induction false} Untouched(es: seq<Event>, c: Settings, a: string, clock: int)
    requires Usable(c) && forall e :: e in es ==> e.account != a
    ensures Recorded(es, c, a, clock, 0)
  {
    forall kind, since ensures CountEvents(es, a, kind, since) == 0 { NoneOf(es, a, kind, since); }
  }

  lemma {:induction false} NoneOf(es: seq<Event>, a: string, kind: Kind, since: int)
    requires forall e :: e in es ==> e.account != a
    ensures CountEvents(es, a, kind, since) == 0
  {
    if es != [] { NoneOf(es[..|es| - 1], a, kind, since); }
  }

  /** What a caller's calls for one account change, while none of them disables it. */
  ghost predicate OnlyCalled(s: State, t: State, c: Settings, a: string) {
    && t.clock == s.clock
    && RecentlyDisabled(t.events, s.clock - c.outageWindow) == RecentlyDisabled(s.events, s.clock - c.outageWindow)
    && G.DisabledIn(t.events, s.clock, c.outageWindow) == G.DisabledIn(s.events, s.clock, c.outageWindow)
    && forall e :: e in t.events ==> e in s.events || e.account == a
  }

  lemma OnlyCalledTwice(s: State, t: State, u: State, c: Settings, a: string)
    requires OnlyCalled(s, t, c, a) && OnlyCalled(t, u, c, a)
    ensures OnlyCalled(s, u, c, a)
  {}

  lemma CallOnlyCalled(s: State, c: Settings, i: nat, a: string, n: nat)
    requires Usable(c) && i < |s.callers| && s.callers[i] == Resting && a != "" && Recorded(s.events, c, a, s.clock, n)
    ensures var t := Run(s, c, CallSteps(i, a));
            OnlyCalled(s, t, c, a) && Recorded(t.events, c, a, s.clock, n + 1)
            && t.callers ==
              s.callers[i := if n + 1 >= c.judgeCount + c.evictCount - 1 && GuardOpen(s.events, c, s.clock)
                                           then Disabling(a) else Resting]
  {
    CallRuns(s, c, i, a, n);
    RowsRecord(s.events, c, a, s.clock, n);
    RowsAreQuiet(s.events, c, a, s.clock, n);
  }

  lemma {:induction false} CallsRun(s: State, c: Settings, i: nat, a: string, n: nat)
    requires Usable(c) && i < |s.callers| && s.callers[i] == Resting && a != "" && Recorded(s.events, c, a, s.clock, 0)
    requires n < c.judgeCount + c.evictCount - 1
    ensures var t := Run(s, c, Calls(i, a, n));
            OnlyCalled(s, t, c, a) && Recorded(t.events, c, a, s.clock, n) && t.callers == s.callers
  {
    if n > 0 {
      CallsRun(s, c, i, a, n - 1);
      var t := Run(s, c, Calls(i, a, n - 1));
      CallOnlyCalled(t, c, i, a, n - 1);
      OnlyCalledTwice(s, t, Run(t, c, CallSteps(i, a)), c, a);
      RunConcat(s, c, Calls(i, a, n - 1), CallSteps(i, a));
      assert t.callers[i := Resting] == t.callers;
    }
  }

  /** As many calls as the ladder asks for; the last of them gets to the guard. */
  predicate IsTop(c: Settings, top: nat) { top == c.judgeCount + c.evictCount - 1 }

  lemma LastCall(s: State, c: Settings, i: nat, a: string, m: nat)
    ensures Run(s, c, Calls(i, a, m + 1)) == Run(Run(s, c, Calls(i, a, m)), c, CallSteps(i, a))
  {
    RunConcat(s, c, Calls(i, a, m), CallSteps(i, a));
    assert Calls(i, a, m + 1) == Calls(i, a, m) + CallSteps(i, a);
  }

  lemma {:induction false} ReachGuard(s: State, c: Settings, i: nat, a: string, top: nat)
    requires Usable(c) && i < |s.callers| && s.callers[i] == Resting && a != "" && GuardOpen(s.events, c, s.clock)
    requires Recorded(s.events, c, a, s.clock, 0) && IsTop(c, top)
    ensures var t := Run(s, c, Calls(i, a, top)); OnlyCalled(s, t, c, a) && t.callers == s.callers[i := Disabling(a)]
  {
    CallsRun(s, c, i, a, top - 1);
    TopCall(s, Run(s, c, Calls(i, a, top - 1)), c, i, a, top - 1);
    LastCall(s, c, i, a, top - 1);
  }

  lemma {:induction false} TopCall(s: State, t: State, c: Settings, i: nat, a: string, m: nat)
    requires Usable(c) && i < |s.callers| && s.callers[i] == Resting && a != "" && GuardOpen(s.events, c, s.clock)
    requires OnlyCalled(s, t, c, a) && t.callers == s.callers && Recorded(t.events, c, a, s.clock, m)
    requires m == c.judgeCount + c.evictCount - 2
    ensures var u := Run(t, c, CallSteps(i, a)); OnlyCalled(s, u, c, a) && u.callers == s.callers[i := Disabling(a)]
  {
    CallOnlyCalled(t, c, i, a, m);
    OnlyCalledTwice(s, t, Run(t, c, CallSteps(i, a)), c, a);
  }

  // ---------------------------------------------------------------- the bound is attained

  function Name(n: nat): string { seq(n + 1, _ => 'a') }

  function Names(n: nat): set<string> { set i: nat | i < n :: Name(i) }

  lemma {:induction false} NamesSize(n: nat)
    ensures |Names(n)| == n
  {
    if n > 0 {
      NamesSize(n - 1);
      assert forall i: nat, j: nat :: Name(i) == Name(j) ==> |Name(i)| == i + 1 && |Name(j)| == j + 1;
      assert Names(n) == Names(n - 1) + {Name(n - 1)};
    }
  }

  /** The first n names are disabled, all at `clock`, and only the first m have rows at all. */
  ghost predicate AllDisabled(s: State, c: Settings, clock: int, n: nat, m: nat) {
    && s.clock == clock && Below(s.events, m)
    && RecentlyDisabled(s.events, clock - c.outageWindow) == Names(n)
    && G.DisabledIn(s.events, clock, c.outageWindow) == Names(n)
  }

  lemma DisabledMeans(s: State, c: Settings, clock: int, n: nat, m: nat)
    requires Usable(c) && AllDisabled(s, c, clock, n, m)
    ensures GuardOpen(s.events, c, clock) <==> n < c.outageLimit
    ensures |G.DisabledIn(s.events, clock, c.outageWindow)| == n
  {
    NamesSize(n);
  }

  lemma GuardReached(s: State, c: Settings, clock: int, n: nat, m: nat, i: nat, top: nat)
    requires Usable(c) && IsTop(c, top) && AllDisabled(s, c, clock, n, m) && n < c.outageLimit
    requires i < |s.callers| && s.callers[i] == Resting
    ensures var t := Run(s, c, Calls(i, Name(m), top));
            AllDisabled(t, c, clock, n, m + 1) && t.callers == s.callers[i := Disabling(Name(m))]
  {
    DisabledMeans(s, c, clock, n, m);
    assert |Name(m)| == m + 1;
    Untouched(s.events, c, Name(m), clock);
    ReachGuard(s, c, i, Name(m), top);
  }

  lemma WriteAdds(s: State, c: Settings, clock: int, n: nat, m: nat, i: nat)
    requires Usable(c) && AllDisabled(s, c, clock, n, m) && n < m && i < |s.callers|
             && s.callers[i] == Disabling(Name(n))
    ensures var t := Next(s, c, Move(i)); AllDisabled(t, c, clock, n + 1, m) && t.callers == s.callers[i := Resting]
  {
    var e := Event(Name(n), Failure, Evict, 0, clock);
    RecentAppend(s.events, e, clock - c.outageWindow);
    G.DisabledAppend(s.events, e, clock, c.outageWindow);
    assert Names(n + 1) == Names(n) + {Name(n)};
  }

  /** n accounts driven to the top of the ladder and disabled, one after the other. */
  function OneByOne(top: nat, n: nat): seq<Step> {
    if n == 0 then [] else OneByOne(top, n - 1) + (Calls(0, Name(n - 1), top) + [Move(0)])
  }

  lemma {:induction false} OneByOneRun(c: Settings, k: nat, clock: int, top: nat, n: nat)
    requires Usable(c) && IsTop(c, top) && k > 0 && n <= c.outageLimit
    ensures var s := Run(Start(k, clock), c, OneByOne(top, n));
            AllDisabled(s, c, clock, n, n) && s.callers == Start(k, clock).callers
  {
    if n > 0 {
      OneByOneRun(c, k, clock, top, n - 1);
      var s := Run(Start(k, clock), c, OneByOne(top, n - 1));
      var up := Calls(0, Name(n - 1), top);
      GuardReached(s, c, clock, n - 1, n - 1, 0, top);
      WriteAdds(Run(s, c, up), c, clock, n - 1, n, 0);
      RunConcat(Start(k, clock), c, OneByOne(top, n - 1), up + [Move(0)]);
      RunConcat(s, c, up, [Move(0)]);
      RunOne(Run(s, c, up), c, Move(0));
      assert s.callers[0 := Disabling(Name(n - 1))][0 := Resting] == s.callers;
    }
  }

  ghost predicate Holding(cs: seq<Caller>, base: nat, n: nat) {
    forall i :: 0 <= i < |cs| ==> cs[i] == if i < n then Disabling(Name(base + i)) else Resting
  }

  /** n callers past the guard before any of them writes, then all of them writing. */
  function AllPass(top: nat, base: nat, n: nat): seq<Step> {
    if n == 0 then [] else AllPass(top, base, n - 1) + Calls(n - 1, Name(base + n - 1), top)
  }

  function AllWrite(n: nat): seq<Step> {
    if n == 0 then [] else AllWrite(n - 1) + [Move(n - 1)]
  }

  lemma {:induction false} AllPassRun(s: State, c: Settings, clock: int, top: nat, base: nat, n: nat)
    requires Usable(c) && IsTop(c, top) && AllDisabled(s, c, clock, base, base) && base < c.outageLimit
    requires n <= |s.callers| && Holding(s.callers, base, 0)
    ensures var t := Run(s, c, AllPass(top, base, n));
            AllDisabled(t, c, clock, base, base + n) && |t.callers| == |s.callers| && Holding(t.callers, base, n)
  {
    if n > 0 {
      AllPassRun(s, c, clock, top, base, n - 1);
      var t := Run(s, c, AllPass(top, base, n - 1));
      GuardReached(t, c, clock, base, base + n - 1, n - 1, top);
      RunConcat(s, c, AllPass(top, base, n - 1), Calls(n - 1, Name(base + n - 1), top));
    }
  }

  lemma {:induction false} AllWriteRun(s: State, c: Settings, clock: int, base: nat, n: nat)
    requires Usable(c) && AllDisabled(s, c, clock, base, base + |s.callers|)
    requires n <= |s.callers| && Holding(s.callers, base, |s.callers|)
    ensures var t := Run(s, c, AllWrite(n));
            AllDisabled(t, c, clock, base + n, base + |s.callers|) && |t.callers| == |s.callers|
            && forall i :: n <= i < |t.callers| ==> t.callers[i] == s.callers[i]
  {
    if n > 0 {
      AllWriteRun(s, c, clock, base, n - 1);
      var t := Run(s, c, AllWrite(n - 1));
      WriteAdds(t, c, clock, base + n - 1, base + |s.callers|, n - 1);
      RunConcat(s, c, AllWrite(n - 1), [Move(n - 1)]);
      RunOne(t, c, Move(n - 1));
    }
  }

  /** The overshoot is real: for every limit, every k and every ladder, k concurrent calls of
      RecordThrottle, with all the rows the ladder asks for, disable limit + k - 1 accounts at one
      instant in some run. */
  lemma BoundIsAttained(c: Settings, k: nat, clock: int)
    requires Usable(c) && k > 0
    ensures exists steps ::
              |G.DisabledIn(Run(Start(k, clock), c, steps).events, clock, c.outageWindow)| == c.outageLimit + k - 1
  {
    var base, top := c.outageLimit - 1, c.judgeCount + c.evictCount - 1;
    var first, second, third := OneByOne(top, base), AllPass(top, base, k), AllWrite(k);
    OneByOneRun(c, k, clock, top, base);
    var s := Run(Start(k, clock), c, first);
    AllPassRun(s, c, clock, top, base, k);
    var t := Run(s, c, second);
    AllWriteRun(t, c, clock, base, k);
    var u := Run(t, c, third);
    DisabledMeans(u, c, clock, base + k, base + k);
    RunConcat(Start(k, clock), c, first, second);
    RunConcat(Start(k, clock), c, first + second, third);
    assert u == Run(Start(k, clock), c, first + second + third);
  }
}
