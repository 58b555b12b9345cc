/** Runs of the failover controller seen from one account: the escalation from throttled to
    disabled. */
module ThrottleLadder {
  import opened Wrappers
  import opened Failover

  datatype Input =
    | Fail(account: string, httpStatus: int, at: int)
    | Slow(account: string, risk: bool, at: int)
    | Succeed(account: string)

  /** The controller's fixed settings. */
  datatype Setup = Setup(global: Option<Settings>, fallback: int, overrides: map<string, Override>)

  function SettingsOf(u: Setup, id: string): Settings {
    Resolved(u.global, u.fallback, if id != "" && id in u.overrides then Some(u.overrides[id]) else None)
  }

  function Record(u: Setup, p: Pool, i: Input): Pool {
    match i
    case Fail(a, h, now) => AfterFailure(p, SettingsOf(u, a), a, h, now)
    case Slow(a, r, now) => AfterThrottle(p, SettingsOf(u, a), a, r, now)
    case Succeed(a) => AfterSuccess(p, a)
  }

  function Run(u: Setup, p: Pool, inputs: seq<Input>): Pool {
    if inputs == [] then p else Record(u, Run(u, p, inputs[..|inputs| - 1]), inputs[|inputs| - 1])
  }

  /** The controller's three entry points perform Record. */
  method Feed(ctl: Controller, i: Input)
    modifies ctl
    ensures ctl.Contents() == Record(Setup(ctl.global, ctl.fallback, ctl.overrides), old(ctl.Contents()), i)
  {
    match i
    case Fail(a, h, now) => ctl.RecordFailure(a, h, now);
    case Slow(a, r, now) => ctl.RecordThrottle(a, r, now);
    case Succeed(a) => ctl.RecordSuccess(a);
  }

  // ---------------------------------------------------------------- frame

  /** What the ladder of `id` depends on. */
  ghost predicate SameFor(p: Pool, q: Pool, id: string) {
    && (forall kind, since :: CountEvents(p.events, id, kind, since) == CountEvents(q.events, id, kind, since))
    && (id in p.accounts <==> id in q.accounts)
    && (id in p.accounts && id in q.accounts ==> p.accounts[id] == q.accounts[id])
  }

  lemma AppendForeign(p: Pool, e: Event, id: string)
    requires e.account != id
    ensures SameFor(p, p.(events := p.events + [e]), id)
  {
    forall kind, since ensures CountEvents(p.events + [e], id, kind, since) == CountEvents(p.events, id, kind, since) {
      CountAppend(p.events, e, id, kind, since);
    }
  }

  lemma DisableIsLocal(p: Pool, a: string, reason: Reason, now: int, id: string)
    requires a != id
    ensures SameFor(p, AfterDisable(p, a, reason, now), id)
  {
    AppendForeign(p, Event(a, Failure, reason, 0, now), id);
  }

  lemma FailureIsLocal(p: Pool, c: Settings, a: string, httpStatus: int, now: int, id: string)
    requires a != id
    ensures SameFor(p, AfterFailure(p, c, a, httpStatus, now), id)
  {
    var logged := p.(events := p.events + [FailureEvent(a, httpStatus, now)]);
    AppendForeign(p, FailureEvent(a, httpStatus, now), id);
    if a in p.accounts {
      var bumped := logged.(accounts := p.accounts[a := p.accounts[a].(streak := p.accounts[a].streak + 1)]);
      DisableIsLocal(bumped, a, ConsecFail, now, id);
    }
  }

  function Logged(p: Pool, id: string, risk: bool, now: int): Pool {
    p.(events := p.events + [ThrottleEvent(id, risk, now)])
  }

  function Listed(p: Pool, id: string, risk: bool, now: int): Pool {
    p.(events := Logged(p, id, risk, now).events + [Event(id, Blacklist, Throttled, 429, now)])
  }

  function Cooled(p: Pool, c: Settings, id: string, risk: bool, now: int): Pool
    requires id in p.accounts
  {
    var row := p.accounts[id].(status := CoolingDown, until := now + c.cooldown);
    Listed(p, id, risk, now).(accounts := p.accounts[id := row])
  }

  lemma ThrottleIsLocal(p: Pool, c: Settings, a: string, risk: bool, now: int, id: string)
    requires a != id
    ensures SameFor(p, AfterThrottle(p, c, a, risk, now), id)
  {
    AppendForeign(p, ThrottleEvent(a, risk, now), id);
    AppendForeign(Logged(p, a, risk, now), Event(a, Blacklist, Throttled, 429, now), id);
    if a in p.accounts { DisableIsLocal(Cooled(p, c, a, risk, now), a, Evict, now, id); }
  }

  /** A record of one account moves neither the counts nor the status of another. */
  lemma RecordIsLocal(u: Setup, p: Pool, i: Input, id: string)
    requires i.account != id
    ensures SameFor(p, Record(u, p, i), id)
  {
    match i
    case Fail(a, h, now) => FailureIsLocal(p, SettingsOf(u, a), a, h, now, id);
    case Slow(a, r, now) => ThrottleIsLocal(p, SettingsOf(u, a), a, r, now, id);
    case Succeed(a) =>
  }

  // ---------------------------------------------------------------- one record

  lemma {:induction false} CountShrinks(es: seq<Event>, id: string, kind: Kind, since: int, later: int)
    requires since <= later
    ensures CountEvents(es, id, kind, later) <= CountEvents(es, id, kind, since)
  {
    if es != [] { CountShrinks(es[..|es| - 1], id, kind, since, later); }
  }

  predicate InWindows(c: Settings, from: int, now: int) {
    from <= now <= from + c.judgeWindow && now <= from + c.evictWindow
  }

  /** No trace of `id` that a record from `from` on could still count. */
  predicate Clean(p: Pool, c: Settings, id: string, from: int) {
    id != "" && id in p.accounts
    && CountEvents(p.events, id, Throttle, from - c.judgeWindow) == 0
    && CountEvents(p.events, id, Blacklist, from - c.evictWindow) == 0
  }

  function Listings(c: Settings, n: nat): int { if n < c.judgeCount then 0 else n - c.judgeCount + 1 }

  /** The account has had n throttle records since `from`. */
  ghost predicate Rung(p: Pool, c: Settings, id: string, from: int, n: nat) {
    && id in p.accounts
    && (forall since :: from - c.judgeWindow <= since <= from ==> CountEvents(p.events, id, Throttle, since) == n)
    && (forall since :: from - c.evictWindow <= since <= from ==>
          CountEvents(p.events, id, Blacklist, since) == Listings(c, n))
  }

  lemma CleanIsBottom(p: Pool, c: Settings, id: string, from: int)
    requires Usable(c) && Clean(p, c, id, from)
    ensures Rung(p, c, id, from, 0)
  {
    forall since | from - c.judgeWindow <= since <= from ensures CountEvents(p.events, id, Throttle, since) == 0 {
      CountShrinks(p.events, id, Throttle, from - c.judgeWindow, since);
    }
    forall since | from - c.evictWindow <= since <= from ensures CountEvents(p.events, id, Blacklist, since) == 0 {
      CountShrinks(p.events, id, Blacklist, from - c.evictWindow, since);
    }
  }

  /** Appending an event at or after `from` raises its own count and no other. */
  lemma AppendOwn(p: Pool, e: Event, id: string, from: int)
    requires e.account == id && e.at >= from
    ensures forall kind, since :: since <= from ==>
              CountEvents(p.events + [e], id, kind, since) ==
              CountEvents(p.events, id, kind, since) + if e.kind == kind then 1 else 0
  {
    forall kind, since | since <= from
      ensures CountEvents(p.events + [e], id, kind, since) ==
              CountEvents(p.events, id, kind, since) + if e.kind == kind then 1 else 0 {
      CountAppend(p.events, e, id, kind, since);
    }
  }

  lemma LoggedCounts(p: Pool, c: Settings, id: string, risk: bool, now: int, from: int, n: nat)
    requires Usable(c) && Rung(p, c, id, from, n) && InWindows(c, from, now)
    ensures CountEvents(Logged(p, id, risk, now).events, id, Throttle, now - c.judgeWindow) == n + 1
    ensures n + 1 < c.judgeCount ==> Rung(Logged(p, id, risk, now), c, id, from, n + 1)
    ensures n + 1 >= c.judgeCount ==> Rung(Listed(p, id, risk, now), c, id, from, n + 1)
    ensures n + 1 >= c.judgeCount ==>
              CountEvents(Listed(p, id, risk, now).events, id, Blacklist, now - c.evictWindow) == n + 2 - c.judgeCount
  {
    AppendOwn(p, ThrottleEvent(id, risk, now), id, from);
    AppendOwn(Logged(p, id, risk, now), Event(id, Blacklist, Throttled, 429, now), id, from);
  }

  lemma GuardIgnoresThrottles(p: Pool, c: Settings, id: string, risk: bool, now: int)
    ensures GuardOpen(Listed(p, id, risk, now).events, c, now) <==> GuardOpen(p.events, c, now)
  {
    RecentAppend(p.events, ThrottleEvent(id, risk, now), now - c.outageWindow);
    RecentAppend(Logged(p, id, risk, now).events, Event(id, Blacklist, Throttled, 429, now), now - c.outageWindow);
  }

  lemma DisableKeepsRung(p: Pool, c: Settings, id: string, now: int, from: int, n: nat)
    requires Rung(p, c, id, from, n) && from <= now
    ensures Rung(AfterDisable(p, id, Evict, now), c, id, from, n)
  {
    AppendOwn(p, Event(id, Failure, Evict, 0, now), id, from);
  }

  function LadderStatus(before: Status, c: Settings, n: nat, open: bool): Status {
    if n < c.judgeCount then before
    else if n >= c.judgeCount + c.evictCount - 1 && open then Disabled
    else CoolingDown
  }

  /** One throttle record: the next rung, whatever the status was. */
  lemma ThrottleClimbs(p: Pool, c: Settings, id: string, risk: bool, now: int, from: int, n: nat)
    requires Usable(c) && c.enabled && c.throttleEnabled && id != ""
    requires Rung(p, c, id, from, n) && InWindows(c, from, now)
    ensures var q := AfterThrottle(p, c, id, risk, now);
            Rung(q, c, id, from, n + 1)
            && q.accounts[id].status == LadderStatus(p.accounts[id].status, c, n + 1, GuardOpen(p.events, c, now))
            && q.accounts[id].until == if n + 1 < c.judgeCount then p.accounts[id].until else now + c.cooldown
  {
    LoggedCounts(p, c, id, risk, now, from, n);
    GuardIgnoresThrottles(p, c, id, risk, now);
    if n + 1 >= c.judgeCount {
      var cooled := Cooled(p, c, id, risk, now);
      assert Rung(cooled, c, id, from, n + 1);
      DisableKeepsRung(cooled, c, id, now, from, n + 1);
    }
  }

  /** The rows that one throttle record writes. */
  lemma ThrottleWrites(p: Pool, c: Settings, id: string, risk: bool, now: int, from: int, n: nat)
    requires Usable(c) && c.enabled && c.throttleEnabled && id != ""
    requires Rung(p, c, id, from, n) && InWindows(c, from, now)
    ensures AfterThrottle(p, c, id, risk, now).events ==
            if n + 1 < c.judgeCount then Logged(p, id, risk, now).events
            else Listed(p, id, risk, now).events
                 + if n + 1 >= c.judgeCount + c.evictCount - 1 && GuardOpen(p.events, c, now)
                   then [Event(id, Failure, Evict, 0, now)] else []
  {
    LoggedCounts(p, c, id, risk, now, from, n);
    GuardIgnoresThrottles(p, c, id, risk, now);
    assert Listed(p, id, risk, now).events + [] == Listed(p, id, risk, now).events;
  }

  // ---------------------------------------------------------------- whole runs

  function Throttles(inputs: seq<Input>, id: string): nat {
    if inputs == [] then 0
    else
      var last := inputs[|inputs| - 1];
      Throttles(inputs[..|inputs| - 1], id) + if last.account == id && last.Slow? then 1 else 0
  }

  /** For `id`: throttle records inside both windows, and successes. For others: anything. */
  predicate OnlyThrottled(inputs: seq<Input>, c: Settings, id: string, from: int) {
    forall i :: 0 <= i < |inputs| && inputs[i].account == id ==>
      inputs[i].Succeed? || (inputs[i].Slow? && InWindows(c, from, inputs[i].at))
  }

  /** The guard at the latest throttle record of `id`. */
  predicate OpenAtLast(u: Setup, p: Pool, inputs: seq<Input>, id: string) {
    inputs != []
    && var init, last := inputs[..|inputs| - 1], inputs[|inputs| - 1];
       if last.account == id && last.Slow? then GuardOpen(Run(u, p, init).events, SettingsOf(u, id), last.at)
       else OpenAtLast(u, p, init, id)
  }

  /** Each throttle record of `id` finds the guard open. */
  predicate OpenThroughout(u: Setup, p: Pool, inputs: seq<Input>, id: string) {
    inputs == []
    || (var init, last := inputs[..|inputs| - 1], inputs[|inputs| - 1];
        OpenThroughout(u, p, init, id)
        && (last.account == id && last.Slow? ==>
              GuardOpen(Run(u, p, init).events, SettingsOf(u, id), last.at)))
  }

  lemma ClimbStep(u: Setup, p: Pool, i: Input, c: Settings, id: string, from: int, n: nat)
    requires c == SettingsOf(u, id) && Usable(c) && c.enabled && c.throttleEnabled && id != ""
    requires Rung(p, c, id, from, n) && OnlyThrottled([i], c, id, from)
    ensures var q, slow := Record(u, p, i), i.account == id && i.Slow?;
            Rung(q, c, id, from, if slow then n + 1 else n)
            && q.accounts[id].status ==
               if slow then LadderStatus(p.accounts[id].status, c, n + 1, GuardOpen(p.events, c, i.at))
               else p.accounts[id].status
  {
    assert i == [i][0];
    if i.account != id {
      RecordIsLocal(u, p, i, id);
    } else if i.Slow? {
      ThrottleClimbs(p, c, id, i.risk, i.at, from, n);
    }
  }

  lemma {:induction false} Climb(u: Setup, p: Pool, inputs: seq<Input>, id: string, from: int)
    requires var c := SettingsOf(u, id);
             c.enabled && c.throttleEnabled && Clean(p, c, id, from) && OnlyThrottled(inputs, c, id, from)
    ensures var c, n, q := SettingsOf(u, id), Throttles(inputs, id), Run(u, p, inputs);
            Rung(q, c, id, from, n)
            && q.accounts[id].status == LadderStatus(p.accounts[id].status, c, n, OpenAtLast(u, p, inputs, id))
  {
    var c := SettingsOf(u, id);
    OverridesLeaveTheGuard(u.global, u.fallback, if id != "" && id in u.overrides then Some(u.overrides[id]) else None);
    if inputs == [] {
      CleanIsBottom(p, c, id, from);
    } else {
      var init, last := inputs[..|inputs| - 1], inputs[|inputs| - 1];
      Climb(u, p, init, id, from);
      ClimbStep(u, Run(u, p, init), last, c, id, from, Throttles(init, id));
    }
  }

  /** The ladder, for every number of records, whatever other accounts do in between. */
  lemma LadderHolds(u: Setup, p: Pool, inputs: seq<Input>, id: string, from: int)
    requires var c := SettingsOf(u, id);
             c.enabled && c.throttleEnabled && Clean(p, c, id, from) && OnlyThrottled(inputs, c, id, from)
    requires OpenThroughout(u, p, inputs, id)
    ensures var c, n := SettingsOf(u, id), Throttles(inputs, id);
            id in Run(u, p, inputs).accounts
            && Run(u, p, inputs).accounts[id].status ==
               if n < c.judgeCount then p.accounts[id].status
               else if n < c.judgeCount + c.evictCount - 1 then CoolingDown
               else Disabled
  {
    Climb(u, p, inputs, id, from);
    OpenMeansOpenAtLast(u, p, inputs, id);
    OverridesLeaveTheGuard(u.global, u.fallback, if id != "" && id in u.overrides then Some(u.overrides[id]) else None);
  }

  lemma {:induction false} OpenMeansOpenAtLast(u: Setup, p: Pool, inputs: seq<Input>, id: string)
    requires OpenThroughout(u, p, inputs, id)
    ensures Throttles(inputs, id) > 0 ==> OpenAtLast(u, p, inputs, id)
  {
    if inputs != [] { OpenMeansOpenAtLast(u, p, inputs[..|inputs| - 1], id); }
  }

  /** A record on an account already at the top of the ladder, and disabled a moment ago: the row
      is first set back to throttled, and stays so exactly when the other recent disables and the
      account's own leave the guard no room. */
  lemma LateThrottleMayUndoDisable(p: Pool, c: Settings, id: string, risk: bool, now: int, from: int, n: nat)
    requires Usable(c) && c.enabled && c.throttleEnabled && id != ""
    requires Rung(p, c, id, from, n) && InWindows(c, from, now) && n + 1 >= c.judgeCount + c.evictCount - 1
    requires id in RecentlyDisabled(p.events, now - c.outageWindow)
    ensures id in AfterThrottle(p, c, id, risk, now).accounts
    ensures AfterThrottle(p, c, id, risk, now).accounts[id].status ==
            if |OthersDisabled(p.events, id, now - c.outageWindow)| + 1 < c.outageLimit then Disabled else CoolingDown
  {
    ThrottleClimbs(p, c, id, risk, now, from, n);
    GuardCounts(p.events, id, c, now);
  }

  // ---------------------------------------------------------------- the failure streak

  /** Disable rows of an account. */
  function Disables(es: seq<Event>, id: string): nat {
    if es == [] then 0
    else Disables(es[..|es| - 1], id) + if es[|es| - 1].account == id && IsDisable(es[|es| - 1]) then 1 else 0
  }

  /** Failures of the account since its last success, and disables of it, on top of what the streak
      was when the run began if there was no success. */
  function StreakOf(u: Setup, p: Pool, inputs: seq<Input>, id: string, start: int): int {
    if inputs == [] then start
    else
      var init, last := inputs[..|inputs| - 1], inputs[|inputs| - 1];
      if last.account == id && last.Succeed? then 0
      else
        StreakOf(u, p, init, id, start) + (if last.account == id && last.Fail? then 1 else 0)
        + Disables(Run(u, p, inputs).events, id) - Disables(Run(u, p, init).events, id)
  }

  lemma DisablesAppend(es: seq<Event>, e: Event, id: string)
    ensures Disables(es + [e], id) == Disables(es, id) + if e.account == id && IsDisable(e) then 1 else 0
  {
    assert (es + [e])[..|es|] == es;
  }

  /** What a record adds to the streak it adds to the disable rows. */
  ghost predicate CountsDisables(p: Pool, q: Pool, a: string) {
    && q.accounts.Keys == p.accounts.Keys
    && (a in p.accounts ==>
          q.accounts[a].streak - p.accounts[a].streak == Disables(q.events, a) - Disables(p.events, a))
    && forall id :: id != a ==> Disables(q.events, id) == Disables(p.events, id)
  }

  lemma DisableCounts(p: Pool, a: string, reason: Reason, now: int)
    requires reason == Evict || reason == ConsecFail
    ensures CountsDisables(p, AfterDisable(p, a, reason, now), a)
  {
    var e := Event(a, Failure, reason, 0, now);
    forall id ensures Disables(p.events + [e], id) == Disables(p.events, id) + if id == a then 1 else 0 {
      DisablesAppend(p.events, e, id);
    }
  }

  lemma FailureRows(p: Pool, c: Settings, a: string, h: int, now: int)
    requires c.enabled && c.consecEnabled && a != "" && a in p.accounts
    ensures var row, q := p.accounts[a], AfterFailure(p, c, a, h, now);
            CountsDisables(p.(accounts := p.accounts[a := row.(streak := row.streak + 1)]), q, a)
  {
    var row := p.accounts[a];
    var bumped := Pool(p.events + [FailureEvent(a, h, now)], p.accounts[a := row.(streak := row.streak + 1)]);
    LoggedDisables(p.events, FailureEvent(a, h, now));
    DisableCounts(bumped, a, ConsecFail, now);
  }

  lemma LoggedDisables(es: seq<Event>, e: Event)
    requires !IsDisable(e)
    ensures forall id :: Disables(es + [e], id) == Disables(es, id)
  {
    forall id ensures Disables(es + [e], id) == Disables(es, id) { DisablesAppend(es, e, id); }
  }

  lemma CooldownRows(p: Pool, c: Settings, a: string, now: int)
    ensures CountsDisables(p, AfterCooldown(p, c, a, now), a)
  {
    if a in p.accounts {
      var row := p.accounts[a].(status := CoolingDown, until := now + c.cooldown);
      DisableCounts(p.(accounts := p.accounts[a := row]), a, Evict, now);
    }
  }

  lemma ThrottleRowsOf(p: Pool, c: Settings, a: string, risk: bool, now: int)
    ensures CountsDisables(p, AfterThrottle(p, c, a, risk, now), a)
  {
    var e, f := ThrottleEvent(a, risk, now), Event(a, Blacklist, Throttled, 429, now);
    LoggedDisables(p.events, e);
    LoggedDisables(p.events + [e], f);
    CooldownRows(p.(events := p.events + [e] + [f]), c, a, now);
  }

  lemma StreakStep(u: Setup, p: Pool, i: Input, id: string)
    requires var c := SettingsOf(u, id); c.enabled && c.consecEnabled && id != "" && id in p.accounts
    ensures var q := Record(u, p, i);
            id in q.accounts
            && q.accounts[id].streak ==
               if i.account == id && i.Succeed? then 0
               else p.accounts[id].streak + (if i.account == id && i.Fail? then 1 else 0)
                    + Disables(q.events, id) - Disables(p.events, id)
  {
    if i.account != id { RecordIsLocal(u, p, i, id); }
    match i
    case Fail(a, h, now) =>
      if a == id {
        FailureRows(p, SettingsOf(u, a), a, h, now);
      } else {
        ForeignRows(p, SettingsOf(u, a), a, h, now, id);
      }
    case Slow(a, r, now) => ThrottleRowsOf(p, SettingsOf(u, a), a, r, now);
    case Succeed(_) =>
  }

  lemma ForeignRows(p: Pool, c: Settings, a: string, h: int, now: int, id: string)
    requires a != id
    ensures Disables(AfterFailure(p, c, a, h, now).events, id) == Disables(p.events, id)
  {
    var e, f := FailureEvent(a, h, now), Event(a, Failure, ConsecFail, 0, now);
    DisablesAppend(p.events, e, id);
    DisablesAppend(p.events + [e], f, id);
  }

  /** The stored streak, over every run: one for each failure since the last success, and one for
      each disable, whatever other accounts do in between. */
  lemma {:induction false} StreakIsExact(u: Setup, p: Pool, inputs: seq<Input>, id: string)
    requires var c := SettingsOf(u, id); c.enabled && c.consecEnabled && id != "" && id in p.accounts
    ensures id in Run(u, p, inputs).accounts
    ensures Run(u, p, inputs).accounts[id].streak == StreakOf(u, p, inputs, id, p.accounts[id].streak)
  {
    if inputs != [] {
      var init := inputs[..|inputs| - 1];
      StreakIsExact(u, p, init, id);
      StreakStep(u, Run(u, p, init), inputs[|inputs| - 1], id);
    }
  }

  function Failures(inputs: seq<Input>, id: string): nat {
    if inputs == [] then 0
    else
      var last := inputs[|inputs| - 1];
      Failures(inputs[..|inputs| - 1], id) + if last.account == id && last.Fail? then 1 else 0
  }

  /** For `id`: failures only. For others: anything. */
  predicate OnlyFailing(inputs: seq<Input>, id: string) {
    forall i :: 0 <= i < |inputs| && inputs[i].account == id ==> inputs[i].Fail?
  }

  /** The row after a failure, by the state of the guard. */
  lemma FailureRow(p: Pool, c: Settings, id: string, httpStatus: int, now: int, open: bool)
    requires c.enabled && c.consecEnabled && id != "" && id in p.accounts
    requires open == GuardOpen(p.events + [FailureEvent(id, httpStatus, now)], c, now)
    ensures var row, q := p.accounts[id], AfterFailure(p, c, id, httpStatus, now);
            id in q.accounts
            && q.accounts[id] == if row.streak + 1 >= c.failLimit && open
                                 then row.(status := Disabled, streak := row.streak + 2)
                                 else row.(streak := row.streak + 1)
  {}

  lemma FailureByRoom(p: Pool, c: Settings, id: string, httpStatus: int, now: int)
    requires Usable(c) && c.enabled && c.consecEnabled && id != "" && id in p.accounts
    ensures var row, q := p.accounts[id], AfterFailure(p, c, id, httpStatus, now);
            id in q.accounts
            && q.accounts[id] == if row.streak + 1 >= c.failLimit && RoomAfter(p.events, c, id, httpStatus, now)
                                 then row.(status := Disabled, streak := row.streak + 2)
                                 else row.(streak := row.streak + 1)
  {
    GuardAfterFailure(p.events, c, id, httpStatus, now);
    FailureRow(p, c, id, httpStatus, now, RoomAfter(p.events, c, id, httpStatus, now));
  }

  lemma SettingsAreUsable(u: Setup, id: string)
    ensures Usable(SettingsOf(u, id))
  {
    OverridesLeaveTheGuard(u.global, u.fallback, if id != "" && id in u.overrides then Some(u.overrides[id]) else None);
  }

  /** The streak ladder, whatever other accounts do in between: below the limit n failures raise the
      streak by n and leave the status; the failure that reaches the limit disables exactly when the
      guard has room after counting its own row. */
  lemma {:induction false} StreakLadder(u: Setup, p: Pool, inputs: seq<Input>, id: string)
    requires var c := SettingsOf(u, id); c.enabled && c.consecEnabled && id != "" && id in p.accounts
    requires OnlyFailing(inputs, id)
    ensures var c, n, q := SettingsOf(u, id), p.accounts[id].streak + Failures(inputs, id), Run(u, p, inputs);
            id in q.accounts
            && (n < c.failLimit ==> q.accounts[id] == p.accounts[id].(streak := n))
            && (n == c.failLimit && inputs != [] && inputs[|inputs| - 1].account == id ==>
                  var last, es := inputs[|inputs| - 1], Run(u, p, inputs[..|inputs| - 1]).events;
                  if RoomAfter(es, c, id, last.httpStatus, last.at)
                  then q.accounts[id].status == Disabled && q.accounts[id].streak == n + 1
                  else q.accounts[id] == p.accounts[id].(streak := n))
  {
    if inputs != [] {
      var init, last := inputs[..|inputs| - 1], inputs[|inputs| - 1];
      StreakLadder(u, p, init, id);
      SettingsAreUsable(u, id);
      if last.account == id {
        FailureByRoom(Run(u, p, init), SettingsOf(u, id), id, last.httpStatus, last.at);
      } else {
        RecordIsLocal(u, Run(u, p, init), last, id);
      }
    }
  }

  /** A success starts the count again at zero and leaves the rest of the row. */
  lemma SuccessRestarts(u: Setup, p: Pool, inputs: seq<Input>, id: string)
    requires var c := SettingsOf(u, id); c.enabled && c.consecEnabled && id != "" && id in p.accounts
    requires OnlyFailing(inputs, id) && Failures(inputs, id) < SettingsOf(u, id).failLimit
    ensures var q := Run(u, Record(u, p, Succeed(id)), inputs);
            id in q.accounts && q.accounts[id] == p.accounts[id].(streak := Failures(inputs, id))
  {
    StreakLadder(u, Record(u, p, Succeed(id)), inputs, id);
  }
}
