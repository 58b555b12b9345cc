/** The failover controller: settings resolution, the failure streak, the throttle ladder and the
    pool-wide outage guard, over the event log and the account rows. Time is in seconds. */
module Failover {
  import opened Wrappers

  // ---------------------------------------------------------------- settings

  datatype Settings = Settings(
    enabled: bool,
    consecEnabled: bool, failLimit: int,
    throttleEnabled: bool, judgeWindow: int, judgeCount: int, cooldown: int, evictWindow: int, evictCount: int,
    outageWindow: int, outageLimit: int)

  /** A per-account row: an absent field inherits. */
  datatype Override = Override(
    enabled: Option<bool>, failLimit: Option<int>, judgeWindow: Option<int>, judgeCount: Option<int>,
    cooldown: Option<int>, evictWindow: Option<int>, evictCount: Option<int>)

  const UNSET := Settings(true, false, 0, false, 0, 0, 0, 0, 0, 0, 0)

  function Positive(x: int, otherwise: int): int { if x > 0 then x else otherwise }

  function Overriding(o: Option<int>, base: int): int { if o.Some? then Positive(o.value, base) else base }

  /** What each setting resolves to. */
  function Resolved(global: Option<Settings>, fallback: int, row: Option<Override>): Settings {
    var g := if global.Some? then global.value else UNSET;
    var o := if row.Some? then row.value else Override(None, None, None, None, None, None, None);
    Settings(
      if o.enabled.Some? then o.enabled.value else g.enabled,
      g.consecEnabled, Overriding(o.failLimit, Positive(g.failLimit, Positive(fallback, 3))),
      g.throttleEnabled,
      Overriding(o.judgeWindow, Positive(g.judgeWindow, 60)),
      Overriding(o.judgeCount, Positive(g.judgeCount, 5)),
      Overriding(o.cooldown, Positive(g.cooldown, 600)),
      Overriding(o.evictWindow, Positive(g.evictWindow, 3600)),
      Overriding(o.evictCount, Positive(g.evictCount, 3)),
      Positive(g.outageWindow, 30),
      Positive(g.outageLimit, 3))
  }

  predicate Usable(c: Settings) {
    c.failLimit > 0 && c.judgeWindow > 0 && c.judgeCount > 0 && c.cooldown > 0 && c.evictWindow > 0
    && c.evictCount > 0 && c.outageWindow > 0 && c.outageLimit > 0
  }

  method Default(x: int, otherwise: int) returns (r: int)
    ensures r == Positive(x, otherwise)
  {
    r := x;
    if r <= 0 { r := otherwise; }
  }

  method Overwrite(o: Option<int>, base: int) returns (r: int)
    ensures r == Overriding(o, base)
  {
    r := base;
    if o.Some? && o.value > 0 { r := o.value; }
  }

  /** `row` is None for an anonymous account, a failed lookup and an account without a row. */
  method Resolve(global: Option<Settings>, fallback: int, row: Option<Override>) returns (base: Settings)
    ensures base == Resolved(global, fallback, row)
    ensures Usable(base)
  {
    base := UNSET;
    if global.Some? { base := global.value; }
    var failLimit, judgeWindow, judgeCount := base.failLimit, base.judgeWindow, base.judgeCount;
    var cooldown, evictWindow, evictCount := base.cooldown, base.evictWindow, base.evictCount;
    var outageWindow, outageLimit := base.outageWindow, base.outageLimit;
    failLimit := Default(failLimit, fallback);
    failLimit := Default(failLimit, 3);
    judgeWindow := Default(judgeWindow, 60);
    judgeCount := Default(judgeCount, 5);
    cooldown := Default(cooldown, 600);
    evictWindow := Default(evictWindow, 3600);
    evictCount := Default(evictCount, 3);
    outageWindow := Default(outageWindow, 30);
    outageLimit := Default(outageLimit, 3);
    ghost var plain := Resolved(global, fallback, None);
    assert failLimit == plain.failLimit && judgeWindow == plain.judgeWindow && judgeCount == plain.judgeCount;
    assert cooldown == plain.cooldown && evictWindow == plain.evictWindow && evictCount == plain.evictCount;
    assert outageWindow == plain.outageWindow && outageLimit == plain.outageLimit;
    var enabled := base.enabled;
    if row.Some? {
      var o := row.value;
      if o.enabled.Some? { enabled := o.enabled.value; }
      failLimit := Overwrite(o.failLimit, failLimit);
      judgeWindow := Overwrite(o.judgeWindow, judgeWindow);
      judgeCount := Overwrite(o.judgeCount, judgeCount);
      cooldown := Overwrite(o.cooldown, cooldown);
      evictWindow := Overwrite(o.evictWindow, evictWindow);
      evictCount := Overwrite(o.evictCount, evictCount);
    }
    return Settings(enabled, base.consecEnabled, failLimit, base.throttleEnabled, judgeWindow, judgeCount,
                    cooldown, evictWindow, evictCount, outageWindow, outageLimit);
  }

  // ---------------------------------------------------------------- event log and rows

  datatype Kind = Failure | Throttle | Blacklist
  datatype Reason = ConsecFail | Evict | Throttled | RiskMarker | AuthFailed | Network
  datatype Event = Event(account: string, kind: Kind, reason: Reason, httpStatus: int, at: int)

  datatype Status = Active | CoolingDown | Disabled | OtherStatus(name: string)
  datatype Row = Row(status: Status, streak: nat, until: int)

  datatype Pool = Pool(events: seq<Event>, accounts: map<string, Row>)

  /** FailoverEventStore.Count. */
  function CountEvents(es: seq<Event>, id: string, kind: Kind, since: int): nat {
    if es == [] then 0
    else
      var e := es[|es| - 1];
      CountEvents(es[..|es| - 1], id, kind, since)
      + if e.account == id && e.kind == kind && e.at >= since then 1 else 0
  }

  /** What FailoverEventStore.CountRecentDisables counts. */
  function RecentlyDisabled(es: seq<Event>, since: int): set<string> {
    set e | e in es && (e.reason == ConsecFail || e.reason == Evict) && e.at >= since :: e.account
  }

  predicate GuardOpen(es: seq<Event>, c: Settings, now: int) {
    |RecentlyDisabled(es, now - c.outageWindow)| < c.outageLimit
  }

  /** The rows that disabling writes; a plain failure never carries reason and status like these. */
  predicate IsDisable(e: Event) {
    e.kind == Failure && (e.reason == Evict || (e.reason == ConsecFail && e.httpStatus == 0))
  }

  function FailureEvent(id: string, httpStatus: int, now: int): Event {
    Event(id, Failure,
          if httpStatus == 401 then AuthFailed else if httpStatus == 0 then Network else ConsecFail,
          httpStatus, now)
  }

  function ThrottleEvent(id: string, risk: bool, now: int): Event {
    Event(id, Throttle, if risk then RiskMarker else Throttled, 429, now)
  }

  function AfterDisable(p: Pool, id: string, reason: Reason, now: int): Pool {
    p.(events := p.events + [Event(id, Failure, reason, 0, now)],
       accounts := if id in p.accounts
                   then p.accounts[id := p.accounts[id].(status := Disabled, streak := p.accounts[id].streak + 1)]
                   else p.accounts)
  }

  function AfterFailure(p: Pool, c: Settings, id: string, httpStatus: int, now: int): Pool {
    if id == "" || !c.enabled || !c.consecEnabled then p
    else
      var logged := p.(events := p.events + [FailureEvent(id, httpStatus, now)]);
      if id !in p.accounts then logged
      else
        var row := p.accounts[id].(streak := p.accounts[id].streak + 1);
        var bumped := logged.(accounts := p.accounts[id := row]);
        if row.streak >= c.failLimit && GuardOpen(bumped.events, c, now)
        then AfterDisable(bumped, id, ConsecFail, now)
        else bumped
  }

  /** The cooldown and, at the top of the ladder, the eviction. */
  function AfterCooldown(p: Pool, c: Settings, id: string, now: int): Pool {
    if id !in p.accounts then p
    else
      var row := p.accounts[id].(status := CoolingDown, until := now + c.cooldown);
      var cooled := p.(accounts := p.accounts[id := row]);
      if CountEvents(p.events, id, Blacklist, now - c.evictWindow) >= c.evictCount && GuardOpen(p.events, c, now)
      then AfterDisable(cooled, id, Evict, now)
      else cooled
  }

  function AfterThrottle(p: Pool, c: Settings, id: string, risk: bool, now: int): Pool {
    if id == "" || !c.enabled || !c.throttleEnabled then p
    else
      var logged := p.(events := p.events + [ThrottleEvent(id, risk, now)]);
      if CountEvents(logged.events, id, Throttle, now - c.judgeWindow) < c.judgeCount then logged
      else
        AfterCooldown(logged.(events := logged.events + [Event(id, Blacklist, Throttled, 429, now)]), c, id, now)
  }

  function AfterSuccess(p: Pool, id: string): Pool {
    if id != "" && id in p.accounts
    then p.(accounts := p.accounts[id := p.accounts[id].(streak := 0)])
    else p
  }

  /** The controller with its stores. A call sees one clock reading. */
  class Controller {
    const global: Option<Settings>
    const fallback: int
    const overrides: map<string, Override>
    var events: seq<Event>
    var accounts: map<string, Row>

    constructor (global: Option<Settings>, fallback: int, overrides: map<string, Override>, p: Pool)
      ensures Contents() == p
      ensures this.global == global && this.fallback == fallback && this.overrides == overrides
    {
      this.global, this.fallback, this.overrides := global, fallback, overrides;
      events, accounts := p.events, p.accounts;
    }

    ghost function Contents(): Pool
      reads this
    {
      Pool(events, accounts)
    }

    function SettingsOf(id: string): Settings {
      Resolved(global, fallback, if id != "" && id in overrides then Some(overrides[id]) else None)
    }

    method ResolveFor(id: string) returns (c: Settings)
      ensures c == SettingsOf(id) && Usable(c)
    {
      c := Resolve(global, fallback, if id != "" && id in overrides then Some(overrides[id]) else None);
    }

    method RecordSuccess(id: string)
      modifies this
      ensures Contents() == AfterSuccess(old(Contents()), id)
    {
      if id != "" && id in accounts {
        accounts := accounts[id := accounts[id].(streak := 0)];
      }
    }

    method RecordFailure(id: string, httpStatus: int, now: int)
      modifies this
      ensures Contents() == AfterFailure(old(Contents()), SettingsOf(id), id, httpStatus, now)
    {
      if id == "" { return; }
      var c := ResolveFor(id);
      if !c.enabled || !c.consecEnabled { return; }
      var reason := ConsecFail;
      if httpStatus == 401 { reason := AuthFailed; } else if httpStatus == 0 { reason := Network; }
      events := events + [Event(id, Failure, reason, httpStatus, now)];
      if id !in accounts { return; }
      var streak := accounts[id].streak + 1;
      accounts := accounts[id := accounts[id].(streak := streak)];
      if streak < c.failLimit { return; }
      var tripped := OutageGuardTripped(c, now);
      if tripped { return; }
      Disable(id, ConsecFail, now);
    }

    method RecordThrottle(id: string, risk: bool, now: int)
      modifies this
      ensures Contents() == AfterThrottle(old(Contents()), SettingsOf(id), id, risk, now)
    {
      if id == "" { return; }
      var c := ResolveFor(id);
      if !c.enabled || !c.throttleEnabled { return; }
      var reason := if risk then RiskMarker else Throttled;
      events := events + [Event(id, Throttle, reason, 429, now)];
      if CountEvents(events, id, Throttle, now - c.judgeWindow) < c.judgeCount { return; }
      events := events + [Event(id, Blacklist, Throttled, 429, now)];
      CoolDown(c, id, now);
    }

    method CoolDown(c: Settings, id: string, now: int)
      modifies this
      ensures Contents() == AfterCooldown(old(Contents()), c, id, now)
    {
      if id !in accounts { return; }
      accounts := accounts[id := accounts[id].(status := CoolingDown, until := now + c.cooldown)];
      if CountEvents(events, id, Blacklist, now - c.evictWindow) < c.evictCount { return; }
      var tripped := OutageGuardTripped(c, now);
      if tripped { return; }
      Disable(id, Evict, now);
    }

    method OutageGuardTripped(c: Settings, now: int) returns (tripped: bool)
      ensures tripped == !GuardOpen(events, c, now)
    {
      tripped := |RecentlyDisabled(events, now - c.outageWindow)| >= c.outageLimit;
    }

    method Disable(id: string, reason: Reason, now: int)
      modifies this
      ensures Contents() == AfterDisable(old(Contents()), id, reason, now)
    {
      events := events + [Event(id, Failure, reason, 0, now)];
      if id in accounts {
        accounts := accounts[id := accounts[id].(status := Disabled, streak := accounts[id].streak + 1)];
      }
    }
  }

  // ---------------------------------------------------------------- lemmas

  /** No override moves the outage guard, and no setting resolves to zero or less. */
  lemma OverridesLeaveTheGuard(global: Option<Settings>, fallback: int, row: Option<Override>)
    ensures Resolved(global, fallback, row).outageWindow == Resolved(global, fallback, None).outageWindow
    ensures Resolved(global, fallback, row).outageLimit == Resolved(global, fallback, None).outageLimit
    ensures Usable(Resolved(global, fallback, row))
  {}

  /** The first positive of these candidates. */
  ghost predicate FirstPositive(x: int, candidates: seq<int>) {
    exists i :: 0 <= i < |candidates| && candidates[i] == x > 0 && forall j :: 0 <= j < i ==> candidates[j] <= 0
  }

  function Given(o: Option<int>): int { if o == None then 0 else o.value }

  lemma PositiveIsFirst(x: int, rest: seq<int>, y: int)
    requires (x > 0 && y == x) || (x <= 0 && FirstPositive(y, rest))
    ensures FirstPositive(y, [x] + rest)
  {
    if x > 0 {
      assert ([x] + rest)[0] == y;
    } else {
      var i :| 0 <= i < |rest| && rest[i] == y > 0 && forall j :: 0 <= j < i ==> rest[j] <= 0;
      assert ([x] + rest)[i + 1] == y;
    }
  }

  /** One setting: the account's own value if positive, else the global one, else the fallback, else
      the constant. */
  lemma SettingIsFirst(o: Option<int>, g: int, f: int, d: int)
    requires d > 0
    ensures FirstPositive(Overriding(o, Positive(g, d)), [Given(o), g, d])
    ensures FirstPositive(Overriding(o, Positive(g, Positive(f, d))), [Given(o), g, f, d])
    ensures FirstPositive(Positive(g, d), [g, d])
  {
    assert [d][0] == d;
    assert FirstPositive(d, [d]);
    PositiveIsFirst(g, [d], Positive(g, d));
    PositiveIsFirst(f, [d], Positive(f, d));
    assert [f] + [d] == [f, d] && [g] + [d] == [g, d];
    PositiveIsFirst(g, [f, d], Positive(g, Positive(f, d)));
    assert [g] + [f, d] == [g, f, d];
    PositiveIsFirst(Given(o), [g, d], Overriding(o, Positive(g, d)));
    PositiveIsFirst(Given(o), [g, f, d], Overriding(o, Positive(g, Positive(f, d))));
    assert [Given(o)] + [g, d] == [Given(o), g, d] && [Given(o)] + [g, f, d] == [Given(o), g, f, d];
  }

  /** Every setting from its sources, in order of precedence. */
  lemma SettingsComeFrom(g: Settings, fallback: int, o: Override)
    ensures var c := Resolved(Some(g), fallback, Some(o));
            && FirstPositive(c.failLimit, [Given(o.failLimit), g.failLimit, fallback, 3])
            && FirstPositive(c.judgeWindow, [Given(o.judgeWindow), g.judgeWindow, 60])
            && FirstPositive(c.judgeCount, [Given(o.judgeCount), g.judgeCount, 5])
            && FirstPositive(c.cooldown, [Given(o.cooldown), g.cooldown, 600])
            && FirstPositive(c.evictWindow, [Given(o.evictWindow), g.evictWindow, 3600])
            && FirstPositive(c.evictCount, [Given(o.evictCount), g.evictCount, 3])
            && FirstPositive(c.outageWindow, [g.outageWindow, 30]) && FirstPositive(c.outageLimit, [g.outageLimit, 3])
            && (o.enabled.Some? ==> c.enabled == o.enabled.value) && (o.enabled == None ==> c.enabled == g.enabled)
            && c.consecEnabled == g.consecEnabled && c.throttleEnabled == g.throttleEnabled
  {
    SettingIsFirst(o.failLimit, g.failLimit, fallback, 3);
    SettingIsFirst(o.judgeWindow, g.judgeWindow, 1, 60);
    SettingIsFirst(o.judgeCount, g.judgeCount, 1, 5);
    SettingIsFirst(o.cooldown, g.cooldown, 1, 600);
    SettingIsFirst(o.evictWindow, g.evictWindow, 1, 3600);
    SettingIsFirst(o.evictCount, g.evictCount, 1, 3);
    SettingIsFirst(None, g.outageWindow, 1, 30);
    SettingIsFirst(None, g.outageLimit, 1, 3);
  }

  /** A missing row is one that overrides nothing, and without global settings all but the streak
      mechanism is off and every number is a default. */
  lemma SettingsWithout(global: Option<Settings>, fallback: int, row: Option<Override>)
    ensures row == None ==>
              Resolved(global, fallback, row)
              == Resolved(global, fallback, Some(Override(None, None, None, None, None, None, None)))
    ensures global == None ==>
              Resolved(global, fallback, row)
              == Resolved(Some(Settings(true, false, 0, false, 0, 0, 0, 0, 0, 0, 0)), fallback, row)
  {}

  lemma RecentAppend(es: seq<Event>, e: Event, since: int)
    ensures RecentlyDisabled(es + [e], since) ==
            RecentlyDisabled(es, since)
            + if (e.reason == ConsecFail || e.reason == Evict) && e.at >= since then {e.account} else {}
  {
    var all := es + [e];
    assert forall x :: x in all <==> x in es || x == e;
    assert e in all;
  }

  lemma CountAppend(es: seq<Event>, e: Event, id: string, kind: Kind, since: int)
    ensures CountEvents(es + [e], id, kind, since) ==
            CountEvents(es, id, kind, since) + if e.account == id && e.kind == kind && e.at >= since then 1 else 0
  {
    assert (es + [e])[..|es|] == es;
  }

  /** The accounts other than `id` that the guard counts. */
  function OthersDisabled(es: seq<Event>, id: string, since: int): set<string> {
    RecentlyDisabled(es, since) - {id}
  }

  lemma GuardCounts(es: seq<Event>, id: string, c: Settings, now: int)
    ensures GuardOpen(es, c, now) <==>
            |OthersDisabled(es, id, now - c.outageWindow)|
            + (if id in RecentlyDisabled(es, now - c.outageWindow) then 1 else 0) < c.outageLimit
  {
    SizeWithout(RecentlyDisabled(es, now - c.outageWindow), id);
  }

  lemma SizeWithout<T>(all: set<T>, x: T)
    ensures |all| == |all - {x}| + if x in all then 1 else 0
  {
    if x in all {
      assert all == (all - {x}) + {x};
    } else {
      assert all == all - {x};
    }
  }

  /** The recent disables leave the guard room for one more, counting a failure's own row: other
      accounts, and the account itself unless the row is one that the guard does not count. */
  predicate RoomAfter(es: seq<Event>, c: Settings, id: string, httpStatus: int, now: int) {
    |OthersDisabled(es, id, now - c.outageWindow)|
    + (if (httpStatus != 401 && httpStatus != 0) || id in RecentlyDisabled(es, now - c.outageWindow) then 1 else 0)
    < c.outageLimit
  }

  lemma RecentAfterFailure(es: seq<Event>, id: string, httpStatus: int, now: int, since: int)
    requires since <= now
    ensures RecentlyDisabled(es + [FailureEvent(id, httpStatus, now)], since) ==
            RecentlyDisabled(es, since) + if httpStatus != 401 && httpStatus != 0 then {id} else {}
  {
    RecentAppend(es, FailureEvent(id, httpStatus, now), since);
  }

  lemma GuardAfterFailure(es: seq<Event>, c: Settings, id: string, httpStatus: int, now: int)
    requires Usable(c)
    ensures GuardOpen(es + [FailureEvent(id, httpStatus, now)], c, now) <==> RoomAfter(es, c, id, httpStatus, now)
  {
    var since := now - c.outageWindow;
    var before := RecentlyDisabled(es, since);
    var after := RecentlyDisabled(es + [FailureEvent(id, httpStatus, now)], since);
    RecentAfterFailure(es, id, httpStatus, now, since);
    RoomOf(before, after, id, httpStatus != 401 && httpStatus != 0, c.outageLimit);
    assert OthersDisabled(es, id, since) == before - {id};
  }

  lemma RoomOf(before: set<string>, after: set<string>, id: string, counts: bool, limit: int)
    requires after == before + if counts then {id} else {}
    ensures |after| < limit <==> |before - {id}| + (if counts || id in before then 1 else 0) < limit
  {
    assert after - {id} == before - {id};
    SizeWithout(after, id);
  }

  /** Exactly when a failure disables: the streak is due, and the guard still has room after counting
      the failure's own row. */
  lemma FailureDisablesIff(p: Pool, c: Settings, id: string, httpStatus: int, now: int)
    requires Usable(c) && c.enabled && c.consecEnabled && id != "" && id in p.accounts
    ensures var q := AfterFailure(p, c, id, httpStatus, now);
            if p.accounts[id].streak + 1 >= c.failLimit && RoomAfter(p.events, c, id, httpStatus, now)
            then q.accounts[id].status == Disabled && q.events[|q.events| - 1] == Event(id, Failure, ConsecFail, 0, now)
            else q.accounts[id].status == p.accounts[id].status && |q.events| == |p.events| + 1
  {
    GuardAfterFailure(p.events, c, id, httpStatus, now);
  }

  /** With a limit of one, a failure that carries a status other than 401 trips the guard on its
      own: the account is never disabled, whatever its streak. */
  lemma LimitOneNeverDisables(p: Pool, c: Settings, id: string, httpStatus: int, now: int)
    requires Usable(c) && c.outageLimit == 1 && httpStatus != 401 && httpStatus != 0 && id in p.accounts
    ensures id in AfterFailure(p, c, id, httpStatus, now).accounts
    ensures AfterFailure(p, c, id, httpStatus, now).accounts[id].status == p.accounts[id].status
  {
    if c.enabled && c.consecEnabled && id != "" { FailureDisablesIff(p, c, id, httpStatus, now); }
  }
}
