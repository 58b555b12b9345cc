/** The monthly credit reconciliation: its target month, its threshold, and the alert mute map
    with its pruning. Time is in nanoseconds since 1 January 1970 UTC. */
module CreditRecon {
  import opened Wrappers

  const DAY := 86_400_000_000_000
  const PRUNE := 60 * DAY

  // ---------------------------------------------------------------- the calendar

  // The proleptic Gregorian calendar; division rounds down, so years and months before 1970 are
  // as good as those after.

  predicate Leap(year: int) { year % 4 == 0 && (year % 100 != 0 || year % 400 == 0) }

  function DaysIn(year: int, month: int): (n: int)
    ensures 28 <= n <= 31
  {
    if month == 2 then if Leap(year) then 29 else 28
    else if month == 4 || month == 6 || month == 9 || month == 11 then 30
    else 31
  }

  /** Leap years up to `year`, in the calendar's own count. */
  function LeapsThrough(year: int): int { year / 4 - year / 100 + year / 400 }

  /** The day, counted from 1 January 1970, on which a year begins. */
  function YearStart(year: int): int { 365 * (year - 1970) + LeapsThrough(year - 1) - LeapsThrough(1969) }

  /** Days of the year before its month k + 1; from March on, five months take 153 days. */
  function DaysBefore(year: int, k: int): int {
    if k < 2 then 31 * k else 59 + (if Leap(year) then 1 else 0) + (153 * (k - 2) + 2) / 5
  }

  /** Months are numbered from January 1970. */
  function MonthLength(m: int): int { DaysIn(1970 + m / 12, m % 12 + 1) }

  /** The day on which a month begins. */
  function MonthStart(m: int): int { YearStart(1970 + m / 12) + DaysBefore(1970 + m / 12, m % 12) }

  lemma YearLength(year: int)
    ensures YearStart(year + 1) == YearStart(year) + if Leap(year) then 366 else 365
  {
    Multiples(year, 4);
    Multiples(year, 100);
    Multiples(year, 400);
  }

  lemma Multiples(y: int, d: int)
    requires d == 4 || d == 100 || d == 400
    ensures y / d - (y - 1) / d == if y % d == 0 then 1 else 0
  {}

  lemma NextInYear(year: int, k: int)
    requires 0 <= k < 12
    ensures DaysBefore(year, k) + DaysIn(year, k + 1) ==
            if k < 11 then DaysBefore(year, k + 1) else if Leap(year) then 366 else 365
  {}

  /** Months follow one another without gap or overlap, across the turn of the year as well. */
  lemma NextMonth(m: int)
    ensures MonthStart(m + 1) == MonthStart(m) + MonthLength(m)
  {
    var year := 1970 + m / 12;
    NextInYear(year, m % 12);
    if m % 12 == 11 {
      assert (m + 1) / 12 == m / 12 + 1 && (m + 1) % 12 == 0;
      YearLength(year);
    } else {
      assert (m + 1) / 12 == m / 12 && (m + 1) % 12 == m % 12 + 1;
    }
  }

  // ---------------------------------------------------------------- the month of a day

  /** f counts like the first days of months. */
  ghost predicate Climbs(f: int -> int) { forall m, n :: n == m + 1 ==> f(m) < f(n) <= f(m) + 31 }

  /** The m with f(m) <= x < f(m + 1), searching forward or backward. */
  function SearchUp(f: int -> int, x: int, m: int): (n: int)
    requires Climbs(f) && f(m) <= x
    ensures f(n) <= x < f(n + 1)
    decreases x - f(m)
  {
    if x < f(m + 1) then m else SearchUp(f, x, m + 1)
  }

  function SearchDown(f: int -> int, x: int, m: int): (n: int)
    requires Climbs(f) && x < f(m)
    ensures f(n) <= x < f(n + 1)
    decreases f(m) - x
  {
    if f(m - 1) <= x then m - 1 else SearchDown(f, x, m - 1)
  }

  function Search(f: int -> int, x: int): (n: int)
    requires Climbs(f)
    ensures f(n) <= x < f(n + 1)
  {
    if f(0) <= x then SearchUp(f, x, 0) else SearchDown(f, x, 0)
  }

  lemma {:induction false} ClimbsFar(f: int -> int, m: int, n: int)
    requires Climbs(f) && m <= n
    ensures f(m) <= f(n)
    decreases n - m
  {
    if m < n { ClimbsFar(f, m, n - 1); }
  }

  lemma SearchIff(f: int -> int, x: int, m: int)
    requires Climbs(f)
    ensures Search(f, x) == m <==> f(m) <= x < f(m + 1)
  {
    var k := Search(f, x);
    if k < m { ClimbsFar(f, k + 1, m); }
    if m < k { ClimbsFar(f, m + 1, k); }
  }

  /** The day before the first is in the month before; any other day's is in the same month. */
  lemma SearchDayBefore(f: int -> int, x: int)
    requires Climbs(f)
    ensures var k := Search(f, x); Search(f, x - 1) == if x == f(k) then k - 1 else k
  {
    var k := Search(f, x);
    SearchIff(f, x - 1, if x == f(k) then k - 1 else k);
  }

  lemma SearchIsClose(f: int -> int, x: int, y: int)
    requires Climbs(f) && Search(f, x) == Search(f, y)
    ensures y - x <= 30
  {}

  lemma MonthsClimb()
    ensures Climbs(MonthStart)
  {
    forall m, n | n == m + 1 ensures MonthStart(m) < MonthStart(n) <= MonthStart(m) + 31 { NextMonth(m); }
  }

  function MonthOf(day: int): int {
    MonthsClimb();
    Search(MonthStart, day)
  }

  /** Each day is in one month, the one that MonthOf finds. */
  lemma MonthOfIff(day: int, m: int)
    ensures MonthOf(day) == m <==> MonthStart(m) <= day < MonthStart(m + 1)
  {
    MonthsClimb();
    SearchIff(MonthStart, day, m);
  }

  // ---------------------------------------------------------------- the target window

  /** The month reconciled by a pass that starts at `now`: that of a day earlier. */
  function TargetMonth(now: int): int { MonthOf((now - DAY) / DAY) }

  method TargetWindow(now: int) returns (start: int, end: int)
    ensures start == MonthStart(TargetMonth(now)) * DAY && end == MonthStart(TargetMonth(now) + 1) * DAY
  {
    var ref := now - DAY;
    var m := MonthOf(ref / DAY);
    start := MonthStart(m) * DAY;
    end := MonthStart(m + 1) * DAY;
  }

  lemma DayEarlier(now: int)
    ensures (now - DAY) / DAY == now / DAY - 1 && now / DAY * DAY <= now < now / DAY * DAY + DAY
  {}

  lemma MonthOfDayBefore(day: int)
    ensures MonthOf(day - 1) == if day == MonthStart(MonthOf(day)) then MonthOf(day) - 1 else MonthOf(day)
  {
    MonthsClimb();
    SearchDayBefore(MonthStart, day);
  }

  /** A month's first and last instants. */
  predicate Covers(m: int, now: int) { MonthStart(m) * DAY <= now < MonthStart(m + 1) * DAY }

  lemma CoversIff(m: int, now: int)
    ensures Covers(m, now) <==> MonthOf(now / DAY) == m
  {
    MonthOfIff(now / DAY, m);
    DayReached(MonthStart(m), now);
    DayReached(MonthStart(m + 1), now);
  }

  lemma DayReached(day: int, now: int)
    ensures day * DAY <= now <==> day <= now / DAY
  {
    DayEarlier(now);
  }

  /** On the first of a month the window is the whole month just ended; on any other day it is the
      month under way. */
  lemma WindowIsClosedOnTheFirst(now: int)
    ensures var k := MonthOf(now / DAY);
            Covers(k, now)
            && TargetMonth(now) == if now / DAY == MonthStart(k) then k - 1 else k
  {
    CoversIff(MonthOf(now / DAY), now);
    MonthOfDayBefore(now / DAY);
    DayEarlier(now);
  }

  /** Passes that target the same month start less than 31 days apart. */
  lemma SameTargetIsClose(a: int, b: int)
    requires a <= b && TargetMonth(a) == TargetMonth(b)
    ensures b - a < 31 * DAY
  {
    MonthsClimb();
    SearchIsClose(MonthStart, (a - DAY) / DAY, (b - DAY) / DAY);
  }

  // ---------------------------------------------------------------- the mute map

  /** "accountID|YYYY-MM". */
  datatype Key = Key(account: string, month: int)

  function AfterReserve(m: map<Key, int>, k: Key, now: int): map<Key, int> {
    if k in m then m else (map x | x in m && now - m[x] < PRUNE :: m[x])[k := now]
  }

  datatype Settings = Settings(floorCredits: int, relative: real)

  /** max(floor, a share of the upstream total), in hundredths. */
  function Threshold(c: Settings, upstream: int): int {
    var floor := c.floorCredits * 100;
    if upstream <= 0 then floor
    else
      var share := Trunc(upstream as real * c.relative);
      if share > floor then share else floor
  }

  predicate Diverges(c: Settings, spent: int, local: int) {
    var diff := spent * 100 - local;
    diff > Threshold(c, spent * 100) || -diff > Threshold(c, spent * 100)
  }

  class Reconciler {
    const settings: Settings
    var muted: map<Key, int>

    constructor (settings: Settings)
      ensures this.settings == settings && muted == map[]
    {
      this.settings, muted := settings, map[];
    }

    method ReserveAlert(key: Key, now: int) returns (fired: bool)
      modifies this
      ensures fired == (key !in old(muted))
      ensures muted == AfterReserve(old(muted), key, now)
    {
      if key in muted { return false; }
      var was, unseen := muted, muted.Keys;
      while unseen != {}
        invariant unseen <= was.Keys
        invariant muted == map x | x in was && (x in unseen || now - was[x] < PRUNE) :: was[x]
        decreases |unseen|
      {
        var k :| k in unseen;
        unseen := unseen - {k};
        if now - was[k] >= PRUNE { muted := muted - {k}; }
      }
      muted := muted[key := now];
      return true;
    }

    /** `passStart` fixed the month; `now` is read under the lock. */
    method ReconOne(account: string, passStart: int, now: int, spent: int, local: int) returns (alerted: bool)
      modifies this
      ensures alerted == (Diverges(settings, spent, local) && Key(account, TargetMonth(passStart)) !in old(muted))
      ensures muted == if Diverges(settings, spent, local)
                       then AfterReserve(old(muted), Key(account, TargetMonth(passStart)), now) else old(muted)
    {
      var upstream := spent * 100;
      var diff := upstream - local;
      if diff < 0 { diff := -diff; }
      if diff <= Threshold(settings, upstream) { return false; }
      alerted := ReserveAlert(Key(account, TargetMonth(passStart)), now);
    }
  }

  /** A pass is silent exactly when the local sum is within the threshold of the upstream total,
      which the local sum cannot widen: every local sum beyond some bound is reported. */
  lemma SilentIffWithinThreshold(c: Settings, spent: int, local: int)
    requires c.floorCredits >= 0
    ensures var u := spent * 100; var t := Threshold(c, u);
            t >= 100 * c.floorCredits && (!Diverges(c, spent, local) <==> u - t <= local <= u + t)
  {}

  /** The threshold is the larger of two amounts: the floor in hundredths, and the share of a positive
      upstream total, cut off. */
  lemma ThresholdIsLarger(c: Settings, upstream: int, exact: real, share: int)
    requires exact == upstream as real * c.relative && CutsOff(exact, share)
    ensures var t := Threshold(c, upstream);
            && t >= 100 * c.floorCredits
            && (upstream > 0 ==> t >= share && (t == share || t == 100 * c.floorCredits))
            && (upstream <= 0 ==> t == 100 * c.floorCredits)
  {
    CutOff(exact, share);
    if upstream > 0 { ShareOf(c, upstream, exact); }
  }

  lemma ShareOf(c: Settings, upstream: int, exact: real)
    requires upstream > 0 && exact == upstream as real * c.relative
    ensures Threshold(c, upstream) == if Trunc(exact) > c.floorCredits * 100 then Trunc(exact) else c.floorCredits * 100
  {}

  /** n is x without its fraction. */
  predicate CutsOff(x: real, n: int) {
    if x >= 0.0 then n as real <= x < n as real + 1.0 else n as real - 1.0 < x <= n as real
  }

  lemma CutOff(x: real, n: int)
    requires CutsOff(x, n)
    ensures Trunc(x) == n
  {}

  // ---------------------------------------------------------------- runs

  /** One call of ReserveAlert. */
  datatype Reservation = Reservation(key: Key, at: int)

  function MutedAfter(rs: seq<Reservation>): map<Key, int> {
    if rs == [] then map[]
    else AfterReserve(MutedAfter(rs[..|rs| - 1]), rs[|rs| - 1].key, rs[|rs| - 1].at)
  }

  predicate Alerts(rs: seq<Reservation>, i: nat)
    requires i < |rs|
  {
    rs[i].key !in MutedAfter(rs[..i])
  }

  predicate InOrder(rs: seq<Reservation>) { forall i, j :: 0 <= i < j < |rs| ==> rs[i].at <= rs[j].at }

  /** An alert that has fired is remembered, unless it is 60 days old. */
  lemma {:induction false} AlertIsRemembered(rs: seq<Reservation>, i: nat)
    requires InOrder(rs) && i < |rs| && Alerts(rs, i)
    ensures rs[|rs| - 1].at - rs[i].at >= PRUNE
            || (rs[i].key in MutedAfter(rs) && MutedAfter(rs)[rs[i].key] == rs[i].at)
  {
    var n := |rs| - 1;
    if i == n {
      assert rs[..n] == rs[..i];
    } else {
      var init := rs[..n];
      assert init[..i] == rs[..i];
      AlertIsRemembered(init, i);
      assert init[|init| - 1].at <= rs[n].at;
    }
  }

  /** Two alerts for one key are 60 days apart. */
  lemma AlertsAreApart(rs: seq<Reservation>, i: nat, j: nat)
    requires InOrder(rs) && i < j < |rs| && rs[i].key == rs[j].key && Alerts(rs, i) && Alerts(rs, j)
    ensures rs[j].at - rs[i].at >= PRUNE
  {
    var before := rs[..j];
    assert before[..i] == rs[..i];
    AlertIsRemembered(before, i);
    assert before[|before| - 1].at <= rs[j].at;
  }

  ghost predicate OncePerKey(rs: seq<Reservation>) {
    forall i, j :: 0 <= i < j < |rs| && rs[i].key == rs[j].key ==> !(Alerts(rs, i) && Alerts(rs, j))
  }

  /** One divergence that reaches the mute map. Passes may overlap. */
  datatype Report = Report(account: string, passStart: int, at: int)

  function Reserving(r: Report): Reservation { Reservation(Key(r.account, TargetMonth(r.passStart)), r.at) }

  /** A nondecreasing clock, and passes shorter than `bound`. */
  predicate Timely(rs: seq<Report>, bound: int) {
    && (forall i :: 0 <= i < |rs| ==> rs[i].passStart <= rs[i].at < rs[i].passStart + bound)
    && (forall i, j :: 0 <= i < j < |rs| ==> rs[i].at <= rs[j].at)
  }

  /** No account is alerted twice for one month. */
  ghost predicate AlertsOnce(reports: seq<Report>) { OncePerKey(Apply(Reserving, reports)) }

  const LONGEST := 29 * DAY + 1

  lemma NoSecondAlert(reports: seq<Report>)
    requires Timely(reports, LONGEST)
    ensures AlertsOnce(reports)
  {
    var rs := Apply(Reserving, reports);
    forall i, j | 0 <= i < j < |rs| && rs[i].key == rs[j].key ensures !(Alerts(rs, i) && Alerts(rs, j)) {
      CloseInTime(reports[i], reports[j]);
      if Alerts(rs, i) && Alerts(rs, j) { AlertsAreApart(rs, i, j); }
    }
  }

  lemma CloseInTime(r: Report, q: Report)
    requires TargetMonth(r.passStart) == TargetMonth(q.passStart)
    requires r.passStart <= r.at && q.passStart <= q.at < q.passStart + LONGEST
    ensures q.at - r.at < PRUNE
  {
    if r.passStart <= q.passStart { SameTargetIsClose(r.passStart, q.passStart); }
  }

  /** One nanosecond more: an alert at the first instant of a month's passes, another account's
      alert 60 days on, and the end of a pass begun at the last instant for the same month. */
  function LateRun(a: string, b: string): seq<Report> {
    [Report(a, DAY, DAY), Report(b, 61 * DAY, 61 * DAY), Report(a, 32 * DAY - 1, 61 * DAY)]
  }

  lemma January1970()
    ensures MonthStart(0) == 0 && MonthStart(1) == 31
  {
    assert YearStart(1970) == 0;
    assert MonthStart(0) == YearStart(1970) + DaysBefore(1970, 0);
    NextMonth(0);
  }

  lemma FirstMonth(now: int)
    requires DAY <= now < 32 * DAY
    ensures TargetMonth(now) == 0
  {
    January1970();
    MonthOfIff((now - DAY) / DAY, 0);
  }

  lemma LateRunKeys(a: string, b: string)
    requires a != b
    ensures var rs := Apply(Reserving, LateRun(a, b)); rs[0].key == rs[2].key != rs[1].key
  {
    var late := LateRun(a, b);
    FirstMonth(late[0].passStart);
    FirstMonth(late[2].passStart);
  }

  lemma LateRunIsTimely(a: string, b: string)
    ensures Timely(LateRun(a, b), LONGEST + 1)
  {}

  lemma LateRunAlertsTwice(a: string, b: string)
    requires a != b
    ensures !AlertsOnce(LateRun(a, b))
  {
    LateRunKeys(a, b);
    ForgottenAlert(Apply(Reserving, LateRun(a, b)));
  }

  lemma ForgottenAlert(rs: seq<Reservation>)
    requires |rs| == 3 && rs[0].key == rs[2].key != rs[1].key && rs[1].at - rs[0].at >= PRUNE
    ensures !OncePerKey(rs)
  {
    var one, two := rs[..1], rs[..2];
    assert rs[..0] == [] && one[..0] == [] && two[..1] == one;
    assert MutedAfter(one) == AfterReserve(map[], rs[0].key, rs[0].at);
    assert MutedAfter(two) == AfterReserve(MutedAfter(one), rs[1].key, rs[1].at);
    assert Alerts(rs, 0) && Alerts(rs, 2);
  }

  lemma TimelyLonger(rs: seq<Report>, bound: int, longer: int)
    requires Timely(rs, bound) && bound <= longer
    ensures Timely(rs, longer)
  {}

  /** Exactly how long a pass may take: with a nondecreasing clock, and passes that may overlap, no
      run of passes shorter than `bound` alerts an account twice for one month if and only if the
      bound is at most 29 days and a nanosecond. */
  lemma AlertsOnceIff(bound: int)
    ensures bound <= 29 * DAY + 1 <==> forall rs :: Timely(rs, bound) ==> AlertsOnce(rs)
  {
    if bound <= LONGEST {
      forall rs | Timely(rs, bound) ensures AlertsOnce(rs) {
        TimelyLonger(rs, bound, LONGEST);
        NoSecondAlert(rs);
      }
    } else {
      LateRunIsTimely("a", "b");
      LateRunAlertsTwice("a", "b");
      TimelyLonger(LateRun("a", "b"), LONGEST + 1, bound);
    }
  }
}
