/** The auto-top-up retry budget: three retries a day per account, then one alert. Reserving a
    retry and raising the alert are two critical sections. Time is in nanoseconds. */
module InvoiceWatch {
  import opened Wrappers

  const BUDGET := 3
  const WINDOW := 86_400_000_000_000

  datatype Window = Window(count: nat, start: int, alerted: bool)

  /** The window that a reservation at `now` draws on. */
  function Current(w: Option<Window>, now: int): Window {
    if w == None || now - w.value.start >= WINDOW then Window(0, now, false) else w.value
  }

  function Spent(w: Window): Window { if w.count >= BUDGET then w else w.(count := w.count + 1) }

  function Lookup(m: map<string, Window>, id: string): Option<Window> {
    if id in m then Some(m[id]) else None
  }

  function AfterReserve(m: map<string, Window>, id: string, now: int): map<string, Window> {
    m[id := Spent(Current(Lookup(m, id), now))]
  }

  /** What alertExhausted finds, or would create. */
  function Alertable(m: map<string, Window>, id: string, now: int): Window {
    if id in m then m[id] else Window(BUDGET, now, false)
  }

  function AfterAlert(m: map<string, Window>, id: string, now: int): map<string, Window> {
    m[id := Alertable(m, id, now).(alerted := true)]
  }

  datatype Outcome = Healthy | Retried | Alerted | Muted

  class Watcher {
    var states: map<string, Window>

    constructor ()
      ensures states == map[]
    {
      states := map[];
    }

    method ReserveRetry(id: string, now: int) returns (ok: bool)
      modifies this
      ensures ok == (Current(Lookup(old(states), id), now).count < BUDGET)
      ensures states == AfterReserve(old(states), id, now)
    {
      var w: Window;
      if id !in states || now - states[id].start >= WINDOW {
        w := Window(0, now, false);
        states := states[id := w];
      } else {
        w := states[id];
      }
      if w.count >= BUDGET { return false; }
      states := states[id := w.(count := w.count + 1)];
      return true;
    }

    method AlertExhausted(id: string, now: int) returns (fired: bool)
      modifies this
      ensures fired == !Alertable(old(states), id, now).alerted
      ensures states == AfterAlert(old(states), id, now)
    {
      if id !in states { states := states[id := Window(BUDGET, now, false)]; }
      if states[id].alerted { return false; }
      states := states[id := states[id].(alerted := true)];
      return true;
    }

    /** One scan of one account, with nothing in between. */
    method WatchOne(id: string, pending: nat, now: int) returns (outcome: Outcome)
      modifies this
      ensures pending == 0 ==> outcome == Healthy && states == old(states)
      ensures pending > 0 ==>
                var w := Current(Lookup(old(states), id), now);
                outcome == (if w.count < BUDGET then Retried else if w.alerted then Muted else Alerted)
                && states == old(states)[id := if w.count < BUDGET
                                               then w.(count := w.count + 1) else w.(alerted := true)]
    {
      if pending == 0 { return Healthy; }
      var ok := ReserveRetry(id, now);
      if ok { return Retried; }
      var fired := AlertExhausted(id, now);
      return if fired then Alerted else Muted;
    }
  }

  // ---------------------------------------------------------------- interleaved runs

  datatype Retry = Retry(id: string, at: int, window: int)
  datatype Alert = Alert(id: string, window: int, count: nat, failedOn: int)
  datatype Waiting = Waiting(id: string, window: int, since: int)  // a call whose reservation failed

  datatype State = State(
    states: map<string, Window>, clock: int, waiting: seq<Waiting>,
    // History.
    retries: seq<Retry>, alerts: seq<Alert>)

  datatype Step =
    | Tick(dt: nat)
    | Reserve(id: string)
    | Raise(caller: nat)

  function Next(s: State, step: Step): State {
    match step
    case Tick(dt) => s.(clock := s.clock + dt)
    case Reserve(id) =>
      var w := Current(Lookup(s.states, id), s.clock);
      var t := s.(states := AfterReserve(s.states, id, s.clock));
      if w.count < BUDGET then t.(retries := s.retries + [Retry(id, s.clock, w.start)])
      else t.(waiting := s.waiting + [Waiting(id, w.start, s.clock)])
    case Raise(i) =>
      if i >= |s.waiting| then s
      else
        var id := s.waiting[i].id;
        var w := Alertable(s.states, id, s.clock);
        s.(states := AfterAlert(s.states, id, s.clock),
           waiting := s.waiting[..i] + s.waiting[i + 1..],
           alerts := if w.alerted then s.alerts else s.alerts + [Alert(id, w.start, w.count, s.waiting[i].window)])
  }

  function Run(s: State, steps: seq<Step>): State
    decreases |steps|
  {
    if steps == [] then s else Run(Next(s, steps[0]), steps[1..])
  }

  function Boot(clock: int): State { State(map[], clock, [], [], []) }

  // ---------------------------------------------------------------- counting

  function Count<T>(p: T -> bool, s: seq<T>): nat {
    if s == [] then 0 else Count(p, s[..|s| - 1]) + if p(s[|s| - 1]) then 1 else 0
  }

  lemma CountSnoc<T>(p: T -> bool, s: seq<T>, x: T)
    ensures Count(p, s + [x]) == Count(p, s) + if p(x) then 1 else 0
  {
    assert (s + [x])[..|s|] == s;
  }

  lemma {:induction false} CountMonotone<T>(p: T -> bool, q: T -> bool, s: seq<T>)
    requires forall x :: x in s && p(x) ==> q(x)
    ensures Count(p, s) <= Count(q, s)
  {
    if s != [] { CountMonotone(p, q, s[..|s| - 1]); }
  }

  lemma {:induction false} CountSplit<T>(p: T -> bool, q: T -> bool, r: T -> bool, s: seq<T>)
    requires forall x :: x in s && p(x) ==> q(x) || r(x)
    ensures Count(p, s) <= Count(q, s) + Count(r, s)
  {
    if s != [] { CountSplit(p, q, r, s[..|s| - 1]); }
  }

  lemma {:induction false} CountNone<T>(p: T -> bool, s: seq<T>)
    requires forall x :: x in s ==> !p(x)
    ensures Count(p, s) == 0
  {
    if s != [] { CountNone(p, s[..|s| - 1]); }
  }

  function OfWindow(id: string, window: int): Retry -> bool { (r: Retry) => r.id == id && r.window == window }
  function AlertOf(id: string, window: int): Alert -> bool { (a: Alert) => a.id == id && a.window == window }
  function Within(id: string, from: int, to: int): Retry -> bool { (r: Retry) => r.id == id && from <= r.at <= to }

  // ---------------------------------------------------------------- invariant

  /** A window on record, at or before the account's latest. */
  ghost predicate Known(s: State, id: string, window: int) {
    id in s.states && (window == s.states[id].start || window + WINDOW <= s.states[id].start)
  }

  ghost predicate Clocked(s: State) {
    forall id :: id in s.states ==> s.states[id].start <= s.clock && s.states[id].count <= BUDGET
  }

  ghost predicate RetriesPlaced(s: State) {
    forall r :: r in s.retries ==> Known(s, r.id, r.window) && r.window <= r.at < r.window + WINDOW
  }

  ghost predicate AlertsPlaced(s: State) { forall a :: a in s.alerts ==> Known(s, a.id, a.window) }

  ghost predicate WaitingPlaced(s: State) {
    forall w :: w in s.waiting ==>
      Known(s, w.id, w.window) && (s.states[w.id].start == w.window ==> s.states[w.id].count == BUDGET)
  }

  ghost predicate Placed(s: State) { Clocked(s) && RetriesPlaced(s) && AlertsPlaced(s) && WaitingPlaced(s) }

  /** The latest window's record is the history's. */
  ghost predicate Counted(s: State) {
    forall id :: id in s.states ==>
      Count(OfWindow(id, s.states[id].start), s.retries) == s.states[id].count
      && Count(AlertOf(id, s.states[id].start), s.alerts) == if s.states[id].alerted then 1 else 0
  }

  ghost predicate Bounded(s: State) {
    forall id, window :: Count(OfWindow(id, window), s.retries) <= BUDGET && Count(AlertOf(id, window), s.alerts) <= 1
  }

  /** Two windows of an account are the same or begin a day apart. */
  ghost predicate Spaced(s: State) {
    forall q, r :: q in s.retries && r in s.retries && q.id == r.id ==>
      q.window == r.window || q.window + WINDOW <= r.window || r.window + WINDOW <= q.window
  }

  ghost predicate Inv(s: State) { Placed(s) && Counted(s) && Bounded(s) && Spaced(s) }

  lemma FreshWindow(s: State, id: string)
    requires Inv(s)
    ensures var w := Current(Lookup(s.states, id), s.clock);
            Count(OfWindow(id, w.start), s.retries) == w.count && w.count <= BUDGET
            && Count(AlertOf(id, w.start), s.alerts) == if w.alerted then 1 else 0
  {
    var w := Current(Lookup(s.states, id), s.clock);
    if id !in s.states || s.clock - s.states[id].start >= WINDOW {
      CountNone(OfWindow(id, w.start), s.retries);
      CountNone(AlertOf(id, w.start), s.alerts);
    }
  }

  /** Windows on record stay on record when the account's window is renewed. */
  lemma KnownStays(s: State, id: string, x: string, window: int)
    requires Clocked(s) && Known(s, x, window)
    ensures Known(Next(s, Reserve(id)), x, window)
  {}

  lemma ReserveKeepsPlaced(s: State, id: string)
    requires Placed(s)
    ensures Placed(Next(s, Reserve(id)))
  {
    var w, t := Current(Lookup(s.states, id), s.clock), Next(s, Reserve(id));
    forall r | r in t.retries ensures Known(t, r.id, r.window) && r.window <= r.at < r.window + WINDOW {
      if r in s.retries { KnownStays(s, id, r.id, r.window); }
    }
    forall a | a in t.alerts ensures Known(t, a.id, a.window) { KnownStays(s, id, a.id, a.window); }
    forall x | x in t.waiting
      ensures Known(t, x.id, x.window) && (t.states[x.id].start == x.window ==> t.states[x.id].count == BUDGET) {
      if x in s.waiting { KnownStays(s, id, x.id, x.window); }
    }
  }

  lemma ReserveKeepsSpaced(s: State, id: string)
    requires Inv(s)
    ensures Spaced(Next(s, Reserve(id)))
  {
    var w, t := Current(Lookup(s.states, id), s.clock), Next(s, Reserve(id));
    if w.count < BUDGET {
      assert forall r :: r in t.retries ==> r in s.retries || r == Retry(id, s.clock, w.start);
    }
  }

  lemma ReserveCounts(s: State, id: string)
    requires Inv(s)
    ensures var w, t := Current(Lookup(s.states, id), s.clock), Next(s, Reserve(id));
            t.alerts == s.alerts
            && forall x, window :: Count(OfWindow(x, window), t.retries) ==
                 Count(OfWindow(x, window), s.retries)
                 + if x == id && window == w.start && w.count < BUDGET then 1 else 0
  {
    var w, t := Current(Lookup(s.states, id), s.clock), Next(s, Reserve(id));
    if w.count < BUDGET {
      var r := Retry(id, s.clock, w.start);
      forall x, window ensures Count(OfWindow(x, window), t.retries) ==
                               Count(OfWindow(x, window), s.retries) + if x == id && window == w.start then 1 else 0 {
        CountSnoc(OfWindow(x, window), s.retries, r);
      }
    }
  }

  lemma ReserveKeepsCounted(s: State, id: string)
    requires Inv(s)
    ensures Counted(Next(s, Reserve(id)))
  {
    var w, t := Current(Lookup(s.states, id), s.clock), Next(s, Reserve(id));
    FreshWindow(s, id);
    ReserveCounts(s, id);
    assert t.states == s.states[id := Spent(w)];
    forall x | x in t.states
      ensures Count(OfWindow(x, t.states[x].start), t.retries) == t.states[x].count
      ensures Count(AlertOf(x, t.states[x].start), t.alerts) == if t.states[x].alerted then 1 else 0 {
      if x != id { assert x in s.states && t.states[x] == s.states[x]; }
    }
  }

  lemma ReserveKeepsBounded(s: State, id: string)
    requires Inv(s)
    ensures Bounded(Next(s, Reserve(id)))
  {
    var w, t := Current(Lookup(s.states, id), s.clock), Next(s, Reserve(id));
    FreshWindow(s, id);
    ReserveCounts(s, id);
    forall x, window
      ensures Count(OfWindow(x, window), t.retries) <= BUDGET && Count(AlertOf(x, window), t.alerts) <= 1 {
      assert Count(OfWindow(x, window), s.retries) <= BUDGET && Count(AlertOf(x, window), s.alerts) <= 1;
    }
  }

  lemma ReserveInv(s: State, id: string)
    requires Inv(s)
    ensures Inv(Next(s, Reserve(id)))
  {
    ReserveKeepsPlaced(s, id);
    ReserveKeepsSpaced(s, id);
    ReserveKeepsCounted(s, id);
    ReserveKeepsBounded(s, id);
  }

  lemma RaiseCounts(s: State, i: nat)
    requires Inv(s) && i < |s.waiting|
    ensures var w, t := s.states[s.waiting[i].id], Next(s, Raise(i));
            s.waiting[i].id in s.states && t.retries == s.retries
            && forall x, window :: Count(AlertOf(x, window), t.alerts) ==
                 Count(AlertOf(x, window), s.alerts)
                 + if x == s.waiting[i].id && window == w.start && !w.alerted then 1 else 0
  {
    assert s.waiting[i] in s.waiting;
    var id, t := s.waiting[i].id, Next(s, Raise(i));
    var w := s.states[id];
    if !w.alerted {
      forall x, window ensures Count(AlertOf(x, window), t.alerts) ==
                               Count(AlertOf(x, window), s.alerts) + if x == id && window == w.start then 1 else 0 {
        CountSnoc(AlertOf(x, window), s.alerts, Alert(id, w.start, w.count, s.waiting[i].window));
      }
    }
  }

  lemma RaiseKeepsPlaced(s: State, i: nat)
    requires Placed(s) && i < |s.waiting|
    ensures Placed(Next(s, Raise(i))) && s.waiting[i].id in s.states
  {
    assert s.waiting[i] in s.waiting;
    var t := Next(s, Raise(i));
    assert forall x, window :: Known(s, x, window) ==> Known(t, x, window);
    assert forall w :: w in t.waiting ==> w in s.waiting;
  }

  lemma RaiseKeepsCounted(s: State, i: nat)
    requires Inv(s) && i < |s.waiting| && s.waiting[i].id in s.states
    ensures Counted(Next(s, Raise(i)))
  {
    RaiseCounts(s, i);
    var t := Next(s, Raise(i));
    var id := s.waiting[i].id;
    assert t.states == s.states[id := s.states[id].(alerted := true)];
    forall x | x in t.states
      ensures Count(OfWindow(x, t.states[x].start), t.retries) == t.states[x].count
      ensures Count(AlertOf(x, t.states[x].start), t.alerts) == if t.states[x].alerted then 1 else 0 {
      assert x in s.states && t.states[x].start == s.states[x].start && t.states[x].count == s.states[x].count;
      assert x != id ==> t.states[x] == s.states[x];
    }
  }

  lemma RaiseKeepsBounded(s: State, i: nat)
    requires Inv(s) && i < |s.waiting| && s.waiting[i].id in s.states
    ensures Bounded(Next(s, Raise(i)))
  {
    RaiseCounts(s, i);
    var t := Next(s, Raise(i));
    forall x, window
      ensures Count(OfWindow(x, window), t.retries) <= BUDGET && Count(AlertOf(x, window), t.alerts) <= 1 {
      assert Count(OfWindow(x, window), s.retries) <= BUDGET && Count(AlertOf(x, window), s.alerts) <= 1;
    }
  }

  lemma RaiseInv(s: State, i: nat)
    requires Inv(s)
    ensures Inv(Next(s, Raise(i)))
  {
    if i < |s.waiting| {
      RaiseKeepsPlaced(s, i);
      RaiseKeepsCounted(s, i);
      RaiseKeepsBounded(s, i);
    }
  }

  lemma StepInv(s: State, step: Step)
    requires Inv(s)
    ensures Inv(Next(s, step))
  {
    match step
    case Tick(_) =>
    case Reserve(id) => ReserveInv(s, id);
    case Raise(i) => RaiseInv(s, i);
  }

  lemma {:induction false} RunInv(s: State, steps: seq<Step>)
    requires Inv(s)
    ensures Inv(Run(s, steps))
    decreases |steps|
  {
    if steps != [] {
      StepInv(s, steps[0]);
      RunInv(Next(s, steps[0]), steps[1..]);
    }
  }

  lemma BootInv(clock: int)
    ensures Inv(Boot(clock))
  {}

  // ---------------------------------------------------------------- budgets

  /** Every window of every account gets at most three retries and one alert, in any interleaving. */
  lemma WindowsAreBudgeted(clock: int, steps: seq<Step>, id: string, window: int)
    ensures var s := Run(Boot(clock), steps);
            Count(OfWindow(id, window), s.retries) <= 3 && Count(AlertOf(id, window), s.alerts) <= 1
  {
    BootInv(clock);
    RunInv(Boot(clock), steps);
  }

  function Drawn(id: string, from: int, to: int): Retry -> bool {
    (r: Retry) => r.id == id && from <= r.window < to
  }

  /** Windows that begin within a day of each other are the same. */
  lemma OneWindowADay(s: State, id: string, from: int)
    requires Inv(s)
    ensures Count(Drawn(id, from, from + WINDOW), s.retries) <= BUDGET
  {
    var p := Drawn(id, from, from + WINDOW);
    if r :| r in s.retries && p(r) {
      CountMonotone(p, OfWindow(id, r.window), s.retries);
    } else {
      CountNone(p, s.retries);
    }
  }

  /** At most six retries in any interval of 24 hours, ends included. */
  lemma SixADay(clock: int, steps: seq<Step>, id: string, from: int)
    ensures Count(Within(id, from, from + 24 * 3600 * 1_000_000_000), Run(Boot(clock), steps).retries) <= 6
  {
    BootInv(clock);
    RunInv(Boot(clock), steps);
    var s := Run(Boot(clock), steps);
    var low, high := from - WINDOW + 1, from + 1;
    OneWindowADay(s, id, low);
    OneWindowADay(s, id, high);
    CountSplit(Within(id, from, from + WINDOW), Drawn(id, low, low + WINDOW), Drawn(id, high, high + WINDOW),
               s.retries);
  }

  // ---------------------------------------------------------------- what an alert means

  lemma RefusedReserve(s: State, id: string)
    requires Inv(s)
    ensures var w, t := Current(Lookup(s.states, id), s.clock), Next(s, Reserve(id));
            t.alerts == s.alerts && t.clock == s.clock
            && if w.count < BUDGET then t.waiting == s.waiting
               else w.count == BUDGET && t.waiting == s.waiting + [Waiting(id, w.start, s.clock)]
                    && t.retries == s.retries && t.states == s.states[id := w]
  {
    FreshWindow(s, id);
  }

  /** An alert on a window whose three retries are on record. */
  ghost predicate Due(s: State, a: Alert) {
    a.count == BUDGET && Count(OfWindow(a.id, a.window), s.retries) == BUDGET
  }

  ghost predicate AllDue(s: State) { forall a :: a in s.alerts ==> Due(s, a) }

  /** The account is still in the window on which the call failed. */
  predicate Holds(s: State, w: Waiting) {
    w.id in s.states && s.states[w.id].start == w.window && s.states[w.id].count == BUDGET
  }

  lemma ReserveKeepsDue(s: State, id: string)
    requires Inv(s) && AllDue(s)
    ensures AllDue(Next(s, Reserve(id)))
  {
    var t := Next(s, Reserve(id));
    ReserveCounts(s, id);
    ReserveKeepsBounded(s, id);
    forall a | a in t.alerts ensures Due(t, a) { assert Due(s, a); }
  }

  lemma RaiseKeepsDue(s: State, i: nat)
    requires Inv(s) && AllDue(s) && i < |s.waiting| && Holds(s, s.waiting[i])
    ensures AllDue(Next(s, Raise(i)))
  {
    var t := Next(s, Raise(i));
    forall a | a in t.alerts ensures Due(t, a) {
      if a in s.alerts { assert Due(s, a); }
    }
  }

  // ---------------------------------------------------------------- one scan of an account at a time

  /** No scan of an account begins while another scan of it has its alert to raise. Scans of
      different accounts may overlap as they like. */
  predicate NoOverlap(s: State, steps: seq<Step>)
    decreases |steps|
  {
    steps == []
    || ((steps[0].Reserve? ==> forall i :: 0 <= i < |s.waiting| ==> s.waiting[i].id != steps[0].id)
        && NoOverlap(Next(s, steps[0]), steps[1..]))
  }

  ghost predicate AllHold(s: State) { forall w :: w in s.waiting ==> Holds(s, w) }

  lemma ReserveKeepsHolding(s: State, id: string)
    requires Inv(s) && AllHold(s) && forall i :: 0 <= i < |s.waiting| ==> s.waiting[i].id != id
    ensures AllHold(Next(s, Reserve(id)))
  {
    var t := Next(s, Reserve(id));
    RefusedReserve(s, id);
    forall w | w in t.waiting ensures Holds(t, w) {
      if w in s.waiting { assert Holds(s, w) && w.id != id; }
    }
  }

  lemma RaiseKeepsHolding(s: State, i: nat)
    requires AllHold(s) && i < |s.waiting|
    ensures Holds(s, s.waiting[i]) && AllHold(Next(s, Raise(i)))
  {
    assert s.waiting[i] in s.waiting;
    var t := Next(s, Raise(i));
    forall w | w in t.waiting ensures Holds(t, w) { assert w in s.waiting; }
  }

  lemma {:induction false} RunIsDue(s: State, steps: seq<Step>)
    requires Inv(s) && AllHold(s) && AllDue(s) && NoOverlap(s, steps)
    ensures AllDue(Run(s, steps))
    decreases |steps|
  {
    if steps != [] {
      StepInv(s, steps[0]);
      match steps[0] {
        case Tick(_) =>
        case Reserve(id) => ReserveKeepsHolding(s, id); ReserveKeepsDue(s, id);
        case Raise(i) => if i < |s.waiting| { RaiseKeepsHolding(s, i); RaiseKeepsDue(s, i); }
      }
      RunIsDue(Next(s, steps[0]), steps[1..]);
    }
  }

  /** If scans of one account do not overlap, every alert of the run is for a window whose three
      retries are on record, however long a scan takes and whatever other accounts do. */
  lemma SerialAlertsAreDue(clock: int, steps: seq<Step>)
    requires NoOverlap(Boot(clock), steps)
    ensures AllDue(Run(Boot(clock), steps))
  {
    BootInv(clock);
    RunIsDue(Boot(clock), steps);
  }

  // ---------------------------------------------------------------- scans that overlap

  /** No call takes longer than `bound` from its failed reservation to its alert. */
  predicate Prompt(s: State, steps: seq<Step>, bound: int)
    decreases |steps|
  {
    steps == []
    || ((steps[0].Raise? && steps[0].caller < |s.waiting| ==> s.clock - s.waiting[steps[0].caller].since <= bound)
        && Prompt(Next(s, steps[0]), steps[1..], bound))
  }

  /** A call holds its window for as long as the clock stands still. */
  ghost predicate HoldsNow(s: State, w: Waiting) {
    w.since <= s.clock && w.since - w.window < WINDOW && (w.since == s.clock ==> Holds(s, w))
  }

  ghost predicate AllHoldNow(s: State) { forall w :: w in s.waiting ==> HoldsNow(s, w) }

  lemma ReserveKeepsNow(s: State, id: string)
    requires Inv(s) && AllHoldNow(s)
    ensures AllHoldNow(Next(s, Reserve(id)))
  {
    var t := Next(s, Reserve(id));
    RefusedReserve(s, id);
    forall w | w in t.waiting ensures HoldsNow(t, w) {
      if w in s.waiting { assert HoldsNow(s, w); }
    }
  }

  lemma RaiseKeepsNow(s: State, i: nat)
    requires AllHoldNow(s) && i < |s.waiting|
    ensures HoldsNow(s, s.waiting[i]) && AllHoldNow(Next(s, Raise(i)))
  {
    assert s.waiting[i] in s.waiting;
    var t := Next(s, Raise(i));
    forall w | w in t.waiting ensures HoldsNow(t, w) { assert w in s.waiting; }
  }

  lemma {:induction false} InstantRunIsDue(s: State, steps: seq<Step>)
    requires Inv(s) && AllHoldNow(s) && AllDue(s) && Prompt(s, steps, 0)
    ensures AllDue(Run(s, steps))
    decreases |steps|
  {
    if steps != [] {
      StepInv(s, steps[0]);
      match steps[0] {
        case Tick(_) =>
        case Reserve(id) => ReserveKeepsNow(s, id); ReserveKeepsDue(s, id);
        case Raise(i) => if i < |s.waiting| { RaiseKeepsNow(s, i); RaiseKeepsDue(s, i); }
      }
      InstantRunIsDue(Next(s, steps[0]), steps[1..]);
    }
  }

  lemma {:induction false} PromptLonger(s: State, steps: seq<Step>, bound: int, longer: int)
    requires Prompt(s, steps, bound) && bound <= longer
    ensures Prompt(s, steps, longer)
    decreases |steps|
  {
    if steps != [] { PromptLonger(Next(s, steps[0]), steps[1..], bound, longer); }
  }

  /** How fast a call must be if scans may overlap: every alert of every run is due if and only if
      no call takes any time at all from its failed reservation to its alert. */
  lemma AlertsAreDueIff(bound: int)
    ensures bound <= 0 <==> forall clock, steps :: Prompt(Boot(clock), steps, bound) ==> AllDue(Run(Boot(clock), steps))
  {
    if bound <= 0 {
      forall clock, steps | Prompt(Boot(clock), steps, bound) ensures AllDue(Run(Boot(clock), steps)) {
        PromptLonger(Boot(clock), steps, bound, 0);
        BootInv(clock);
        InstantRunIsDue(Boot(clock), steps);
      }
    } else {
      LateAlertIsReached(0, "a");
      var s :| Reachable(0, 1, s) && s.alerts == [Alert("a", WINDOW, 1, 0)];
      var steps :| Run(Boot(0), steps) == s && Prompt(Boot(0), steps, 1);
      PromptLonger(Boot(0), steps, 1, bound);
      assert Alert("a", WINDOW, 1, 0) in s.alerts;
      assert !AllDue(Run(Boot(0), steps)) && Prompt(Boot(0), steps, bound);
    }
  }

  // ---------------------------------------------------------------- any alert

  /** An alert that landed on the window its call failed on found three retries in it; any other
      landed on a window renewed since. */
  ghost predicate Told(s: State, a: Alert) {
    && (a.failedOn == a.window ==> a.count == BUDGET && Count(OfWindow(a.id, a.window), s.retries) == BUDGET)
    && (a.failedOn != a.window ==> a.window >= a.failedOn + WINDOW)
  }

  lemma ReserveKeepsTold(s: State, id: string, a: Alert)
    requires Inv(s) && Told(s, a)
    ensures Told(Next(s, Reserve(id)), a)
  {
    FreshWindow(s, id);
    ReserveCounts(s, id);
  }

  lemma RaiseTells(s: State, i: nat, a: Alert)
    requires Inv(s) && a in Next(s, Raise(i)).alerts && (a in s.alerts ==> Told(s, a))
    ensures Told(Next(s, Raise(i)), a)
  {
    if i < |s.waiting| {
      assert s.waiting[i] in s.waiting;
      RaiseCounts(s, i);
    }
  }

  lemma {:induction false} RunTells(s: State, steps: seq<Step>)
    requires Inv(s) && forall a :: a in s.alerts ==> Told(s, a)
    ensures forall a :: a in Run(s, steps).alerts ==> Told(Run(s, steps), a)
    decreases |steps|
  {
    if steps != [] {
      var t := Next(s, steps[0]);
      forall a | a in t.alerts ensures Told(t, a) {
        match steps[0] {
          case Tick(_) =>
          case Reserve(id) => ReserveKeepsTold(s, id, a);
          case Raise(i) => RaiseTells(s, i, a);
        }
      }
      assert steps[..1] == [steps[0]] && Run(s, steps[..1]) == Run(t, []);
      RunInv(s, steps[..1]);
      RunTells(t, steps[1..]);
    }
  }

  /** What any alert of any run means: if its call failed on the window it landed on, that window
      has three retries on record; if it found fewer, the window was renewed after the call failed. */
  lemma AlertsAreDueOrLate(clock: int, steps: seq<Step>, a: Alert)
    ensures var s := Run(Boot(clock), steps);
            a in s.alerts ==>
              && (a.failedOn == a.window ==> Count(OfWindow(a.id, a.window), s.retries) == BUDGET)
              && (a.count < BUDGET ==> a.window >= a.failedOn + WINDOW)
  {
    BootInv(clock);
    RunTells(Boot(clock), steps);
    assert a in Run(Boot(clock), steps).alerts ==> Told(Run(Boot(clock), steps), a);
  }

  // ---------------------------------------------------------------- both limits are reached

  /** Three reservations on a fresh window spend it. */
  lemma SpendWindow(s: State, id: string)
    requires Current(Lookup(s.states, id), s.clock) == Window(0, s.clock, false)
    ensures var t := Next(Next(Next(s, Reserve(id)), Reserve(id)), Reserve(id));
            var r := Retry(id, s.clock, s.clock);
            t == s.(states := s.states[id := Window(BUDGET, s.clock, false)], retries := s.retries + [r, r, r])
  {
    var s1 := Next(s, Reserve(id));
    var s2 := Next(s1, Reserve(id));
    var r := Retry(id, s.clock, s.clock);
    assert s1 == s.(states := s.states[id := Window(1, s.clock, false)], retries := s.retries + [r]);
    assert s2 == s.(states := s.states[id := Window(2, s.clock, false)], retries := s.retries + [r] + [r]);
    assert s.retries + [r] + [r] + [r] == s.retries + [r, r, r];
  }

  /** Some run with calls no slower than `bound` leads there. */
  ghost predicate Reachable(clock: int, bound: int, s: State) {
    exists steps :: Run(Boot(clock), steps) == s && Prompt(Boot(clock), steps, bound)
  }

  lemma BootReachable(clock: int, bound: int)
    ensures Reachable(clock, bound, Boot(clock))
  {
    assert Run(Boot(clock), []) == Boot(clock);
  }

  lemma NextReachable(clock: int, bound: int, s: State, step: Step)
    requires Reachable(clock, bound, s)
    requires step.Raise? && step.caller < |s.waiting| ==> s.clock - s.waiting[step.caller].since <= bound
    ensures Reachable(clock, bound, Next(s, step))
  {
    var steps :| Run(Boot(clock), steps) == s && Prompt(Boot(clock), steps, bound);
    RunSnoc(Boot(clock), steps, step);
    PromptSnoc(Boot(clock), steps, step, bound);
  }

  lemma {:induction false} PromptSnoc(s: State, steps: seq<Step>, step: Step, bound: int)
    requires Prompt(s, steps, bound)
    requires var t := Run(s, steps);
             step.Raise? && step.caller < |t.waiting| ==> t.clock - t.waiting[step.caller].since <= bound
    ensures Prompt(s, steps + [step], bound)
    decreases |steps|
  {
    if steps == [] {
      assert [] + [step] == [step];
      assert Prompt(Next(s, step), [step][1..], bound);
    } else {
      assert (steps + [step])[1..] == steps[1..] + [step];
      PromptSnoc(Next(s, steps[0]), steps[1..], step, bound);
    }
  }

  lemma {:induction false} RunSnoc(s: State, steps: seq<Step>, step: Step)
    ensures Run(s, steps + [step]) == Next(Run(s, steps), step)
    decreases |steps|
  {
    if steps == [] {
      assert [] + [step] == [step];
      assert Run(s, [step]) == Run(Next(s, step), []);
    } else {
      assert (steps + [step])[1..] == steps[1..] + [step];
      RunSnoc(Next(s, steps[0]), steps[1..], step);
    }
  }

  lemma SpendReachable(clock: int, bound: int, s: State, id: string)
    requires Reachable(clock, bound, s)
    ensures Reachable(clock, bound, Next(Next(Next(s, Reserve(id)), Reserve(id)), Reserve(id)))
  {
    NextReachable(clock, bound, s, Reserve(id));
    NextReachable(clock, bound, Next(s, Reserve(id)), Reserve(id));
    NextReachable(clock, bound, Next(Next(s, Reserve(id)), Reserve(id)), Reserve(id));
  }

  /** Six retries in 24 hours do happen: three when a window opens and three when the next does. */
  lemma SixAreReached(clock: int, id: string)
    ensures exists s :: Reachable(clock, 0, s) && Count(Within(id, clock, clock + WINDOW), s.retries) == 2 * BUDGET
  {
    var s0 := Boot(clock);
    var s1 := Next(Next(Next(s0, Reserve(id)), Reserve(id)), Reserve(id));
    var s2 := Next(s1, Tick(WINDOW));
    var s3 := Next(Next(Next(s2, Reserve(id)), Reserve(id)), Reserve(id));
    BootReachable(clock, 0);
    SpendReachable(clock, 0, s0, id);
    NextReachable(clock, 0, s1, Tick(WINDOW));
    SpendReachable(clock, 0, s2, id);
    SpendWindow(s0, id);
    SpendWindow(s2, id);
    var p := Within(id, clock, clock + WINDOW);
    var r, q := Retry(id, clock, clock), Retry(id, clock + WINDOW, clock + WINDOW);
    assert s3.retries == [r, r, r] + [q, q, q];
    CountThree(p, [], r);
    CountThree(p, [r, r, r], q);
    assert [] + [r, r, r] == [r, r, r];
  }

  lemma CountThree<T>(p: T -> bool, s: seq<T>, x: T)
    requires p(x)
    ensures Count(p, s + [x, x, x]) == Count(p, s) + 3
  {
    CountSnoc(p, s, x);
    CountSnoc(p, s + [x], x);
    CountSnoc(p, s + [x] + [x], x);
    assert s + [x] + [x] + [x] == s + [x, x, x];
  }

  /** A late alert does happen, with a call of one nanosecond: its reservation fails at the last
      instant of a spent window, another scan opens the next one and takes a retry, and the alert
      lands there and mutes it. */
  lemma LateAlertIsReached(clock: int, id: string)
    ensures exists s :: Reachable(clock, 1, s) && s.alerts == [Alert(id, clock + WINDOW, 1, clock)]
                          && id in s.states && s.states[id] == Window(1, clock + WINDOW, true)
                          && Count(OfWindow(id, clock + WINDOW), s.retries) == 1
  {
    var s0 := Boot(clock);
    var s1 := Next(Next(Next(s0, Reserve(id)), Reserve(id)), Reserve(id));
    var s2 := Next(s1, Tick(WINDOW - 1));
    var s3 := Next(s2, Reserve(id));
    var s4 := Next(s3, Tick(1));
    var s5 := Next(s4, Reserve(id));
    var s6 := Next(s5, Raise(0));
    SpendWindow(s0, id);
    assert s3.waiting == [Waiting(id, clock, clock + WINDOW - 1)];
    assert s5.states[id] == Window(1, clock + WINDOW, false);
    BootReachable(clock, 1);
    SpendReachable(clock, 1, s0, id);
    NextReachable(clock, 1, s1, Tick(WINDOW - 1));
    NextReachable(clock, 1, s2, Reserve(id));
    NextReachable(clock, 1, s3, Tick(1));
    NextReachable(clock, 1, s4, Reserve(id));
    NextReachable(clock, 1, s5, Raise(0));
    assert s6.alerts == [] + [Alert(id, clock + WINDOW, 1, clock)];
    LateCount(clock, id, s6);
  }

  lemma LateCount(clock: int, id: string, s: State)
    requires Reachable(clock, 1, s) && id in s.states && s.states[id] == Window(1, clock + WINDOW, true)
    ensures Count(OfWindow(id, clock + WINDOW), s.retries) == 1
  {
    var steps :| Run(Boot(clock), steps) == s && Prompt(Boot(clock), steps, 1);
    BootInv(clock);
    RunInv(Boot(clock), steps);
  }
}
