/** The terminal transition of a job as a state machine: any number of observers (poll workers
    on stale snapshots, the synchronous path) race for the compare-and-swap, and the winner
    alone releases the slot, meters and notifies, one atomic step at a time. */
module TerminalProtocol {

  /** Other: a word of upstream's that the code does not know, stored as it came. */
  datatype Status = Queued | Pending | InProgress | Completed | Failed | Refunded | Timeout | Other(word: string)

  /** What ListPending lists and the compare-and-swap starts from. */
  predicate Live(s: Status) {
    s == Queued || s == Pending || s == InProgress
  }

  predicate Terminal(s: Status) {
    s == Completed || s == Failed || s == Refunded || s == Timeout
  }

  type JobId = string
  type AccountId = string

  /** Where an observer stands after a won compare-and-swap. */
  datatype Phase =
    | Idle
    | Releasing(job: JobId, final: Status)
    | Metering(job: JobId, final: Status)
    | BackFilling(job: JobId, final: Status)
    | Notifying(job: JobId, final: Status)

  function Stage(p: Phase): nat {
    match p
    case Idle => 0
    case Releasing(_, _) => 1
    case Metering(_, _) => 2
    case BackFilling(_, _) => 3
    case Notifying(_, _) => 4
  }

  type Tally = map<string, nat>

  function At(t: Tally, k: string): nat {
    if k in t then t[k] else 0
  }

  function Bump(t: Tally, k: string): Tally {
    t[k := At(t, k) + 1]
  }

  /** What has happened so far, per job or account. */
  datatype Log = Log(
    wins: Tally, releases: Tally, meterings: Tally, notices: Tally,
    revivals: Tally,    // progress writes that landed on a terminal row
    absorbed: Tally,    // back-fills that landed on a row no longer terminal
    reopened: Tally,    // the same revivals per account
    reclosed: Tally,    // the same back-fills per account
    clamps: Tally,      // decrements that MAX(0, .) swallowed, per account
    boots: nat)         // process restarts

  datatype State = State(
    account: map<JobId, AccountId>,  // the account each job's slot was reserved on
    rows: map<JobId, Status>,        // the jobs table
    inFlight: Tally,                 // accounts.in_flight_jobs
    agents: seq<Phase>,              // the observers of this process
    usage: seq<JobId>,               // usage_events, in insertion order
    log: Log)

  function Owner(s: State, j: JobId): AccountId { if j in s.account then s.account[j] else "" }

  datatype Step =
    | Create(job: JobId, owner: AccountId)
    | Progress(job: JobId, status: Status)
    | Cas(agent: nat, job: JobId, to: Status)
    | Release(agent: nat)
    | Meter(agent: nat)
    | BackFill(agent: nat)
    | Notify(agent: nat)
    | Boot

  // A step whose guard fails changes nothing: a lost compare-and-swap, a write to a row that
  // does not exist, the side effects of an observer that did not win.

  /** PickAndLock and the insert of the jobs row. */
  function CreateJob(s: State, j: JobId, a: AccountId): State {
    if j in s.rows then s
    else s.(account := s.account[j := a], rows := s.rows[j := Queued], inFlight := Bump(s.inFlight, a))
  }

  /** JobStore.UpdateStatus with a non-terminal status: the row's own status is not looked at. */
  function WriteProgress(s: State, j: JobId, status: Status): State {
    if j !in s.rows || Terminal(status) then s
    else s.(rows := s.rows[j := status],
            log := if !Terminal(s.rows[j]) then s.log
                   else s.log.(revivals := Bump(s.log.revivals, j), reopened := Bump(s.log.reopened, Owner(s, j))))
  }

  /** JobStore.TryMarkTerminal from {queued, pending, in_progress}. */
  function TryMarkTerminal(s: State, i: nat, j: JobId, to: Status): State {
    if i >= |s.agents| || s.agents[i] != Idle || !Terminal(to) || LiveBit(s, j) == 0 then s
    else s.(rows := s.rows[j := to], agents := s.agents[i := Releasing(j, to)],
            log := s.log.(wins := Bump(s.log.wins, j)))
  }

  /** releaseInFlight: in_flight_jobs = MAX(0, in_flight_jobs - 1). */
  function ReleaseSlot(s: State, i: nat): State {
    if i >= |s.agents| || !s.agents[i].Releasing? || s.agents[i].job !in s.account then s
    else
      var j, a := s.agents[i].job, s.account[s.agents[i].job];
      var n := At(s.inFlight, a);
      s.(agents := s.agents[i := Metering(j, s.agents[i].final)],
         inFlight := s.inFlight[a := if n == 0 then 0 else n - 1],
         log := s.log.(releases := Bump(s.log.releases, j),
                       clamps := if n == 0 then Bump(s.log.clamps, a) else s.log.clamps))
  }

  /** Recorder.OnJobTerminal up to the insert; a duplicate row is refused and nothing follows. */
  function MeterJob(s: State, i: nat): State {
    if i >= |s.agents| || !s.agents[i].Metering? then s
    else
      var j, f := s.agents[i].job, s.agents[i].final;
      s.(agents := s.agents[i := if j in s.usage then Notifying(j, f) else BackFilling(j, f)],
         usage := if j in s.usage then s.usage else s.usage + [j],
         log := s.log.(meterings := Bump(s.log.meterings, j)))
  }

  /** The recorder's own UpdateStatus(job.ID, job.Status): unguarded as well. */
  function BackFillRow(s: State, i: nat): State {
    if i >= |s.agents| || !s.agents[i].BackFilling? || s.agents[i].job !in s.rows then s
    else
      var j, f := s.agents[i].job, s.agents[i].final;
      s.(agents := s.agents[i := Notifying(j, f)], rows := s.rows[j := f],
         log := if Terminal(s.rows[j]) then s.log
                else s.log.(absorbed := Bump(s.log.absorbed, j), reclosed := Bump(s.log.reclosed, Owner(s, j))))
  }

  function NotifyCaller(s: State, i: nat): State {
    if i >= |s.agents| || !s.agents[i].Notifying? then s
    else s.(agents := s.agents[i := Idle], log := s.log.(notices := Bump(s.log.notices, s.agents[i].job)))
  }

  /** The process died with its observers; ResetAllInFlight zeroes the counters at boot. */
  function Reboot(s: State): State {
    s.(inFlight := map[], agents := seq(|s.agents|, i => Idle), log := s.log.(boots := s.log.boots + 1))
  }

  function Next(s: State, step: Step): State {
    match step
    case Create(j, a) => CreateJob(s, j, a)
    case Progress(j, status) => WriteProgress(s, j, status)
    case Cas(i, j, to) => TryMarkTerminal(s, i, j, to)
    case Release(i) => ReleaseSlot(s, i)
    case Meter(i) => MeterJob(s, i)
    case BackFill(i) => BackFillRow(s, i)
    case Notify(i) => NotifyCaller(s, i)
    case Boot => Reboot(s)
  }

  function Run(s: State, steps: seq<Step>): State
    decreases |steps|
  {
    if steps == [] then s else Run(Next(s, steps[0]), steps[1..])
  }

  function Init(observers: nat): State {
    State(map[], map[], map[], seq(observers, i => Idle), [],
          Log(map[], map[], map[], map[], map[], map[], map[], map[], map[], 0))
  }

  function LiveBit(s: State, j: JobId): nat {
    if j in s.rows && Live(s.rows[j]) then 1 else 0
  }

  function OpenBit(s: State, j: JobId): nat {
    if j in s.rows && !Terminal(s.rows[j]) then 1 else 0
  }

  // ---------------------------------------------------------------- counting observers

  /** Observers that hold job `j` and have not got past stage `k`. */
  function Holding(agents: seq<Phase>, j: JobId, k: nat): nat {
    if agents == [] then 0
    else Holds(agents[0], j, k) + Holding(agents[1..], j, k)
  }

  function Holds(p: Phase, j: JobId, k: nat): nat {
    if 1 <= Stage(p) <= k && p.job == j then 1 else 0
  }

  lemma {:induction false} HoldingUpdate(agents: seq<Phase>, i: nat, p: Phase, j: JobId, k: nat)
    requires i < |agents|
    ensures Holding(agents[i := p], j, k) == Holding(agents, j, k) - Holds(agents[i], j, k) + Holds(p, j, k)
    ensures Holds(agents[i], j, k) <= Holding(agents, j, k)
  {
    if i == 0 {
      assert agents[i := p][1..] == agents[1..];
    } else {
      HoldingUpdate(agents[1..], i - 1, p, j, k);
      assert agents[i := p][1..] == agents[1..][i - 1 := p];
    }
  }

  lemma {:induction false} HoldingIdle(n: nat, j: JobId, k: nat)
    ensures Holding(seq(n, i => Idle), j, k) == 0
  {
    if n > 0 {
      assert seq(n, i => Idle)[1..] == seq(n - 1, i => Idle);
      HoldingIdle(n - 1, j, k);
    }
  }

  // ---------------------------------------------------------------- the invariant of one job

  /** The balance of one job: it is born open, every win closes it, every revival opens it
      again, every back-fill over a revived row closes it again. */
  ghost predicate Balanced(s: State, j: JobId) {
    if j !in s.rows then
      At(s.log.wins, j) == 0 && At(s.log.revivals, j) == 0 && At(s.log.absorbed, j) == 0
    else
      At(s.log.wins, j) + OpenBit(s, j) + At(s.log.absorbed, j) == 1 + At(s.log.revivals, j)
      && (At(s.log.absorbed, j) > 0 ==> At(s.log.wins, j) > 0)
  }

  /** Every effect of a win is either done or still in the hands of an observer; only a process
      restart can lose one. */
  ghost predicate Accounted(s: State, j: JobId) {
    var w := At(s.log.wins, j);
    && At(s.log.releases, j) + Holding(s.agents, j, 1) <= w
    && At(s.log.meterings, j) + Holding(s.agents, j, 2) <= w
    && At(s.log.notices, j) + Holding(s.agents, j, 4) <= w
    && (s.log.boots == 0 ==>
          && At(s.log.releases, j) + Holding(s.agents, j, 1) == w
          && At(s.log.meterings, j) + Holding(s.agents, j, 2) == w
          && At(s.log.notices, j) + Holding(s.agents, j, 4) == w)
  }

  /** The usage table holds a job once some winner has metered it, and never twice. */
  ghost predicate MeteredOnce(s: State, j: JobId) {
    multiset(s.usage)[j] == if At(s.log.meterings, j) > 0 then 1 else 0
  }

  ghost predicate FinalsTerminal(agents: seq<Phase>) {
    forall i :: 0 <= i < |agents| && agents[i] != Idle ==> Terminal(agents[i].final)
  }

  ghost predicate JobInv(s: State, j: JobId) {
    Balanced(s, j) && Accounted(s, j) && MeteredOnce(s, j) && FinalsTerminal(s.agents)
  }

  /** How an observer's move changes the three counts of observers that hold `j`. */
  lemma Moves(agents: seq<Phase>, i: nat, p: Phase, j: JobId)
    requires i < |agents|
    ensures forall k :: k == 1 || k == 2 || k == 4 ==>
              && Holding(agents[i := p], j, k) == Holding(agents, j, k) - Holds(agents[i], j, k) + Holds(p, j, k)
              && Holds(agents[i], j, k) <= Holding(agents, j, k)
  {
    HoldingUpdate(agents, i, p, j, 1);
    HoldingUpdate(agents, i, p, j, 2);
    HoldingUpdate(agents, i, p, j, 4);
  }

  lemma CasKeeps(s: State, i: nat, j': JobId, to: Status, j: JobId)
    requires JobInv(s, j)
    ensures JobInv(TryMarkTerminal(s, i, j', to), j)
  {
    if i < |s.agents| { Moves(s.agents, i, Releasing(j', to), j); }
  }

  lemma ReleaseKeeps(s: State, i: nat, j: JobId)
    requires JobInv(s, j)
    ensures JobInv(ReleaseSlot(s, i), j)
  {
    if i < |s.agents| && s.agents[i].Releasing? {
      Moves(s.agents, i, Metering(s.agents[i].job, s.agents[i].final), j);
    }
  }

  lemma MeterKeeps(s: State, i: nat, j: JobId)
    requires JobInv(s, j)
    ensures JobInv(MeterJob(s, i), j)
  {
    if i < |s.agents| && s.agents[i].Metering? {
      Moves(s.agents, i, BackFilling(s.agents[i].job, s.agents[i].final), j);
      Moves(s.agents, i, Notifying(s.agents[i].job, s.agents[i].final), j);
      MeteredStays(s, i, j);
      SameRow(s, MeterJob(s, i), j);
    }
  }

  lemma MeteredStays(s: State, i: nat, j: JobId)
    requires MeteredOnce(s, j)
    ensures MeteredOnce(MeterJob(s, i), j)
  {
    assert j in s.usage <==> j in multiset(s.usage);
  }

  lemma BackFillBalance(s: State, i: nat, j: JobId)
    requires Balanced(s, j) && FinalsTerminal(s.agents)
    requires i < |s.agents| && s.agents[i].BackFilling? ==> s.agents[i].job == j ==> At(s.log.wins, j) > 0
    ensures Balanced(BackFillRow(s, i), j)
  {
    var t := BackFillRow(s, i);
    if t != s && s.agents[i].job != j { SameRow(s, t, j); }
  }

  lemma BackFillMove(agents: seq<Phase>, i: nat, j: JobId)
    requires i < |agents| && agents[i].BackFilling?
    ensures forall k :: k == 1 || k == 2 || k == 4 ==>
              Holding(agents[i := Notifying(agents[i].job, agents[i].final)], j, k) == Holding(agents, j, k)
    ensures agents[i].job == j ==> Holding(agents, j, 4) > 0
  {
    Moves(agents, i, Notifying(agents[i].job, agents[i].final), j);
  }

  lemma BackFillEffects(s: State, i: nat, j: JobId)
    requires JobInv(s, j)
    ensures var t := BackFillRow(s, i);
            Accounted(t, j) && MeteredOnce(t, j) && FinalsTerminal(t.agents)
    ensures i < |s.agents| && s.agents[i].BackFilling? && s.agents[i].job == j ==> At(s.log.wins, j) > 0
  {
    var t := BackFillRow(s, i);
    if i < |s.agents| && s.agents[i].BackFilling? { BackFillMove(s.agents, i, j); }
    if t != s { SameCounts(s, t, j); }
  }

  lemma SameCounts(s: State, t: State, j: JobId)
    requires JobInv(s, j) && s.usage == t.usage && s.log.boots == t.log.boots
    requires s.log.wins == t.log.wins && s.log.releases == t.log.releases
             && s.log.meterings == t.log.meterings && s.log.notices == t.log.notices
    requires forall k :: k == 1 || k == 2 || k == 4 ==> Holding(t.agents, j, k) == Holding(s.agents, j, k)
    ensures Accounted(t, j) && MeteredOnce(t, j)
  {}

  lemma BackFillKeeps(s: State, i: nat, j: JobId)
    requires JobInv(s, j)
    ensures JobInv(BackFillRow(s, i), j)
  {
    BackFillEffects(s, i, j);
    BackFillBalance(s, i, j);
  }

  lemma NotifyKeeps(s: State, i: nat, j: JobId)
    requires JobInv(s, j)
    ensures JobInv(NotifyCaller(s, i), j)
  {
    if i < |s.agents| { Moves(s.agents, i, Idle, j); }
  }

  lemma RebootKeeps(s: State, j: JobId)
    requires JobInv(s, j)
    ensures JobInv(Reboot(s), j)
  {
    HoldingIdle(|s.agents|, j, 1);
    HoldingIdle(|s.agents|, j, 2);
    HoldingIdle(|s.agents|, j, 4);
  }

  lemma CreateKeeps(s: State, j': JobId, a: AccountId, j: JobId)
    requires JobInv(s, j)
    ensures JobInv(CreateJob(s, j', a), j)
  {}

  lemma ProgressKeeps(s: State, j': JobId, status: Status, j: JobId)
    requires JobInv(s, j)
    ensures JobInv(WriteProgress(s, j', status), j)
  {
    ProgressBalance(s, j', status, j);
    SameEffects(s, WriteProgress(s, j', status), j);
  }

  lemma ProgressBalance(s: State, j': JobId, status: Status, j: JobId)
    requires Balanced(s, j)
    ensures Balanced(WriteProgress(s, j', status), j)
  {
    if j' != j { SameRow(s, WriteProgress(s, j', status), j); }
  }

  lemma SameRow(s: State, t: State, j: JobId)
    requires Balanced(s, j) && (j in s.rows <==> j in t.rows) && (j in s.rows ==> s.rows[j] == t.rows[j])
    requires At(s.log.wins, j) == At(t.log.wins, j) && At(s.log.revivals, j) == At(t.log.revivals, j)
             && At(s.log.absorbed, j) == At(t.log.absorbed, j)
    ensures Balanced(t, j)
  {}

  lemma SameEffects(s: State, t: State, j: JobId)
    requires JobInv(s, j) && s.agents == t.agents && s.usage == t.usage && s.log.boots == t.log.boots
    requires s.log.wins == t.log.wins && s.log.releases == t.log.releases
             && s.log.meterings == t.log.meterings && s.log.notices == t.log.notices
    ensures Accounted(t, j) && MeteredOnce(t, j) && FinalsTerminal(t.agents)
  {}

  lemma StepKeeps(s: State, step: Step, j: JobId)
    requires JobInv(s, j)
    ensures JobInv(Next(s, step), j)
  {
    match step
    case Create(j', a) => CreateKeeps(s, j', a, j);
    case Progress(j', status) => ProgressKeeps(s, j', status, j);
    case Cas(i, j', to) => CasKeeps(s, i, j', to, j);
    case Release(i) => ReleaseKeeps(s, i, j);
    case Meter(i) => MeterKeeps(s, i, j);
    case BackFill(i) => BackFillKeeps(s, i, j);
    case Notify(i) => NotifyKeeps(s, i, j);
    case Boot => RebootKeeps(s, j);
  }

  lemma {:induction false} RunKeeps(s: State, steps: seq<Step>, j: JobId)
    requires JobInv(s, j)
    ensures JobInv(Run(s, steps), j)
    decreases |steps|
  {
    if steps != [] {
      StepKeeps(s, steps[0], j);
      RunKeeps(Next(s, steps[0]), steps[1..], j);
    }
  }

  lemma ReachableInv(observers: nat, steps: seq<Step>, j: JobId)
    ensures JobInv(Run(Init(observers), steps), j)
  {
    HoldingIdle(observers, j, 1);
    HoldingIdle(observers, j, 2);
    HoldingIdle(observers, j, 4);
    RunKeeps(Init(observers), steps, j);
  }

  // ---------------------------------------------------------------- an undisturbed observer

  /** What an observer does from its compare-and-swap to its notification. */
  function WinSteps(i: nat, j: JobId, to: Status): seq<Step> {
    [Cas(i, j, to), Release(i), Meter(i), BackFill(i), Notify(i)]
  }

  /** The state an undisturbed winner leaves behind. */
  function Won(s: State, i: nat, j: JobId, to: Status): State
    requires j in s.account
  {
    var a := s.account[j];
    var n := At(s.inFlight, a);
    s.(rows := s.rows[j := to],
       inFlight := s.inFlight[a := if n == 0 then 0 else n - 1],
       usage := if j in s.usage then s.usage else s.usage + [j],
       log := s.log.(wins := Bump(s.log.wins, j), releases := Bump(s.log.releases, j),
                     meterings := Bump(s.log.meterings, j), notices := Bump(s.log.notices, j),
                     clamps := if n == 0 then Bump(s.log.clamps, a) else s.log.clamps))
  }

  /** Undisturbed, an observer either loses and changes nothing or leaves the winner's state. */
  lemma WinRuns(s: State, i: nat, j: JobId, to: Status)
    requires i < |s.agents| && s.agents[i] == Idle && j in s.account && Terminal(to)
    ensures Run(s, WinSteps(i, j, to)) == if LiveBit(s, j) == 1 then Won(s, i, j, to) else s
  {
    WinStepsRun(s, i, j, to);
    if LiveBit(s, j) == 1 {
      WonStates(s, i, j, to);
    } else {
      LostStates(s, i, j, to);
    }
  }

  lemma WinStepsRun(s: State, i: nat, j: JobId, to: Status)
    ensures Run(s, WinSteps(i, j, to))
            == NotifyCaller(BackFillRow(MeterJob(ReleaseSlot(TryMarkTerminal(s, i, j, to), i), i), i), i)
  {
    RunTwo(s, Cas(i, j, to), Release(i), [Meter(i), BackFill(i), Notify(i)]);
    RunTwo(Next(Next(s, Cas(i, j, to)), Release(i)), Meter(i), BackFill(i), [Notify(i)]);
    assert WinSteps(i, j, to) == [Cas(i, j, to), Release(i)] + [Meter(i), BackFill(i), Notify(i)];
    assert [Meter(i), BackFill(i), Notify(i)] == [Meter(i), BackFill(i)] + [Notify(i)];
    var t := Next(Next(Next(Next(s, Cas(i, j, to)), Release(i)), Meter(i)), BackFill(i));
    assert Run(t, [Notify(i)]) == Run(Next(t, Notify(i)), []);
  }

  lemma RunTwo(s: State, a: Step, b: Step, rest: seq<Step>)
    ensures Run(s, [a, b] + rest) == Run(Next(Next(s, a), b), rest)
  {
    var steps := [a, b] + rest;
    assert steps[1..] == [b] + rest;
    assert steps[1..][1..] == rest;
  }

  lemma LostStates(s: State, i: nat, j: JobId, to: Status)
    requires i < |s.agents| && s.agents[i] == Idle && LiveBit(s, j) == 0
    ensures NotifyCaller(BackFillRow(MeterJob(ReleaseSlot(TryMarkTerminal(s, i, j, to), i), i), i), i) == s
  {
    assert TryMarkTerminal(s, i, j, to) == s;
  }

  lemma WonStates(s: State, i: nat, j: JobId, to: Status)
    requires i < |s.agents| && s.agents[i] == Idle && j in s.account && Terminal(to) && LiveBit(s, j) == 1
    ensures NotifyCaller(BackFillRow(MeterJob(ReleaseSlot(TryMarkTerminal(s, i, j, to), i), i), i), i)
            == Won(s, i, j, to)
  {
    var s1 := TryMarkTerminal(s, i, j, to);
    var s2 := ReleaseSlot(s1, i);
    assert s2.agents == s.agents[i := Metering(j, to)];
    assert s2.rows == s.rows[j := to];
    MeterToNotify(s2, i);
    assert s.agents[i := Idle] == s.agents;
    assert s.rows[j := to][j := to] == s.rows[j := to];
  }

  lemma MeterToNotify(s: State, i: nat)
    requires i < |s.agents| && s.agents[i].Metering?
    requires var j := s.agents[i].job; j in s.rows && s.rows[j] == s.agents[i].final && Terminal(s.rows[j])
    ensures var j := s.agents[i].job;
            NotifyCaller(BackFillRow(MeterJob(s, i), i), i) ==
            s.(agents := s.agents[i := Idle],
               usage := if j in s.usage then s.usage else s.usage + [j],
               log := s.log.(meterings := Bump(s.log.meterings, j), notices := Bump(s.log.notices, j)))
  {
    var j, f := s.agents[i].job, s.agents[i].final;
    var s1 := MeterJob(s, i);
    assert j !in s.usage ==> s1.agents == s.agents[i := BackFilling(j, f)];
    var s2 := BackFillRow(s1, i);
    assert s2.agents == s.agents[i := Notifying(j, f)];
    assert s2.rows == s.rows;
    assert NotifyCaller(s2, i).agents == s.agents[i := Idle];
  }

  lemma {:induction false} RunConcat(s: State, a: seq<Step>, b: seq<Step>)
    ensures Run(s, a + b) == Run(Run(s, a), b)
    decreases |a|
  {
    if a == [] {
      assert a + b == b;
    } else {
      RunConcat(Next(s, a[0]), a[1..], b);
      assert (a + b)[1..] == a[1..] + b;
    }
  }

  // ---------------------------------------------------------------- exactly-once effects

  /** Over every interleaving, a job's compare-and-swap is won at most once more than progress
      writes landed on its terminal row, and the exact count is known. */
  lemma WinsAreBounded(observers: nat, steps: seq<Step>, j: JobId)
    ensures var s := Run(Init(observers), steps);
            && At(s.log.wins, j) <= 1 + At(s.log.revivals, j)
            && (j in s.rows ==>
                  At(s.log.wins, j) == 1 + At(s.log.revivals, j) - OpenBit(s, j) - At(s.log.absorbed, j))
  {
    ReachableInv(observers, steps, j);
  }

  /** Side effects run at most once per win, so at most once when no progress write landed on
      the terminal row; and the usage table never holds a job twice, whatever happens. */
  lemma EffectsAtMostOnce(observers: nat, steps: seq<Step>, j: JobId)
    ensures var s := Run(Init(observers), steps);
            && At(s.log.releases, j) <= At(s.log.wins, j) && At(s.log.meterings, j) <= At(s.log.wins, j)
            && At(s.log.notices, j) <= At(s.log.wins, j)
            && (At(s.log.revivals, j) == 0 ==>
                  At(s.log.releases, j) <= 1 && At(s.log.meterings, j) <= 1 && At(s.log.notices, j) <= 1)
            && multiset(s.usage)[j] <= 1
  {
    ReachableInv(observers, steps, j);
  }

  /** ... and exactly once: within one process lifetime, when the row is terminal and no observer
      still holds the job, the slot was released once, the caller notified once and the job metered
      once exactly when back-fills have closed the row again as often as progress writes reopened
      it, which includes that none ever did. One usage row there is in any case. */
  lemma EffectsExactlyOnceIff(observers: nat, steps: seq<Step>, j: JobId)
    ensures var s := Run(Init(observers), steps);
            j in s.rows && Terminal(s.rows[j]) && s.log.boots == 0 && Holding(s.agents, j, 4) == 0 ==>
            && multiset(s.usage)[j] == 1
            && At(s.log.wins, j) == At(s.log.releases, j) == At(s.log.meterings, j) == At(s.log.notices, j)
            && (At(s.log.wins, j) == 1 <==> At(s.log.revivals, j) == At(s.log.absorbed, j))
  {
    var s := Run(Init(observers), steps);
    ReachableInv(observers, steps, j);
    HoldingMonotone(s.agents, j, 1, 4);
    HoldingMonotone(s.agents, j, 2, 4);
  }

  lemma {:induction false} HoldingMonotone(agents: seq<Phase>, j: JobId, k: nat, m: nat)
    requires k <= m
    ensures Holding(agents, j, k) <= Holding(agents, j, m)
  {
    if agents != [] { HoldingMonotone(agents[1..], j, k, m); }
  }

  // ---------------------------------------------------------------- unknown words

  /** Steps that leave a stranded row alone: ListPending does not list it, so no progress write
      of a later pass names it. */
  predicate NoProgress(steps: seq<Step>, j: JobId) {
    forall i :: 0 <= i < |steps| && steps[i].Progress? ==> steps[i].job != j
  }

  lemma StrandedMove(agents: seq<Phase>, i: nat, p: Phase, j: JobId)
    requires i < |agents| && Holding(agents, j, 4) == 0
    ensures agents[i] != Idle ==> agents[i].job != j
    ensures p == Idle || p.job != j ==> Holding(agents[i := p], j, 4) == 0
  {
    HoldingUpdate(agents, i, p, j, 4);
  }

  ghost predicate Stranded(s: State, j: JobId) {
    j in s.rows && s.rows[j].Other? && Holding(s.agents, j, 4) == 0
  }

  /** The row, the wins and the releases of the job are as they were, and nobody holds it. */
  ghost predicate Unmoved(s: State, t: State, j: JobId) {
    && j in s.rows && j in t.rows && t.rows[j] == s.rows[j] && Holding(t.agents, j, 4) == 0
    && At(t.log.wins, j) == At(s.log.wins, j) && At(t.log.releases, j) == At(s.log.releases, j)
  }

  lemma AgentStepStrands(s: State, step: Step, i: nat, j: JobId)
    requires Stranded(s, j) && i < |s.agents|
    requires step in {Release(i), Meter(i), BackFill(i), Notify(i)}
    ensures Unmoved(s, Next(s, step), j)
  {
    var t := Next(s, step);
    StrandedMove(s.agents, i, t.agents[i], j);
    assert t.agents == s.agents[i := t.agents[i]];
    if t != s { assert t.agents[i] == Idle || t.agents[i].job == s.agents[i].job; }
  }

  lemma CasStrands(s: State, i: nat, j': JobId, to: Status, j: JobId)
    requires Stranded(s, j)
    ensures Unmoved(s, TryMarkTerminal(s, i, j', to), j)
  {
    if i < |s.agents| { StrandedMove(s.agents, i, Releasing(j', to), j); }
  }

  lemma StrandedStep(s: State, step: Step, j: JobId)
    requires Stranded(s, j) && NoProgress([step], j)
    ensures Unmoved(s, Next(s, step), j)
  {
    assert step == [step][0];
    match step
    case Cas(i, j', to) => CasStrands(s, i, j', to, j);
    case Release(i) => if i < |s.agents| { AgentStepStrands(s, step, i, j); }
    case Meter(i) => if i < |s.agents| { AgentStepStrands(s, step, i, j); }
    case BackFill(i) => if i < |s.agents| { AgentStepStrands(s, step, i, j); }
    case Notify(i) => if i < |s.agents| { AgentStepStrands(s, step, i, j); }
    case Boot => HoldingIdle(|s.agents|, j, 4);
    case _ =>
  }

  /** A job whose row took a word of upstream's that the code does not know is stranded: nothing
      but another progress write moves it, no observer can win it, and its slot is not released. */
  lemma {:induction false} UnknownWordStrands(s: State, steps: seq<Step>, j: JobId)
    requires Stranded(s, j) && NoProgress(steps, j)
    ensures var t := Run(s, steps);
            j in t.rows && t.rows[j] == s.rows[j]
            && At(t.log.wins, j) == At(s.log.wins, j) && At(t.log.releases, j) == At(s.log.releases, j)
    decreases |steps|
  {
    if steps != [] {
      assert [steps[0]][0] == steps[0];
      StrandedStep(s, steps[0], j);
      UnknownWordStrands(Next(s, steps[0]), steps[1..], j);
    }
  }
}
