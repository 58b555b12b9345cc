/** Concurrency slots: accounts.in_flight_jobs against the jobs that really hold a slot. */
module SlotProtocol {
  import opened TerminalProtocol

  ghost function OpenOn(rows: map<JobId, Status>, account: map<JobId, AccountId>, a: AccountId): set<JobId> {
    set j | j in rows && j in account && account[j] == a && !Terminal(rows[j])
  }

  /** The account's jobs that are not terminal. */
  ghost function OpenSet(s: State, a: AccountId): set<JobId> {
    OpenOn(s.rows, s.account, a)
  }

  predicate Owes(p: Phase, account: map<JobId, AccountId>, a: AccountId) {
    p.Releasing? && p.job in account && account[p.job] == a
  }

  /** Observers that won a job of account `a` and have not released its slot yet. */
  function Owed(agents: seq<Phase>, account: map<JobId, AccountId>, a: AccountId): nat {
    if agents == [] then 0
    else (if Owes(agents[0], account, a) then 1 else 0) + Owed(agents[1..], account, a)
  }

  /** Slots really in use on an account. */
  ghost function InUse(s: State, a: AccountId): nat {
    |OpenSet(s, a)| + Owed(s.agents, s.account, a)
  }

  /** Rows and slots are created together, and observers only hold created jobs. */
  ghost predicate WellTyped(s: State) {
    && s.rows.Keys == s.account.Keys
    && forall i :: 0 <= i < |s.agents| && s.agents[i] != Idle ==> s.agents[i].job in s.rows
  }

  ghost predicate NoRevivals(s: State) {
    forall j :: At(s.log.revivals, j) == 0
  }

  /** Progress writes that reopened a job of the account, less back-fills that closed one again. */
  function Gap(s: State, a: AccountId): int {
    At(s.log.reopened, a) - At(s.log.reclosed, a)
  }

  /** Slots in use that the counter does not show. */
  ghost function Shortfall(s: State, a: AccountId): int {
    InUse(s, a) - At(s.inFlight, a)
  }

  /** What the clamped decrements and the gap do not explain. */
  ghost function Unexplained(s: State, a: AccountId): int {
    Shortfall(s, a) + At(s.log.clamps, a) - Gap(s, a)
  }

  ghost predicate AtMost(s: State) {
    forall a :: At(s.inFlight, a) <= InUse(s, a)
  }

  ghost predicate Exact(s: State) {
    forall a :: At(s.inFlight, a) == InUse(s, a) && At(s.log.clamps, a) == 0
  }

  // ---------------------------------------------------------------- counting

  lemma {:induction false} OwedUpdate(agents: seq<Phase>, account: map<JobId, AccountId>, i: nat, p: Phase,
                                      a: AccountId)
    requires i < |agents|
    ensures Owed(agents[i := p], account, a) ==
            Owed(agents, account, a) - (if Owes(agents[i], account, a) then 1 else 0)
                                     + (if Owes(p, account, a) then 1 else 0)
    ensures Owes(agents[i], account, a) ==> Owed(agents, account, a) > 0
  {
    if i == 0 {
      assert agents[i := p][1..] == agents[1..];
    } else {
      OwedUpdate(agents[1..], account, i - 1, p, a);
      assert agents[i := p][1..] == agents[1..][i - 1 := p];
    }
  }

  lemma {:induction false} OwedNewJob(agents: seq<Phase>, account: map<JobId, AccountId>, j: JobId, owner: AccountId,
                                      a: AccountId)
    requires forall i :: 0 <= i < |agents| && agents[i] != Idle ==> agents[i].job != j
    ensures Owed(agents, account[j := owner], a) == Owed(agents, account, a)
  {
    if agents != [] {
      OwedNewJob(agents[1..], account, j, owner, a);
      assert agents[0] != Idle ==> agents[0].job != j;
    }
  }

  lemma {:induction false} OwedIdle(n: nat, account: map<JobId, AccountId>, a: AccountId)
    ensures Owed(seq(n, i => Idle), account, a) == 0
  {
    if n > 0 {
      assert seq(n, i => Idle)[1..] == seq(n - 1, i => Idle);
      OwedIdle(n - 1, account, a);
    }
  }

  lemma JobAdded(rows: map<JobId, Status>, account: map<JobId, AccountId>, j: JobId, owner: AccountId, a: AccountId)
    requires j !in rows
    ensures |OpenOn(rows[j := Queued], account[j := owner], a)| == |OpenOn(rows, account, a)|
            + (if a == owner then 1 else 0)
  {
    var before, after := OpenOn(rows, account, a), OpenOn(rows[j := Queued], account[j := owner], a);
    assert after == if a == owner then before + {j} else before;
  }

  lemma JobReopened(rows: map<JobId, Status>, account: map<JobId, AccountId>, j: JobId, status: Status, a: AccountId)
    requires j in rows && j in account && Terminal(rows[j]) && !Terminal(status)
    ensures |OpenOn(rows[j := status], account, a)| == |OpenOn(rows, account, a)| + (if a == account[j] then 1 else 0)
  {
    var before, after := OpenOn(rows, account, a), OpenOn(rows[j := status], account, a);
    assert after == if a == account[j] then before + {j} else before;
  }

  lemma JobClosed(rows: map<JobId, Status>, account: map<JobId, AccountId>, j: JobId, to: Status, a: AccountId)
    requires j in rows && j in account && !Terminal(rows[j]) && Terminal(to)
    ensures |OpenOn(rows[j := to], account, a)| == |OpenOn(rows, account, a)| - (if a == account[j] then 1 else 0)
  {
    var before, after := OpenOn(rows, account, a), OpenOn(rows[j := to], account, a);
    assert after == before - {j};
    assert j in before <==> account[j] == a;
  }

  // ---------------------------------------------------------------- what each step does

  ghost predicate Steady(s: State, t: State, a: AccountId) {
    Unexplained(t, a) == Unexplained(s, a)
  }

  lemma CreateSteady(s: State, j: JobId, owner: AccountId, a: AccountId)
    requires WellTyped(s)
    ensures Steady(s, CreateJob(s, j, owner), a)
  {
    if j !in s.rows {
      OwedNewJob(s.agents, s.account, j, owner, a);
      JobAdded(s.rows, s.account, j, owner, a);
    }
  }

  lemma ProgressSteady(s: State, j: JobId, status: Status, a: AccountId)
    requires WellTyped(s)
    ensures Steady(s, WriteProgress(s, j, status), a)
  {
    var t := WriteProgress(s, j, status);
    if j in s.rows && !Terminal(status) && Terminal(s.rows[j]) {
      JobReopened(s.rows, s.account, j, status, a);
    } else {
      assert OpenSet(t, a) == OpenSet(s, a);
    }
  }

  lemma CasSteady(s: State, i: nat, j: JobId, to: Status, a: AccountId)
    requires WellTyped(s)
    ensures Steady(s, TryMarkTerminal(s, i, j, to), a)
  {
    if TryMarkTerminal(s, i, j, to) != s {
      OwedUpdate(s.agents, s.account, i, Releasing(j, to), a);
      JobClosed(s.rows, s.account, j, to, a);
    }
  }

  /** A release pays one slot back, unless the counter is already at zero. */
  lemma ReleaseEffect(s: State, i: nat, a: AccountId)
    ensures var t := ReleaseSlot(s, i);
            && InUse(t, a) <= InUse(s, a)
            && Steady(s, t, a)
            && (At(t.log.clamps, a) != At(s.log.clamps, a) ==>
                  At(s.inFlight, a) == At(t.inFlight, a) == 0 && i < |s.agents| && Owes(s.agents[i], s.account, a))
  {
    var t := ReleaseSlot(s, i);
    assert OpenSet(t, a) == OpenSet(s, a);
    if t != s { OwedUpdate(s.agents, s.account, i, t.agents[i], a); }
  }

  lemma QuietSteady(s: State, t: State, i: nat, p: Phase, a: AccountId)
    requires t.rows == s.rows && t.account == s.account && t.inFlight == s.inFlight
    requires t.log.reopened == s.log.reopened && t.log.reclosed == s.log.reclosed && t.log.clamps == s.log.clamps
    requires t.agents == s.agents
             || (i < |s.agents| && t.agents == s.agents[i := p] && !s.agents[i].Releasing? && !p.Releasing?)
    ensures Steady(s, t, a)
  {
    assert OpenSet(t, a) == OpenSet(s, a);
    if i < |s.agents| { OwedUpdate(s.agents, s.account, i, p, a); }
  }

  lemma BackFillSteady(s: State, i: nat, a: AccountId)
    requires WellTyped(s) && FinalsTerminal(s.agents)
    ensures Steady(s, BackFillRow(s, i), a)
  {
    var t := BackFillRow(s, i);
    if t != s {
      var j, f := s.agents[i].job, s.agents[i].final;
      OwedUpdate(s.agents, s.account, i, t.agents[i], a);
      if Terminal(s.rows[j]) {
        assert OpenSet(t, a) == OpenSet(s, a);
      } else {
        JobClosed(s.rows, s.account, j, f, a);
      }
    }
  }

  lemma WellTypedStep(s: State, step: Step)
    requires WellTyped(s)
    ensures WellTyped(Next(s, step))
  {}

  ghost predicate JobsInv(s: State) { forall j :: JobInv(s, j) }

  lemma JobsStep(s: State, step: Step)
    requires JobsInv(s)
    ensures JobsInv(Next(s, step))
  {
    forall j ensures JobInv(Next(s, step), j) { StepKeeps(s, step, j); }
  }

  lemma StepSteady(s: State, step: Step, a: AccountId)
    requires WellTyped(s) && FinalsTerminal(s.agents) && !step.Boot?
    ensures Steady(s, Next(s, step), a)
  {
    var t := Next(s, step);
    match step
    case Create(j, owner) => CreateSteady(s, j, owner, a);
    case Progress(j, status) => ProgressSteady(s, j, status, a);
    case Cas(i, j, to) => CasSteady(s, i, j, to, a);
    case Release(i) => ReleaseEffect(s, i, a);
    case Meter(i) => QuietSteady(s, t, i, if i < |s.agents| then t.agents[i] else Idle, a);
    case BackFill(i) => BackFillSteady(s, i, a);
    case Notify(i) => QuietSteady(s, t, i, if i < |s.agents| then t.agents[i] else Idle, a);
    case Boot =>
  }

  /** A reboot leaves the account short of exactly its open jobs. */
  lemma BootShortfall(s: State, a: AccountId)
    ensures Shortfall(Reboot(s), a) == |OpenSet(s, a)| && Reboot(s).log == s.log.(boots := s.log.boots + 1)
  {
    OwedIdle(|s.agents|, s.account, a);
    assert OpenSet(Reboot(s), a) == OpenSet(s, a);
  }

  // ---------------------------------------------------------------- the counter never shows too much

  /** Open jobs that were won before: some progress write reopened them. */
  ghost function Again(s: State, a: AccountId): set<JobId> {
    set j | j in OpenSet(s, a) && At(s.log.wins, j) > 0
  }

  ghost predicate Covered(s: State, a: AccountId) { |Again(s, a)| <= Shortfall(s, a) }

  /** Covered survives a step that takes no more off the shortfall than off the reopened jobs. */
  lemma StaysCovered(s: State, t: State, a: AccountId, gone: set<JobId>, come: set<JobId>)
    requires Covered(s, a) && gone <= Again(s, a) && Again(t, a) <= (Again(s, a) - gone) + come
    requires Shortfall(s, a) - |gone| + |come| <= Shortfall(t, a)
    ensures Covered(t, a)
  {
    Smaller(Again(t, a), (Again(s, a) - gone) + come);
    assert |(Again(s, a) - gone) + come| <= |Again(s, a) - gone| + |come|;
  }

  lemma Smaller<T>(s: set<T>, t: set<T>)
    requires s <= t
    ensures |s| <= |t|
  {
    assert t == s + (t - s);
  }

  lemma ProgressCovers(s: State, j: JobId, status: Status, a: AccountId)
    requires WellTyped(s) && Covered(s, a)
    ensures Covered(WriteProgress(s, j, status), a)
  {
    var t := WriteProgress(s, j, status);
    ProgressSteady(s, j, status, a);
    var come := if j in s.rows && !Terminal(status) && Terminal(s.rows[j]) && s.account[j] == a then {j} else {};
    StaysCovered(s, t, a, {}, come);
  }

  /** Only a job that was won has a back-fill to come. */
  lemma BackFillCovers(s: State, i: nat, a: AccountId)
    requires WellTyped(s) && JobsInv(s) && Covered(s, a)
    ensures Covered(BackFillRow(s, i), a)
  {
    var t := BackFillRow(s, i);
    if t != s {
      var j := s.agents[i].job;
      HoldingUpdate(s.agents, i, Idle, j, 4);
      assert JobInv(s, j);
      BackFillSteady(s, i, a);
      var gone := if !Terminal(s.rows[j]) && s.account[j] == a then {j} else {};
      assert Again(t, a) <= Again(s, a) - gone;
      StaysCovered(s, t, a, gone, {});
    }
  }

  lemma CasCovers(s: State, i: nat, j: JobId, to: Status, a: AccountId)
    requires WellTyped(s) && Covered(s, a)
    ensures Covered(TryMarkTerminal(s, i, j, to), a)
  {
    CasSteady(s, i, j, to, a);
    StaysCovered(s, TryMarkTerminal(s, i, j, to), a, {}, {});
  }

  lemma CreateCovers(s: State, j: JobId, owner: AccountId, a: AccountId)
    requires WellTyped(s) && JobsInv(s) && Covered(s, a)
    ensures Covered(CreateJob(s, j, owner), a)
  {
    CreateSteady(s, j, owner, a);
    assert JobInv(s, j);
    StaysCovered(s, CreateJob(s, j, owner), a, {}, {});
  }

  lemma ReleaseCovers(s: State, i: nat, a: AccountId)
    requires Covered(s, a)
    ensures Covered(ReleaseSlot(s, i), a)
  {
    var t := ReleaseSlot(s, i);
    ReleaseEffect(s, i, a);
    if At(t.log.clamps, a) == At(s.log.clamps, a) {
      StaysCovered(s, t, a, {}, {});
    } else {
      Smaller(Again(t, a), OpenSet(t, a));
    }
  }

  lemma QuietCovers(s: State, step: Step, a: AccountId)
    requires WellTyped(s) && FinalsTerminal(s.agents) && Covered(s, a) && (step.Meter? || step.Notify?)
    ensures Covered(Next(s, step), a)
  {
    var t := Next(s, step);
    StepSteady(s, step, a);
    assert t.rows == s.rows && t.account == s.account && t.log.wins == s.log.wins;
    assert Again(t, a) == Again(s, a);
  }

  lemma StepCovers(s: State, step: Step, a: AccountId)
    requires WellTyped(s) && JobsInv(s) && Covered(s, a)
    ensures Covered(Next(s, step), a)
  {
    assert JobInv(s, "");
    match step
    case Create(j, owner) => CreateCovers(s, j, owner, a);
    case Progress(j, status) => ProgressCovers(s, j, status, a);
    case Cas(i, j, to) => CasCovers(s, i, j, to, a);
    case Release(i) => ReleaseCovers(s, i, a);
    case Meter(i) => QuietCovers(s, step, a);
    case BackFill(i) => BackFillCovers(s, i, a);
    case Notify(i) => QuietCovers(s, step, a);
    case Boot =>
      BootShortfall(s, a);
      Smaller(Again(Reboot(s), a), OpenSet(s, a));
  }

  // ---------------------------------------------------------------- runs

  predicate NoBoot(steps: seq<Step>) { Boot !in steps }

  /** What the boots of a run did: each drops the counter, and with it the releases still owed. */
  function Dropped(s: State, steps: seq<Step>, a: AccountId): int
    decreases |steps|
  {
    if steps == [] then 0
    else
      (if steps[0].Boot? then At(s.inFlight, a) - Owed(s.agents, s.account, a) else 0)
      + Dropped(Next(s, steps[0]), steps[1..], a)
  }

  lemma {:induction false} NothingDropped(s: State, steps: seq<Step>, a: AccountId)
    requires NoBoot(steps)
    ensures Dropped(s, steps, a) == 0
    decreases |steps|
  {
    if steps != [] { NothingDropped(Next(s, steps[0]), steps[1..], a); }
  }

  ghost predicate Sound(s: State) { WellTyped(s) && JobsInv(s) && forall a :: Covered(s, a) }

  lemma SoundStep(s: State, step: Step)
    requires Sound(s)
    ensures Sound(Next(s, step))
  {
    WellTypedStep(s, step);
    JobsStep(s, step);
    forall a ensures Covered(Next(s, step), a) { StepCovers(s, step, a); }
  }

  lemma {:induction false} RunSound(s: State, steps: seq<Step>)
    requires Sound(s)
    ensures Sound(Run(s, steps))
    decreases |steps|
  {
    if steps != [] {
      SoundStep(s, steps[0]);
      RunSound(Next(s, steps[0]), steps[1..]);
    }
  }

  lemma StepBalances(s: State, step: Step, a: AccountId)
    requires Sound(s)
    ensures Unexplained(Next(s, step), a) ==
            Unexplained(s, a) + if step.Boot? then At(s.inFlight, a) - Owed(s.agents, s.account, a) else 0
  {
    assert JobInv(s, "");
    if step.Boot? { BootShortfall(s, a); } else { StepSteady(s, step, a); }
  }

  lemma {:induction false} RunBalances(s: State, steps: seq<Step>, a: AccountId)
    requires Sound(s)
    ensures Unexplained(Run(s, steps), a) == Unexplained(s, a) + Dropped(s, steps, a)
    decreases |steps|
  {
    if steps != [] {
      SoundStep(s, steps[0]);
      StepBalances(s, steps[0], a);
      RunBalances(Next(s, steps[0]), steps[1..], a);
    }
  }

  lemma {:induction false} BootsCounted(s: State, steps: seq<Step>)
    ensures s.log.boots <= Run(s, steps).log.boots
    ensures Run(s, steps).log.boots == s.log.boots ==> NoBoot(steps)
    decreases |steps|
  {
    if steps != [] {
      BootsStep(s, steps[0]);
      BootsCounted(Next(s, steps[0]), steps[1..]);
      assert steps == [steps[0]] + steps[1..];
    }
  }

  lemma BootsStep(s: State, step: Step)
    ensures Next(s, step).log.boots == s.log.boots + if step.Boot? then 1 else 0
  {}

  lemma InitSound(observers: nat, a: AccountId)
    ensures Sound(Init(observers)) && Unexplained(Init(observers), a) == 0
  {
    var s := Init(observers);
    forall x ensures Covered(s, x) && Unexplained(s, x) == 0 {
      OwedIdle(observers, map[], x);
      assert OpenSet(s, x) == {} && Again(s, x) == {};
    }
    forall j ensures JobInv(s, j) { ReachableInv(observers, [], j); }
  }

  /** The account of slots over every interleaving whatsoever, stale progress writes and restarts
      included: the counter, the jobs that progress writes left open and what boots dropped add up
      to the slots in use and the clamped decrements. And the counter never shows too much. */
  lemma SlotsBalance(observers: nat, steps: seq<Step>, a: AccountId)
    ensures var s := Run(Init(observers), steps);
            && At(s.inFlight, a) + Gap(s, a) + Dropped(Init(observers), steps, a) == InUse(s, a) + At(s.log.clamps, a)
            && At(s.inFlight, a) <= InUse(s, a)
  {
    InitSound(observers, a);
    RunSound(Init(observers), steps);
    RunBalances(Init(observers), steps, a);
    assert Covered(Run(Init(observers), steps), a);
  }

  /** Within one process lifetime the counter is right exactly when clamped decrements have made up
      for the jobs reopened and not closed again by a back-fill. */
  lemma CounterIsRightIff(observers: nat, steps: seq<Step>, a: AccountId)
    requires NoBoot(steps)
    ensures var s := Run(Init(observers), steps);
            At(s.inFlight, a) == InUse(s, a) <==> At(s.log.clamps, a) == Gap(s, a)
  {
    SlotsBalance(observers, steps, a);
    NothingDropped(Init(observers), steps, a);
  }

  /** What a boot leaves behind, exactly: from then on and until the next, the counter of an account
      falls short of its slots in use by the jobs that were open at the boot and those reopened
      since, less the decrements clamped since. */
  lemma ShortfallAfterBoot(observers: nat, before: seq<Step>, after: seq<Step>, a: AccountId)
    requires NoBoot(after)
    ensures var b := Run(Init(observers), before);
            var s := Run(Init(observers), before + [Boot] + after);
            var clamped := At(s.log.clamps, a) - At(b.log.clamps, a);
            && InUse(s, a) == At(s.inFlight, a) + |OpenSet(b, a)| + (Gap(s, a) - Gap(b, a)) - clamped
            && clamped <= |OpenSet(b, a)| + (Gap(s, a) - Gap(b, a))
  {
    var b := Run(Init(observers), before);
    InitSound(observers, a);
    RunSound(Init(observers), before);
    RunConcat(Init(observers), before + [Boot], after);
    RunConcat(Init(observers), before, [Boot]);
    assert Run(b, [Boot]) == Run(Reboot(b), []);
    BootShortfall(b, a);
    SoundStep(b, Boot);
    RunSound(Reboot(b), after);
    RunBalances(Reboot(b), after, a);
    NothingDropped(Reboot(b), after, a);
    assert Covered(Run(Reboot(b), after), a);
  }

  /** So the counter is right again exactly when clamped decrements have used all of them up. */
  lemma CounterRecoversIff(observers: nat, before: seq<Step>, after: seq<Step>, a: AccountId)
    requires NoBoot(after)
    ensures var b := Run(Init(observers), before);
            var s := Run(Init(observers), before + [Boot] + after);
            At(s.inFlight, a) == InUse(s, a) <==>
            At(s.log.clamps, a) - At(b.log.clamps, a) == |OpenSet(b, a)| + (Gap(s, a) - Gap(b, a))
  {
    ShortfallAfterBoot(observers, before, after, a);
  }

  // ---------------------------------------------------------------- without stale progress writes

  /** The accounts' gaps come from their jobs. */
  ghost predicate Traced(s: State) {
    NoRevivals(s) ==> forall a :: At(s.log.reopened, a) == 0 && At(s.log.reclosed, a) == 0
  }

  lemma TracedStep(s: State, step: Step)
    requires JobsInv(s) && Traced(s)
    ensures Traced(Next(s, step))
  {
    var t := Next(s, step);
    if NoRevivals(t) {
      assert forall j :: At(s.log.revivals, j) <= At(t.log.revivals, j);
      match step
      case Progress(j, _) => assert At(t.log.revivals, j) == 0;
      case BackFill(i) =>
        if t != s {
          StepKeeps(s, step, s.agents[i].job);
          assert At(t.log.revivals, s.agents[i].job) == 0;
        }
      case _ =>
    }
  }

  lemma {:induction false} RunTraced(s: State, steps: seq<Step>)
    requires JobsInv(s) && Traced(s)
    ensures Traced(Run(s, steps))
    decreases |steps|
  {
    if steps != [] {
      TracedStep(s, steps[0]);
      JobsStep(s, steps[0]);
      RunTraced(Next(s, steps[0]), steps[1..]);
    }
  }

  /** Slot conservation: the counter never exceeds the open jobs plus the winners that still owe a
      release, in any run; and within one process lifetime, if no progress write has landed on a
      terminal row, it equals them and MAX(0, .) never has to clamp. */
  lemma SlotsAreConserved(observers: nat, steps: seq<Step>)
    ensures var s := Run(Init(observers), steps);
            AtMost(s) && (NoRevivals(s) && s.log.boots == 0 ==> Exact(s))
  {
    var s := Run(Init(observers), steps);
    InitSound(observers, "");
    RunTraced(Init(observers), steps);
    forall a ensures At(s.inFlight, a) <= InUse(s, a) { SlotsBalance(observers, steps, a); }
    BootsCounted(Init(observers), steps);
    if NoRevivals(s) && s.log.boots == 0 {
      forall a ensures At(s.inFlight, a) == InUse(s, a) && At(s.log.clamps, a) == 0 {
        SlotsBalance(observers, steps, a);
        NothingDropped(Init(observers), steps, a);
      }
    }
  }

  // ---------------------------------------------------------------- the race

  /** The unguarded progress write is what it takes: one stale write after a win lets a second
      observer win as well, notify twice and drive the counter into the clamp. */
  lemma StaleProgressWinsTwice(j: JobId, a: AccountId)
    ensures var s := Run(Init(2), [Create(j, a)] + WinSteps(0, j, Completed)
                                  + [Progress(j, InProgress)] + WinSteps(1, j, Completed));
            && At(s.log.wins, j) == 2 && At(s.log.releases, j) == 2 && At(s.log.notices, j) == 2
            && At(s.log.clamps, a) == 1 && s.usage == [j]
  {
    var s1 := Next(Init(2), Create(j, a));
    assert Run(Init(2), [Create(j, a)]) == s1;
    WinRuns(s1, 0, j, Completed);
    var s2 := Won(s1, 0, j, Completed);
    var s3 := Next(s2, Progress(j, InProgress));
    assert Run(s2, [Progress(j, InProgress)]) == s3;
    WinRuns(s3, 1, j, Completed);
    RunConcat(Init(2), [Create(j, a)], WinSteps(0, j, Completed));
    RunConcat(Init(2), [Create(j, a)] + WinSteps(0, j, Completed), [Progress(j, InProgress)]);
    RunConcat(Init(2), [Create(j, a)] + WinSteps(0, j, Completed) + [Progress(j, InProgress)],
              WinSteps(1, j, Completed));
  }

  /** It does happen: a job that is open at a boot holds a slot and the counter reads zero. */
  lemma RebootForgetsSlots(j: JobId, a: AccountId)
    ensures var s := Run(Init(1), [Create(j, a), Boot]);
            NoRevivals(s) && At(s.inFlight, a) == 0 && InUse(s, a) == 1
  {
    var s1 := Next(Init(1), Create(j, a));
    assert [Create(j, a), Boot][1..] == [Boot];
    assert Run(Init(1), [Create(j, a), Boot]) == Run(s1, [Boot]) == Run(Reboot(s1), []);
    BootShortfall(s1, a);
    assert OpenSet(s1, a) == {j};
  }
}
