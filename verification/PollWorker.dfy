/** The background poller: one pass over a snapshot of live jobs, written as the steps of the
    terminal protocol that its writes are. */
module PollWorker {
  import opened Wrappers
  import opened TerminalProtocol

  /** A row of the ListPending snapshot; it may be stale by the time it is polled. */
  datatype Job = Job(id: JobId, upstreamJobId: string, status: Status, requestTS: Option<int>)

  /** What the outside world answers while one job is polled. */
  datatype Reply =
    | NoAccount
    | StatusFailed
    | StatusIs(word: string, details: Details)

  datatype Details = FetchFailed | Fetched(refunded: bool)

  predicate IsTerminal(word: string) {
    word in {"completed", "failed", "nsfw", "terminated"}
  }

  /** Upstream's word as the jobs table stores it. */
  function Stored(word: string): (s: Status)
    ensures s.Other? ==> s.word == word
    ensures Live(s) <==> word in {"queued", "pending", "in_progress"}
    ensures !Terminal(s)
  {
    match word
    case "queued" => Queued
    case "pending" => Pending
    case "in_progress" => InProgress
    case _ => Other(word)
  }

  function DomainStatus(word: string, refunded: bool): (s: Status)
    ensures IsTerminal(word) ==> Terminal(s) && s != Timeout
    ensures IsTerminal(word) ==> (s == Completed <==> word == "completed")
    ensures IsTerminal(word) ==> (s == Refunded <==> refunded && word != "completed")
    ensures !IsTerminal(word) ==> s == Stored(word)
  {
    match word
    case "completed" => Completed
    case "failed" => if refunded then Refunded else Failed
    case "terminated" => if refunded then Refunded else Failed
    case "nsfw" => if refunded then Refunded else Failed
    case _ => Stored(word)
  }

  type Polled = map<string, int>

  datatype Config = Config(self: nat, jobDeadline: int, perJobMinInterval: int)

  predicate Overdue(c: Config, j: Job, now: int) {
    j.requestTS.Some? && now - j.requestTS.value > c.jobDeadline
  }

  predicate Due(c: Config, polled: Polled, j: Job, now: int) {
    j.upstreamJobId != ""
    && (j.upstreamJobId in polled ==> now - polled[j.upstreamJobId] >= c.perJobMinInterval)
  }

  /** The writes of one poll, as protocol steps. */
  function PollSteps(c: Config, polled: Polled, j: Job, now: int, r: Reply): seq<Step> {
    if Overdue(c, j, now) then WinSteps(c.self, j.id, Timeout)
    else if !Due(c, polled, j, now) then []
    else
      match r
      case NoAccount => []
      case StatusFailed => [Progress(j.id, j.status)]
      case StatusIs(word, details) =>
        if !IsTerminal(word) then if Stored(word) != j.status then [Progress(j.id, Stored(word))] else []
        else if details.FetchFailed? then []
        else WinSteps(c.self, j.id, DomainStatus(word, details.refunded))
  }

  /** The poll gate after one poll: set once the status endpoint has been asked. */
  function PollGate(c: Config, polled: Polled, j: Job, now: int, r: Reply): Polled {
    if Overdue(c, j, now) || !Due(c, polled, j, now) || r.NoAccount? then polled
    else polled[j.upstreamJobId := now]
  }

  function TickSteps(c: Config, polled: Polled, live: seq<Job>, replies: seq<Reply>, now: int): seq<Step>
    requires |live| == |replies|
    decreases |live|
  {
    if live == [] then []
    else
      PollSteps(c, polled, live[0], now, replies[0])
      + TickSteps(c, PollGate(c, polled, live[0], now, replies[0]), live[1..], replies[1..], now)
  }

  function TickGate(c: Config, polled: Polled, live: seq<Job>, replies: seq<Reply>, now: int): Polled
    requires |live| == |replies|
    decreases |live|
  {
    if live == [] then polled
    else TickGate(c, PollGate(c, polled, live[0], now, replies[0]), live[1..], replies[1..], now)
  }

  class Worker {
    const cfg: Config
    var store: State
    var lastPolled: Polled

    constructor (cfg: Config, store: State)
      ensures this.cfg == cfg && this.store == store && lastPolled == map[]
    {
      this.cfg, this.store, lastPolled := cfg, store, map[];
    }

    ghost predicate Ready()
      reads this
    {
      cfg.self < |store.agents| && store.agents[cfg.self] == Idle
    }

    /** One compare-and-swap and, if it is won, the side effects in order. */
    method Terminate(id: JobId, to: Status)
      requires Ready() && id in store.account && Terminal(to)
      modifies this`store
      ensures store == Run(old(store), WinSteps(cfg.self, id, to))
      ensures Ready() && store.account == old(store.account)
    {
      WinRuns(store, cfg.self, id, to);
      store := TryMarkTerminal(store, cfg.self, id, to);
      var won := store.agents[cfg.self] != Idle;
      if !won {
        return;
      }
      WonStates(old(store), cfg.self, id, to);
      store := ReleaseSlot(store, cfg.self);
      store := MeterJob(store, cfg.self);
      store := BackFillRow(store, cfg.self);
      store := NotifyCaller(store, cfg.self);
    }

    method PollOne(j: Job, now: int, r: Reply)
      requires Ready() && j.id in store.account
      modifies this
      ensures store == Run(old(store), PollSteps(cfg, old(lastPolled), j, now, r))
      ensures lastPolled == PollGate(cfg, old(lastPolled), j, now, r)
      ensures Ready() && store.account == old(store.account)
    {
      if j.requestTS.Some? && now - j.requestTS.value > cfg.jobDeadline {
        Terminate(j.id, Timeout);
        return;
      }
      if j.upstreamJobId == "" {
        return;
      }
      if j.upstreamJobId in lastPolled && now - lastPolled[j.upstreamJobId] < cfg.perJobMinInterval {
        return;
      }
      if r.NoAccount? {
        return;
      }
      lastPolled := lastPolled[j.upstreamJobId := now];
      if r.StatusFailed? {
        store := WriteProgress(store, j.id, j.status);
        return;
      }
      if !IsTerminal(r.word) {
        if Stored(r.word) != j.status {
          store := WriteProgress(store, j.id, Stored(r.word));
        }
        return;
      }
      if r.details.FetchFailed? {
        return;
      }
      Terminate(j.id, DomainStatus(r.word, r.details.refunded));
    }

    /** One pass: every write it makes is a step of the protocol, in snapshot order. */
    method Tick(live: seq<Job>, replies: seq<Reply>, now: int)
      requires |live| == |replies| && Ready()
      requires forall n :: 0 <= n < |live| ==> live[n].id in store.account
      modifies this
      ensures store == Run(old(store), TickSteps(cfg, old(lastPolled), live, replies, now))
      ensures lastPolled == TickGate(cfg, old(lastPolled), live, replies, now)
      ensures Ready()
    {
      for n := 0 to |live|
        invariant Ready() && store.account == old(store.account)
        invariant Run(store, TickSteps(cfg, lastPolled, live[n..], replies[n..], now))
               == Run(old(store), TickSteps(cfg, old(lastPolled), live, replies, now))
        invariant TickGate(cfg, lastPolled, live[n..], replies[n..], now)
               == TickGate(cfg, old(lastPolled), live, replies, now)
      {
        assert live[n..][1..] == live[n + 1..] && replies[n..][1..] == replies[n + 1..];
        RunConcat(store, PollSteps(cfg, lastPolled, live[n], now, replies[n]),
                  TickSteps(cfg, PollGate(cfg, lastPolled, live[n], now, replies[n]),
                            live[n + 1..], replies[n + 1..], now));
        PollOne(live[n], now, replies[n]);
      }
    }
  }

  // ---------------------------------------------------------------- the worker on its own

  /** What ListPending promises at the moment it is read. */
  ghost predicate Snapshot(s: State, live: seq<Job>) {
    && (forall n :: 0 <= n < |live| ==> live[n].id in s.account && LiveBit(s, live[n].id) == 1 && Live(live[n].status))
    && (forall m, n :: 0 <= m < n < |live| ==> live[m].id != live[n].id)
  }

  /** Row and log of a job are as they were. */
  ghost predicate SameJob(s: State, t: State, j: JobId) {
    && (j in s.rows <==> j in t.rows) && (j in s.rows && j in t.rows ==> s.rows[j] == t.rows[j])
    && At(t.log.wins, j) == At(s.log.wins, j) && At(t.log.releases, j) == At(s.log.releases, j)
    && At(t.log.meterings, j) == At(s.log.meterings, j) && At(t.log.notices, j) == At(s.log.notices, j)
    && multiset(t.usage)[j] == multiset(s.usage)[j]
  }

  /** One job moved on: nothing was revived, the job is as open as it is not won, and no other job
      noticed. */
  ghost predicate MovedOn(s: State, t: State, j: JobId) {
    && t.log.revivals == s.log.revivals && t.account == s.account && t.agents == s.agents
    && (forall k :: k != j ==> SameJob(s, t, k))
    && At(t.log.wins, j) + OpenBit(t, j) == At(s.log.wins, j) + 1
  }

  lemma WinMovesOn(c: Config, s: State, j: JobId, to: Status)
    requires c.self < |s.agents| && s.agents[c.self] == Idle && j in s.account && LiveBit(s, j) == 1 && Terminal(to)
    ensures MovedOn(s, Run(s, WinSteps(c.self, j, to)), j)
  {
    WinRuns(s, c.self, j, to);
    WonMovesOn(s, c.self, j, to);
  }

  lemma WonMovesOn(s: State, i: nat, j: JobId, to: Status)
    requires j in s.account && LiveBit(s, j) == 1 && Terminal(to)
    ensures MovedOn(s, Won(s, i, j, to), j)
  {}

  lemma ProgressMovesOn(s: State, j: JobId, status: Status)
    requires LiveBit(s, j) == 1 && !Terminal(status)
    ensures MovedOn(s, Run(s, [Progress(j, status)]), j)
    ensures Run(s, [Progress(j, status)]) == s.(rows := s.rows[j := status])
  {
    assert Run(s, [Progress(j, status)]) == Run(WriteProgress(s, j, status), []);
  }

  lemma PollLeavesOthers(c: Config, polled: Polled, s: State, j: Job, now: int, r: Reply)
    requires c.self < |s.agents| && s.agents[c.self] == Idle && j.id in s.account
    requires LiveBit(s, j.id) == 1 && Live(j.status)
    ensures MovedOn(s, Run(s, PollSteps(c, polled, j, now, r)), j.id)
  {
    if Overdue(c, j, now) {
      WinMovesOn(c, s, j.id, Timeout);
    } else if Due(c, polled, j, now) {
      match r
      case NoAccount =>
      case StatusFailed => ProgressMovesOn(s, j.id, j.status);
      case StatusIs(word, details) =>
        if IsTerminal(word) && details.Fetched? {
          WinMovesOn(c, s, j.id, DomainStatus(word, details.refunded));
        } else if !IsTerminal(word) {
          ProgressMovesOn(s, j.id, Stored(word));
        }
    }
  }

  // ---------------------------------------------------------------- what one poll does to a live row

  /** The request is older than the deadline. */
  predicate Expired(c: Config, j: Job, now: int) {
    j.requestTS.Some? && j.requestTS.value + c.jobDeadline < now
  }

  /** The job has an upstream id that was not asked about less than the interval ago. */
  predicate Asks(c: Config, polled: Polled, j: Job, now: int) {
    j.upstreamJobId != ""
    && !(j.upstreamJobId in polled && polled[j.upstreamJobId] + c.perJobMinInterval > now)
  }

  /** How a poll ends the job, if it does: by the deadline, else by a terminal word of upstream's
      with the details of the job. */
  predicate EndsAs(c: Config, polled: Polled, j: Job, now: int, r: Reply, to: Status) {
    if Expired(c, j, now) then to == Timeout
    else
      Asks(c, polled, j, now) && r.StatusIs? && r.details.Fetched?
      && match r.word
         case "completed" => to == Completed
         case "failed" => to == if r.details.refunded then Refunded else Failed
         case "terminated" => to == if r.details.refunded then Refunded else Failed
         case "nsfw" => to == if r.details.refunded then Refunded else Failed
         case _ => false
  }

  predicate Ends(c: Config, polled: Polled, j: Job, now: int, r: Reply) {
    EndsAs(c, polled, j, now, r, Completed) || EndsAs(c, polled, j, now, r, Failed)
    || EndsAs(c, polled, j, now, r, Refunded) || EndsAs(c, polled, j, now, r, Timeout)
  }

  /** The job's row has the final status, and each effect of the end ran once more. */
  ghost predicate EndedAs(s: State, t: State, j: JobId, to: Status) {
    && j in t.rows && t.rows[j] == to && Terminal(to)
    && At(t.log.wins, j) == At(s.log.wins, j) + 1 && At(t.log.releases, j) == At(s.log.releases, j) + 1
    && At(t.log.meterings, j) == At(s.log.meterings, j) + 1 && At(t.log.notices, j) == At(s.log.notices, j) + 1
    && j in t.usage
  }

  /** The job goes on: no effect, and its row is `status`. */
  ghost predicate GoesOn(s: State, t: State, j: JobId, status: Status) {
    && t == s.(rows := s.rows[j := status])
    && !Terminal(status)
  }

  /** The status of a job's row after a poll that does not end it. */
  function Progressed(c: Config, polled: Polled, j: Job, now: int, r: Reply, was: Status): Status {
    if !Asks(c, polled, j, now) then was
    else
      match r
      case NoAccount => was
      case StatusFailed => j.status
      case StatusIs(word, _) =>
        if word in {"completed", "failed", "nsfw", "terminated"} || Stored(word) == j.status then was else Stored(word)
  }

  lemma WonEnds(s: State, i: nat, j: JobId, to: Status)
    requires j in s.account && LiveBit(s, j) == 1 && Terminal(to)
    ensures EndedAs(s, Won(s, i, j, to), j, to)
  {}

  lemma WinEnds(c: Config, s: State, j: JobId, to: Status)
    requires c.self < |s.agents| && s.agents[c.self] == Idle && j in s.account && LiveBit(s, j) == 1 && Terminal(to)
    ensures EndedAs(s, Run(s, WinSteps(c.self, j, to)), j, to)
  {
    WinRuns(s, c.self, j, to);
    WonEnds(s, c.self, j, to);
  }

  /** One poll of a live row, exactly: if it ends the job, the row has the final status and slot
      release, metering and notice ran once; if not, at most the row's own status has changed. */
  lemma PollSettles(c: Config, polled: Polled, s: State, j: Job, now: int, r: Reply)
    requires c.self < |s.agents| && s.agents[c.self] == Idle && j.id in s.account
    requires LiveBit(s, j.id) == 1 && Live(j.status)
    ensures var t := Run(s, PollSteps(c, polled, j, now, r));
            && (forall to :: EndsAs(c, polled, j, now, r, to) ==> EndedAs(s, t, j.id, to))
            && (!Ends(c, polled, j, now, r) ==>
                  GoesOn(s, t, j.id, Progressed(c, polled, j, now, r, s.rows[j.id])))
  {
    if Expired(c, j, now) {
      WinEnds(c, s, j.id, Timeout);
    } else if Ends(c, polled, j, now, r) {
      WinEnds(c, s, j.id, DomainStatus(r.word, r.details.refunded));
      EndIsUnique(c, polled, j, now, r);
    } else {
      PollGoesOn(c, polled, s, j, now, r);
    }
  }

  lemma EndIsUnique(c: Config, polled: Polled, j: Job, now: int, r: Reply)
    requires !Expired(c, j, now) && Ends(c, polled, j, now, r)
    ensures r.StatusIs? && r.details.Fetched? && IsTerminal(r.word)
    ensures forall to :: EndsAs(c, polled, j, now, r, to) ==> to == DomainStatus(r.word, r.details.refunded)
    ensures PollSteps(c, polled, j, now, r) == WinSteps(c.self, j.id, DomainStatus(r.word, r.details.refunded))
  {}

  lemma PollGoesOn(c: Config, polled: Polled, s: State, j: Job, now: int, r: Reply)
    requires LiveBit(s, j.id) == 1 && Live(j.status)
    requires !Expired(c, j, now) && !Ends(c, polled, j, now, r)
    ensures GoesOn(s, Run(s, PollSteps(c, polled, j, now, r)), j.id, Progressed(c, polled, j, now, r, s.rows[j.id]))
    ensures forall to :: !EndsAs(c, polled, j, now, r, to)
  {
    assert s.rows[j.id := s.rows[j.id]] == s.rows;
    if Asks(c, polled, j, now) {
      match r
      case NoAccount =>
      case StatusFailed => ProgressMovesOn(s, j.id, j.status);
      case StatusIs(word, _) => if !IsTerminal(word) { ProgressMovesOn(s, j.id, Stored(word)); }
    }
  }

  // ---------------------------------------------------------------- a pass on an undisturbed snapshot

  lemma SnapshotMovesOn(s: State, t: State, live: seq<Job>)
    requires live != [] && Snapshot(s, live) && MovedOn(s, t, live[0].id)
    ensures Snapshot(t, live[1..])
  {
    forall n | 0 <= n < |live[1..]|
      ensures live[1..][n].id in t.account && LiveBit(t, live[1..][n].id) == 1 && Live(live[1..][n].status) {
      assert SameJob(s, t, live[n + 1].id);
    }
  }

  /** On a snapshot that nobody else has touched since it was read, a pass never revives a row
      and wins each job at most once: the wins it adds are exactly the rows it terminates. */
  lemma {:induction false} UndisturbedTick(c: Config, polled: Polled, s: State, live: seq<Job>, replies: seq<Reply>,
                                           now: int)
    requires |live| == |replies| && Snapshot(s, live) && c.self < |s.agents| && s.agents[c.self] == Idle
    ensures var t := Run(s, TickSteps(c, polled, live, replies, now));
            && t.log.revivals == s.log.revivals
            && forall j :: At(t.log.wins, j) + OpenBit(t, j) == At(s.log.wins, j) + OpenBit(s, j)
    decreases |live|
  {
    if live != [] {
      var steps := PollSteps(c, polled, live[0], now, replies[0]);
      var next := PollGate(c, polled, live[0], now, replies[0]);
      var t := Run(s, steps);
      PollLeavesOthers(c, polled, s, live[0], now, replies[0]);
      SnapshotMovesOn(s, t, live);
      UndisturbedTick(c, next, t, live[1..], replies[1..], now);
      RunConcat(s, steps, TickSteps(c, next, live[1..], replies[1..], now));
      forall j ensures At(t.log.wins, j) + OpenBit(t, j) == At(s.log.wins, j) + OpenBit(s, j) {
        if j != live[0].id { assert SameJob(s, t, j); }
      }
    }
  }

  lemma SameJobTwice(s: State, t: State, u: State, j: JobId)
    requires SameJob(s, t, j) && SameJob(t, u, j)
    ensures SameJob(s, u, j)
  {}

  /** A pass touches no job outside its snapshot. */
  lemma {:induction false} TickLeavesOthers(c: Config, polled: Polled, s: State, live: seq<Job>, replies: seq<Reply>,
                                            now: int, k: JobId)
    requires |live| == |replies| && Snapshot(s, live) && c.self < |s.agents| && s.agents[c.self] == Idle
    requires forall n :: 0 <= n < |live| ==> live[n].id != k
    ensures SameJob(s, Run(s, TickSteps(c, polled, live, replies, now)), k)
    decreases |live|
  {
    if live != [] {
      var steps := PollSteps(c, polled, live[0], now, replies[0]);
      var next := PollGate(c, polled, live[0], now, replies[0]);
      var t := Run(s, steps);
      PollLeavesOthers(c, polled, s, live[0], now, replies[0]);
      SnapshotMovesOn(s, t, live);
      TickLeavesOthers(c, next, t, live[1..], replies[1..], now, k);
      RunConcat(s, steps, TickSteps(c, next, live[1..], replies[1..], now));
      SameJobTwice(s, t, Run(s, TickSteps(c, polled, live, replies, now)), k);
    }
  }

  /** No earlier job of the pass asks about the same upstream job. */
  predicate FirstOfItsKind(live: seq<Job>, n: nat)
    requires n < |live|
  {
    forall m :: 0 <= m < n ==> live[m].upstreamJobId != live[n].upstreamJobId
  }

  /** What a pass on an undisturbed snapshot has done to job n when it is over. */
  ghost predicate Settled(c: Config, polled: Polled, s: State, t: State, j: Job, now: int, r: Reply) {
    && j.id in s.rows && j.id in t.rows
    && (forall to :: EndsAs(c, polled, j, now, r, to) ==> EndedAs(s, t, j.id, to))
    && (!Ends(c, polled, j, now, r) ==>
          && t.rows[j.id] == Progressed(c, polled, j, now, r, s.rows[j.id]) && !Terminal(t.rows[j.id])
          && At(t.log.wins, j.id) == At(s.log.wins, j.id) && At(t.log.releases, j.id) == At(s.log.releases, j.id)
          && At(t.log.meterings, j.id) == At(s.log.meterings, j.id)
          && At(t.log.notices, j.id) == At(s.log.notices, j.id))
  }

  /** What holds after one poll holds when others have been polled before or after it. */
  lemma SettledAfter(c: Config, polled: Polled, s: State, t: State, u: State, j: Job, now: int, r: Reply)
    requires Settled(c, polled, s, t, j, now, r) && SameJob(t, u, j.id)
    ensures Settled(c, polled, s, u, j, now, r)
  {
    assert j.id in t.usage <==> multiset(t.usage)[j.id] > 0;
    assert j.id in u.usage <==> multiset(u.usage)[j.id] > 0;
  }

  lemma SettledBefore(c: Config, polled: Polled, s: State, t: State, u: State, j: Job, now: int, r: Reply)
    requires SameJob(s, t, j.id) && Settled(c, polled, t, u, j, now, r)
    ensures Settled(c, polled, s, u, j, now, r)
  {}

  lemma FirstSettles(c: Config, polled: Polled, s: State, live: seq<Job>, replies: seq<Reply>, now: int)
    requires |live| == |replies| && live != [] && Snapshot(s, live) && c.self < |s.agents| && s.agents[c.self] == Idle
    ensures Settled(c, polled, s, Run(s, TickSteps(c, polled, live, replies, now)), live[0], now, replies[0])
  {
    var next := PollGate(c, polled, live[0], now, replies[0]);
    var t := Run(s, PollSteps(c, polled, live[0], now, replies[0]));
    OnePoll(c, polled, s, live, replies, now);
    PollSettles(c, polled, s, live[0], now, replies[0]);
    assert Settled(c, polled, s, t, live[0], now, replies[0]);
    TickLeavesOthers(c, next, t, live[1..], replies[1..], now, live[0].id);
    SettledAfter(c, polled, s, t, Run(t, TickSteps(c, next, live[1..], replies[1..], now)), live[0], now, replies[0]);
  }

  /** The poll gate when the pass comes to job n. */
  function GateAt(c: Config, polled: Polled, live: seq<Job>, replies: seq<Reply>, now: int, n: nat): Polled
    requires |live| == |replies| && n <= |live|
    decreases n
  {
    if n == 0 then polled
    else GateAt(c, PollGate(c, polled, live[0], now, replies[0]), live[1..], replies[1..], now, n - 1)
  }

  /** A pass on an undisturbed snapshot settles every job: exactly the overdue jobs and those with a
      due terminal answer have a terminal row afterwards, the one their poll calls for, with slot
      release, metering and notice run once; the others go on. */
  lemma {:induction false} TickSettles(c: Config, polled: Polled, s: State, live: seq<Job>, replies: seq<Reply>,
                                       now: int, n: nat)
    requires |live| == |replies| && Snapshot(s, live) && c.self < |s.agents| && s.agents[c.self] == Idle
    requires n < |live|
    ensures Settled(c, GateAt(c, polled, live, replies, now, n), s, Run(s, TickSteps(c, polled, live, replies, now)),
                    live[n], now, replies[n])
    decreases n
  {
    if n == 0 {
      FirstSettles(c, polled, s, live, replies, now);
    } else {
      var next := PollGate(c, polled, live[0], now, replies[0]);
      var t := Run(s, PollSteps(c, polled, live[0], now, replies[0]));
      OnePoll(c, polled, s, live, replies, now);
      TickSettles(c, next, t, live[1..], replies[1..], now, n - 1);
      assert SameJob(s, t, live[n].id);
      SettledBefore(c, GateAt(c, next, live[1..], replies[1..], now, n - 1), s, t,
                    Run(t, TickSteps(c, next, live[1..], replies[1..], now)), live[n], now, replies[n]);
    }
  }

  lemma OnePoll(c: Config, polled: Polled, s: State, live: seq<Job>, replies: seq<Reply>, now: int)
    requires |live| == |replies| && live != [] && Snapshot(s, live) && c.self < |s.agents| && s.agents[c.self] == Idle
    ensures var next := PollGate(c, polled, live[0], now, replies[0]);
            var t := Run(s, PollSteps(c, polled, live[0], now, replies[0]));
            MovedOn(s, t, live[0].id) && Snapshot(t, live[1..])
            && Run(s, TickSteps(c, polled, live, replies, now)) ==
               Run(t, TickSteps(c, next, live[1..], replies[1..], now))
  {
    var steps := PollSteps(c, polled, live[0], now, replies[0]);
    var next := PollGate(c, polled, live[0], now, replies[0]);
    PollLeavesOthers(c, polled, s, live[0], now, replies[0]);
    SnapshotMovesOn(s, Run(s, steps), live);
    RunConcat(s, steps, TickSteps(c, next, live[1..], replies[1..], now));
  }

  /** The gate matters only where a pass asks about one upstream job twice. */
  lemma {:induction false} GateOfFirst(c: Config, polled: Polled, live: seq<Job>, replies: seq<Reply>, now: int, n: nat)
    requires |live| == |replies| && n < |live| && FirstOfItsKind(live, n)
    ensures Asks(c, GateAt(c, polled, live, replies, now, n), live[n], now) <==> Asks(c, polled, live[n], now)
    decreases n
  {
    if n > 0 {
      assert forall m :: 0 <= m < n - 1 ==> live[1..][m] == live[m + 1];
      GateOfFirst(c, PollGate(c, polled, live[0], now, replies[0]), live[1..], replies[1..], now, n - 1);
    }
  }

  // ---------------------------------------------------------------- spacing

  datatype Poll = Poll(job: Job, at: int, reply: Reply)

  /** The poll gate after the first n polls. */
  function GateAfter(c: Config, polled: Polled, polls: seq<Poll>, n: nat): Polled
    requires n <= |polls|
  {
    if n == 0 then polled
    else PollGate(c, GateAfter(c, polled, polls, n - 1), polls[n - 1].job, polls[n - 1].at, polls[n - 1].reply)
  }

  /** Poll n asks upstream for the status of its job. */
  predicate AskedAt(c: Config, polled: Polled, polls: seq<Poll>, n: nat)
    requires n < |polls|
  {
    var p := polls[n];
    !Expired(c, p.job, p.at) && Asks(c, GateAfter(c, polled, polls, n), p.job, p.at) && !p.reply.NoAccount?
  }

  lemma {:induction false} GateRemembers(c: Config, polled: Polled, polls: seq<Poll>, m: nat, n: nat)
    requires m < n <= |polls| && AskedAt(c, polled, polls, m)
    requires forall i, j :: 0 <= i < j < |polls| ==> polls[i].at <= polls[j].at
    ensures var id, gate := polls[m].job.upstreamJobId, GateAfter(c, polled, polls, n);
            id in gate && gate[id] >= polls[m].at
    decreases n
  {
    if n > m + 1 { GateRemembers(c, polled, polls, m, n - 1); }
  }

  /** One upstream job is never asked about twice within the interval. */
  lemma AsksAreSpaced(c: Config, polled: Polled, polls: seq<Poll>, m: nat, n: nat)
    requires m < n < |polls| && AskedAt(c, polled, polls, m) && AskedAt(c, polled, polls, n)
    requires forall i, j :: 0 <= i < j < |polls| ==> polls[i].at <= polls[j].at
    requires polls[m].job.upstreamJobId == polls[n].job.upstreamJobId
    ensures polls[n].at - polls[m].at >= c.perJobMinInterval
  {
    GateRemembers(c, polled, polls, m, n);
  }
}
