/** Usage metering: one usage row per job, and the key and group counters that go with it.
    Amounts are hundredths of a credit. */
module Metering {
  import opened Wrappers

  datatype Job = Job(id: string, keyId: string, groupId: string, accountId: string, upstreamCost: int, status: string)
  datatype Account = Account(id: string, balance: int)
  datatype Call = Call(job: Job, account: Option<Account>, preBalance: int, markup: real)

  datatype Usage = Usage(jobId: string, keyId: string, groupId: string, accountId: string, status: string,
                         actual: int, charged: int, markup: real)
  datatype JobRow = JobRow(status: string, actual: int, charged: int)

  datatype Outcome = NilJob | Duplicate | Recorded

  datatype Ledger = Ledger(
    usage: seq<Usage>, keys: map<string, int>, groups: map<string, int>, jobs: map<string, JobRow>)

  // ---------------------------------------------------------------- one call

  /** The balance drop when it is known and positive, else the quoted cost, never negative. */
  function Actual(c: Call): (h: int)
    ensures h >= 0
    ensures c.account.Some? && c.preBalance > 0 && c.account.value.balance < c.preBalance ==>
              c.account.value.balance + h == c.preBalance
    ensures c.account == None || c.preBalance <= 0 || c.account.value.balance >= c.preBalance ==>
              h >= c.job.upstreamCost && (h == 0 || h == c.job.upstreamCost)
  {
    if c.account.Some? && c.preBalance > 0 && c.preBalance > c.account.value.balance
    then c.preBalance - c.account.value.balance
    else if c.job.upstreamCost > 0 then c.job.upstreamCost
    else 0
  }

  function Markup(m: real): real { if m <= 0.0 then 1.0 else m }

  function ChargeFor(actual: int, markup: real): int { ((actual as real) * Markup(markup)).Floor }

  function Charged(c: Call): int { ChargeFor(Actual(c), c.markup) }

  function UsageOf(c: Call): Usage {
    Usage(c.job.id, c.job.keyId, c.job.groupId,
          if c.account.Some? && c.account.value.id != "" then c.account.value.id else c.job.accountId,
          c.job.status, Actual(c), Charged(c), Markup(c.markup))
  }

  predicate HasUsage(us: seq<Usage>, jobId: string) { exists i :: 0 <= i < |us| && us[i].jobId == jobId }

  /** A counter that gains what is due to it; an unknown or empty id gains nothing. */
  function Credit(m: map<string, int>, id: string, amount: int): map<string, int> {
    if id != "" && amount > 0 && id in m then m[id := m[id] + amount] else m
  }

  function BackFill(jobs: map<string, JobRow>, id: string, status: string, actual: int, charged: int)
    : map<string, JobRow> {
    if id !in jobs then jobs
    else
      var was := jobs[id];
      jobs[id := JobRow(status, if actual != 0 then actual else was.actual,
                        if charged != 0 then charged else was.charged)]
  }

  function After(l: Ledger, c: Call): Ledger {
    if HasUsage(l.usage, c.job.id) then l
    else Ledger(l.usage + [UsageOf(c)],
                Credit(l.keys, c.job.keyId, Charged(c)),
                Credit(l.groups, c.job.groupId, Charged(c)),
                BackFill(l.jobs, c.job.id, c.job.status, Actual(c), Charged(c)))
  }

  class Recorder {
    var usage: seq<Usage>
    var keys: map<string, int>
    var groups: map<string, int>
    var jobs: map<string, JobRow>

    ghost function Contents(): Ledger
      reads this
    {
      Ledger(usage, keys, groups, jobs)
    }

    method InsertUsage(u: Usage) returns (duplicate: bool)
      modifies this`usage
      ensures duplicate == HasUsage(old(usage), u.jobId)
      ensures usage == if duplicate then old(usage) else old(usage) + [u]
    {
      duplicate := exists i :: 0 <= i < |usage| && usage[i].jobId == u.jobId;
      if !duplicate { usage := usage + [u]; }
    }

    method UpdateJob(id: string, status: string, actual: int, charged: int)
      modifies this`jobs
      ensures jobs == BackFill(old(jobs), id, status, actual, charged)
    {
      if id !in jobs { return; }
      var row := jobs[id].(status := status);
      if actual != 0 { row := row.(actual := actual); }
      if charged != 0 { row := row.(charged := charged); }
      jobs := jobs[id := row];
    }

    method IncrementKey(id: string, amount: int)
      modifies this`keys
      ensures keys == if id in old(keys) then old(keys)[id := old(keys)[id] + amount] else old(keys)
    {
      if id in keys { keys := keys[id := keys[id] + amount]; }
    }

    method IncrementGroup(id: string, amount: int)
      modifies this`groups
      ensures groups == if id in old(groups) then old(groups)[id := old(groups)[id] + amount] else old(groups)
    {
      if id in groups { groups := groups[id := groups[id] + amount]; }
    }

    method Price(j: Job, account: Option<Account>, preBalance: int, markupPct: real)
      returns (actual: int, markup: real, charged: int)
      ensures var c := Call(j, account, preBalance, markupPct);
              actual == Actual(c) && markup == Markup(markupPct) && charged == Charged(c)
    {
      actual := 0;
      if account.Some? && preBalance > 0 {
        var delta := preBalance - account.value.balance;
        if delta > 0 { actual := delta; }
      }
      if actual == 0 { actual := j.upstreamCost; }
      if actual < 0 { actual := 0; }
      markup := markupPct;
      if markup <= 0.0 { markup := 1.0; }
      charged := ((actual as real) * markup).Floor;
    }

    method OnJobTerminal(job: Option<Job>, account: Option<Account>, preBalance: int, markupPct: real)
      returns (outcome: Outcome)
      modifies this
      ensures job == None ==> outcome == NilJob && Contents() == old(Contents())
      ensures job.Some? ==>
                var c := Call(job.value, account, preBalance, markupPct);
                Contents() == After(old(Contents()), c)
                && outcome == if HasUsage(old(usage), job.value.id) then Duplicate else Recorded
    {
      if job == None { return NilJob; }
      var j := job.value;
      var actual, markup, charged := Price(j, account, preBalance, markupPct);
      var accountId := if account.Some? then account.value.id else "";
      if accountId == "" { accountId := j.accountId; }

      var duplicate := InsertUsage(Usage(j.id, j.keyId, j.groupId, accountId, j.status, actual, charged, markup));
      if duplicate { return Duplicate; }
      UpdateJob(j.id, j.status, actual, charged);
      if j.keyId != "" && charged > 0 { IncrementKey(j.keyId, charged); }
      if j.groupId != "" && charged > 0 { IncrementGroup(j.groupId, charged); }
      return Recorded;
    }
  }

  // ---------------------------------------------------------------- the charge

  lemma FloorMonotone(x: real, y: real)
    requires x <= y
    ensures x.Floor <= y.Floor
  {}

  lemma RoundsDown(actual: int, markup: real)
    requires actual >= 0
    ensures 0 <= ChargeFor(actual, markup)
    ensures ChargeFor(actual, markup) as real <= (actual as real) * Markup(markup)
    ensures (actual as real) * Markup(markup) < ChargeFor(actual, markup) as real + 1.0
  {
    Scale(0.0, actual as real, Markup(markup));
    FloorMonotone(0.0, (actual as real) * Markup(markup));
  }

  /** Charges are never negative, grow with the actual cost and with a positive markup, and no
      markup (zero or less) charges the cost itself. */
  lemma ChargeIsSound(a: int, b: int, m: real, n: real)
    requires 0 <= a <= b
    ensures 0 <= ChargeFor(a, m) <= ChargeFor(b, m)
    ensures 0.0 < m <= n ==> ChargeFor(a, m) <= ChargeFor(a, n)
    ensures m <= 0.0 ==> ChargeFor(a, m) == a
    ensures m > 0.0 ==> ChargeFor(a, m) as real <= (a as real) * m < ChargeFor(a, m) as real + 1.0
  {
    RoundsDown(a, m);
    ChargeGrows(a, b, m);
    if 0.0 < m <= n { MarkupGrows(a, m, n); }
  }

  lemma ChargeGrows(a: int, b: int, m: real)
    requires 0 <= a <= b
    ensures ChargeFor(a, m) <= ChargeFor(b, m)
  {
    Scale(a as real, b as real, Markup(m));
    FloorMonotone((a as real) * Markup(m), (b as real) * Markup(m));
  }

  lemma MarkupGrows(a: int, m: real, n: real)
    requires a >= 0 && 0.0 < m <= n
    ensures ChargeFor(a, m) <= ChargeFor(a, n)
  {
    Scale(m, n, a as real);
    Commutes(m, a as real);
    Commutes(n, a as real);
    FloorMonotone((a as real) * m, (a as real) * n);
  }

  lemma Commutes(x: real, y: real)
    ensures x * y == y * x
  {}

  /** The usage row of a job's first call: the actual cost and, with a positive markup, that cost
      times the markup, rounded down; without one, the cost itself. The row names the account the
      call resolved, or the job's if it resolved none, and the multiplier that was applied. */
  lemma UsageRow(l: Ledger, c: Call)
    requires !HasUsage(l.usage, c.job.id)
    ensures var us := After(l, c).usage;
            |us| == |l.usage| + 1 && us[..|l.usage|] == l.usage
            && var u := us[|l.usage|];
               && u.jobId == c.job.id && u.keyId == c.job.keyId && u.groupId == c.job.groupId
               && u.status == c.job.status
               && u.actual == Actual(c)
               && (c.markup > 0.0 ==>
                     u.markup == c.markup
                     && u.charged as real <= (u.actual as real) * c.markup < u.charged as real + 1.0)
               && (c.markup <= 0.0 ==> u.markup == 1.0 && u.charged == u.actual)
               && (c.account.Some? && c.account.value.id != "" ==> u.accountId == c.account.value.id)
               && (c.account == None || c.account.value.id == "" ==> u.accountId == c.job.accountId)
  {
    ChargeIsSound(Actual(c), Actual(c), c.markup, c.markup);
  }

  // ---------------------------------------------------------------- whole runs

  function Run(l: Ledger, calls: seq<Call>): Ledger {
    if calls == [] then l else After(Run(l, calls[..|calls| - 1]), calls[|calls| - 1])
  }

  /** No usage row and no earlier call has this call's job. */
  predicate IsFirst(us: seq<Usage>, calls: seq<Call>, i: nat)
    requires i < |calls|
  {
    !HasUsage(us, calls[i].job.id) && forall j :: 0 <= j < i ==> calls[j].job.id != calls[i].job.id
  }

  /** What the first call of each distinct job charges to the key. */
  function KeyBill(us: seq<Usage>, calls: seq<Call>, key: string): int {
    if calls == [] then 0
    else
      var n := |calls| - 1;
      KeyBill(us, calls[..n], key)
      + if IsFirst(us, calls, n) && calls[n].job.keyId == key then Charged(calls[n]) else 0
  }

  function GroupBill(us: seq<Usage>, calls: seq<Call>, group: string): int {
    if calls == [] then 0
    else
      var n := |calls| - 1;
      GroupBill(us, calls[..n], group)
      + if IsFirst(us, calls, n) && calls[n].job.groupId == group then Charged(calls[n]) else 0
  }

  lemma ChargedIsNonneg(c: Call)
    ensures Charged(c) >= 0
  {
    ChargeIsSound(Actual(c), Actual(c), c.markup, c.markup);
  }

  /** A job has a usage row exactly when it had one before or some call named it. */
  lemma {:induction false} RecordedJobs(l: Ledger, calls: seq<Call>, id: string)
    ensures HasUsage(Run(l, calls).usage, id) <==>
            HasUsage(l.usage, id) || exists i :: 0 <= i < |calls| && calls[i].job.id == id
  {
    if calls != [] {
      var init, last := calls[..|calls| - 1], calls[|calls| - 1];
      RecordedJobs(l, init, id);
      var us := Run(l, init).usage;
      HasUsageAppend(us, UsageOf(last), id);
      assert (exists i :: 0 <= i < |calls| && calls[i].job.id == id) <==>
             last.job.id == id || exists i :: 0 <= i < |init| && init[i].job.id == id;
    }
  }

  lemma HasUsageAppend(us: seq<Usage>, u: Usage, id: string)
    ensures HasUsage(us + [u], id) <==> HasUsage(us, id) || u.jobId == id
  {
    if u.jobId == id { assert (us + [u])[|us|].jobId == id; }
    if HasUsage(us, id) {
      var i :| 0 <= i < |us| && us[i].jobId == id;
      assert (us + [u])[i].jobId == id;
    }
  }

  predicate OneRowPerJob(us: seq<Usage>) {
    forall i, j :: 0 <= i < j < |us| ==> us[i].jobId != us[j].jobId
  }

  /** The unique index: rows stay distinct by job. */
  lemma {:induction false} RowsStayUnique(l: Ledger, calls: seq<Call>)
    requires OneRowPerJob(l.usage)
    ensures OneRowPerJob(Run(l, calls).usage)
  {
    if calls != [] { RowsStayUnique(l, calls[..|calls| - 1]); }
  }

  lemma FirstIsRecorded(l: Ledger, calls: seq<Call>)
    requires calls != []
    ensures var n := |calls| - 1;
            IsFirst(l.usage, calls, n) <==> !HasUsage(Run(l, calls[..n]).usage, calls[n].job.id)
  {
    var n := |calls| - 1;
    RecordedJobs(l, calls[..n], calls[n].job.id);
    assert forall i :: 0 <= i < n ==> calls[..n][i] == calls[i];
  }

  /** Conservation: over any calls, repeats included, each key and each group gains exactly what
      the first calls of the distinct jobs charge to it. */
  lemma {:induction false} BillingIsConserved(l: Ledger, calls: seq<Call>)
    ensures Run(l, calls).keys.Keys == l.keys.Keys && Run(l, calls).groups.Keys == l.groups.Keys
    ensures forall k :: k in l.keys && k != "" ==> Run(l, calls).keys[k] == l.keys[k] + KeyBill(l.usage, calls, k)
    ensures forall g :: g in l.groups && g != "" ==>
            Run(l, calls).groups[g] == l.groups[g] + GroupBill(l.usage, calls, g)
    ensures "" in l.keys ==> Run(l, calls).keys[""] == l.keys[""]
    ensures "" in l.groups ==> Run(l, calls).groups[""] == l.groups[""]
  {
    if calls != [] {
      BillingIsConserved(l, calls[..|calls| - 1]);
      FirstIsRecorded(l, calls);
      ChargedIsNonneg(calls[|calls| - 1]);
    }
  }

  function KeyRows(us: seq<Usage>, key: string): int {
    if us == [] then 0
    else KeyRows(us[..|us| - 1], key) + if us[|us| - 1].keyId == key then us[|us| - 1].charged else 0
  }

  /** The counters can be rebuilt from the rows: a key has gained what its new rows charge. */
  lemma {:induction false} CountersMatchRows(l: Ledger, calls: seq<Call>, key: string)
    requires key in l.keys && key != ""
    ensures key in Run(l, calls).keys
    ensures Run(l, calls).keys[key] - KeyRows(Run(l, calls).usage, key) == l.keys[key] - KeyRows(l.usage, key)
  {
    if calls != [] {
      var init, last := calls[..|calls| - 1], calls[|calls| - 1];
      CountersMatchRows(l, init, key);
      ChargedIsNonneg(last);
      var us := Run(l, init).usage;
      assert (us + [UsageOf(last)])[..|us|] == us;
    }
  }

  /** A repeat is harmless: calling again for recorded jobs, with whatever balances and markups,
      changes nothing. */
  lemma {:induction false} RepeatsChangeNothing(l: Ledger, calls: seq<Call>)
    requires forall i :: 0 <= i < |calls| ==> HasUsage(l.usage, calls[i].job.id)
    ensures Run(l, calls) == l
  {
    if calls != [] { RepeatsChangeNothing(l, calls[..|calls| - 1]); }
  }

  /** The job's own row, where there is one, tells the same as its usage row; an amount of zero
      leaves what was there. */
  ghost predicate RowMatches(l: Ledger, id: string, u: Usage) {
    id in l.jobs ==>
      && l.jobs[id].status == u.status
      && (u.actual != 0 ==> l.jobs[id].actual == u.actual) && (u.charged != 0 ==> l.jobs[id].charged == u.charged)
  }

  /** Over any run, every usage row that the run added agrees with its job's row, whatever calls for
      other jobs or repeats come after. */
  lemma {:induction false} JobRowsMatch(l: Ledger, calls: seq<Call>, i: nat)
    requires OneRowPerJob(l.usage) && |l.usage| <= i < |Run(l, calls).usage|
    ensures var t := Run(l, calls);
            RowMatches(t, t.usage[i].jobId, t.usage[i]) && t.jobs.Keys == l.jobs.Keys
  {
    if calls != [] {
      var init, last := calls[..|calls| - 1], calls[|calls| - 1];
      var s := Run(l, init);
      JobsStay(l, init);
      RowsStayUnique(l, calls);
      if i < |s.usage| {
        JobRowsMatch(l, init, i);
      }
    }
  }

  lemma {:induction false} JobsStay(l: Ledger, calls: seq<Call>)
    ensures Run(l, calls).jobs.Keys == l.jobs.Keys
  {
    if calls != [] { JobsStay(l, calls[..|calls| - 1]); }
  }
}
