/** The per-key token bucket with lazy eviction. Time is in seconds. */
module RateLimit {
  import opened Wrappers

  const IDLE := 3600.0

  datatype Bucket = Bucket(tokens: real, last: real, lastSeen: real)
  datatype Params = Params(rps: real, burst: int)

  predicate Positive(p: Params) { p.rps > 0.0 && p.burst > 0 }

  /** The bucket before it pays for the request at `now`. */
  function Touched(b: Option<Bucket>, p: Params, now: real): Bucket {
    if b == None then Bucket(p.burst as real, now, now)
    else
      var elapsed := now - b.value.last;
      if elapsed <= 0.0 then b.value.(lastSeen := now)
      else Bucket(Filled(b.value.tokens, elapsed * p.rps, p.burst as real), now, now)
  }

  function Filled(tokens: real, gain: real, burst: real): real {
    if tokens + gain > burst then burst else tokens + gain
  }

  predicate Grants(b: Option<Bucket>, p: Params, now: real) { Touched(b, p, now).tokens >= 1.0 }

  function Paid(b: Option<Bucket>, p: Params, now: real): Bucket {
    var t := Touched(b, p, now);
    if t.tokens >= 1.0 then t.(tokens := t.tokens - 1.0) else t
  }

  /** The buckets that the request of `key` at `now` leaves standing. */
  function Kept(m: map<string, Bucket>, key: string, now: real): map<string, Bucket> {
    map id | id in m && (id == key || now - m[id].lastSeen <= IDLE) :: m[id]
  }

  function Lookup(m: map<string, Bucket>, key: string): Option<Bucket> {
    if key in m then Some(m[key]) else None
  }

  function AfterRequest(m: map<string, Bucket>, p: Params, key: string, now: real): map<string, Bucket> {
    Kept(m, key, now)[key := Paid(Lookup(m, key), p, now)]
  }

  class RateLimit {
    const rps: real
    const burst: int
    var buckets: map<string, Bucket>

    constructor (rps: real, burst: int)
      ensures this.rps == rps && this.burst == burst && buckets == map[]
    {
      this.rps, this.burst, buckets := rps, burst, map[];
    }

    method EffectiveParams() returns (p: Params)
      ensures Positive(p)
      ensures p.rps == (if rps > 0.0 then rps else 5.0) && p.burst == if burst > 0 then burst else 10
    {
      p := Params(rps, burst);
      if p.rps <= 0.0 { p := p.(rps := 5.0); }
      if p.burst <= 0 { p := p.(burst := 10); }
    }

    method Allow(key: string, p: Params, now: real) returns (ok: bool)
      modifies this
      ensures ok == Grants(Lookup(old(buckets), key), p, now)
      ensures buckets == AfterRequest(old(buckets), p, key, now)
    {
      Evict(key, now);
      var b: Bucket;
      if key !in buckets {
        b := Bucket(p.burst as real, now, now);
      } else {
        b := buckets[key];
        var elapsed := now - b.last;
        if elapsed > 0.0 {
          b := b.(tokens := b.tokens + elapsed * p.rps);
          if b.tokens > p.burst as real { b := b.(tokens := p.burst as real); }
          b := b.(last := now);
        }
        b := b.(lastSeen := now);
      }
      ok := b.tokens >= 1.0;
      if ok { b := b.(tokens := b.tokens - 1.0); }
      buckets := buckets[key := b];
    }

    /** The map is scanned in no particular order. */
    method Evict(key: string, now: real)
      modifies this
      ensures buckets == Kept(old(buckets), key, now)
    {
      var was := buckets;
      var unseen := was.Keys;
      while unseen != {}
        invariant unseen <= was.Keys
        invariant buckets ==
                  map id | id in was && (id in unseen || id == key || now - was[id].lastSeen <= IDLE) :: was[id]
        decreases |unseen|
      {
        var id :| id in unseen;
        unseen := unseen - {id};
        if id != key && now - was[id].lastSeen > IDLE {
          buckets := buckets - {id};
        }
      }
    }
  }

  // ---------------------------------------------------------------- runs

  datatype Request = Request(key: string, at: real)

  // A request reads the clock before it takes the lock, so requests may be served out of the
  // order of their readings. `skew` bounds how far a reading may lie behind one served before.

  predicate InOrder(times: seq<real>, skew: real) {
    forall i, j :: 0 <= i < j < |times| ==> times[i] - skew <= times[j]
  }

  predicate Orderly(rs: seq<Request>, skew: real) {
    forall i, j :: 0 <= i < j < |rs| ==> rs[i].at - skew <= rs[j].at
  }

  function Later(x: real, y: real): real { if x >= y then x else y }

  /** The verdicts on the requests of `key` among those of a shared map. */
  function Shared(m: map<string, Bucket>, p: Params, rs: seq<Request>, key: string): seq<bool>
    decreases |rs|
  {
    if rs == [] then []
    else
      (if rs[0].key == key then [Grants(Lookup(m, key), p, rs[0].at)] else [])
      + Shared(AfterRequest(m, p, rs[0].key, rs[0].at), p, rs[1..], key)
  }

  function TimesOf(rs: seq<Request>, key: string): seq<real> {
    if rs == [] then []
    else (if rs[0].key == key then [rs[0].at] else []) + TimesOf(rs[1..], key)
  }

  /** The verdicts of a bucket of one's own that is never evicted. */
  function Alone(b: Option<Bucket>, p: Params, times: seq<real>): seq<bool>
    decreases |times|
  {
    if times == [] then []
    else [Grants(b, p, times[0])] + Alone(Some(Paid(b, p, times[0])), p, times[1..])
  }

  // ---------------------------------------------------------------- eviction is invisible

  /** An idle bucket is full again by the time it may be evicted and asked for again. */
  predicate Refills(p: Params, skew: real) { Positive(p) && (IDLE - 2.0 * skew) * p.rps >= p.burst as real }

  predicate Sound(b: Bucket, p: Params) { 0.0 <= b.tokens <= p.burst as real }

  /** A bucket's two clock readings: `last` is the latest, `lastSeen` that of its last request. */
  predicate Dated(b: Bucket, top: real, skew: real) { b.lastSeen <= b.last <= b.lastSeen + skew && b.last <= top }

  /** The shared map holds the lone bucket, or has dropped it when it was due to be full; `top` is
      the latest reading so far. */
  predicate Agree(m: map<string, Bucket>, key: string, b: Option<Bucket>, p: Params, top: real, skew: real) {
    match b
    case None => key !in m
    case Some(v) => Sound(v, p) && Dated(v, top, skew) && if key in m then m[key] == v else top - v.lastSeen > IDLE
  }

  lemma FullAfterIdling(b: Bucket, p: Params, now: real, skew: real)
    requires Refills(p, skew) && b.tokens >= 0.0 && now - b.last > IDLE - 2.0 * skew
    ensures Touched(Some(b), p, now) == Touched(None, p, now)
  {
    var elapsed := now - b.last;
    var gain := elapsed * p.rps;
    Scale(IDLE - 2.0 * skew, elapsed, p.rps);
    assert gain >= p.burst as real;
    GainTakesTime(elapsed, p.rps);
    assert Touched(Some(b), p, now) == Bucket(Filled(b.tokens, gain, p.burst as real), now, now);
  }

  lemma GainTakesTime(elapsed: real, rps: real)
    requires rps > 0.0 && elapsed * rps > 0.0
    ensures elapsed > 0.0
  {
    if elapsed <= 0.0 { Scale(elapsed, 0.0, rps); }
  }

  /** What touching does to a bucket that has been filled by at most `gain`. */
  lemma TouchedAfter(b: Bucket, p: Params, now: real, gain: real)
    requires Positive(p) && Sound(b, p) && b.last <= now && gain == (now - b.last) * p.rps
    ensures gain >= 0.0
    ensures Touched(Some(b), p, now).tokens == Filled(b.tokens, gain, p.burst as real)
    ensures Touched(Some(b), p, now).last == now
  {
    var elapsed := now - b.last;
    Scale(0.0, elapsed, p.rps);
    if elapsed == 0.0 { assert gain == 0.0 * p.rps == 0.0; }
  }

  /** A reading behind the bucket's own refills nothing. */
  lemma TouchedBehind(b: Bucket, p: Params, now: real)
    requires now <= b.last
    ensures Touched(Some(b), p, now) == b.(lastSeen := now)
  {}

  lemma TouchedIsSound(b: Option<Bucket>, p: Params, now: real)
    requires Positive(p) && (b.Some? ==> Sound(b.value, p))
    ensures Sound(Touched(b, p, now), p) && Sound(Paid(b, p, now), p)
  {
    if b.Some? && b.value.last <= now { TouchedAfter(b.value, p, now, (now - b.value.last) * p.rps); }
  }

  lemma PaidIsDated(b: Option<Bucket>, p: Params, now: real, top: real, skew: real)
    requires skew >= 0.0 && top - skew <= now && (b.Some? ==> Dated(b.value, top, skew))
    ensures Dated(Paid(b, p, now), Later(top, now), skew)
  {}

  lemma RequestAgrees(m: map<string, Bucket>, key: string, b: Option<Bucket>, p: Params, r: Request, top: real,
                      skew: real)
    requires Refills(p, skew) && skew >= 0.0 && top - skew <= r.at && Agree(m, key, b, p, top, skew)
    ensures r.key == key ==> Grants(Lookup(m, key), p, r.at) == Grants(b, p, r.at)
    ensures Agree(AfterRequest(m, p, r.key, r.at), key,
                  if r.key == key then Some(Paid(b, p, r.at)) else b, p, Later(top, r.at), skew)
  {
    if r.key == key {
      if b.Some? && key !in m { FullAfterIdling(b.value, p, r.at, skew); }
      assert Touched(Lookup(m, key), p, r.at) == Touched(b, p, r.at);
      TouchedIsSound(b, p, r.at);
      PaidIsDated(b, p, r.at, top, skew);
    }
  }

  lemma {:induction false} SharedIsAloneFrom(m: map<string, Bucket>, key: string, b: Option<Bucket>, p: Params,
                                             rs: seq<Request>, top: real, skew: real)
    requires Refills(p, skew) && skew >= 0.0 && Agree(m, key, b, p, top, skew)
    requires Orderly(rs, skew) && forall i :: 0 <= i < |rs| ==> top - skew <= rs[i].at
    ensures Shared(m, p, rs, key) == Alone(b, p, TimesOf(rs, key))
    decreases |rs|
  {
    if rs != [] {
      var r, rest := rs[0], rs[1..];
      RequestAgrees(m, key, b, p, r, top, skew);
      if r.key == key {
        SharedIsAloneFrom(AfterRequest(m, p, r.key, r.at), key, Some(Paid(b, p, r.at)), p, rest, Later(top, r.at),
                          skew);
        assert ([r.at] + TimesOf(rest, key))[1..] == TimesOf(rest, key);
      } else {
        SharedIsAloneFrom(AfterRequest(m, p, r.key, r.at), key, b, p, rest, Later(top, r.at), skew);
        assert [] + TimesOf(rest, key) == TimesOf(rest, key);
      }
    }
  }

  /** In any run over the shared map, each key is served as by a bucket of its own. */
  lemma EvictionIsInvisible(p: Params, rs: seq<Request>, key: string, skew: real)
    requires Refills(p, skew) && skew >= 0.0 && Orderly(rs, skew)
    ensures Shared(map[], p, rs, key) == Alone(None, p, TimesOf(rs, key))
  {
    SharedIsAloneFrom(map[], key, None, p, rs, if rs == [] then 0.0 else rs[0].at, skew);
  }

  // ---------------------------------------------------------------- rate bound

  /** Requests admitted between s and t. */
  function Admitted(verdicts: seq<bool>, times: seq<real>, s: real, t: real): nat
    requires |verdicts| == |times|
  {
    if times == [] then 0
    else (if verdicts[0] && s <= times[0] <= t then 1 else 0) + Admitted(verdicts[1..], times[1..], s, t)
  }

  lemma {:induction false} AloneLength(b: Option<Bucket>, p: Params, times: seq<real>)
    ensures |Alone(b, p, times)| == |times|
    decreases |times|
  {
    if times != [] { AloneLength(Some(Paid(b, p, times[0])), p, times[1..]); }
  }

  /** What a bucket can still admit by `until` if nothing is asked of it before s. */
  function Allowance(b: Option<Bucket>, p: Params, s: real, until: real): real {
    if b.Some? && b.value.last >= s then b.value.tokens + (until - b.value.last) * p.rps
    else p.burst as real + (until - s) * p.rps
  }

  lemma Split(x: real, y: real, r: real)
    ensures (x + y) * r == x * r + y * r
  {}

  /** Paying moves at most one token from the bucket to the caller. */
  lemma PaidPlusGrant(b: Option<Bucket>, p: Params, now: real)
    ensures Paid(b, p, now).last == Touched(b, p, now).last
    ensures Paid(b, p, now).tokens + (if Grants(b, p, now) then 1.0 else 0.0) == Touched(b, p, now).tokens
  {}

  /** The allowance as a sum: the products are named so that only Gain reasons about them. */
  lemma AllowanceOf(b: Bucket, p: Params, s: real, until: real, gain: real)
    requires gain == Gain(Later(b.last, s), until, p.rps)
    ensures Allowance(Some(b), p, s, until) == gain + if b.last >= s then b.tokens else p.burst as real
  {}

  function Gain(from: real, until: real, r: real): real { (until - from) * r }

  lemma GainSplits(x: real, y: real, z: real, r: real, xy: real, yz: real, xz: real)
    requires xy == Gain(x, y, r) && yz == Gain(y, z, r) && xz == Gain(x, z, r)
    ensures xz == xy + yz
  {}

  lemma GainGrows(x: real, y: real, z: real, r: real, yz: real, xz: real)
    requires r >= 0.0 && x <= y && yz == Gain(y, z, r) && xz == Gain(x, z, r)
    ensures yz <= xz
  {
    Scale(z - y, z - x, r);
  }

  lemma GainIsPositive(x: real, z: real, r: real, gain: real)
    requires r >= 0.0 && x <= z && gain == Gain(x, z, r)
    ensures gain >= 0.0
  {
    Scale(0.0, z - x, r);
  }

  /** A bucket that was filled since s and has been touched again at `now`. */
  lemma FilledSince(b: Bucket, t: Bucket, p: Params, now: real, s: real, until: real)
    requires s <= b.last && s <= now && t.last == now && t.tokens <= b.tokens + Gain(b.last, now, p.rps)
    ensures Allowance(Some(t), p, s, until) <= Allowance(Some(b), p, s, until)
  {
    var xy, yz, xz := Gain(b.last, now, p.rps), Gain(now, until, p.rps), Gain(b.last, until, p.rps);
    GainSplits(b.last, now, until, p.rps, xy, yz, xz);
    AllowanceOf(b, p, s, until, xz);
    AllowanceOf(t, p, s, until, yz);
  }

  /** A bucket that was not: its first touch since s finds at most the burst. */
  lemma FilledFirst(t: Bucket, p: Params, s: real, until: real, gain: real)
    requires p.rps > 0.0 && t.tokens <= p.burst as real && gain == Gain(s, until, p.rps)
    ensures Allowance(Some(t), p, s, until) <= p.burst as real + gain
  {
    var x := Later(t.last, s);
    var less := Gain(x, until, p.rps);
    GainGrows(s, x, until, p.rps, less, gain);
    AllowanceOf(t, p, s, until, less);
  }

  /** Touching a bucket adds nothing to what it can still admit. */
  lemma AllowanceOfTouched(b: Option<Bucket>, p: Params, now: real, s: real, until: real)
    requires Positive(p) && (b.Some? ==> Sound(b.value, p))
    ensures Allowance(Some(Touched(b, p, now)), p, s, until) <= Allowance(b, p, s, until)
  {
    var t, gain := Touched(b, p, now), Gain(s, until, p.rps);
    TouchedIsSound(b, p, now);
    if b.Some? && now <= b.value.last {
      TouchedBehind(b.value, p, now);
      SameAllowance(b.value, t, p, s, until);
      assert b == Some(b.value);
    } else if b.Some? && s <= b.value.last {
      TouchedAfter(b.value, p, now, (now - b.value.last) * p.rps);
      FilledSince(b.value, t, p, now, s, until);
      assert b == Some(b.value);
    } else {
      FilledFirst(t, p, s, until, gain);
      assert Allowance(b, p, s, until) == p.burst as real + gain;
    }
  }

  lemma SameAllowance(b: Bucket, t: Bucket, p: Params, s: real, until: real)
    requires b.last == t.last && (b.last < s || b.tokens == t.tokens)
    ensures Allowance(Some(t), p, s, until) == Allowance(Some(b), p, s, until)
  {}

  lemma AllowanceLess(t: Bucket, p: Params, s: real, until: real, grant: real)
    requires grant == 0.0 || s <= t.last
    ensures grant + Allowance(Some(t.(tokens := t.tokens - grant)), p, s, until) == Allowance(Some(t), p, s, until)
  {
    var gain := Gain(Later(t.last, s), until, p.rps);
    AllowanceOf(t, p, s, until, gain);
    AllowanceOf(t.(tokens := t.tokens - grant), p, s, until, gain);
  }

  lemma AllowancePays(b: Option<Bucket>, p: Params, now: real, s: real, until: real)
    requires Positive(p) && (b.Some? ==> Sound(b.value, p))
    ensures (if Grants(b, p, now) && s <= now then 1.0 else 0.0) + Allowance(Some(Paid(b, p, now)), p, s, until)
            <= Allowance(b, p, s, until)
  {
    var t := Touched(b, p, now);
    AllowanceOfTouched(b, p, now, s, until);
    assert now <= t.last;
    if Grants(b, p, now) && s <= t.last {
      AllowanceLess(t, p, s, until, 1.0);
    } else {
      SameAllowance(t, Paid(b, p, now), p, s, until);
    }
  }

  lemma {:induction false} AdmittedBound(b: Option<Bucket>, p: Params, times: seq<real>, s: real, t: real, skew: real)
    requires Positive(p) && skew >= 0.0 && s <= t && InOrder(times, skew)
    requires b.Some? ==> Sound(b.value, p) && b.value.last <= t + skew
    ensures |Alone(b, p, times)| == |times|
    ensures Admitted(Alone(b, p, times), times, s, t) as real <= Allowance(b, p, s, t + skew)
    decreases |times|
  {
    AloneLength(b, p, times);
    if times == [] || times[0] > t + skew {
      NoneAfter(Alone(b, p, times), times, s, t);
      AllowanceIsPositive(b, p, s, t + skew);
    } else {
      var first, rest := times[0], times[1..];
      AllowancePays(b, p, first, s, t + skew);
      TouchedIsSound(b, p, first);
      AdmittedBound(Some(Paid(b, p, first)), p, rest, s, t, skew);
      assert Alone(b, p, times)[1..] == Alone(Some(Paid(b, p, first)), p, rest);
    }
  }

  lemma AllowanceIsPositive(b: Option<Bucket>, p: Params, s: real, until: real)
    requires Positive(p) && (b.Some? ==> Sound(b.value, p) && b.value.last <= until) && s <= until
    ensures Allowance(b, p, s, until) >= 0.0
  {
    if b.Some? {
      var gain := Gain(Later(b.value.last, s), until, p.rps);
      GainIsPositive(Later(b.value.last, s), until, p.rps, gain);
      AllowanceOf(b.value, p, s, until, gain);
      assert b == Some(b.value);
    } else {
      GainIsPositive(s, until, p.rps, Gain(s, until, p.rps));
    }
  }

  lemma {:induction false} NoneAfter(verdicts: seq<bool>, times: seq<real>, s: real, t: real)
    requires |verdicts| == |times| && forall i :: 0 <= i < |times| ==> times[i] > t
    ensures Admitted(verdicts, times, s, t) == 0
    decreases |times|
  {
    if times != [] { NoneAfter(verdicts[1..], times[1..], s, t); }
  }

  lemma TimesCons(rs: seq<Request>, key: string)
    requires rs != []
    ensures TimesOf(rs, key) == if rs[0].key == key then [rs[0].at] + TimesOf(rs[1..], key) else TimesOf(rs[1..], key)
  {}

  lemma {:induction false} TimesFrom(rs: seq<Request>, key: string, from: real)
    requires forall i :: 0 <= i < |rs| ==> from <= rs[i].at
    ensures forall i :: 0 <= i < |TimesOf(rs, key)| ==> from <= TimesOf(rs, key)[i]
    decreases |rs|
  {
    if rs != [] {
      TimesFrom(rs[1..], key, from);
      TimesCons(rs, key);
    }
  }

  lemma {:induction false} TimesInOrder(rs: seq<Request>, key: string, skew: real)
    requires Orderly(rs, skew)
    ensures InOrder(TimesOf(rs, key), skew)
    decreases |rs|
  {
    if rs != [] {
      TimesInOrder(rs[1..], key, skew);
      TimesFrom(rs[1..], key, rs[0].at - skew);
      TimesCons(rs, key);
      InOrderCons(rs[0].at, TimesOf(rs[1..], key), skew);
    }
  }

  lemma InOrderCons(x: real, rest: seq<real>, skew: real)
    requires InOrder(rest, skew) && forall i :: 0 <= i < |rest| ==> x - skew <= rest[i]
    ensures InOrder([x] + rest, skew)
  {
    var all := [x] + rest;
    forall i, j | 0 <= i < j < |all| ensures all[i] - skew <= all[j] {
      assert all[j] == rest[j - 1] && (i > 0 ==> all[i] == rest[i - 1]);
    }
  }

  ghost predicate RateHolds(p: Params, rs: seq<Request>, key: string, s: real, t: real, skew: real) {
    && |Shared(map[], p, rs, key)| == |TimesOf(rs, key)|
    && Admitted(Shared(map[], p, rs, key), TimesOf(rs, key), s, t) as real <= p.burst as real + (t + skew - s) * p.rps
  }

  /** Over every run and every interval: at most the burst plus what the rate refills in the
      interval and in one skew. */
  lemma RateIsBounded(p: Params, rs: seq<Request>, key: string, s: real, t: real, skew: real)
    requires Refills(p, skew) && skew >= 0.0 && Orderly(rs, skew) && s <= t
    ensures RateHolds(p, rs, key, s, t, skew)
  {
    EvictionIsInvisible(p, rs, key, skew);
    TimesInOrder(rs, key, skew);
    AdmittedBound(None, p, TimesOf(rs, key), s, t, skew);
  }

  // ---------------------------------------------------------------- spaced requests

  lemma SpacedGrants(b: Bucket, p: Params, now: real)
    requires Positive(p) && Sound(b, p) && (now - b.last) * p.rps >= 1.0
    ensures Grants(Some(b), p, now)
  {
    GainTakesTime(now - b.last, p.rps);
    TouchedAfter(b, p, now, (now - b.last) * p.rps);
  }

  function After(b: Option<Bucket>, p: Params, times: seq<real>): Option<Bucket>
    decreases |times|
  {
    if times == [] then b else After(Some(Paid(b, p, times[0])), p, times[1..])
  }

  lemma SharedCons(m: map<string, Bucket>, p: Params, rs: seq<Request>, key: string)
    requires rs != []
    ensures Shared(m, p, rs, key) ==
            (if rs[0].key == key then [Grants(Lookup(m, key), p, rs[0].at)] else [])
            + Shared(AfterRequest(m, p, rs[0].key, rs[0].at), p, rs[1..], key)
  {}

  /** The bucket of `key`, if the map still holds it, was last filled at one of the key's readings. */
  ghost predicate FilledAt(m: map<string, Bucket>, p: Params, key: string, seen: set<real>) {
    key in m ==> m[key].last in seen && Sound(m[key], p)
  }

  lemma RequestFills(m: map<string, Bucket>, p: Params, r: Request, key: string, seen: set<real>)
    requires Positive(p) && FilledAt(m, p, key, seen)
    ensures FilledAt(AfterRequest(m, p, r.key, r.at), p, key, if r.key == key then seen + {r.at} else seen)
  {
    if r.key == key {
      TouchedIsSound(Lookup(m, key), p, r.at);
      PaidPlusGrant(Lookup(m, key), p, r.at);
    }
  }

  predicate Waits(p: Params, earlier: real, later: real) { (later - earlier) * p.rps >= 1.0 }

  /** The i-th time comes 1/rate or more after those before it and those seen before them all. */
  ghost predicate Spaced(gap: (real, real) -> bool, seen: set<real>, times: seq<real>, i: nat) {
    i < |times| && (forall x :: x in seen ==> gap(x, times[i])) && forall j :: 0 <= j < i ==> gap(times[j], times[i])
  }

  lemma SpacedTail(gap: (real, real) -> bool, seen: set<real>, at: real, times: seq<real>, i: nat)
    requires i > 0 && Spaced(gap, seen, [at] + times, i)
    ensures Spaced(gap, seen + {at}, times, i - 1)
  {
    var all := [at] + times;
    assert all[0] == at && all[i] == times[i - 1];
    forall j | 0 <= j < i - 1 ensures gap(times[j], times[i - 1]) { assert all[j + 1] == times[j]; }
  }

  lemma {:induction false} ServedWhenSpaced(m: map<string, Bucket>, p: Params, rs: seq<Request>, key: string, i: nat,
                                            seen: set<real>, gap: (real, real) -> bool)
    requires Positive(p) && FilledAt(m, p, key, seen) && Spaced(gap, seen, TimesOf(rs, key), i)
    requires forall b, at :: Sound(b, p) && gap(b.last, at) ==> Grants(Some(b), p, at)
    ensures i < |Shared(m, p, rs, key)| && Shared(m, p, rs, key)[i]
    decreases |rs|
  {
    var r, rest := rs[0], rs[1..];
    var m' := AfterRequest(m, p, r.key, r.at);
    RequestFills(m, p, r, key, seen);
    SharedCons(m, p, rs, key);
    TimesCons(rs, key);
    if r.key != key {
      ServedWhenSpaced(m', p, rest, key, i, seen, gap);
    } else if i > 0 {
      SpacedTail(gap, seen, r.at, TimesOf(rest, key), i);
      ServedWhenSpaced(m', p, rest, key, i - 1, seen + {r.at}, gap);
    } else if key in m {
      assert Grants(Some(m[key]), p, r.at);
    }
  }

  /** A request whose reading is 1/rate or more after all earlier ones of its key is always served,
      whatever the order of readings and whether or not an idle hour refills the burst: eviction
      only ever replaces a bucket by a full one. */
  lemma SpacedRequestsAreServed(p: Params, rs: seq<Request>, key: string, i: nat)
    requires Positive(p)
    requires var ts := TimesOf(rs, key); i < |ts| && forall j :: 0 <= j < i ==> Waits(p, ts[j], ts[i])
    ensures i < |Shared(map[], p, rs, key)| && Shared(map[], p, rs, key)[i]
  {
    var gap := (x, y) => Waits(p, x, y);
    forall b, at | Sound(b, p) && gap(b.last, at) ensures Grants(Some(b), p, at) { SpacedGrants(b, p, at); }
    ServedWhenSpaced(map[], p, rs, key, i, {}, gap);
  }

  // ---------------------------------------------------------------- exactly when a request is refused

  /** The latest of the first i + 1 readings. */
  function Latest(times: seq<real>, i: nat): real
    requires i < |times|
  {
    if i == 0 then times[0] else Later(times[i], Latest(times, i - 1))
  }

  /** Requests admitted among those from j up to, not including, i. */
  function Granted(verdicts: seq<bool>, j: nat, i: nat): nat
    requires j <= i <= |verdicts|
  {
    if i == j then 0 else Granted(verdicts, j, i - 1) + if verdicts[i - 1] then 1 else 0
  }

  /** Admitting request i would exceed what the burst and the rate allow since request j. */
  predicate Exceeds(p: Params, times: seq<real>, verdicts: seq<bool>, j: nat, i: nat)
    requires j <= i < |times| && |verdicts| == |times|
  {
    TooMany(p, 1 + Granted(verdicts, j, i), Latest(times, j), Latest(times, i))
  }

  /** n requests are more than the burst and the rate allow between the two instants. */
  predicate TooMany(p: Params, n: nat, from: real, to: real) { n as real > p.burst as real + (to - from) * p.rps }

  function PaidFrom(t: Bucket): Bucket { if t.tokens >= 1.0 then t.(tokens := t.tokens - 1.0) else t }

  /** The bucket that request i finds, refilled. */
  function Found(b: Option<Bucket>, p: Params, times: seq<real>, i: nat): Bucket
    requires i < |times|
    decreases i
  {
    if i == 0 then Touched(b, p, times[0]) else Found(Some(Paid(b, p, times[0])), p, times[1..], i - 1)
  }

  lemma {:induction false} AloneFinds(b: Option<Bucket>, p: Params, times: seq<real>, i: nat)
    requires i < |times|
    ensures |Alone(b, p, times)| == |times| && (Alone(b, p, times)[i] <==> Found(b, p, times, i).tokens >= 1.0)
    decreases i
  {
    AloneLength(b, p, times);
    if i > 0 { AloneFinds(Some(Paid(b, p, times[0])), p, times[1..], i - 1); }
  }

  lemma {:induction false} FoundNext(b: Option<Bucket>, p: Params, times: seq<real>, i: nat)
    requires i + 1 < |times|
    ensures Found(b, p, times, i + 1) == Touched(Some(PaidFrom(Found(b, p, times, i))), p, times[i + 1])
    decreases i
  {
    var next := Some(Paid(b, p, times[0]));
    if i == 0 {
      assert Found(b, p, times, 1) == Found(next, p, times[1..], 0);
    } else {
      FoundNext(next, p, times[1..], i - 1);
      assert times[1..][i] == times[i + 1];
    }
  }

  /** Refilling, as a minimum. */
  lemma TouchedIsLeast(t: Bucket, p: Params, now: real, gain: real)
    requires Positive(p) && Sound(t, p) && gain == Gain(t.last, Later(now, t.last), p.rps)
    ensures var u := Touched(Some(t), p, now);
            Sound(u, p) && u.last == Later(now, t.last)
            && u.tokens == if t.tokens + gain > p.burst as real then p.burst as real else t.tokens + gain
  {
    TouchedIsSound(Some(t), p, now);
    if now <= t.last {
      TouchedBehind(t, p, now);
      NoGain(t.last, p.rps);
    } else {
      TouchedAfter(t, p, now, (now - t.last) * p.rps);
    }
  }

  lemma NoGain(x: real, r: real)
    ensures Gain(x, x, r) == 0.0
  {}

  /** What the burst and the rate leave for request i of what has been admitted since j. */
  function Left(p: Params, times: seq<real>, verdicts: seq<bool>, j: nat, i: nat): real
    requires j <= i < |times| && |verdicts| == |times|
  {
    p.burst as real + Gain(Latest(times, j), Latest(times, i), p.rps) - Granted(verdicts, j, i) as real
  }

  lemma LeftNext(p: Params, times: seq<real>, verdicts: seq<bool>, j: nat, i: nat)
    requires j <= i && i + 1 < |times| && |verdicts| == |times|
    ensures Left(p, times, verdicts, j, i + 1) ==
            Left(p, times, verdicts, j, i) + Gain(Latest(times, i), Latest(times, i + 1), p.rps)
            - (if verdicts[i] then 1.0 else 0.0)
  {
    var x, y, z := Latest(times, j), Latest(times, i), Latest(times, i + 1);
    GainSplits(x, y, z, p.rps, Gain(x, y, p.rps), Gain(y, z, p.rps), Gain(x, z, p.rps));
  }

  lemma LeftSelf(p: Params, times: seq<real>, verdicts: seq<bool>, i: nat)
    requires i < |times| && |verdicts| == |times|
    ensures Left(p, times, verdicts, i, i) == p.burst as real
  {
    NoGain(Latest(times, i), p.rps);
  }

  function LeftSince(p: Params, times: seq<real>, verdicts: seq<bool>, i: nat): int -> real
    requires i < |times| && |verdicts| == |times|
  {
    j => if 0 <= j <= i then Left(p, times, verdicts, j, i) else 0.0
  }

  ghost predicate IsLeast(f: int -> real, i: int, x: real) {
    (forall j :: 0 <= j <= i ==> x <= f(j)) && exists j :: 0 <= j <= i && x == f(j)
  }

  lemma {:induction false} FoundIsLeast(p: Params, times: seq<real>, i: nat)
    requires Positive(p) && i < |times|
    ensures |Alone(None, p, times)| == |times|
    ensures var t := Found(None, p, times, i);
            Sound(t, p) && t.last == Latest(times, i)
            && IsLeast(LeftSince(p, times, Alone(None, p, times), i), i, t.tokens)
    decreases i
  {
    var vs := Alone(None, p, times);
    AloneLength(None, p, times);
    LeftSelf(p, times, vs, i);
    if i == 0 {
      assert LeftSince(p, times, vs, 0)(0) == p.burst as real;
    } else {
      FoundIsLeast(p, times, i - 1);
      AloneFinds(None, p, times, i - 1);
      FoundNext(None, p, times, i - 1);
      var t := PaidFrom(Found(None, p, times, i - 1));
      var gain := Gain(t.last, Latest(times, i), p.rps);
      TouchedIsLeast(t, p, times[i], gain);
      LeastNext(p, times, vs, i - 1, Found(None, p, times, i - 1).tokens, gain, Found(None, p, times, i).tokens);
    }
  }

  lemma LeastNext(p: Params, times: seq<real>, verdicts: seq<bool>, i: nat, before: real, gain: real, after: real)
    requires i + 1 < |times| && |verdicts| == |times| && IsLeast(LeftSince(p, times, verdicts, i), i, before)
    requires gain == Gain(Latest(times, i), Latest(times, i + 1), p.rps)
    requires var filled := before - (if verdicts[i] then 1.0 else 0.0) + gain;
             after == if filled > p.burst as real then p.burst as real else filled
    ensures IsLeast(LeftSince(p, times, verdicts, i + 1), i + 1, after)
  {
    var change := gain - if verdicts[i] then 1.0 else 0.0;
    var was, now := LeftSince(p, times, verdicts, i), LeftSince(p, times, verdicts, i + 1);
    LeftSelf(p, times, verdicts, i + 1);
    forall j | 0 <= j <= i ensures now(j) == was(j) + change { LeftNext(p, times, verdicts, j, i); }
    LeastMoves(was, now, i, before, change, p.burst as real, after);
  }

  lemma LeastMoves(was: int -> real, now: int -> real, i: nat, before: real, change: real, burst: real, after: real)
    requires IsLeast(was, i, before)
    requires now(i + 1) == burst && forall j :: 0 <= j <= i ==> now(j) == was(j) + change
    requires after == if before + change > burst then burst else before + change
    ensures IsLeast(now, i + 1, after)
  {
    var least :| 0 <= least <= i && before == was(least);
    assert after == now(if before + change > burst then i + 1 else least);
  }

  lemma ExceedsIff(p: Params, times: seq<real>, verdicts: seq<bool>, j: nat, i: nat)
    requires j <= i < |times| && |verdicts| == |times|
    ensures Exceeds(p, times, verdicts, j, i) <==> Left(p, times, verdicts, j, i) < 1.0
  {
    var x, y := Latest(times, j), Latest(times, i);
    TooManyIff(p, 1 + Granted(verdicts, j, i), x, y, Gain(x, y, p.rps));
  }

  lemma TooManyIff(p: Params, n: nat, from: real, to: real, gain: real)
    requires gain == Gain(from, to, p.rps)
    ensures TooMany(p, n, from, to) <==> n as real > p.burst as real + gain
  {}

  /** A bucket of one's own refuses a request exactly when admitting it would exceed, since this or
      some earlier request, the burst and what the rate refills in between. */
  lemma RefusedIff(p: Params, times: seq<real>, i: nat)
    requires Positive(p) && i < |times|
    ensures |Alone(None, p, times)| == |times|
    ensures !Alone(None, p, times)[i] <==>
            exists j :: 0 <= j <= i && Exceeds(p, times, Alone(None, p, times), j, i)
  {
    FoundIsLeast(p, times, i);
    AloneFinds(None, p, times, i);
    var vs := Alone(None, p, times);
    forall j | 0 <= j <= i ensures Exceeds(p, times, vs, j, i) <==> LeftSince(p, times, vs, i)(j) < 1.0 {
      ExceedsIff(p, times, vs, j, i);
    }
    LessThanOne(LeftSince(p, times, vs, i), i, Found(None, p, times, i).tokens);
  }

  lemma LessThanOne(f: int -> real, i: nat, least: real)
    requires IsLeast(f, i, least)
    ensures least < 1.0 <==> exists j :: 0 <= j <= i && f(j) < 1.0
  {}

  /** ... and so does the shared map, under the condition that makes eviction invisible. */
  lemma SharedRefusesIff(p: Params, rs: seq<Request>, key: string, skew: real, i: nat)
    requires Refills(p, skew) && skew >= 0.0 && Orderly(rs, skew) && i < |TimesOf(rs, key)|
    ensures |Shared(map[], p, rs, key)| == |TimesOf(rs, key)|
    ensures !Shared(map[], p, rs, key)[i] <==>
            exists j :: 0 <= j <= i && Exceeds(p, TimesOf(rs, key), Shared(map[], p, rs, key), j, i)
  {
    EvictionIsInvisible(p, rs, key, skew);
    RefusedIff(p, TimesOf(rs, key), i);
  }

  /** With readings in order the latest reading is the request's own. */
  lemma {:induction false} LatestInOrder(times: seq<real>, i: nat)
    requires InOrder(times, 0.0) && i < |times|
    ensures Latest(times, i) == times[i]
  {
    if i > 0 {
      LatestInOrder(times, i - 1);
      assert times[i - 1] - 0.0 <= times[i];
    }
  }

  /** ... so the time between two requests is that between their own readings. */
  lemma ExceedsInOrder(p: Params, times: seq<real>, verdicts: seq<bool>, j: nat, i: nat)
    requires InOrder(times, 0.0) && j <= i < |times| && |verdicts| == |times|
    ensures Exceeds(p, times, verdicts, j, i) <==> TooMany(p, 1 + Granted(verdicts, j, i), times[j], times[i])
  {
    LatestInOrder(times, i);
    LatestInOrder(times, j);
  }

  // ---------------------------------------------------------------- when eviction is visible

  function Often(at: real, n: nat): seq<real> { seq(n, _ => at) }

  function Volley(key: string, at: real, n: nat): seq<Request> { seq(n, _ => Request(key, at)) }

  lemma OftenRest(at: real, n: nat)
    requires n > 0
    ensures Often(at, n)[1..] == Often(at, n - 1)
  {}

  lemma VolleyRest(key: string, at: real, n: nat)
    requires n > 0
    ensures Volley(key, at, n)[1..] == Volley(key, at, n - 1)
  {}

  function MapAfter(m: map<string, Bucket>, p: Params, rs: seq<Request>): map<string, Bucket>
    decreases |rs|
  {
    if rs == [] then m else MapAfter(AfterRequest(m, p, rs[0].key, rs[0].at), p, rs[1..])
  }

  lemma {:induction false} AloneConcat(b: Option<Bucket>, p: Params, xs: seq<real>, ys: seq<real>)
    ensures Alone(b, p, xs + ys) == Alone(b, p, xs) + Alone(After(b, p, xs), p, ys)
    decreases |xs|
  {
    if xs == [] {
      assert xs + ys == ys;
    } else {
      AloneConcat(Some(Paid(b, p, xs[0])), p, xs[1..], ys);
      assert (xs + ys)[1..] == xs[1..] + ys;
    }
  }

  lemma {:induction false} SharedConcat(m: map<string, Bucket>, p: Params, xs: seq<Request>, ys: seq<Request>,
                                        key: string)
    ensures Shared(m, p, xs + ys, key) == Shared(m, p, xs, key) + Shared(MapAfter(m, p, xs), p, ys, key)
    decreases |xs|
  {
    if xs == [] {
      assert xs + ys == ys;
    } else {
      var m' := AfterRequest(m, p, xs[0].key, xs[0].at);
      var head := if xs[0].key == key then [Grants(Lookup(m, key), p, xs[0].at)] else [];
      SharedConcat(m', p, xs[1..], ys, key);
      assert (xs + ys)[0] == xs[0] && (xs + ys)[1..] == xs[1..] + ys;
      SharedCons(m, p, xs + ys, key);
      SharedCons(m, p, xs, key);
      Assoc(head, Shared(m', p, xs[1..], key), Shared(MapAfter(m, p, xs), p, ys, key));
    }
  }

  lemma {:induction false} TimesConcat(xs: seq<Request>, ys: seq<Request>, key: string)
    ensures TimesOf(xs + ys, key) == TimesOf(xs, key) + TimesOf(ys, key)
    decreases |xs|
  {
    if xs == [] {
      assert xs + ys == ys;
      Leading(TimesOf(ys, key));
    } else {
      TimesConcat(xs[1..], ys, key);
      assert (xs + ys)[0] == xs[0] && (xs + ys)[1..] == xs[1..] + ys;
      TimesCons(xs + ys, key);
      TimesCons(xs, key);
      Assoc([xs[0].at], TimesOf(xs[1..], key), TimesOf(ys, key));
    }
  }

  /** A volley of one key never meets eviction. */
  lemma {:induction false} VolleyIsAlone(m: map<string, Bucket>, p: Params, key: string, at: real, n: nat)
    ensures Shared(m, p, Volley(key, at, n), key) == Alone(Lookup(m, key), p, Often(at, n))
    ensures Lookup(MapAfter(m, p, Volley(key, at, n)), key) == After(Lookup(m, key), p, Often(at, n))
    ensures TimesOf(Volley(key, at, n), key) == Often(at, n)
    decreases n
  {
    if n > 0 {
      var m' := AfterRequest(m, p, key, at);
      assert Lookup(m', key) == Some(Paid(Lookup(m, key), p, at));
      VolleyIsAlone(m', p, key, at, n - 1);
      VolleyRest(key, at, n);
      OftenRest(at, n);
    }
  }

  /** A bucket with enough admits the whole volley. */
  lemma {:induction false} FullAdmitsAll(b: Option<Bucket>, p: Params, at: real, n: nat)
    requires Touched(b, p, at).tokens >= n as real && n > 0
    ensures var vs := Alone(b, p, Often(at, n)); |vs| == n && vs[n - 1]
    ensures var t := Touched(b, p, at);
            After(b, p, Often(at, n)) == Some(Bucket(t.tokens - n as real, t.last, at))
    decreases n
  {
    AloneLength(b, p, Often(at, n));
    OftenRest(at, n);
    if n > 1 { FullAdmitsAll(Some(Paid(b, p, at)), p, at, n - 1); }
  }

  /** A bucket with less refuses its last request. */
  lemma {:induction false} ShortRefusesLast(b: Option<Bucket>, p: Params, at: real, n: nat)
    requires Touched(b, p, at).tokens < n as real && n > 0
    ensures var vs := Alone(b, p, Often(at, n)); |vs| == n && !vs[n - 1]
    decreases n
  {
    AloneLength(b, p, Often(at, n));
    OftenRest(at, n);
    if n > 1 { ShortRefusesLast(Some(Paid(b, p, at)), p, at, n - 1); }
  }

  /** Spend the burst, ask once more with an older reading, let another key come by after the idle
      limit, and ask again with a reading older than its. */
  function Revisit(p: Params, key: string, other: string, skew: real, at: real): seq<Request>
    requires Positive(p)
  {
    Volley(key, 0.0, p.burst)
    + ([Request(key, -skew)] + ([Request(other, at + skew)] + Volley(key, at, p.burst)))
  }

  lemma RevisitTimes(p: Params, key: string, other: string, skew: real, at: real)
    requires Positive(p) && key != other
    ensures TimesOf(Revisit(p, key, other, skew, at), key) == Often(0.0, p.burst) + ([-skew] + Often(at, p.burst))
  {
    VolleyTimes(key, 0.0, p.burst);
    ReturnTimes(key, other, skew, at, p.burst);
    TimesConcat(Volley(key, 0.0, p.burst),
                [Request(key, -skew)] + ([Request(other, at + skew)] + Volley(key, at, p.burst)), key);
  }

  lemma ReturnTimes(key: string, other: string, skew: real, at: real, n: nat)
    requires key != other
    ensures TimesOf([Request(key, -skew)] + ([Request(other, at + skew)] + Volley(key, at, n)), key)
            == [-skew] + Often(at, n)
  {
    var last := [Request(other, at + skew)] + Volley(key, at, n);
    VolleyTimes(key, at, n);
    TimesCons([Request(key, -skew)] + last, key);
    assert ([Request(key, -skew)] + last)[1..] == last;
    TimesCons(last, key);
    assert last[1..] == Volley(key, at, n);
  }

  lemma VolleyTimes(key: string, at: real, n: nat)
    ensures TimesOf(Volley(key, at, n), key) == Often(at, n)
  {
    VolleyIsAlone(map[], Params(1.0, 1), key, at, n);
  }

  /** The lone bucket is empty after the volley, refuses the older request, and is not full again. */
  lemma RevisitAlone(p: Params, key: string, other: string, skew: real, at: real)
    requires Positive(p) && key != other && skew >= 0.0 && at * p.rps < p.burst as real
    ensures var vs := Alone(None, p, TimesOf(Revisit(p, key, other, skew, at), key));
            |vs| == 2 * p.burst + 1 && !vs[|vs| - 1]
  {
    var n := p.burst;
    var empty, older := Bucket(0.0, 0.0, 0.0), Bucket(0.0, 0.0, -skew);
    RevisitTimes(p, key, other, skew, at);
    AloneConcat(None, p, Often(0.0, n), [-skew] + Often(at, n));
    FullAdmitsAll(None, p, 0.0, n);
    assert Paid(Some(empty), p, -skew) == older;
    assert ([-skew] + Often(at, n))[1..] == Often(at, n);
    assert Alone(Some(empty), p, [-skew] + Often(at, n)) == [false] + Alone(Some(older), p, Often(at, n));
    ShortRefusesLast(Some(older), p, at, n);
  }

  /** In the shared map the bucket is gone by then, and the volley meets a full one. */
  lemma RevisitShared(p: Params, key: string, other: string, skew: real, at: real)
    requires Positive(p) && key != other && skew >= 0.0 && at + 2.0 * skew > IDLE
    ensures var vs := Shared(map[], p, Revisit(p, key, other, skew, at), key);
            |vs| == 2 * p.burst + 1
            && vs == Alone(None, p, Often(0.0, p.burst)) + ([false] + Alone(None, p, Often(at, p.burst)))
            && vs[|vs| - 1]
  {
    var n := p.burst;
    var rest := [Request(key, -skew)] + ([Request(other, at + skew)] + Volley(key, at, n));
    var m := MapAfter(map[], p, Volley(key, 0.0, n));
    SharedConcat(map[], p, Volley(key, 0.0, n), rest, key);
    VolleyIsAlone(map[], p, key, 0.0, n);
    FullAdmitsAll(None, p, 0.0, n);
    assert Lookup(m, key) == Some(Bucket(0.0, 0.0, 0.0));
    ReturnIsServed(m, p, key, other, skew, at);
    FullAdmitsAll(None, p, at, n);
  }

  lemma ReturnIsServed(m: map<string, Bucket>, p: Params, key: string, other: string, skew: real, at: real)
    requires Positive(p) && key != other && skew >= 0.0 && at + 2.0 * skew > IDLE
    requires Lookup(m, key) == Some(Bucket(0.0, 0.0, 0.0))
    ensures Shared(m, p, [Request(key, -skew)] + ([Request(other, at + skew)] + Volley(key, at, p.burst)), key)
            == [false] + Alone(None, p, Often(at, p.burst))
  {
    var older, volley := Request(key, -skew), Volley(key, at, p.burst);
    var m' := AfterRequest(m, p, key, -skew);
    assert m'[key] == Bucket(0.0, 0.0, -skew);
    SharedCons(m, p, [older] + ([Request(other, at + skew)] + volley), key);
    assert ([older] + ([Request(other, at + skew)] + volley))[1..] == [Request(other, at + skew)] + volley;
    assert !Grants(Lookup(m, key), p, -skew);
    EvictedIsServed(m', p, key, Request(other, at + skew), at, p.burst);
  }

  lemma EvictedIsServed(m: map<string, Bucket>, p: Params, key: string, other: Request, at: real, n: nat)
    requires key != other.key && key in m && other.at - m[key].lastSeen > IDLE
    ensures Shared(m, p, [other] + Volley(key, at, n), key) == Alone(None, p, Often(at, n))
  {
    IdleIsEvicted(m, p, key, other.key, other.at);
    OtherComesBy(m, p, other, Volley(key, at, n), key);
    FreshVolley(AfterRequest(m, p, other.key, other.at), p, key, at, n);
  }

  lemma FreshVolley(m: map<string, Bucket>, p: Params, key: string, at: real, n: nat)
    requires Lookup(m, key) == None
    ensures Shared(m, p, Volley(key, at, n), key) == Alone(None, p, Often(at, n))
  {
    VolleyIsAlone(m, p, key, at, n);
  }

  lemma OtherComesBy(m: map<string, Bucket>, p: Params, r: Request, rest: seq<Request>, key: string)
    requires r.key != key
    ensures Shared(m, p, [r] + rest, key) == Shared(AfterRequest(m, p, r.key, r.at), p, rest, key)
  {
    SharedCons(m, p, [r] + rest, key);
    assert ([r] + rest)[1..] == rest;
    Leading(Shared(AfterRequest(m, p, r.key, r.at), p, rest, key));
  }

  lemma IdleIsEvicted(m: map<string, Bucket>, p: Params, key: string, other: string, now: real)
    requires key != other && key in m && now - m[key].lastSeen > IDLE
    ensures Lookup(AfterRequest(m, p, other, now), key) == None
  {}

  lemma RevisitIsOrderly(p: Params, key: string, other: string, skew: real, at: real)
    requires Positive(p) && skew >= 0.0 && at >= 0.0
    ensures Orderly(Revisit(p, key, other, skew, at), skew)
  {}

  predicate RunsAlone(p: Params, rs: seq<Request>, key: string) {
    Shared(map[], p, rs, key) == Alone(None, p, TimesOf(rs, key))
  }

  /** Exactly when eviction is invisible: when the idle limit, less what readings may be out of
      order at both its ends, is long enough to refill a burst. */
  lemma EvictionIsInvisibleIff(p: Params, skew: real)
    requires Positive(p) && skew >= 0.0
    ensures Refills(p, skew) <==> forall rs, key | Orderly(rs, skew) :: RunsAlone(p, rs, key)
  {
    if Refills(p, skew) {
      forall rs, key | Orderly(rs, skew) ensures RunsAlone(p, rs, key) { EvictionIsInvisible(p, rs, key, skew); }
    } else {
      var at := if 2.0 * skew > IDLE then 0.0 else Between(p, IDLE - 2.0 * skew);
      RevisitAlone(p, "a", "b", skew, at);
      RevisitShared(p, "a", "b", skew, at);
      RevisitIsOrderly(p, "a", "b", skew, at);
      assert !RunsAlone(p, Revisit(p, "a", "b", skew, at), "a");
    }
  }

  lemma {:induction false} AllAdmitted(b: Option<Bucket>, p: Params, at: real, n: nat, s: real, t: real)
    requires Touched(b, p, at).tokens >= n as real && s <= at <= t
    ensures |Alone(b, p, Often(at, n))| == n
    ensures Admitted(Alone(b, p, Often(at, n)), Often(at, n), s, t) == n
    decreases n
  {
    AloneLength(b, p, Often(at, n));
    if n > 0 {
      OftenRest(at, n);
      AllAdmitted(Some(Paid(b, p, at)), p, at, n - 1, s, t);
    }
  }

  lemma {:induction false} AdmittedConcat(vs: seq<bool>, ws: seq<bool>, xs: seq<real>, ys: seq<real>, s: real, t: real)
    requires |vs| == |xs| && |ws| == |ys|
    ensures Admitted(vs + ws, xs + ys, s, t) == Admitted(vs, xs, s, t) + Admitted(ws, ys, s, t)
    decreases |xs|
  {
    if xs == [] {
      assert xs + ys == ys && vs + ws == ws;
    } else {
      AdmittedConcat(vs[1..], ws, xs[1..], ys, s, t);
      assert (xs + ys)[1..] == xs[1..] + ys && (vs + ws)[1..] == vs[1..] + ws;
    }
  }

  /** For readings in order, the rate is bounded in every run exactly under the same condition. */
  lemma RateIsBoundedIff(p: Params)
    requires Positive(p)
    ensures Refills(p, 0.0) <==> forall rs, key, s, t | Orderly(rs, 0.0) && s <= t :: RateHolds(p, rs, key, s, t, 0.0)
  {
    if Refills(p, 0.0) {
      forall rs, key, s, t | Orderly(rs, 0.0) && s <= t ensures RateHolds(p, rs, key, s, t, 0.0) {
        RateIsBounded(p, rs, key, s, t, 0.0);
      }
    } else {
      var at := Between(p, IDLE);
      RevisitIsOrderly(p, "a", "b", 0.0, at);
      RevisitExceeds(p, "a", "b", at);
    }
  }

  lemma RevisitExceeds(p: Params, key: string, other: string, at: real)
    requires Positive(p) && key != other && at > IDLE && at * p.rps < p.burst as real
    ensures !RateHolds(p, Revisit(p, key, other, 0.0, at), key, 0.0, at, 0.0)
  {
    RevisitShared(p, key, other, 0.0, at);
    RevisitTimes(p, key, other, 0.0, at);
    RevisitAdmits(p, at);
  }

  lemma RevisitAdmits(p: Params, at: real)
    requires Positive(p) && at >= 0.0
    ensures var n := p.burst; var vs, ws := Alone(None, p, Often(0.0, n)), Alone(None, p, Often(at, n));
            |vs| == n && |ws| == n
            && Admitted(vs + ([false] + ws), Often(0.0, n) + ([0.0] + Often(at, n)), 0.0, at) == 2 * n
  {
    var n := p.burst;
    AllAdmitted(None, p, 0.0, n, 0.0, at);
    AllAdmitted(None, p, at, n, 0.0, at);
    var vs, ws := Alone(None, p, Often(0.0, n)), Alone(None, p, Often(at, n));
    AdmittedConcat(vs, [false] + ws, Often(0.0, n), [0.0] + Often(at, n), 0.0, at);
    AdmittedConcat([false], ws, [0.0], Often(at, n), 0.0, at);
  }

  /** A moment past `idle` at which a bucket emptied at zero is not full yet. */
  function Between(p: Params, idle: real): (at: real)
    requires Positive(p) && idle * p.rps < p.burst as real
    ensures at > idle && at * p.rps < p.burst as real
  {
    Midpoint(p.burst as real, p.rps, idle);
    (p.burst as real / p.rps + idle) / 2.0
  }

  lemma Midpoint(burst: real, r: real, idle: real)
    requires r > 0.0 && idle * r < burst
    ensures var at := (burst / r + idle) / 2.0; at > idle && at * r < burst
  {
    var full := burst / r;
    var at := (full + idle) / 2.0;
    assert full * r == burst;
    Unscale(idle, full, r);
    Split(at, at, r);
    Split(full, idle, r);
    assert at + at == full + idle;
  }

  lemma Unscale(x: real, y: real, r: real)
    requires r >= 0.0 && x * r < y * r
    ensures x < y
  {
    if y <= x { Scale(y, x, r); }
  }
}
