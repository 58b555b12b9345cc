/** The admin bearer manager: a sequential class, and the same loads and stores interleaved
    between one rotator and any number of lock-free readers. */
module Bearer {
  import opened Wrappers

  const GRACE := 30_000_000_000  // GraceWindow in nanoseconds
  const MIN_LENGTH := 16

  datatype BearerError = EmptyBearer | BearerTooShort | BearerWhitespace | StoreFailed | StoreUnreachable

  predicate IsSpace(c: char) { c == ' ' || c == '\t' || c == '\n' || c == '\r' }

  /** A bearer is a byte string: one character per byte. */
  function ValidateBearer(b: string): (e: Option<BearerError>)
    ensures e == None <==> |b| >= MIN_LENGTH && forall i :: 0 <= i < |b| ==> !IsSpace(b[i])
  {
    if b == "" then Some(EmptyBearer)
    else if |b| < MIN_LENGTH then Some(BearerTooShort)
    else if exists i :: 0 <= i < |b| && IsSpace(b[i]) then Some(BearerWhitespace)
    else None
  }

  /** The atomics; "" stands for a nil or empty pointer. */
  datatype Cells = Cells(current: string, previous: string, prevExpiry: int)

  /** previousIfActive and Accepts, when nothing moves meanwhile. */
  predicate AcceptsAt(c: Cells, now: int, candidate: string) {
    candidate != ""
    && (candidate == c.current
        || (c.prevExpiry != 0 && now < c.prevExpiry && candidate == c.previous))
  }

  /** The cells after an undisturbed rotation. */
  function Rotated(c: Cells, now: int, bearer: string): Cells {
    if c.current != "" && c.current != bearer then Cells(bearer, c.current, now + GRACE)
    else Cells(bearer, "", 0)
  }

  datatype Source = Toml | Db

  class Manager {
    const tomlBearer: string
    var current: string
    var previous: string
    var prevExpiry: int
    var source: Source

    constructor (tomlBearer: string)
      ensures this.tomlBearer == tomlBearer && Contents() == Cells("", "", 0)
    {
      this.tomlBearer, current, previous, prevExpiry, source := tomlBearer, "", "", 0, Toml;
    }

    ghost function Contents(): Cells
      reads this
    {
      Cells(current, previous, prevExpiry)
    }

    /** `stored` is the settings row: a failed read, no row, or a value. */
    method Load(stored: Option<Option<string>>) returns (e: Option<BearerError>)
      modifies this
      ensures stored == None ==> e == Some(StoreUnreachable) && Contents() == old(Contents())
      ensures stored != None ==> e == None && previous == old(previous) && prevExpiry == old(prevExpiry)
      ensures stored != None ==>
        if stored.value.Some? && stored.value.value != ""
        then current == stored.value.value && source == Db
        else current == tomlBearer && source == Toml
    {
      match stored
      case None => return Some(StoreUnreachable);
      case Some(row) =>
        if row.Some? && row.value != "" {
          current, source := row.value, Db;
        } else {
          current, source := tomlBearer, Toml;
        }
        return None;
    }

    method Accepts(candidate: string, now: int) returns (ok: bool)
      ensures ok == AcceptsAt(Contents(), now, candidate)
    {
      if candidate == "" { return false; }
      if current != "" && candidate == current { return true; }
      var deadline := prevExpiry;
      if deadline == 0 || now >= deadline { return false; }
      return previous != "" && candidate == previous;
    }

    method Rotate(bearer: string, storeOk: bool, now: int) returns (e: Option<BearerError>)
      modifies this
      ensures e == if ValidateBearer(bearer).Some? then ValidateBearer(bearer)
                   else if !storeOk then Some(StoreFailed) else None
      ensures e.Some? ==> Contents() == old(Contents()) && source == old(source)
      ensures e == None ==> Contents() == Rotated(old(Contents()), now, bearer) && source == Db
    {
      e := ValidateBearer(bearer);
      if e.Some? { return; }
      if !storeOk { return Some(StoreFailed); }
      var replaced := current;
      if replaced != "" && replaced != bearer {
        previous := replaced;
        prevExpiry := now + GRACE;
      } else {
        previous := "";
        prevExpiry := 0;
      }
      current := bearer;
      source := Db;
    }
  }

  /** A valid rotation keeps the replaced bearer usable for the grace window and no longer, and
      locks out what was in grace before. */
  lemma RotationMeaning(c: Cells, now: int, bearer: string, later: int, candidate: string)
    requires ValidateBearer(bearer) == None && now > 0
    ensures AcceptsAt(Rotated(c, now, bearer), later, candidate) <==>
            candidate == bearer || (candidate != "" && candidate == c.current && later < now + 30 * 1_000_000_000)
  {}

  // ---------------------------------------------------------------- interleaved steps

  /** The rotator between its loads and stores. */
  datatype Rotator =
    | Resting
    | Loaded(replaced: string, bearer: string)      // has read current
    | Demoted(replaced: string, bearer: string)     // has stored previous
    | Stamped(replaced: string, bearer: string, at: int)  // has read the clock
    | Expiring(replaced: string, bearer: string)    // has stored prevExpiry

  datatype Position =
    | AtCurrent
    | AtDeadline
    | AtClock(deadline: int)
    | AtPrevious(deadline: int)
    | Done(accepted: bool)

  /** One call of Accepts. */
  datatype Reader = Reader(
    candidate: string, position: Position,
    // History.
    start: int,            // when the call began
    wasCurrent: bool,      // the candidate was current then
    quietStart: bool,      // no rotation was under way then
    overlaps: nat,         // rotations that overlapped the call up to its verdict
    stamped: Option<int>,  // when the overlapping rotation read the clock, if it did by then
    committed: bool,       // the overlapping rotation had stored current by then
    end: int)              // when the verdict fell

  datatype State = State(
    cells: Cells, clock: int, rotator: Rotator, readers: seq<Reader>,
    // History.
    seen: map<string, int>,  // last instant at which a bearer was current
    stamp: int)              // clock reading behind the last grace window

  datatype Step =
    | Tick(dt: nat)
    | Begin(bearer: string)
    | Advance
    | Call(candidate: string)
    | Read(reader: nat)

  function Observe(s: State): State {
    s.(seen := s.seen[s.cells.current := s.clock])
  }

  /** Whether the rotation under way demotes a bearer. */
  predicate Demotes(r: Rotator) { !r.Resting? && r.replaced != "" && r.replaced != r.bearer }

  /** What a call under way notes of a rotation that begins. */
  function Overlap(r: Reader): Reader {
    if r.position.Done? then r else r.(overlaps := r.overlaps + 1)
  }

  /** ... and of its reading the clock and storing current. */
  function Note(s: State, r: Reader): Reader {
    if r.position.Done? then r
    else if s.rotator.Demoted? && Demotes(s.rotator) then r.(stamped := Some(s.clock))
    else if s.rotator.Expiring? then r.(committed := true)
    else r
  }

  /** The rotator's next load or store. */
  function AdvanceRotator(s: State): State {
    match s.rotator
    case Resting => s
    case Loaded(o, b) =>
      s.(cells := s.cells.(previous := if o != "" && o != b then o else ""), rotator := Demoted(o, b))
    case Demoted(o, b) =>
      if o != "" && o != b then s.(rotator := Stamped(o, b, s.clock), stamp := s.clock)
      else s.(cells := s.cells.(prevExpiry := 0), rotator := Expiring(o, b))
    case Stamped(o, b, at) => s.(cells := s.cells.(prevExpiry := at + GRACE), rotator := Expiring(o, b))
    case Expiring(o, b) => s.(cells := s.cells.(current := b), rotator := Resting)
  }

  function Verdict(s: State, r: Reader, accepted: bool): Reader {
    r.(position := Position.Done(accepted), end := s.clock)
  }

  /** The next load of an Accepts call. */
  function AdvanceReader(s: State, r: Reader): Reader {
    match r.position
    case AtCurrent =>
      if r.candidate == "" then Verdict(s, r, false)
      else if s.cells.current != "" && r.candidate == s.cells.current then Verdict(s, r, true)
      else r.(position := AtDeadline)
    case AtDeadline =>
      if s.cells.prevExpiry == 0 then Verdict(s, r, false)
      else r.(position := AtClock(s.cells.prevExpiry))
    case AtClock(d) =>
      if s.clock >= d then Verdict(s, r, false) else r.(position := AtPrevious(d))
    case AtPrevious(d) =>
      Verdict(s, r, s.cells.previous != "" && r.candidate == s.cells.previous)
    case Done(_) => r
  }

  function NewReader(s: State, candidate: string): Reader {
    Reader(candidate, AtCurrent, s.clock, candidate == s.cells.current, s.rotator.Resting?,
           if s.rotator.Resting? then 0 else 1,
           if s.rotator.Stamped? || (s.rotator.Expiring? && Demotes(s.rotator)) then Some(s.stamp) else None,
           false, s.clock)
  }

  function Next(s: State, step: Step): State {
    Observe(
      match step
      case Tick(dt) => s.(clock := s.clock + dt)
      case Begin(b) =>
        if !s.rotator.Resting? || ValidateBearer(b).Some? then s
        else s.(rotator := Loaded(s.cells.current, b), readers := Apply(Overlap, s.readers))
      case Advance => AdvanceRotator(s).(readers := Apply(r => Note(s, r), s.readers))
      case Call(c) => s.(readers := s.readers + [NewReader(s, c)])
      case Read(i) =>
        if i >= |s.readers| then s
        else s.(readers := s.readers[i := AdvanceReader(s, s.readers[i])]))
  }

  function Run(s: State, steps: seq<Step>): State
    decreases |steps|
  {
    if steps == [] then s else Run(Next(s, steps[0]), steps[1..])
  }

  /** After Load, at a positive wall-clock time. */
  function Boot(current: string, clock: int): State {
    State(Cells(current, "", 0), clock, Resting, [], map[current := clock], 0)
  }

  // ---------------------------------------------------------------- invariant of the cells

  ghost predicate SeenAt(s: State, b: string, since: int) {
    b in s.seen && s.seen[b] >= since
  }

  ghost predicate CellInv(s: State) {
    && s.clock > 0
    && s.cells.current in s.seen && s.seen[s.cells.current] == s.clock
    && s.stamp <= s.clock
    && (!s.rotator.Resting? ==> s.rotator.replaced == s.cells.current && ValidateBearer(s.rotator.bearer) == None)
    && (s.rotator.Demoted? || s.rotator.Stamped? || s.rotator.Expiring? ==>
          s.cells.previous == if s.rotator.replaced != "" && s.rotator.replaced != s.rotator.bearer
                              then s.rotator.replaced else "")
    && (s.rotator.Stamped? ==> 0 < s.rotator.at == s.stamp
                               && s.rotator.replaced != "" && s.rotator.replaced != s.rotator.bearer)
    && (s.rotator.Expiring? && s.cells.previous != "" ==> s.cells.prevExpiry == s.stamp + GRACE && s.stamp > 0)
    && (s.cells.previous != "" ==> s.cells.previous in s.seen)
    // Unless its own expiry is still to be written, a demoted bearer was current less than the
    // grace window before the deadline.
    && (s.cells.previous != "" && !s.rotator.Demoted? && !s.rotator.Stamped? ==>
          s.cells.prevExpiry <= s.seen[s.cells.previous] + GRACE)
  }

  /** The soundness part of a reader: what it holds was current recently enough. */
  ghost predicate SoundReader(s: State, r: Reader) {
    && r.start <= s.clock
    && (r.position.AtClock? || r.position.AtPrevious? ==>
          s.cells.previous != "" ==>
            SeenAt(s, s.cells.previous, r.start) || SeenAt(s, s.cells.previous, r.position.deadline - GRACE))
    && (r.position.AtPrevious? ==> r.start < r.position.deadline)
    && (r.position.Done? && r.position.accepted ==>
          r.candidate != "" && r.candidate in s.seen && s.seen[r.candidate] > r.start - GRACE)
  }

  /** The availability part, for a call that has met at most one rotation. Until that rotation
      stores current, the bearer that was current when the call began still is. */
  ghost predicate Untouched(s: State, r: Reader) {
    && s.cells.current == r.candidate
    && (r.overlaps == 0 <==> s.rotator.Resting?)
    && r.stamped == (if s.rotator.Stamped? || (s.rotator.Expiring? && Demotes(s.rotator)) then Some(s.stamp) else None)
    && (r.quietStart && r.stamped.Some? ==> s.stamp >= r.start)
  }

  /** Afterwards it still is, or it is the demoted bearer with its own deadline in force. */
  ghost predicate Demotee(s: State, r: Reader) {
    && s.rotator.Resting? && r.overlaps == 1
    && (s.cells.current == r.candidate
        || (s.cells.previous == r.candidate && s.cells.prevExpiry == s.stamp + GRACE && s.stamp > 0
            && r.stamped == Some(s.stamp) && (r.quietStart ==> s.stamp >= r.start)))
  }

  ghost predicate ServedReader(s: State, r: Reader) {
    r.wasCurrent && r.candidate != "" && r.overlaps <= 1 ==>
      if r.position.Done? then
        r.position.accepted
        || (r.overlaps == 1 && r.committed && r.stamped.Some? && r.end >= r.stamped.value + GRACE
            && (r.quietStart ==> r.stamped.value >= r.start))
      else
        && (if r.committed then Demotee(s, r) else Untouched(s, r))
        && (r.position != AtCurrent ==> s.cells.current != r.candidate)
        && (r.position.AtClock? || r.position.AtPrevious? ==> r.position.deadline == s.cells.prevExpiry)
  }

  ghost predicate Inv(s: State) {
    CellInv(s) && forall i :: 0 <= i < |s.readers| ==> SoundReader(s, s.readers[i]) && ServedReader(s, s.readers[i])
  }

  // ---------------------------------------------------------------- preservation

  lemma CellStep(s: State, step: Step)
    requires CellInv(s)
    ensures CellInv(Next(s, step))
  {}

  /** What a step that is not its own makes of a call. */
  function Met(s: State, step: Step, r: Reader): Reader {
    match step
    case Begin(b) => if !s.rotator.Resting? || ValidateBearer(b).Some? then r else Overlap(r)
    case Advance => Note(s, r)
    case _ => r
  }

  lemma SoundStep(s: State, step: Step, r: Reader)
    requires CellInv(s) && SoundReader(s, r)
    ensures SoundReader(Next(s, step), Met(s, step, r))
  {}

  lemma SoundRead(s: State, i: nat)
    requires CellInv(s) && i < |s.readers| && SoundReader(s, s.readers[i])
    ensures SoundReader(Next(s, Read(i)), AdvanceReader(s, s.readers[i]))
  {}

  lemma ServedStep(s: State, step: Step, r: Reader)
    requires CellInv(s) && ServedReader(s, r) && SoundReader(s, r)
    ensures ServedReader(Next(s, step), Met(s, step, r))
  {}

  lemma ServedRead(s: State, i: nat)
    requires CellInv(s) && i < |s.readers| && ServedReader(s, s.readers[i])
    ensures ServedReader(Next(s, Read(i)), AdvanceReader(s, s.readers[i]))
  {}

  lemma NewReaderInv(s: State, c: string)
    requires CellInv(s)
    ensures SoundReader(Next(s, Call(c)), NewReader(s, c)) && ServedReader(Next(s, Call(c)), NewReader(s, c))
  {}

  lemma ReadersStep(s: State, step: Step, i: nat)
    requires i < |Next(s, step).readers|
    ensures i <= |s.readers|
    ensures Next(s, step).readers[i] ==
            if i == |s.readers| then (if step.Call? then NewReader(s, step.candidate) else Next(s, step).readers[i])
            else if step == Read(i) then AdvanceReader(s, s.readers[i])
            else Met(s, step, s.readers[i])
    ensures i == |s.readers| ==> step.Call?
  {}

  lemma StepInv(s: State, step: Step)
    requires Inv(s)
    ensures Inv(Next(s, step))
  {
    var t := Next(s, step);
    CellStep(s, step);
    forall i | 0 <= i < |t.readers| ensures SoundReader(t, t.readers[i]) && ServedReader(t, t.readers[i]) {
      ReadersStep(s, step, i);
      if i == |s.readers| {
        NewReaderInv(s, step.candidate);
      } else if step == Read(i) {
        SoundRead(s, i);
        ServedRead(s, i);
      } else {
        SoundStep(s, step, s.readers[i]);
        ServedStep(s, step, s.readers[i]);
      }
    }
  }

  lemma {:induction false} RunInv(s: State, steps: seq<Step>)
    requires Inv(s)
    ensures Inv(Run(s, steps))
    decreases |steps|
  {
    if steps != [] {
      StepInv(s, steps[0]);
      RunInv(Next(s, steps[0]), steps[1..]);
    }
  }

  // ---------------------------------------------------------------- the history is real

  lemma {:induction false} RunSnoc(s: State, steps: seq<Step>, n: nat)
    requires n < |steps|
    ensures Run(s, steps[..n + 1]) == Next(Run(s, steps[..n]), steps[n])
  {
    RunConcat(s, steps[..n], [steps[n]]);
    assert steps[..n + 1] == steps[..n] + [steps[n]];
    var t := Run(s, steps[..n]);
    assert Run(t, [steps[n]]) == Run(Next(t, steps[n]), []);
  }

  lemma {:induction false} RunConcat(s: State, a: seq<Step>, b: seq<Step>)
    ensures Run(s, a + b) == Run(Run(s, a), b)
    decreases |a|
  {
    if a == [] {
      assert a + b == b;
    } else {
      RunConcat(Next(s, a[0]), a[1..], b);
      assert (a + b)[1..] == a[1..] + b;
    }
  }

  /** Whatever instant the history names, some state of the run had that bearer current then. */
  lemma {:induction false} SeenIsWitnessed(s: State, steps: seq<Step>, n: nat, b: string)
    requires s.seen == map[s.cells.current := s.clock] && n <= |steps|
    ensures var t := Run(s, steps[..n]);
            b in t.seen ==>
              exists k :: 0 <= k <= n && var u := Run(s, steps[..k]); u.cells.current == b && u.clock == t.seen[b]
  {
    var t := Run(s, steps[..n]);
    if n == 0 {
      assert steps[..0] == [];
      assert b in t.seen ==> var u := Run(s, steps[..0]); u.cells.current == b && u.clock == t.seen[b];
    } else {
      SeenIsWitnessed(s, steps, n - 1, b);
      RunSnoc(s, steps, n - 1);
      assert b == t.cells.current ==> var u := Run(s, steps[..n]); u.cells.current == b && u.clock == t.seen[b];
    }
  }

  /** The candidate was current at some instant after the grace window before the call began and
      no later than its verdict. */
  ghost predicate Witnessed(s: State, steps: seq<Step>, n: nat, r: Reader)
    requires n <= |steps|
  {
    exists k :: 0 <= k <= n && var u := Run(s, steps[..k]);
      u.cells.current == r.candidate && r.start - GRACE < u.clock <= r.end
  }

  ghost predicate SeenIsPast(s: State) { forall b :: b in s.seen ==> s.seen[b] <= s.clock }

  lemma {:induction false} SeenStaysPast(s: State, steps: seq<Step>)
    requires SeenIsPast(s)
    ensures SeenIsPast(Run(s, steps))
    decreases |steps|
  {
    if steps != [] { SeenStaysPast(Next(s, steps[0]), steps[1..]); }
  }

  /** A verdict is never revised, and falls at the clock of its own step. */
  lemma VerdictStands(s: State, step: Step, i: nat)
    requires i < |Next(s, step).readers| && Next(s, step).readers[i].position.Done?
    ensures i < |s.readers|
    ensures s.readers[i].position.Done? ==> Next(s, step).readers[i] == s.readers[i]
    ensures !s.readers[i].position.Done? ==> Next(s, step).readers[i].end == Next(s, step).clock
  {
    ReadersStep(s, step, i);
  }

  lemma {:induction false} AcceptedByThen(s: State, steps: seq<Step>, n: nat, i: nat)
    requires s.seen == map[s.cells.current := s.clock] && Inv(s) && s.readers == [] && n <= |steps|
    ensures var t := Run(s, steps[..n]);
            i < |t.readers| && t.readers[i].position == Position.Done(true) ==> Witnessed(s, steps, n, t.readers[i])
  {
    var t := Run(s, steps[..n]);
    if n == 0 {
      assert steps[..0] == [];
    } else if i < |t.readers| && t.readers[i].position == Position.Done(true) {
      var p := Run(s, steps[..n - 1]);
      RunSnoc(s, steps, n - 1);
      VerdictStands(p, steps[n - 1], i);
      if p.readers[i].position.Done? {
        AcceptedByThen(s, steps, n - 1, i);
      } else {
        AcceptedNow(s, steps, n, i);
      }
    }
  }

  lemma AcceptedNow(s: State, steps: seq<Step>, n: nat, i: nat)
    requires s.seen == map[s.cells.current := s.clock] && Inv(s) && n <= |steps|
    requires var t := Run(s, steps[..n]);
             i < |t.readers| && t.readers[i].position == Position.Done(true) && t.readers[i].end == t.clock
    ensures Witnessed(s, steps, n, Run(s, steps[..n]).readers[i])
  {
    var t := Run(s, steps[..n]);
    RunInv(s, steps[..n]);
    SeenStaysPast(s, steps[..n]);
    assert SoundReader(t, t.readers[i]);
    SeenIsWitnessed(s, steps, n, t.readers[i].candidate);
  }

  /** Soundness under every interleaving: an accepted candidate was current at some instant of
      the run between the call's start less the grace window and its verdict. */
  lemma AcceptedWasCurrent(current: string, clock: int, steps: seq<Step>, i: nat)
    requires clock > 0
    ensures var s := Run(Boot(current, clock), steps);
            i < |s.readers| && s.readers[i].position == Position.Done(true) ==>
              Witnessed(Boot(current, clock), steps, |steps|, s.readers[i])
  {
    assert steps[..|steps|] == steps;
    AcceptedByThen(Boot(current, clock), steps, |steps|, i);
  }

  /** Availability under every interleaving: a bearer that was current when the call began and has
      met at most one rotation by its verdict is accepted if it met none, or the one it met had not
      stored the new bearer by then, or the verdict fell within 30 seconds of that rotation's own
      reading of the clock. */
  lemma CurrentIsServed(current: string, clock: int, steps: seq<Step>, i: nat)
    requires clock > 0
    ensures var s := Run(Boot(current, clock), steps);
            i < |s.readers| ==>
              var r := s.readers[i];
              r.wasCurrent && r.candidate != "" && r.overlaps <= 1 && r.position.Done?
              && (r.overlaps == 0 || !r.committed || r.stamped == None || r.end < r.stamped.value + GRACE) ==>
                r.position.accepted
  {
    RunInv(Boot(current, clock), steps);
    var s := Run(Boot(current, clock), steps);
    assert i < |s.readers| ==> ServedReader(s, s.readers[i]);
  }

  /** So a call shorter than the grace window that begins between rotations and meets at most
      one is served without a gap. */
  lemma ShortCallsSeeNoGap(current: string, clock: int, steps: seq<Step>, i: nat)
    requires clock > 0
    ensures var s := Run(Boot(current, clock), steps);
            i < |s.readers| && s.readers[i].wasCurrent && s.readers[i].candidate != "" && s.readers[i].quietStart
              && s.readers[i].overlaps <= 1 && s.readers[i].position.Done?
              && s.readers[i].end < s.readers[i].start + GRACE ==>
              s.readers[i].position.accepted
  {
    RunInv(Boot(current, clock), steps);
    var s := Run(Boot(current, clock), steps);
    assert i < |s.readers| ==> ServedReader(s, s.readers[i]);
  }

  // ---------------------------------------------------------------- undisturbed calls

  const ROTATION: seq<Step> := [Advance, Advance, Advance, Advance]

  function Again(i: nat): seq<Step> { [Read(i), Read(i), Read(i), Read(i)] }

  lemma FourSteps(s: State, a: Step, b: Step, c: Step, d: Step)
    ensures Run(s, [a, b, c, d]) == Next(Next(Next(Next(s, a), b), c), d)
  {
    var s1, s2, s3 := Next(s, a), Next(Next(s, a), b), Next(Next(Next(s, a), b), c);
    assert [a, b, c, d][1..] == [b, c, d] && [b, c, d][1..] == [c, d] && [c, d][1..] == [d];
    assert Run(s, [a, b, c, d]) == Run(s1, [b, c, d]);
    assert Run(s1, [b, c, d]) == Run(s2, [c, d]);
    assert Run(s2, [c, d]) == Run(s3, [d]);
    assert Run(s3, [d]) == Next(s3, d);
  }

  /** A call without its notes on the overlapping rotation. */
  function Bare(r: Reader): Reader { r.(stamped := None, committed := false) }

  lemma AdvanceKeeps(s: State)
    ensures Next(s, Advance).clock == s.clock && Apply(Bare, Next(s, Advance).readers) == Apply(Bare, s.readers)
    ensures Next(s, Advance).cells == AdvanceRotator(s).cells && Next(s, Advance).rotator == AdvanceRotator(s).rotator
  {}

  /** A rotation whose steps nothing interrupts leaves what Rotate leaves. */
  lemma UndisturbedRotation(s: State, bearer: string)
    requires s.rotator.Resting? && ValidateBearer(bearer) == None
    ensures var t := Run(Next(s, Begin(bearer)), ROTATION);
            t.cells == Rotated(s.cells, s.clock, bearer) && t.rotator.Resting? && t.clock == s.clock
            && Apply(Bare, t.readers) == Apply(Bare, Apply(Overlap, s.readers))
  {
    var s1 := Next(s, Begin(bearer));
    var s2 := Next(s1, Advance);
    var s3 := Next(s2, Advance);
    var s4 := Next(s3, Advance);
    FourSteps(s1, Advance, Advance, Advance, Advance);
    AdvanceKeeps(s1);
    AdvanceKeeps(s2);
    AdvanceKeeps(s3);
    AdvanceKeeps(s4);
    assert s1.rotator == Loaded(s.cells.current, bearer) && s1.cells == s.cells && s1.clock == s.clock;
  }

  lemma ReadStep(s: State, i: nat)
    requires i < |s.readers|
    ensures var t := Next(s, Read(i));
            t.cells == s.cells && t.clock == s.clock && t.stamp == s.stamp
            && t.readers == s.readers[i := AdvanceReader(s, s.readers[i])]
  {}

  function Decide(s: State, r: Reader): Reader {
    AdvanceReader(s, AdvanceReader(s, AdvanceReader(s, AdvanceReader(s, r))))
  }

  lemma SameDecision(s: State, t: State, r: Reader)
    requires t.cells == s.cells && t.clock == s.clock && t.stamp == s.stamp
    ensures AdvanceReader(t, r) == AdvanceReader(s, r)
  {}

  lemma TwoReads(s: State, i: nat)
    requires i < |s.readers|
    ensures var t := Next(Next(s, Read(i)), Read(i));
            t.cells == s.cells && t.clock == s.clock && t.stamp == s.stamp
            && t.readers == s.readers[i := AdvanceReader(s, AdvanceReader(s, s.readers[i]))]
  {
    var s1 := Next(s, Read(i));
    ReadStep(s, i);
    ReadStep(s1, i);
    SameDecision(s, s1, s1.readers[i]);
  }

  lemma FourReads(s: State, i: nat)
    requires i < |s.readers|
    ensures Run(s, Again(i)).cells == s.cells
    ensures Run(s, Again(i)).readers == s.readers[i := Decide(s, s.readers[i])]
  {
    var s2 := Next(Next(s, Read(i)), Read(i));
    TwoReads(s, i);
    TwoReads(s2, i);
    SameDecision(s, s2, s2.readers[i]);
    SameDecision(s, s2, AdvanceReader(s, s2.readers[i]));
    FourSteps(s, Read(i), Read(i), Read(i), Read(i));
  }

  lemma DecideAccepts(s: State, r: Reader)
    requires r.position == AtCurrent
    ensures Decide(s, r).position == Position.Done(AcceptsAt(s.cells, s.clock, r.candidate))
  {
    var r1 := AdvanceReader(s, r);
    var r2 := AdvanceReader(s, r1);
    var r3 := AdvanceReader(s, r2);
    assert r1.position.AtDeadline? || r1.position == Position.Done(AcceptsAt(s.cells, s.clock, r.candidate));
    assert r2.position.AtClock? || r2.position == Position.Done(AcceptsAt(s.cells, s.clock, r.candidate));
    assert r3.position.AtPrevious? || r3.position == Position.Done(AcceptsAt(s.cells, s.clock, r.candidate));
  }

  /** A call whose loads nothing interrupts decides what Accepts decides. */
  lemma UndisturbedAccepts(s: State, i: nat)
    requires i < |s.readers| && s.readers[i].position == AtCurrent
    ensures var t := Run(s, Again(i));
            |t.readers| == |s.readers|
            && t.readers[i].position == Position.Done(AcceptsAt(s.cells, s.clock, s.readers[i].candidate))
  {
    FourReads(s, i);
    DecideAccepts(s, s.readers[i]);
  }

  function TwoRotations(b: string, c: string): seq<Step> {
    [Begin(b)] + ROTATION + ([Begin(c)] + ROTATION)
  }

  lemma TwoRotationsRun(s: State, b: string, c: string)
    requires s.rotator.Resting? && ValidateBearer(b) == None && ValidateBearer(c) == None
    ensures var t := Run(s, TwoRotations(b, c));
            t.cells == Rotated(Rotated(s.cells, s.clock, b), s.clock, c) && t.clock == s.clock
            && Apply(Bare, t.readers) == Apply(Bare, Apply(Overlap, Apply(Overlap, s.readers)))
  {
    RunConcat(s, [Begin(b)] + ROTATION, [Begin(c)] + ROTATION);
    var m := Run(s, [Begin(b)] + ROTATION);
    RotationFrom(s, b);
    RotationFrom(m, c);
    BareOverlap(m.readers, Apply(Overlap, s.readers));
  }

  lemma BareOverlap(x: seq<Reader>, y: seq<Reader>)
    requires Apply(Bare, x) == Apply(Bare, y)
    ensures Apply(Bare, Apply(Overlap, x)) == Apply(Bare, Apply(Overlap, y))
  {
    assert |x| == |Apply(Bare, x)| == |y|;
    forall i | 0 <= i < |x| ensures Bare(Overlap(x[i])) == Bare(Overlap(y[i])) {
      assert Apply(Bare, x)[i] == Bare(x[i]) && Apply(Bare, y)[i] == Bare(y[i]);
    }
  }

  lemma RotationFrom(s: State, b: string)
    requires s.rotator.Resting? && ValidateBearer(b) == None
    ensures var t := Run(s, [Begin(b)] + ROTATION);
            t.cells == Rotated(s.cells, s.clock, b) && t.rotator.Resting? && t.clock == s.clock
            && Apply(Bare, t.readers) == Apply(Bare, Apply(Overlap, s.readers))
  {
    UndisturbedRotation(s, b);
    assert ([Begin(b)] + ROTATION)[1..] == ROTATION;
  }

  lemma AdvanceFrame(s: State, r: Reader)
    requires r.end == s.clock
    ensures var q := AdvanceReader(s, r);
            q.start == r.start && q.wasCurrent == r.wasCurrent && q.quietStart == r.quietStart
              && q.overlaps == r.overlaps
            && q.end == s.clock
  {}

  lemma DecideFrame(s: State, r: Reader)
    requires r.end == s.clock
    ensures var q := Decide(s, r);
            q.start == r.start && q.wasCurrent == r.wasCurrent && q.quietStart == r.quietStart
              && q.overlaps == r.overlaps
            && q.end == s.clock
  {
    var r1 := AdvanceReader(s, r);
    var r2 := AdvanceReader(s, r1);
    AdvanceFrame(s, r);
    AdvanceFrame(s, r1);
    AdvanceFrame(s, r2);
    AdvanceFrame(s, AdvanceReader(s, r2));
  }

  /** The state of a call that two rotations have overlapped. */
  lemma AfterTwoRotations(a: string, b: string, c: string, clock: int) returns (s: State)
    requires ValidateBearer(b) == None && ValidateBearer(c) == None
    requires a != "" && a != b && a != c && b != c && clock > 0
    ensures s == Run(Next(Boot(a, clock), Call(a)), TwoRotations(b, c))
    ensures s.clock == clock && s.cells == Cells(c, b, clock + GRACE) && |s.readers| == 1
    ensures Bare(s.readers[0]) == Bare(NewReader(Boot(a, clock), a).(overlaps := 2))
  {
    var s1 := Next(Boot(a, clock), Call(a));
    assert s1.readers == [NewReader(Boot(a, clock), a)];
    s := Run(s1, TwoRotations(b, c));
    TwoRotationsRun(s1, b, c);
    assert |s.readers| == |Apply(Bare, s.readers)| == 1;
    assert Bare(s.readers[0]) == Apply(Bare, s.readers)[0] == Bare(Overlap(Overlap(s1.readers[0])));
  }

  /** One overlapping rotation is the most a call can take: with two, however short the call, a
      bearer that was current when it began is turned away. */
  lemma TwoRotationsOpenAGap(a: string, b: string, c: string, clock: int)
    requires ValidateBearer(b) == None && ValidateBearer(c) == None
    requires a != "" && a != b && a != c && b != c && clock > 0
    ensures var t := Run(Boot(a, clock), [Call(a)] + TwoRotations(b, c) + Again(0));
            |t.readers| == 1 && var r := t.readers[0];
            r.wasCurrent && r.quietStart && r.overlaps == 2 && r.end == r.start && r.position == Position.Done(false)
  {
    var s0 := Boot(a, clock);
    var s := AfterTwoRotations(a, b, c, clock);
    FourReads(s, 0);
    DecideAccepts(s, s.readers[0]);
    DecideFrame(s, s.readers[0]);
    RunConcat(s0, [Call(a)] + TwoRotations(b, c), Again(0));
    RunConcat(s0, [Call(a)], TwoRotations(b, c));
    assert Run(s0, [Call(a)]) == Run(Next(s0, Call(a)), []);
  }
}
