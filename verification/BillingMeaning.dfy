/** What the emitted billing text means: it parses back to the tiers that were printed, and
    evaluating it prices requests by the first matching tier. */
module BillingMeaning {
  import opened Wrappers
  import opened BillingText
  import opened BillingOrder
  import opened BillingExpr

  // ---------------------------------------------------------------- semantics of the DSL

  /** The dimensions a customer request carries; "" when the request omits one. */
  datatype Request = Request(resolution: string, audio: string, mode: string)

  function Param(req: Request, name: string): string {
    match name
    case "resolution" => req.resolution
    case "audio" => req.audio
    case "mode" => req.mode
    case _ => ""
  }

  predicate Holds(guard: seq<Clause>, req: Request) {
    forall i :: 0 <= i < |guard| ==> Param(req, guard[i].param) == guard[i].value
  }

  /** A chain is evaluated left to right: the first branch whose guard holds is charged. */
  function Eval(chain: Chain, req: Request): Call
    decreases |chain.branches|
  {
    if chain.branches == [] then chain.otherwise
    else if Holds(chain.branches[0].guard, req) then chain.branches[0].call
    else Eval(chain.(branches := chain.branches[1..]), req)
  }

  function EvalText(text: string, req: Request): Option<Call> {
    match ParseChain(text)
    case None => None
    case Some(chain) => Some(Eval(chain, req))
  }

  // ---------------------------------------------------------------- printing and parsing

  ghost predicate AllDimensioned(ts: seq<Tier>) {
    forall t :: t in ts ==> Dimensioned(t)
  }

  function ChainOf(ts: seq<Tier>): Chain {
    Chain(Apply(BranchOf, ts), UNPRICED)
  }

  /** The tier a parsed branch came from. */
  function TierOf(b: Branch): Tier {
    Tier(DimOf(b.guard, "resolution"), DimOf(b.guard, "audio"), DimOf(b.guard, "mode"),
         b.call.tierLabel, b.call.fixed, b.call.note)
  }

  function DimOf(guard: seq<Clause>, name: string): string {
    if guard == [] then "" else if guard[0].param == name then guard[0].value else DimOf(guard[1..], name)
  }

  lemma TierOfBranch(t: Tier)
    ensures TierOf(BranchOf(t)) == t
  {
    var a, m := DimensionClause("audio", t.audio), DimensionClause("mode", t.mode);
    DimOfConcat(DimensionClause("resolution", t.resolution) + a, m, "resolution");
    DimOfConcat(DimensionClause("resolution", t.resolution), a, "resolution");
    DimOfConcat(DimensionClause("resolution", t.resolution) + a, m, "audio");
    DimOfConcat(DimensionClause("resolution", t.resolution), a, "audio");
    DimOfConcat(DimensionClause("resolution", t.resolution) + a, m, "mode");
    DimOfConcat(DimensionClause("resolution", t.resolution), a, "mode");
  }

  lemma {:induction false} DimOfConcat(a: seq<Clause>, b: seq<Clause>, name: string)
    requires forall i :: 0 <= i < |a| ==> a[i].value != ""
    ensures DimOf(a + b, name) == if DimOf(a, name) != "" then DimOf(a, name) else DimOf(b, name)
  {
    if a == [] {
      assert a + b == b;
    } else {
      DimOfConcat(a[1..], b, name);
      assert (a + b)[1..] == a[1..] + b;
    }
  }

  /** Parsing what was printed gives the printed tiers back when every tier has a
      dimension, and is a syntax error as soon as one tier has none. */
  lemma {:induction false} PrintedChainParses(ts: seq<Tier>)
    ensures ParseChain(ChainText(ts)) == if AllDimensioned(ts) then Some(ChainOf(ts)) else None
  {
    if ts == [] {
      LoneCallParses(UNPRICED);
      assert ChainOf(ts).branches == [];
    } else {
      PrintedChainParses(ts[1..]);
      ChainOfCons(ts);
      if Dimensioned(ts[0]) { GuardedTierParses(ts); } else { BareTierFails(ts); }
    }
  }

  lemma ChainOfCons(ts: seq<Tier>)
    requires ts != []
    ensures ChainOf(ts) == Chain([BranchOf(ts[0])] + ChainOf(ts[1..]).branches, UNPRICED)
    ensures AllDimensioned(ts) <==> Dimensioned(ts[0]) && AllDimensioned(ts[1..])
  {
    ApplyCons(BranchOf, ts);
    assert ts == [ts[0]] + ts[1..];
    assert forall t :: t in ts <==> t == ts[0] || t in ts[1..];
  }

  lemma ApplyCons<A, B>(f: A -> B, s: seq<A>)
    requires s != []
    ensures Apply(f, s) == [f(s[0])] + Apply(f, s[1..])
  {}

  lemma {:induction false} LoneCallParses(c: Call)
    ensures ParseChain(CallText(c)) == Some(Chain([], c))
  {
    CallRoundTrip(c, "");
    CallTextStart(c, "");
    assert CallText(c) + "" == CallText(c);
  }

  lemma {:induction false} GuardBeforeQuestion(guard: seq<Clause>, t: string)
    requires guard != []
    ensures ParseGuard(GuardText(guard) + (" ? " + t)) == Done(guard, " ? " + t)
    ensures !("tier(" <= GuardText(guard) + (" ? " + t))
  {
    GuardTextStart(guard, " ? " + t);
    assert (" ? " + t)[1] == '?' && " && "[1] == '&';
    GuardRoundTrip(guard, " ? " + t);
  }

  lemma {:induction false} GuardedTierParses(ts: seq<Tier>)
    requires ts != [] && Dimensioned(ts[0])
    ensures ParseChain(ChainText(ts)) ==
            match ParseChain(ChainText(ts[1..]))
            case None => None
            case Some(chain) => Some(Chain([BranchOf(ts[0])] + chain.branches, chain.otherwise))
  {
    var call, guard, rest := CallOf(ts[0]), GuardOf(ts[0]), ChainText(ts[1..]);
    var tail := " : " + rest;
    var t2 := CallText(call) + tail;
    GuardedText(ts);
    CallRoundTrip(call, tail);
    GuardBeforeQuestion(guard, t2);
    StripPrefix(" ? ", t2);
    StripPrefix(" : ", rest);
    ParseChainStep(GuardText(guard) + (" ? " + t2), guard, t2, call, rest);
  }

  lemma GuardedText(ts: seq<Tier>)
    requires ts != [] && Dimensioned(ts[0])
    ensures ChainText(ts) == GuardText(GuardOf(ts[0]))
            + (" ? " + (CallText(CallOf(ts[0])) + (" : " + ChainText(ts[1..]))))
  {
    var call, guard, rest := CallText(CallOf(ts[0])), GuardText(GuardOf(ts[0])), ChainText(ts[1..]);
    Assoc(guard + " ? " + call, " : ", rest);
    Assoc(guard + " ? ", call, " : " + rest);
    Assoc(guard, " ? ", call + (" : " + rest));
  }

  lemma {:induction false} BareTierFails(ts: seq<Tier>)
    requires ts != [] && !Dimensioned(ts[0])
    ensures ParseChain(ChainText(ts)) == None
  {
    var call, rest := CallOf(ts[0]), ChainText(ts[1..]);
    var tail := " : " + rest;
    assert ChainText(ts) == CallText(call) + tail by { Assoc(CallText(call), " : ", rest); }
    CallRoundTrip(call, tail);
    CallTextStart(call, tail);
  }

  lemma {:induction false} ParseChainStep(t: string, guard: seq<Clause>, t2: string, call: Call, rest: string)
    requires !("tier(" <= t) && ParseGuard(t) == Done(guard, " ? " + t2) && Strip(" ? ", " ? " + t2) == Some(t2)
    requires ParseCall(t2) == Done(call, " : " + rest) && Strip(" : ", " : " + rest) == Some(rest)
    ensures ParseChain(t) ==
            match ParseChain(rest)
            case None => None
            case Some(chain) => Some(Chain([Branch(guard, call)] + chain.branches, chain.otherwise))
  {}

  /** Printing then parsing is the identity on tier lists without a dimensionless tier. */
  lemma TiersRoundTrip(ts: seq<Tier>)
    requires AllDimensioned(ts)
    ensures ParseChain(ChainText(ts)).Some?
    ensures Apply(TierOf, ParseChain(ChainText(ts)).value.branches) == ts
  {
    PrintedChainParses(ts);
    forall i | 0 <= i < |ts| ensures TierOf(BranchOf(ts[i])) == ts[i] { TierOfBranch(ts[i]); }
  }

  /** Reads the first branch of a printed chain, also one without a guard. */
  function Front(t: string): Parsed<Branch> {
    if "tier(" <= t then
      match ParseCall(t)
      case Fail => Fail
      case Done(call, t1) => Done(Branch([], call), t1)
    else
      match ParseGuard(t) case Fail => Fail case Done(guard, t1) =>
      match Strip(" ? ", t1) case None => Fail case Some(t2) =>
      match ParseCall(t2) case Fail => Fail case Done(call, t3) =>
      Done(Branch(guard, call), t3)
  }

  lemma FrontGuarded(t: string, guard: seq<Clause>, t2: string, call: Call, rest: string)
    requires !("tier(" <= t) && ParseGuard(t) == Done(guard, " ? " + t2) && Strip(" ? ", " ? " + t2) == Some(t2)
    requires ParseCall(t2) == Done(call, rest)
    ensures Front(t) == Done(Branch(guard, call), rest)
  {}

  lemma FrontBare(t: string, call: Call, rest: string)
    requires "tier(" <= t && ParseCall(t) == Done(call, rest)
    ensures Front(t) == Done(Branch([], call), rest)
  {}

  lemma {:induction false} FrontOf(ts: seq<Tier>)
    requires ts != []
    ensures Front(ChainText(ts)) == Done(BranchOf(ts[0]), " : " + ChainText(ts[1..]))
  {
    var call, guard, rest := CallOf(ts[0]), GuardOf(ts[0]), ChainText(ts[1..]);
    var tail := " : " + rest;
    var t2 := CallText(call) + tail;
    CallRoundTrip(call, tail);
    if Dimensioned(ts[0]) {
      GuardedText(ts);
      GuardBeforeQuestion(guard, t2);
      StripPrefix(" ? ", t2);
      FrontGuarded(GuardText(guard) + (" ? " + t2), guard, t2, call, tail);
    } else {
      assert ChainText(ts) == t2 by { Assoc(CallText(call), " : ", rest); }
      CallTextStart(call, tail);
      FrontBare(t2, call, tail);
    }
  }

  lemma {:induction false} FrontOfNone()
    ensures Front(ChainText([])) == Done(Branch([], UNPRICED), "")
  {
    CallRoundTrip(UNPRICED, "");
    CallTextStart(UNPRICED, "");
    assert CallText(UNPRICED) + "" == CallText(UNPRICED);
    FrontBare(CallText(UNPRICED), UNPRICED, "");
  }

  lemma SameFront(t: Tier, u: Tier, x: string, y: string)
    requires Done(BranchOf(t), " : " + x) == Done(BranchOf(u), " : " + y)
    ensures t == u && x == y
  {
    TierOfBranch(t);
    TierOfBranch(u);
    StripPrefix(" : ", x);
    StripPrefix(" : ", y);
  }

  /** No two tier lists print the same text, whether or not the text is in the grammar. */
  lemma {:induction false} PrintingIsInjective(ts: seq<Tier>, us: seq<Tier>)
    ensures ChainText(ts) == ChainText(us) <==> ts == us
  {
    if ts == us {
    } else if ts == [] {
      FrontOfNone();
      FrontOf(us);
    } else if us == [] {
      FrontOfNone();
      FrontOf(ts);
    } else if ChainText(ts) == ChainText(us) {
      FrontOf(ts);
      FrontOf(us);
      SameFront(ts[0], us[0], ChainText(ts[1..]), ChainText(us[1..]));
      PrintingIsInjective(ts[1..], us[1..]);
      SameCons(ts, us);
    }
  }

  lemma SameCons<T>(s: seq<T>, t: seq<T>)
    requires s != [] && t != [] && s[0] == t[0]
    ensures s == t <==> s[1..] == t[1..]
  {
    assert s == [s[0]] + s[1..] && t == [t[0]] + t[1..];
  }

  // ---------------------------------------------------------------- evaluation

  predicate Matches(t: Tier, req: Request) {
    (t.resolution == "" || t.resolution == req.resolution)
    && (t.audio == "" || t.audio == req.audio)
    && (t.mode == "" || t.mode == req.mode)
  }

  lemma GuardMeaning(t: Tier, req: Request)
    ensures Holds(GuardOf(t), req) <==> Matches(t, req)
  {
    var r, a, m := DimensionClause("resolution", t.resolution), DimensionClause("audio", t.audio),
                   DimensionClause("mode", t.mode);
    HoldsConcat(r, a, req);
    HoldsConcat(r + a, m, req);
    DimensionHolds("resolution", t.resolution, req);
    DimensionHolds("audio", t.audio, req);
    DimensionHolds("mode", t.mode, req);
  }

  lemma DimensionHolds(name: string, value: string, req: Request)
    ensures Holds(DimensionClause(name, value), req) <==> value == "" || value == Param(req, name)
  {
    if value != "" && Holds(DimensionClause(name, value), req) {
      assert DimensionClause(name, value)[0] == Has(name, value);
    }
  }

  lemma HoldsConcat(a: seq<Clause>, b: seq<Clause>, req: Request)
    ensures Holds(a + b, req) <==> Holds(a, req) && Holds(b, req)
  {
    if Holds(a + b, req) {
      assert forall i :: 0 <= i < |a| ==> a[i] == (a + b)[i];
      assert forall i :: 0 <= i < |b| ==> b[i] == (a + b)[|a| + i];
    }
  }

  /** Position of the first tier that matches, or |ts|. */
  function FirstMatch(ts: seq<Tier>, req: Request): (i: nat)
    ensures i <= |ts|
    ensures i < |ts| ==> Matches(ts[i], req)
    ensures forall j :: 0 <= j < i ==> !Matches(ts[j], req)
  {
    if ts == [] || Matches(ts[0], req) then 0 else 1 + FirstMatch(ts[1..], req)
  }

  lemma {:induction false} EvalIsFirstMatch(ts: seq<Tier>, req: Request)
    ensures Eval(ChainOf(ts), req) ==
            var i := FirstMatch(ts, req); if i < |ts| then CallOf(ts[i]) else UNPRICED
  {
    if ts != [] {
      GuardMeaning(ts[0], req);
      EvalIsFirstMatch(ts[1..], req);
      assert ChainOf(ts).branches[1..] == ChainOf(ts[1..]).branches;
    }
  }

  // ---------------------------------------------------------------- collapse

  lemma {:induction false} CollapseMembers(ts: seq<Tier>)
    ensures DistinctKeys(Collapse(ts))
    ensures forall t :: t in Collapse(ts) ==> t in ts
    ensures forall t :: t in ts ==> exists u :: u in Collapse(ts) && Key(u) == Key(t)
  {
    if ts != [] {
      var front, t := ts[..|ts| - 1], ts[|ts| - 1];
      CollapseMembers(front);
      var done := Collapse(front);
      assert ts == front + [t];
      PutMembers(done, t);
      assert t in Collapse(ts);
      forall x | x in ts ensures exists u :: u in Collapse(ts) && Key(u) == Key(x) {
        if x in front {
          var u :| u in done && Key(u) == Key(x);
          var v :| v in Collapse(ts) && Key(v) == Key(u);
        } else {
          assert x == t;
        }
      }
    }
  }

  lemma SameKeySame(ts: seq<Tier>, x: Tier, y: Tier)
    requires DistinctKeys(ts) && x in ts && y in ts && Key(x) == Key(y)
    ensures x == y
  {
    var i :| 0 <= i < |ts| && ts[i] == x;
    var j :| 0 <= j < |ts| && ts[j] == y;
    assert i == j;
  }

  lemma DistinctIsNoRepeats(ts: seq<Tier>)
    requires DistinctKeys(ts)
    ensures NoRepeats(ts)
  {
    forall i, j | 0 <= i < j < |ts| ensures ts[i] != ts[j] { assert Key(ts[i]) != Key(ts[j]); }
  }

  lemma PermutedKeys(ts: seq<Tier>, us: seq<Tier>)
    requires DistinctKeys(ts) && multiset(ts) == multiset(us)
    ensures DistinctKeys(us)
  {
    SameMembers(ts, us);
    DistinctIsNoRepeats(ts);
    forall i, j | 0 <= i < j < |us| ensures Key(us[i]) != Key(us[j]) {
      assert us[i] in ts && us[j] in ts;
      if Key(us[i]) == Key(us[j]) {
        SameKeySame(ts, us[i], us[j]);
        TwiceInBag(us, i, j);
        NoRepeatsMultiset(ts, us[i]);
      }
    }
  }

  lemma PutMembers(done: seq<Tier>, t: Tier)
    requires DistinctKeys(done)
    ensures var i := KeyIndex(done, Key(t));
            var next := if i < |done| then done[i := t] else done + [t];
            DistinctKeys(next) && t in next
            && (forall x :: x in next ==> x == t || x in done)
            && (forall u :: u in done ==> exists v :: v in next && Key(v) == Key(u))
  {
    var i := KeyIndex(done, Key(t));
    var next := if i < |done| then done[i := t] else done + [t];
    assert next[i] == t;
    forall u | u in done ensures exists v :: v in next && Key(v) == Key(u) {
      var j :| 0 <= j < |done| && done[j] == u;
      assert next[j] in next && Key(next[j]) == Key(u);
    }
  }

  /** When two rows share a key, the later one is the one that is priced. */
  lemma {:induction false} LastRowWins(ts: seq<Tier>, n: nat)
    requires n < |ts| && forall j :: n < j < |ts| ==> Key(ts[j]) != Key(ts[n])
    ensures ts[n] in Collapse(ts)
  {
    var front, t := ts[..|ts| - 1], ts[|ts| - 1];
    var done := Collapse(front);
    var i := KeyIndex(done, Key(t));
    if n == |ts| - 1 {
      assert Collapse(ts)[i] == t;
    } else {
      LastRowWins(front, n);
      var j :| 0 <= j < |done| && done[j] == ts[n];
      assert Collapse(ts)[j] == ts[n];
    }
  }

  lemma {:induction false} CollapseDistinct(ts: seq<Tier>)
    requires DistinctKeys(ts)
    ensures Collapse(ts) == ts
  {
    if ts != [] {
      var front := ts[..|ts| - 1];
      CollapseDistinct(front);
      assert ts == front + [ts[|ts| - 1]];
    }
  }

  /** Resolution and audio values without '|' keep the dedupe keys of different variants apart. */
  lemma PipeFreeKeys(a: Tier, b: Tier)
    requires '|' !in a.resolution && '|' !in a.audio && '|' !in b.resolution && '|' !in b.audio
    ensures Key(a) == Key(b) <==> SameDims(a, b)
  {
    Assoc(a.resolution, "|", a.audio + "|" + a.mode);
    Assoc(b.resolution, "|", b.audio + "|" + b.mode);
    assert Key(a) == a.resolution + "|" + (a.audio + "|" + a.mode);
    assert Key(b) == b.resolution + "|" + (b.audio + "|" + b.mode);
    if Key(a) == Key(b) {
      SplitAtPipe(a.resolution, a.audio + "|" + a.mode, b.resolution, b.audio + "|" + b.mode);
      SplitAtPipe(a.audio, a.mode, b.audio, b.mode);
    }
  }

  lemma SplitAtPipe(a: string, s: string, b: string, t: string)
    requires '|' !in a && '|' !in b && a + "|" + s == b + "|" + t
    ensures a == b && s == t
  {
    var u, v := a + "|" + s, b + "|" + t;
    assert u[|a|] == '|' && v[|b|] == '|';
    assert forall i :: 0 <= i < |a| ==> u[i] == a[i];
    assert forall i :: 0 <= i < |b| ==> v[i] == b[i];
    assert |a| == |b|;
    assert a == u[..|a|] && b == v[..|b|] && s == u[|a| + 1..] && t == v[|b| + 1..];
  }
}
