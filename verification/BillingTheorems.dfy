/** End-to-end properties of the billing expression: from priced tiers to what a request pays. */
module BillingTheorems {
  import opened Wrappers
  import opened BillingText
  import opened BillingOrder
  import opened BillingExpr
  import opened BillingMeaning

  /** The request that names exactly the dimensions of a tier. */
  function RequestOf(t: Tier): Request {
    Request(t.resolution, t.audio, t.mode)
  }

  ghost predicate AllKnownAudio(ts: seq<Tier>) {
    forall t :: t in ts ==> KnownAudio(t.audio)
  }

  // ---------------------------------------------------------------- well-formedness of the text

  /** The emitted text belongs to the grammar exactly when every tier has a dimension. */
  lemma TextParsesIffDimensioned(ts: seq<Tier>, text: string)
    requires Prints(ts, text)
    ensures ParseChain(text).Some? <==> AllDimensioned(ts)
  {
    var sorted :| IsSortOf(Collapse(ts), sorted) && text == ChainText(sorted);
    PrintedChainParses(sorted);
    SameMembers(sorted, Collapse(ts));
    CollapseKeepsDimensions(ts, sorted);
  }

  lemma CollapseKeepsDimensions(ts: seq<Tier>, us: seq<Tier>)
    requires forall t :: t in us <==> t in Collapse(ts)
    ensures AllDimensioned(us) <==> AllDimensioned(ts)
  {
    CollapseMembers(ts);
    if AllDimensioned(us) {
      forall t | t in ts ensures Dimensioned(t) {
        var u :| u in Collapse(ts) && Key(u) == Key(t);
        assert u in us;
        KeyShowsDimensions(u, t);
      }
    }
  }

  lemma KeyShowsDimensions(a: Tier, b: Tier)
    requires Key(a) == Key(b)
    ensures Dimensioned(a) <==> Dimensioned(b)
  {
    assert |Key(a)| == |a.resolution| + |a.audio| + |a.mode| + 2;
    assert |Key(b)| == |b.resolution| + |b.audio| + |b.mode| + 2;
  }

  // ---------------------------------------------------------------- first match

  function ChargedCall(sorted: seq<Tier>, req: Request): Call {
    var i := FirstMatch(sorted, req);
    if i < |sorted| then CallOf(sorted[i]) else UNPRICED
  }

  lemma EvalPrinted(sorted: seq<Tier>, req: Request)
    requires AllDimensioned(sorted)
    ensures EvalText(ChainText(sorted), req) == Some(ChargedCall(sorted, req))
  {
    PrintedChainParses(sorted);
    EvalIsFirstMatch(sorted, req);
  }

  /** Any request is charged the first matching tier in sort order, and "unpriced" when no
      tier matches. */
  lemma RequestsPayFirstMatch(ts: seq<Tier>, text: string) returns (sorted: seq<Tier>)
    requires AllDimensioned(ts) && DistinctKeys(ts) && Prints(ts, text)
    ensures IsSortOf(ts, sorted) && forall t :: t in sorted <==> t in ts
    ensures forall req :: EvalText(text, req) == Some(ChargedCall(sorted, req))
  {
    CollapseDistinct(ts);
    sorted :| IsSortOf(ts, sorted) && text == ChainText(sorted);
    SameMembers(sorted, ts);
    forall req ensures EvalText(text, req) == Some(ChargedCall(sorted, req)) {
      EvalPrinted(sorted, req);
    }
  }

  lemma UnmatchedIsUnpriced(ts: seq<Tier>, text: string, req: Request)
    requires AllDimensioned(ts) && DistinctKeys(ts) && Prints(ts, text)
    requires forall t :: t in ts ==> !Matches(t, req)
    ensures EvalText(text, req) == Some(Call("unpriced", 0, "no matching variant"))
  {
    var sorted := RequestsPayFirstMatch(ts, text);
    NoMatch(sorted, req);
    assert EvalText(text, req) == Some(ChargedCall(sorted, req));
  }

  lemma NoMatch(sorted: seq<Tier>, req: Request)
    requires forall t :: t in sorted ==> !Matches(t, req)
    ensures FirstMatch(sorted, req) == |sorted|
  {
    assert forall i :: 0 <= i < |sorted| ==> sorted[i] in sorted;
  }

  /** In every text that may be printed the tiers stand in the reader's order. */
  lemma EmittedOrder(ts: seq<Tier>, text: string) returns (order: seq<Tier>)
    requires Prints(ts, text)
    ensures text == ChainText(order) && multiset(order) == multiset(Collapse(ts))
    ensures forall i, j :: 0 <= i < j < |order| ==> !Precedes(order[j], order[i])
  {
    order :| IsSortOf(Collapse(ts), order) && text == ChainText(order);
    forall i, j | 0 <= i < j < |order| ensures !Precedes(order[j], order[i]) { LessMeans(order[j], order[i]); }
  }

  // ---------------------------------------------------------------- prices are preserved

  /** Tier `e` hides tier `d`: same resolution and audio, and an empty mode sorts first. */
  predicate Shadows(e: Tier, d: Tier) {
    e.resolution == d.resolution && e.audio == d.audio && e.mode == "" && d.mode != ""
  }

  /** Tier `e` may come before `d` and answers its request: it shadows it, or it leaves the audio
      empty where `d` has a value that the comparator does not know. */
  predicate Hides(e: Tier, d: Tier) {
    Shadows(e, d)
    || (e.resolution == d.resolution && e.audio == "" && !KnownAudio(d.audio) && (e.mode == "" || e.mode == d.mode))
  }

  predicate Labelled(t: Tier) {
    t.tierLabel == LabelText(t.resolution, t.audio, t.mode)
  }

  ghost predicate AllLabelled(ts: seq<Tier>) { forall t :: t in ts ==> Labelled(t) }

  /** Of two tiers with different dimensions, the one hides the other exactly when it matches the
      other's request and the comparator does not put it behind. */
  lemma HidesMeans(e: Tier, d: Tier)
    requires !SameDims(e, d)
    ensures Hides(e, d) <==> Matches(e, RequestOf(d)) && !Less(d, e)
  {
    CompareResolutionTotal(d.resolution, e.resolution);
    StringLessTotal(d.mode, e.mode);
    StringLessTotal("", d.mode);
  }

  lemma HidesKnown(e: Tier, d: Tier)
    requires KnownAudio(d.audio)
    ensures Hides(e, d) <==> Shadows(e, d)
  {}

  lemma ShadowSortsFirst(e: Tier, d: Tier)
    requires Shadows(e, d)
    ensures Less(e, d) && !Less(d, e)
  {
    CompareResolutionTotal(e.resolution, d.resolution);
  }

  /** Characters of a joined list, and one more separator. */
  function Width(parts: seq<string>): nat {
    if parts == [] then 0 else |parts[0]| + |SEPARATOR| + Width(parts[1..])
  }

  lemma {:induction false} JoinWidth(parts: seq<string>)
    requires parts != []
    ensures |Join(parts, SEPARATOR)| + |SEPARATOR| == Width(parts)
  {
    if |parts| > 1 { JoinWidth(parts[1..]); }
  }

  lemma {:induction false} WidthConcat(a: seq<string>, b: seq<string>)
    ensures Width(a + b) == Width(a) + Width(b)
  {
    if a == [] {
      assert a + b == b;
    } else {
      WidthConcat(a[1..], b);
      assert (a + b)[1..] == a[1..] + b;
    }
  }

  lemma LabelWidth(t: Tier)
    requires Dimensioned(t) && Labelled(t)
    ensures |t.tierLabel| + |SEPARATOR| ==
            (if t.resolution != "" then |t.resolution| + |SEPARATOR| else 0)
            + (if t.audio != "" then 6 + |t.audio| + |SEPARATOR| else 0)
            + (if t.mode != "" then 5 + |t.mode| + |SEPARATOR| else 0)
  {
    var r := if t.resolution != "" then [t.resolution] else [];
    var a := if t.audio != "" then ["audio=" + t.audio] else [];
    var m := if t.mode != "" then ["mode=" + t.mode] else [];
    assert LabelParts(t.resolution, t.audio, t.mode) == r + a + m;
    JoinWidth(r + a + m);
    WidthConcat(r + a, m);
    WidthConcat(r, a);
  }

  /** A different tier that answers d's request has a shorter label, so its call is not d's. */
  lemma OtherCallDiffers(e: Tier, d: Tier)
    requires !SameDims(e, d) && Matches(e, RequestOf(d)) && Dimensioned(e) && Labelled(e) && Labelled(d)
    ensures CallOf(e) != CallOf(d)
  {
    LabelWidth(e);
    LabelWidth(d);
  }

  lemma KeyDiffersDimsDiffer(ts: seq<Tier>, a: Tier, b: Tier)
    requires DistinctKeys(ts) && a in ts && b in ts && a != b
    ensures !SameDims(a, b)
  {
    var i :| 0 <= i < |ts| && ts[i] == a;
    var j :| 0 <= j < |ts| && ts[j] == b;
    assert Key(ts[i]) != Key(ts[j]);
  }

  ghost predicate Hidden(ts: seq<Tier>, d: Tier) {
    exists e :: e in ts && Hides(e, d)
  }

  /** What nothing hides is charged, however the sort treats ties. */
  lemma UnhiddenIsCharged(ts: seq<Tier>, sorted: seq<Tier>, d: Tier)
    requires DistinctKeys(ts) && d in ts && !Hidden(ts, d)
    requires Sorted(sorted) && forall t :: t in sorted <==> t in ts
    ensures ChargedCall(sorted, RequestOf(d)) == CallOf(d)
  {
    var i := FirstMatch(sorted, RequestOf(d));
    var at :| 0 <= at < |sorted| && sorted[at] == d;
    assert Matches(sorted[at], RequestOf(d));
    assert i <= at;
    assert forall j :: 0 <= j < at ==> !Less(sorted[at], sorted[j]);
    if sorted[i] != d {
      assert sorted[i] in sorted;
      KeyDiffersDimsDiffer(ts, sorted[i], d);
      HidesMeans(sorted[i], d);
    }
  }

  /** What stands behind a tier that answers its request is not. */
  lemma BehindIsNotCharged(ts: seq<Tier>, sorted: seq<Tier>, p: nat, q: nat)
    requires AllDimensioned(ts) && DistinctKeys(ts) && AllLabelled(ts)
    requires multiset(sorted) == multiset(ts) && p < q < |sorted| && Matches(sorted[p], RequestOf(sorted[q]))
    ensures ChargedCall(sorted, RequestOf(sorted[q])) != CallOf(sorted[q])
  {
    SameMembers(sorted, ts);
    PermutedKeys(ts, sorted);
    var i := FirstMatch(sorted, RequestOf(sorted[q]));
    assert i <= p;
    assert sorted[i] in ts && sorted[q] in ts;
    assert Key(sorted[i]) != Key(sorted[q]);
    OtherCallDiffers(sorted[i], sorted[q]);
  }

  /** A tier that hides another stands before it in some outcome of the sort. */
  lemma HiddenIsBehind(ts: seq<Tier>, e: Tier, d: Tier) returns (sorted: seq<Tier>, p: nat, q: nat)
    requires DistinctKeys(ts) && e in ts && d in ts && Hides(e, d)
    ensures IsSortOf(ts, sorted) && p < q < |sorted| && sorted[p] == e && sorted[q] == d
  {
    sorted := SortExists(ts);
    SameMembers(sorted, ts);
    p :| 0 <= p < |sorted| && sorted[p] == e;
    q :| 0 <= q < |sorted| && sorted[q] == d;
    KeyDiffersDimsDiffer(ts, e, d);
    HidesMeans(e, d);
    if q < p {
      assert !Less(sorted[p], sorted[q]);
      SwapKeepsSorted(sorted, q, p);
      SwapBag(sorted, q, p);
      sorted, p, q := Swap(sorted, q, p), q, p;
    }
  }

  /** Whatever the audio values: the request that names a tier's dimensions is charged that tier in
      every outcome of the sort if and only if no tier hides it. */
  lemma TierIsChargedIff(ts: seq<Tier>, d: Tier)
    requires AllDimensioned(ts) && DistinctKeys(ts) && AllLabelled(ts) && d in ts
    ensures (forall sorted :: IsSortOf(ts, sorted) ==> ChargedCall(sorted, RequestOf(d)) == CallOf(d))
            <==> !Hidden(ts, d)
  {
    if Hidden(ts, d) {
      var e :| e in ts && Hides(e, d);
      var sorted, p, q := HiddenIsBehind(ts, e, d);
      BehindIsNotCharged(ts, sorted, p, q);
    } else {
      forall sorted | IsSortOf(ts, sorted) ensures ChargedCall(sorted, RequestOf(d)) == CallOf(d) {
        SameMembers(sorted, ts);
        UnhiddenIsCharged(ts, sorted, d);
      }
    }
  }

  /** With audio values that the comparator knows, this depends on no outcome: a tier is charged
      exactly when no tier with the same resolution and audio leaves the mode empty while it names
      a mode. */
  lemma TierIsChargedIffNotShadowed(ts: seq<Tier>, sorted: seq<Tier>, d: Tier)
    requires AllDimensioned(ts) && DistinctKeys(ts) && AllLabelled(ts) && d in ts && KnownAudio(d.audio)
    requires IsSortOf(ts, sorted)
    ensures ChargedCall(sorted, RequestOf(d)) == CallOf(d) <==> forall e :: e in ts ==> !Shadows(e, d)
  {
    SameMembers(sorted, ts);
    if e :| e in ts && Shadows(e, d) {
      ShadowSortsFirst(e, d);
      var p, q := StandsBefore(sorted, e, d);
      BehindIsNotCharged(ts, sorted, p, q);
    } else {
      forall e | e in ts ensures !Hides(e, d) { HidesKnown(e, d); }
      UnhiddenIsCharged(ts, sorted, d);
    }
  }

  lemma StandsBefore(sorted: seq<Tier>, e: Tier, d: Tier) returns (p: nat, q: nat)
    requires Sorted(sorted) && e in sorted && d in sorted && Less(e, d) && !Less(d, e)
    ensures p < q < |sorted| && sorted[p] == e && sorted[q] == d
  {
    p :| 0 <= p < |sorted| && sorted[p] == e;
    q :| 0 <= q < |sorted| && sorted[q] == d;
    assert forall j :: 0 <= j < p ==> !Less(sorted[p], sorted[j]);
  }

  /** Some text printed for these tiers charges this request that call. */
  ghost predicate MayCharge(ts: seq<Tier>, req: Request, c: Call) {
    exists text :: Prints(ts, text) && EvalText(text, req) == Some(c)
  }

  lemma ChargeIsOfSort(ts: seq<Tier>, req: Request, c: Call)
    requires AllDimensioned(ts) && DistinctKeys(ts)
    ensures MayCharge(ts, req, c) <==> exists sorted :: IsSortOf(ts, sorted) && ChargedCall(sorted, req) == c
  {
    CollapseDistinct(ts);
    if MayCharge(ts, req, c) {
      var text :| Prints(ts, text) && EvalText(text, req) == Some(c);
      var sorted := RequestsPayFirstMatch(ts, text);
    }
    if sorted :| IsSortOf(ts, sorted) && ChargedCall(sorted, req) == c {
      SameMembers(sorted, ts);
      EvalPrinted(sorted, req);
      assert Prints(ts, ChainText(sorted));
    }
  }

  /** Compilation preserves every price, whatever the audio values and however the sort treats
      ties, exactly when no tier hides another. */
  lemma CompilationPreservesPrices(ts: seq<Tier>)
    requires AllDimensioned(ts) && DistinctKeys(ts) && AllLabelled(ts)
    ensures (forall d, c :: d in ts && MayCharge(ts, RequestOf(d), c) ==> c == CallOf(d))
            <==> (forall e, d :: e in ts && d in ts ==> !Hides(e, d))
  {
    forall d | d in ts
      ensures (forall c :: MayCharge(ts, RequestOf(d), c) ==> c == CallOf(d)) <==> !Hidden(ts, d) {
      OnlyCharge(ts, RequestOf(d), CallOf(d));
      TierIsChargedIff(ts, d);
    }
    if forall e, d :: e in ts && d in ts ==> !Hides(e, d) {
      forall d, c | d in ts && MayCharge(ts, RequestOf(d), c) ensures c == CallOf(d) { assert !Hidden(ts, d); }
    }
    if forall d, c :: d in ts && MayCharge(ts, RequestOf(d), c) ==> c == CallOf(d) {
      forall e, d | e in ts && d in ts ensures !Hides(e, d) { assert !Hidden(ts, d); }
    }
  }

  lemma OnlyCharge(ts: seq<Tier>, req: Request, call: Call)
    requires AllDimensioned(ts) && DistinctKeys(ts)
    ensures (forall c :: MayCharge(ts, req, c) ==> c == call) <==>
            (forall sorted :: IsSortOf(ts, sorted) ==> ChargedCall(sorted, req) == call)
  {
    forall sorted | IsSortOf(ts, sorted) ensures MayCharge(ts, req, ChargedCall(sorted, req)) {
      ChargeIsOfSort(ts, req, ChargedCall(sorted, req));
    }
    forall c | MayCharge(ts, req, c) ensures exists sorted :: IsSortOf(ts, sorted) && ChargedCall(sorted, req) == c {
      ChargeIsOfSort(ts, req, c);
    }
  }

  /** With known audio values any one text decides: it preserves every price exactly when no
      (resolution, audio) group mixes tiers with and without a mode. */
  lemma KnownAudioPreservesPrices(ts: seq<Tier>, text: string)
    requires AllDimensioned(ts) && DistinctKeys(ts) && AllKnownAudio(ts) && AllLabelled(ts) && Prints(ts, text)
    ensures (forall d :: d in ts ==> EvalText(text, RequestOf(d)) == Some(CallOf(d)))
            <==> (forall e, d :: e in ts && d in ts ==> !Shadows(e, d))
  {
    var sorted := RequestsPayFirstMatch(ts, text);
    forall d | d in ts
      ensures ChargedCall(sorted, RequestOf(d)) == CallOf(d) <==> forall e :: e in ts ==> !Shadows(e, d) {
      TierIsChargedIffNotShadowed(ts, sorted, d);
    }
  }

  /** The same for priced rows: the request that names a row's dimensions pays the row's price
      with the duration folded in, unless another row hides it. */
  lemma RowsPayTheirPrice(rows: seq<PricingRow>, text: string, r: PricingRow)
    requires rows != [] && Builds(rows, text) && r in rows
    requires AllDimensioned(Apply(Classify, rows)) && DistinctKeys(Apply(Classify, rows))
    requires forall e :: e in rows ==> !Hides(Classify(e), Classify(r))
    ensures EvalText(text, Request(r.resolution, r.audio, r.mode)) == Some(CallOf(Classify(r)))
    ensures CallOf(Classify(r)).fixed == if r.unit == "per_second" && r.durationSeconds > 0
                                         then r.priceMicros * r.durationSeconds else r.priceMicros
  {
    var ts := Apply(Classify, rows);
    UnhiddenRow(rows, r);
    var sorted := RequestsPayFirstMatch(ts, text);
    UnhiddenIsCharged(ts, sorted, Classify(r));
  }

  lemma UnhiddenRow(rows: seq<PricingRow>, r: PricingRow)
    requires r in rows && forall e :: e in rows ==> !Hides(Classify(e), Classify(r))
    ensures Classify(r) in Apply(Classify, rows) && !Hidden(Apply(Classify, rows), Classify(r))
  {
    var ts := Apply(Classify, rows);
    var n :| 0 <= n < |rows| && rows[n] == r;
    assert ts[n] == Classify(r);
    forall e | e in ts ensures !Hides(e, Classify(r)) {
      var i :| 0 <= i < |ts| && ts[i] == e;
      assert rows[i] in rows;
    }
  }

  // ---------------------------------------------------------------- exact lookup

  /** The contract's lookup: exact equality on every dimension, where an empty request field
      matches only an empty row field. */
  ghost predicate LookedUp(ts: seq<Tier>, req: Request, c: Call) {
    (exists t :: t in ts && RequestOf(t) == req && c == CallOf(t))
    || (c == UNPRICED && forall t :: t in ts ==> RequestOf(t) != req)
  }

  predicate Full(t: Tier) {
    t.resolution != "" && t.audio != "" && t.mode != ""
  }

  /** The chain answers the exact lookup on every request only when every tier names all three
      dimensions; an unnamed one is a wildcard in the chain. */
  lemma ChainIsExactLookupIff(ts: seq<Tier>, text: string)
    requires AllDimensioned(ts) && DistinctKeys(ts) && Prints(ts, text)
    requires forall t :: t in ts ==> t.fixed > 0
    ensures (forall req :: EvalText(text, req).Some? && LookedUp(ts, req, EvalText(text, req).value))
            <==> (forall t :: t in ts ==> Full(t))
  {
    var sorted := RequestsPayFirstMatch(ts, text);
    if forall t :: t in ts ==> Full(t) {
      forall req ensures LookedUp(ts, req, ChargedCall(sorted, req)) {
        FullTiersAreLookedUp(ts, sorted, req);
      }
    } else {
      var t :| t in ts && !Full(t);
      var req := WildcardRequest(ts, t);
      WildcardIsCharged(ts, sorted, t, req);
    }
  }

  lemma FullTiersAreLookedUp(ts: seq<Tier>, sorted: seq<Tier>, req: Request)
    requires forall t :: t in ts ==> Full(t)
    requires forall t :: t in sorted <==> t in ts
    ensures LookedUp(ts, req, ChargedCall(sorted, req))
  {
    var i := FirstMatch(sorted, req);
    if i < |sorted| {
      assert sorted[i] in ts && RequestOf(sorted[i]) == req;
    } else {
      forall t | t in ts ensures RequestOf(t) != req {
        var j :| 0 <= j < |sorted| && sorted[j] == t;
        assert !Matches(sorted[j], req);
      }
    }
  }

  lemma WildcardIsCharged(ts: seq<Tier>, sorted: seq<Tier>, t: Tier, req: Request)
    requires t in ts && Matches(t, req) && forall u :: u in ts ==> u.fixed > 0 && RequestOf(u) != req
    requires forall u :: u in sorted <==> u in ts
    ensures !LookedUp(ts, req, ChargedCall(sorted, req))
  {
    var j :| 0 <= j < |sorted| && sorted[j] == t;
    assert FirstMatch(sorted, req) <= j;
    assert sorted[FirstMatch(sorted, req)] in ts;
  }

  function LongerThan(ts: seq<Tier>): (n: nat)
    ensures forall t :: t in ts ==> |t.resolution| < n && |t.audio| < n && |t.mode| < n
  {
    if ts == [] then 1
    else |ts[0].resolution| + |ts[0].audio| + |ts[0].mode| + LongerThan(ts[1..])
  }

  /** A request that fills a tier's unnamed dimensions with a value no tier has. */
  function WildcardRequest(ts: seq<Tier>, t: Tier): (req: Request)
    requires t in ts && !Full(t)
    ensures Matches(t, req) && forall u :: u in ts ==> RequestOf(u) != req
  {
    var unseen := seq(LongerThan(ts), i => 'x');
    Request(if t.resolution == "" then unseen else t.resolution,
            if t.audio == "" then unseen else t.audio,
            if t.mode == "" then unseen else t.mode)
  }
}
