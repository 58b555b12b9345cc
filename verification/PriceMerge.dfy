/** Merging provider observations with operator overrides, and the feed as a whole: Go's map
    iteration order must not reach the emitted text. */
module PriceMerge {
  import opened Wrappers
  import opened BillingOrder
  import opened BillingExpr
  import opened BillingMeaning
  import opened BillingTheorems
  import opened BillingDeterminism

  datatype Observation = Observation(
    modelAlias: string, unit: string, priceMicros: int, resolution: string,
    durationSeconds: int, mode: string, audio: string, estimated: bool)

  datatype Decision = Decision(
    modelAlias: string, unit: string, priceMicros: int, resolution: string,
    durationSeconds: int, mode: string, audio: string)

  datatype Variant = Variant(modelAlias: string, resolution: string, audio: string, mode: string, unit: string)

  /** Whether an alias passes the request's case-insensitive filter. */
  type Filter = string -> bool

  function ObservedVariant(p: Observation): Variant {
    Variant(p.modelAlias, p.resolution, p.audio, p.mode, p.unit)
  }

  function DecidedVariant(o: Decision): Variant {
    Variant(o.modelAlias, o.resolution, o.audio, o.mode, o.unit)
  }

  function RowVariant(r: PricingRow): Variant {
    Variant(r.modelAlias, r.resolution, r.audio, r.mode, r.unit)
  }

  predicate Published(p: Observation, passes: Filter) {
    p.modelAlias != "" && p.priceMicros > 0 && !p.estimated && passes(p.modelAlias)
  }

  predicate Effective(o: Decision, passes: Filter) {
    o.modelAlias != "" && o.priceMicros > 0 && passes(o.modelAlias)
  }

  /** The observation kept for a variant: the store lists newest first and the first wins. */
  function KeptObservation(obs: seq<Observation>, passes: Filter, k: Variant): Option<Observation> {
    if obs == [] then None
    else
      var earlier, p := KeptObservation(obs[..|obs| - 1], passes, k), obs[|obs| - 1];
      if earlier.Some? then earlier
      else if Published(p, passes) && ObservedVariant(p) == k then Some(p)
      else None
  }

  /** The override kept for a variant: the last one wins. */
  function KeptOverride(ovr: seq<Decision>, passes: Filter, k: Variant): Option<Decision> {
    if ovr == [] then None
    else
      var o := ovr[|ovr| - 1];
      if Effective(o, passes) && DecidedVariant(o) == k then Some(o)
      else KeptOverride(ovr[..|ovr| - 1], passes, k)
  }

  lemma {:induction false} KeptObservationIsFirst(obs: seq<Observation>, passes: Filter, k: Variant)
    ensures KeptObservation(obs, passes, k) == None <==>
            forall i :: 0 <= i < |obs| ==> !(Published(obs[i], passes) && ObservedVariant(obs[i]) == k)
    ensures KeptObservation(obs, passes, k).Some? ==>
            exists i :: 0 <= i < |obs| && KeptObservation(obs, passes, k) == Some(obs[i])
                        && Published(obs[i], passes) && ObservedVariant(obs[i]) == k
                        && forall j :: 0 <= j < i ==> !(Published(obs[j], passes) && ObservedVariant(obs[j]) == k)
  {
    if obs != [] {
      var front := obs[..|obs| - 1];
      KeptObservationIsFirst(front, passes, k);
      if KeptObservation(front, passes, k) == None {
        assert forall j :: 0 <= j < |front| ==> front[j] == obs[j];
      }
    }
  }

  lemma {:induction false} KeptOverrideIsLast(ovr: seq<Decision>, passes: Filter, k: Variant)
    ensures KeptOverride(ovr, passes, k) == None <==>
            forall i :: 0 <= i < |ovr| ==> !(Effective(ovr[i], passes) && DecidedVariant(ovr[i]) == k)
    ensures KeptOverride(ovr, passes, k).Some? ==>
            exists i :: 0 <= i < |ovr| && KeptOverride(ovr, passes, k) == Some(ovr[i])
                        && Effective(ovr[i], passes) && DecidedVariant(ovr[i]) == k
                        && forall j :: i < j < |ovr| ==> !(Effective(ovr[j], passes) && DecidedVariant(ovr[j]) == k)
  {
    if ovr != [] {
      KeptOverrideIsLast(ovr[..|ovr| - 1], passes, k);
    }
  }

  function ObservedRow(p: Observation): PricingRow {
    PricingRow(p.modelAlias, p.unit, p.priceMicros, p.priceMicros,
               p.resolution, p.durationSeconds, p.mode, p.audio)
  }

  function OverriddenRow(o: Decision, official: int): PricingRow {
    PricingRow(o.modelAlias, o.unit, o.priceMicros, official,
               o.resolution, o.durationSeconds, o.mode, o.audio)
  }

  /** The one row published for a variant, if any. */
  function MergedRow(obs: seq<Observation>, ovr: seq<Decision>, passes: Filter, k: Variant): Option<PricingRow> {
    match (KeptOverride(ovr, passes, k), KeptObservation(obs, passes, k))
    case (Some(o), Some(p)) => Some(OverriddenRow(o, p.priceMicros))
    case (Some(o), None) => Some(OverriddenRow(o, o.priceMicros))
    case (None, Some(p)) => Some(ObservedRow(p))
    case (None, None) => None
  }

  type Feed = map<string, seq<PricingRow>>

  function RowsOf(out: Feed, modelAlias: string): seq<PricingRow> {
    if modelAlias in out then out[modelAlias] else []
  }

  ghost predicate Overridden(ovr: seq<Decision>, passes: Filter, r: PricingRow) {
    KeptOverride(ovr, passes, RowVariant(r)).Some?
  }

  /** Rows kept from observations come before rows of overrides. */
  ghost predicate OverridesLast(ovr: seq<Decision>, passes: Filter, rows: seq<PricingRow>) {
    forall i, j :: 0 <= i < j < |rows| && Overridden(ovr, passes, rows[i]) ==> Overridden(ovr, passes, rows[j])
  }

  /** Exactly the rows of the variants in `emitted`, each once, under their alias. */
  ghost predicate Collects(obs: seq<Observation>, ovr: seq<Decision>, passes: Filter, emitted: set<Variant>,
                           out: Feed) {
    forall modelAlias ::
      NoRepeats(RowsOf(out, modelAlias)) && OverridesLast(ovr, passes, RowsOf(out, modelAlias)) &&
      forall r :: r in RowsOf(out, modelAlias) <==>
                  r.modelAlias == modelAlias && RowVariant(r) in emitted
                  && MergedRow(obs, ovr, passes, RowVariant(r)) == Some(r)
  }

  /** The rows of an alias, in an order that the walks over the two maps may give. */
  ghost predicate IsMergeFor(obs: seq<Observation>, ovr: seq<Decision>, passes: Filter, a: string,
                             rows: seq<PricingRow>) {
    && NoRepeats(rows) && OverridesLast(ovr, passes, rows)
    && forall r :: r in rows <==> r.modelAlias == a && MergedRow(obs, ovr, passes, RowVariant(r)) == Some(r)
  }

  /** Every outcome the merge may have, whatever order the maps are walked in. */
  ghost predicate IsMerge(obs: seq<Observation>, ovr: seq<Decision>, passes: Filter, out: Feed) {
    forall a :: IsMergeFor(obs, ovr, passes, a, RowsOf(out, a))
  }

  method MergeObservationsAndOverrides(obs: seq<Observation>, ovr: seq<Decision>, passes: Filter) returns (out: Feed)
    ensures IsMerge(obs, ovr, passes, out)
  {
    var observationByKey: map<Variant, Observation> := IndexObservations(obs, passes);
    var overrideByKey: map<Variant, Decision> := IndexOverrides(ovr, passes);
    out := map[];
    var emitted: set<Variant> := {};

    // Pass 1: observations that no override replaces.
    var todo := observationByKey.Keys;
    while todo != {}
      invariant todo <= observationByKey.Keys
      invariant forall k :: k in emitted <==> k in observationByKey && k !in todo && k !in overrideByKey
      invariant Collects(obs, ovr, passes, emitted, out)
    {
      var k :| k in todo;
      todo := todo - {k};
      if k !in overrideByKey {
        var p := observationByKey[k];
        AppendHolds(obs, ovr, passes, emitted, out, ObservedRow(p), k);
        out := out[p.modelAlias := RowsOf(out, p.modelAlias) + [ObservedRow(p)]];
        emitted := emitted + {k};
      }
    }

    // Pass 2: overrides, paired with the raw price of the same variant.
    todo := overrideByKey.Keys;
    while todo != {}
      invariant todo <= overrideByKey.Keys
      invariant forall k :: k in emitted <==>
        (k in observationByKey && k !in overrideByKey) || (k in overrideByKey && k !in todo)
      invariant Collects(obs, ovr, passes, emitted, out)
    {
      var k :| k in todo;
      todo := todo - {k};
      if k !in emitted {
        var o := overrideByKey[k];
        var official := if k in observationByKey then observationByKey[k].priceMicros else o.priceMicros;
        AppendHolds(obs, ovr, passes, emitted, out, OverriddenRow(o, official), k);
        out := out[o.modelAlias := RowsOf(out, o.modelAlias) + [OverriddenRow(o, official)]];
        emitted := emitted + {k};
      }
    }
  }

  method IndexObservations(obs: seq<Observation>, passes: Filter) returns (m: map<Variant, Observation>)
    ensures forall k :: k in m <==> KeptObservation(obs, passes, k).Some?
    ensures forall k :: k in m ==> KeptObservation(obs, passes, k) == Some(m[k]) && ObservedVariant(m[k]) == k
  {
    m := map[];
    for n := 0 to |obs|
      invariant forall k :: k in m <==> KeptObservation(obs[..n], passes, k).Some?
      invariant forall k :: k in m ==> KeptObservation(obs[..n], passes, k) == Some(m[k]) && ObservedVariant(m[k]) == k
    {
      var p := obs[n];
      assert obs[..n + 1][..n] == obs[..n];
      if p.modelAlias == "" || p.priceMicros <= 0 || p.estimated || !passes(p.modelAlias) {
        continue;
      }
      var k := ObservedVariant(p);
      if k !in m {
        m := m[k := p];
      }
    }
    assert obs[..|obs|] == obs;
  }

  method IndexOverrides(ovr: seq<Decision>, passes: Filter) returns (m: map<Variant, Decision>)
    ensures forall k :: k in m <==> KeptOverride(ovr, passes, k).Some?
    ensures forall k :: k in m ==> KeptOverride(ovr, passes, k) == Some(m[k]) && DecidedVariant(m[k]) == k
  {
    m := map[];
    for n := 0 to |ovr|
      invariant forall k :: k in m <==> KeptOverride(ovr[..n], passes, k).Some?
      invariant forall k :: k in m ==> KeptOverride(ovr[..n], passes, k) == Some(m[k]) && DecidedVariant(m[k]) == k
    {
      var o := ovr[n];
      assert ovr[..n + 1][..n] == ovr[..n];
      if o.modelAlias == "" || o.priceMicros <= 0 || !passes(o.modelAlias) {
        continue;
      }
      m := m[DecidedVariant(o) := o];
    }
    assert ovr[..|ovr|] == ovr;
  }

  lemma AppendHolds(obs: seq<Observation>, ovr: seq<Decision>, passes: Filter, emitted: set<Variant>,
                    out: Feed, r: PricingRow, k: Variant)
    requires Collects(obs, ovr, passes, emitted, out)
    requires k !in emitted && RowVariant(r) == k && MergedRow(obs, ovr, passes, k) == Some(r)
    requires KeptOverride(ovr, passes, k).Some? || forall v :: v in emitted ==> KeptOverride(ovr, passes, v) == None
    ensures Collects(obs, ovr, passes, emitted + {k}, out[r.modelAlias := RowsOf(out, r.modelAlias) + [r]])
  {
    var next := out[r.modelAlias := RowsOf(out, r.modelAlias) + [r]];
    forall a
      ensures NoRepeats(RowsOf(next, a)) && OverridesLast(ovr, passes, RowsOf(next, a))
      ensures forall s :: s in RowsOf(next, a) <==>
                s.modelAlias == a && RowVariant(s) in emitted + {k}
                  && MergedRow(obs, ovr, passes, RowVariant(s)) == Some(s)
    {
      assert NoRepeats(RowsOf(out, a)) && OverridesLast(ovr, passes, RowsOf(out, a));
      if a == r.modelAlias {
        assert r !in RowsOf(out, a);
        assert RowsOf(next, a) == RowsOf(out, a) + [r];
        AppendLast(ovr, passes, RowsOf(out, a), r);
      } else {
        assert RowsOf(next, a) == RowsOf(out, a);
      }
    }
  }

  lemma AppendLast(ovr: seq<Decision>, passes: Filter, rows: seq<PricingRow>, r: PricingRow)
    requires OverridesLast(ovr, passes, rows)
    requires Overridden(ovr, passes, r) || forall q :: q in rows ==> !Overridden(ovr, passes, q)
    ensures OverridesLast(ovr, passes, rows + [r])
  {
    assert forall i :: 0 <= i < |rows| ==> rows[i] in rows;
  }

  /** One row per variant, never two, and it carries the override's price when there is one and
      the kept observation's price as official price. */
  lemma OneRowPerVariant(obs: seq<Observation>, ovr: seq<Decision>, passes: Filter, out: Feed, k: Variant)
    requires IsMerge(obs, ovr, passes, out)
    ensures forall i, j :: 0 <= i < j < |RowsOf(out, k.modelAlias)| ==>
              RowVariant(RowsOf(out, k.modelAlias)[i]) != RowVariant(RowsOf(out, k.modelAlias)[j])
    ensures (exists r :: r in RowsOf(out, k.modelAlias) && RowVariant(r) == k) <==>
            KeptOverride(ovr, passes, k).Some? || KeptObservation(obs, passes, k).Some?
    ensures forall r :: r in RowsOf(out, k.modelAlias) && RowVariant(r) == k ==>
              && (KeptOverride(ovr, passes, k).Some? ==>
                  r.priceMicros == KeptOverride(ovr, passes, k).value.priceMicros)
              && (KeptObservation(obs, passes, k).Some? ==>
                    r.officialPriceMicros == KeptObservation(obs, passes, k).value.priceMicros)
              && r.priceMicros > 0 && r.officialPriceMicros > 0
  {
    var rows := RowsOf(out, k.modelAlias);
    assert IsMergeFor(obs, ovr, passes, k.modelAlias, rows);
    KeptObservationIsFirst(obs, passes, k);
    KeptOverrideIsLast(ovr, passes, k);
    assert NoRepeats(rows);
    forall i, j | 0 <= i < j < |rows| ensures RowVariant(rows[i]) != RowVariant(rows[j]) {
      assert rows[i] in rows && rows[j] in rows;
    }
    var m := MergedRow(obs, ovr, passes, k);
    if m.Some? {
      assert RowVariant(m.value) == k;
      assert m.value in rows;
    }
  }

  // ---------------------------------------------------------------- a row and the two tables

  /** Observation j is the first of the variant that is priced, not an estimate and not filtered out. */
  ghost predicate FirstPrice(obs: seq<Observation>, passes: Filter, k: Variant, j: int) {
    0 <= j < |obs| && Prices(obs[j], passes, k) && forall i :: 0 <= i < j ==> !Prices(obs[i], passes, k)
  }

  predicate Prices(p: Observation, passes: Filter, k: Variant) {
    p.modelAlias == k.modelAlias != "" && p.resolution == k.resolution && p.audio == k.audio && p.mode == k.mode
    && p.unit == k.unit && p.priceMicros > 0 && !p.estimated && passes(p.modelAlias)
  }

  /** Override j is the last of the variant that is priced and not filtered out. */
  ghost predicate LastDecision(ovr: seq<Decision>, passes: Filter, k: Variant, j: int) {
    0 <= j < |ovr| && Decides(ovr[j], passes, k) && forall i :: j < i < |ovr| ==> !Decides(ovr[i], passes, k)
  }

  predicate Decides(o: Decision, passes: Filter, k: Variant) {
    o.modelAlias == k.modelAlias != "" && o.resolution == k.resolution && o.audio == k.audio && o.mode == k.mode
    && o.unit == k.unit && o.priceMicros > 0 && passes(o.modelAlias)
  }

  lemma KeptIsFirstPrice(obs: seq<Observation>, passes: Filter, k: Variant)
    ensures KeptObservation(obs, passes, k) == None ==> forall j :: !FirstPrice(obs, passes, k, j)
    ensures forall j :: FirstPrice(obs, passes, k, j) ==> KeptObservation(obs, passes, k) == Some(obs[j])
    ensures KeptObservation(obs, passes, k).Some? ==> exists j :: FirstPrice(obs, passes, k, j)
  {
    KeptObservationIsFirst(obs, passes, k);
    assert forall p :: Prices(p, passes, k) <==> Published(p, passes) && ObservedVariant(p) == k;
    if KeptObservation(obs, passes, k).Some? {
      var i :| 0 <= i < |obs| && KeptObservation(obs, passes, k) == Some(obs[i])
        && Published(obs[i], passes) && ObservedVariant(obs[i]) == k
        && forall j :: 0 <= j < i ==> !(Published(obs[j], passes) && ObservedVariant(obs[j]) == k);
      assert FirstPrice(obs, passes, k, i);
      forall j | FirstPrice(obs, passes, k, j) ensures j == i {}
    }
  }

  lemma KeptIsLastDecision(ovr: seq<Decision>, passes: Filter, k: Variant)
    ensures KeptOverride(ovr, passes, k) == None ==> forall j :: !LastDecision(ovr, passes, k, j)
    ensures forall j :: LastDecision(ovr, passes, k, j) ==> KeptOverride(ovr, passes, k) == Some(ovr[j])
    ensures KeptOverride(ovr, passes, k).Some? ==> exists j :: LastDecision(ovr, passes, k, j)
  {
    KeptOverrideIsLast(ovr, passes, k);
    assert forall o :: Decides(o, passes, k) <==> Effective(o, passes) && DecidedVariant(o) == k;
    if KeptOverride(ovr, passes, k).Some? {
      var i :| 0 <= i < |ovr| && KeptOverride(ovr, passes, k) == Some(ovr[i])
        && Effective(ovr[i], passes) && DecidedVariant(ovr[i]) == k
        && forall j :: i < j < |ovr| ==> !(Effective(ovr[j], passes) && DecidedVariant(ovr[j]) == k);
      assert LastDecision(ovr, passes, k, i);
      forall j | LastDecision(ovr, passes, k, j) ensures j == i {}
    }
  }

  /** The rows of any merge, against the two tables themselves. A variant has a row exactly when
      some observation or some override prices it. Price and duration are those of its last
      override, and without one those of its first observation; the official price is that of its
      first observation, and without one the override's own. */
  lemma RowsComeFromTables(obs: seq<Observation>, ovr: seq<Decision>, passes: Filter, out: Feed, k: Variant)
    requires IsMerge(obs, ovr, passes, out)
    ensures (exists r :: r in RowsOf(out, k.modelAlias) && RowVariant(r) == k) <==>
            (exists p :: p in obs && Prices(p, passes, k)) || (exists o :: o in ovr && Decides(o, passes, k))
    ensures forall r, j :: r in RowsOf(out, k.modelAlias) && RowVariant(r) == k && LastDecision(ovr, passes, k, j) ==>
              r.priceMicros == ovr[j].priceMicros && r.durationSeconds == ovr[j].durationSeconds
    ensures forall r, j :: r in RowsOf(out, k.modelAlias) && RowVariant(r) == k && FirstPrice(obs, passes, k, j) ==>
              r.officialPriceMicros == obs[j].priceMicros
    ensures forall r :: r in RowsOf(out, k.modelAlias) && RowVariant(r) == k ==>
              && ((forall o :: o in ovr ==> !Decides(o, passes, k)) ==>
                    exists j :: FirstPrice(obs, passes, k, j)
                      && r.priceMicros == obs[j].priceMicros && r.durationSeconds == obs[j].durationSeconds)
              && ((forall p :: p in obs ==> !Prices(p, passes, k)) ==>
                    exists j :: LastDecision(ovr, passes, k, j) && r.officialPriceMicros == ovr[j].priceMicros)
  {
    OneRowPerVariant(obs, ovr, passes, out, k);
    KeptIsFirstPrice(obs, passes, k);
    KeptIsLastDecision(ovr, passes, k);
    FirstPriceExists(obs, passes, k);
    LastDecisionExists(ovr, passes, k);
    assert IsMergeFor(obs, ovr, passes, k.modelAlias, RowsOf(out, k.modelAlias));
    forall r | r in RowsOf(out, k.modelAlias) && RowVariant(r) == k
      ensures MergedRow(obs, ovr, passes, k) == Some(r) {}
  }

  lemma FirstPriceExists(obs: seq<Observation>, passes: Filter, k: Variant)
    ensures (exists p :: p in obs && Prices(p, passes, k)) <==> exists j :: FirstPrice(obs, passes, k, j)
  {
    KeptIsFirstPrice(obs, passes, k);
    KeptObservationIsFirst(obs, passes, k);
    if p :| p in obs && Prices(p, passes, k) {
      var i :| 0 <= i < |obs| && obs[i] == p;
      assert Published(obs[i], passes) && ObservedVariant(obs[i]) == k;
    }
    if j :| FirstPrice(obs, passes, k, j) { assert obs[j] in obs; }
  }

  lemma LastDecisionExists(ovr: seq<Decision>, passes: Filter, k: Variant)
    ensures (exists o :: o in ovr && Decides(o, passes, k)) <==> exists j :: LastDecision(ovr, passes, k, j)
  {
    KeptIsLastDecision(ovr, passes, k);
    KeptOverrideIsLast(ovr, passes, k);
    if o :| o in ovr && Decides(o, passes, k) {
      var i :| 0 <= i < |ovr| && ovr[i] == o;
      assert Effective(ovr[i], passes) && DecidedVariant(ovr[i]) == k;
    }
    if j :| LastDecision(ovr, passes, k, j) { assert ovr[j] in ovr; }
  }

  // ---------------------------------------------------------------- the feed is deterministic

  /** Two walks over the maps can only permute the rows of an alias. */
  lemma MergesArePermutations(obs: seq<Observation>, ovr: seq<Decision>, passes: Filter, out: Feed, out': Feed,
                              a: string)
    requires IsMerge(obs, ovr, passes, out) && IsMerge(obs, ovr, passes, out')
    ensures multiset(RowsOf(out, a)) == multiset(RowsOf(out', a))
  {
    assert IsMergeFor(obs, ovr, passes, a, RowsOf(out, a)) && IsMergeFor(obs, ovr, passes, a, RowsOf(out', a));
    SameBag(RowsOf(out, a), RowsOf(out', a));
  }

  lemma {:induction false} ApplyPermutes<A, B>(f: A -> B, a: seq<A>, b: seq<A>)
    requires multiset(a) == multiset(b)
    ensures multiset(Apply(f, a)) == multiset(Apply(f, b))
    decreases |a|
  {
    SameMembers(a, b);
    if a != [] {
      assert a[0] in b;
      var i :| 0 <= i < |b| && b[i] == a[0];
      ApplyRemove(f, a, 0);
      ApplyRemove(f, b, i);
      ApplyPermutes(f, Without(a, 0), Without(b, i));
    }
  }

  lemma ApplyRemove<A, B>(f: A -> B, s: seq<A>, i: nat)
    requires i < |s|
    ensures multiset(Without(s, i)) == multiset(s) - multiset{s[i]}
    ensures multiset(Apply(f, s)) == multiset(Apply(f, Without(s, i))) + multiset{f(s[i])}
  {
    BagWithout(s, i);
    BagWithout(Apply(f, s), i);
    assert Apply(f, Without(s, i)) == Without(Apply(f, s), i);
  }

  /** ... and every permutation of the image is the image of one. */
  lemma {:induction false} PermutedImage<A, B>(f: A -> B, p: seq<A>, us: seq<B>) returns (q: seq<A>)
    requires multiset(us) == multiset(Apply(f, p))
    ensures multiset(q) == multiset(p) && Apply(f, q) == us
    decreases |us|
  {
    SameMembers(us, Apply(f, p));
    if us == [] {
      q := [];
      assert p == [];
    } else {
      assert us[0] in Apply(f, p);
      var i :| 0 <= i < |p| && f(p[i]) == us[0];
      ImageWithout(f, p, us, i);
      var rest := PermutedImage(f, Without(p, i), us[1..]);
      q := [p[i]] + rest;
      ImageOfCons(f, p, us, i, rest);
    }
  }

  lemma ImageOfCons<A, B>(f: A -> B, p: seq<A>, us: seq<B>, i: nat, rest: seq<A>)
    requires us != [] && i < |p| && f(p[i]) == us[0]
    requires multiset(rest) == multiset(Without(p, i)) && Apply(f, rest) == us[1..]
    ensures multiset([p[i]] + rest) == multiset(p) && Apply(f, [p[i]] + rest) == us
  {
    BagWithout(p, i);
    ApplyConcat(f, [p[i]], rest);
    assert us == [us[0]] + us[1..];
  }

  lemma ImageWithout<A, B>(f: A -> B, p: seq<A>, us: seq<B>, i: nat)
    requires multiset(us) == multiset(Apply(f, p)) && us != [] && i < |p| && f(p[i]) == us[0]
    ensures multiset(us[1..]) == multiset(Apply(f, Without(p, i)))
  {
    ApplyRemove(f, p, i);
    assert us == [us[0]] + us[1..];
    CancelBag(multiset(us[1..]), multiset(Apply(f, Without(p, i))), us[0]);
  }

  lemma ApplyConcat<A, B>(f: A -> B, p: seq<A>, q: seq<A>)
    ensures Apply(f, p + q) == Apply(f, p) + Apply(f, q)
  {}

  /** Some outcome of the merge prints this text for the alias. */
  ghost predicate MayFeed(obs: seq<Observation>, ovr: seq<Decision>, passes: Filter, a: string, text: string) {
    exists out :: IsMerge(obs, ovr, passes, out) && Builds(RowsOf(out, a), text)
  }

  ghost predicate OneFeed(obs: seq<Observation>, ovr: seq<Decision>, passes: Filter, a: string) {
    forall text, text' :: MayFeed(obs, ovr, passes, a, text) && MayFeed(obs, ovr, passes, a, text') ==> text == text'
  }

  /** The rows of an outcome in two parts: p kept from observations, q of overrides. */
  ghost predicate Parts(obs: seq<Observation>, ovr: seq<Decision>, passes: Filter, a: string,
                        p: seq<PricingRow>, q: seq<PricingRow>) {
    && IsMergeFor(obs, ovr, passes, a, p + q)
    && (forall r :: r in p ==> !Overridden(ovr, passes, r))
    && (forall r :: r in q ==> Overridden(ovr, passes, r))
  }

  lemma {:induction false} SplitRows(ovr: seq<Decision>, passes: Filter, rows: seq<PricingRow>) returns (n: nat)
    requires OverridesLast(ovr, passes, rows)
    ensures n <= |rows|
    ensures forall i :: 0 <= i < n ==> !Overridden(ovr, passes, rows[i])
    ensures forall i :: n <= i < |rows| ==> Overridden(ovr, passes, rows[i])
  {
    n := |rows|;
    while n > 0 && Overridden(ovr, passes, rows[n - 1])
      invariant n <= |rows| && forall i :: n <= i < |rows| ==> Overridden(ovr, passes, rows[i])
    {
      n := n - 1;
    }
  }

  lemma HasParts(obs: seq<Observation>, ovr: seq<Decision>, passes: Filter, a: string, rows: seq<PricingRow>)
    returns (p: seq<PricingRow>, q: seq<PricingRow>)
    requires IsMergeFor(obs, ovr, passes, a, rows)
    ensures rows == p + q && Parts(obs, ovr, passes, a, p, q)
  {
    var n := SplitRows(ovr, passes, rows);
    p, q := rows[..n], rows[n..];
    assert rows == p + q;
  }

  lemma PartsArePermutations(obs: seq<Observation>, ovr: seq<Decision>, passes: Filter, a: string,
                             p: seq<PricingRow>, q: seq<PricingRow>, p': seq<PricingRow>, q': seq<PricingRow>)
    requires Parts(obs, ovr, passes, a, p, q) && Parts(obs, ovr, passes, a, p', q')
    ensures multiset(p) == multiset(p') && multiset(q) == multiset(q')
  {
    PartNoRepeats(p, q);
    PartNoRepeats(p', q');
    forall r ensures (r in p <==> r in p') && (r in q <==> r in q') {
      assert r in p + q <==> r in p' + q';
    }
    SameBag(p, p');
    SameBag(q, q');
  }

  lemma PartNoRepeats<T>(p: seq<T>, q: seq<T>)
    requires NoRepeats(p + q)
    ensures NoRepeats(p) && NoRepeats(q)
  {
    forall i, j | 0 <= i < j < |p| ensures p[i] != p[j] { assert (p + q)[i] != (p + q)[j]; }
    forall i, j | 0 <= i < j < |q| ensures q[i] != q[j] { assert (p + q)[|p| + i] != (p + q)[|p| + j]; }
  }

  lemma PermutedParts(obs: seq<Observation>, ovr: seq<Decision>, passes: Filter, a: string,
                      p: seq<PricingRow>, q: seq<PricingRow>, p': seq<PricingRow>, q': seq<PricingRow>)
    requires Parts(obs, ovr, passes, a, p, q) && multiset(p) == multiset(p') && multiset(q) == multiset(q')
    ensures Parts(obs, ovr, passes, a, p', q')
  {
    SameMembers(p, p');
    SameMembers(q, q');
    PermutedNoRepeats(p + q, p' + q');
    PartsOrdered(ovr, passes, p', q');
    assert forall r :: r in p' + q' <==> r in p + q;
  }

  lemma PartsOrdered(ovr: seq<Decision>, passes: Filter, p: seq<PricingRow>, q: seq<PricingRow>)
    requires forall r :: r in p ==> !Overridden(ovr, passes, r)
    requires forall r :: r in q ==> Overridden(ovr, passes, r)
    ensures OverridesLast(ovr, passes, p + q)
  {
    var rows := p + q;
    assert forall i :: 0 <= i < |p| ==> p[i] in p && rows[i] == p[i];
    assert forall i :: |p| <= i < |rows| ==> q[i - |p|] in q && rows[i] == q[i - |p|];
  }

  lemma PermutedNoRepeats<T>(s: seq<T>, t: seq<T>)
    requires NoRepeats(s) && multiset(s) == multiset(t)
    ensures NoRepeats(t)
  {
    forall i, j | 0 <= i < j < |t| ensures t[i] != t[j] {
      TwiceInBag(t, i, j);
      NoRepeatsMultiset(s, t[i]);
    }
  }

  /** What the feed may say of an alias is what the two parts may print. */
  lemma FeedIsPrint(obs: seq<Observation>, ovr: seq<Decision>, passes: Filter, out: Feed, a: string,
                    p: seq<PricingRow>, q: seq<PricingRow>, text: string)
    requires IsMerge(obs, ovr, passes, out) && Parts(obs, ovr, passes, a, p, q) && p + q != []
    ensures MayFeed(obs, ovr, passes, a, text) <==> MayPrint(Apply(Classify, p), Apply(Classify, q), text)
  {
    if MayFeed(obs, ovr, passes, a, text) { FedIsPrinted(obs, ovr, passes, a, p, q, text); }
    if MayPrint(Apply(Classify, p), Apply(Classify, q), text) { PrintedIsFed(obs, ovr, passes, out, a, p, q, text); }
  }

  lemma FedIsPrinted(obs: seq<Observation>, ovr: seq<Decision>, passes: Filter, a: string,
                     p: seq<PricingRow>, q: seq<PricingRow>, text: string)
    requires Parts(obs, ovr, passes, a, p, q) && p + q != [] && MayFeed(obs, ovr, passes, a, text)
    ensures MayPrint(Apply(Classify, p), Apply(Classify, q), text)
  {
    var out :| IsMerge(obs, ovr, passes, out) && Builds(RowsOf(out, a), text);
    assert IsMergeFor(obs, ovr, passes, a, RowsOf(out, a));
    var p', q' := HasParts(obs, ovr, passes, a, RowsOf(out, a));
    PartsArePermutations(obs, ovr, passes, a, p, q, p', q');
    SameMembers(p, p');
    SameMembers(q, q');
    ApplyPermutes(Classify, p, p');
    ApplyPermutes(Classify, q, q');
    ApplyConcat(Classify, p', q');
  }

  lemma PrintedIsFed(obs: seq<Observation>, ovr: seq<Decision>, passes: Filter, out: Feed, a: string,
                     p: seq<PricingRow>, q: seq<PricingRow>, text: string)
    requires IsMerge(obs, ovr, passes, out) && Parts(obs, ovr, passes, a, p, q) && p + q != []
    requires MayPrint(Apply(Classify, p), Apply(Classify, q), text)
    ensures MayFeed(obs, ovr, passes, a, text)
  {
    var p', q' := PrintedRows(p, q, text);
    PermutedParts(obs, ovr, passes, a, p, q, p', q');
    ReplaceRows(obs, ovr, passes, out, a, p' + q', text);
  }

  lemma PrintedRows(p: seq<PricingRow>, q: seq<PricingRow>, text: string)
    returns (p': seq<PricingRow>, q': seq<PricingRow>)
    requires p + q != [] && MayPrint(Apply(Classify, p), Apply(Classify, q), text)
    ensures multiset(p') == multiset(p) && multiset(q') == multiset(q) && Builds(p' + q', text)
  {
    var us, vs :| multiset(us) == multiset(Apply(Classify, p)) && multiset(vs) == multiset(Apply(Classify, q))
                  && Prints(us + vs, text);
    p' := PermutedImage(Classify, p, us);
    q' := PermutedImage(Classify, q, vs);
    ApplyConcat(Classify, p', q');
    SameMembers(p, p');
    SameMembers(q, q');
  }

  lemma ReplaceRows(obs: seq<Observation>, ovr: seq<Decision>, passes: Filter, out: Feed, a: string,
                    rows: seq<PricingRow>, text: string)
    requires IsMerge(obs, ovr, passes, out) && IsMergeFor(obs, ovr, passes, a, rows) && Builds(rows, text)
    ensures MayFeed(obs, ovr, passes, a, text)
  {
    var next := MergeWith(obs, ovr, passes, out, a, rows);
    Outcome(obs, ovr, passes, next, a, text);
  }

  lemma Outcome(obs: seq<Observation>, ovr: seq<Decision>, passes: Filter, out: Feed, a: string, text: string)
    requires IsMerge(obs, ovr, passes, out) && Builds(RowsOf(out, a), text)
    ensures MayFeed(obs, ovr, passes, a, text)
  {}

  lemma MergeWith(obs: seq<Observation>, ovr: seq<Decision>, passes: Filter, out: Feed, a: string,
                  rows: seq<PricingRow>) returns (next: Feed)
    requires IsMerge(obs, ovr, passes, out) && IsMergeFor(obs, ovr, passes, a, rows)
    ensures IsMerge(obs, ovr, passes, next) && RowsOf(next, a) == rows
  {
    next := out[a := rows];
    ReplaceKeeps((x, t) => IsMergeFor(obs, ovr, passes, x, t), out, next, a, rows);
  }

  lemma ReplaceKeeps(P: (string, seq<PricingRow>) -> bool, out: Feed, next: Feed, a: string, rows: seq<PricingRow>)
    requires P(a, rows) && (forall x :: P(x, RowsOf(out, x))) && next == out[a := rows]
    ensures forall x :: P(x, RowsOf(next, x))
  {
    forall x ensures P(x, RowsOf(next, x)) {
      if x != a { assert RowsOf(next, x) == RowsOf(out, x); }
    }
  }

  /** The feed text of an alias is the same for every map iteration order and everything the sort
      may do with ties exactly when, among the rows that may survive the dedupe, different ones
      differ in their key and are ordered by the comparator. */
  lemma FeedIsDeterminedIff(obs: seq<Observation>, ovr: seq<Decision>, passes: Filter, out: Feed, a: string,
                            p: seq<PricingRow>, q: seq<PricingRow>)
    requires IsMerge(obs, ovr, passes, out) && Parts(obs, ovr, passes, a, p, q)
    ensures OneFeed(obs, ovr, passes, a) <==> Separated(Apply(Classify, p), Apply(Classify, q))
  {
    if p + q == [] {
      EmptyFeed(obs, ovr, passes, a);
    } else {
      TextIsDeterminedIff(Apply(Classify, p), Apply(Classify, q));
      forall text
        ensures MayFeed(obs, ovr, passes, a, text) <==> MayPrint(Apply(Classify, p), Apply(Classify, q), text) {
        FeedIsPrint(obs, ovr, passes, out, a, p, q, text);
      }
    }
  }

  lemma EmptyFeed(obs: seq<Observation>, ovr: seq<Decision>, passes: Filter, a: string)
    requires IsMergeFor(obs, ovr, passes, a, [])
    ensures OneFeed(obs, ovr, passes, a)
  {
    forall text | MayFeed(obs, ovr, passes, a, text) ensures text == "" {
      var out :| IsMerge(obs, ovr, passes, out) && Builds(RowsOf(out, a), text);
      assert IsMergeFor(obs, ovr, passes, a, RowsOf(out, a));
      HasMember(RowsOf(out, a));
    }
  }

  lemma HasMember<T>(s: seq<T>)
    ensures s == [] || exists x :: x in s
  {
    if s != [] { assert s[0] in s; }
  }

  /** In particular when the alias's variants differ in resolution, audio or mode, hold no '|' in
      the first two, and use the audio values the comparator knows. */
  lemma FeedIsDeterministic(obs: seq<Observation>, ovr: seq<Decision>, passes: Filter,
                            out: Feed, out': Feed, a: string, text: string, text': string)
    requires IsMerge(obs, ovr, passes, out) && IsMerge(obs, ovr, passes, out')
    requires Builds(RowsOf(out, a), text) && Builds(RowsOf(out', a), text')
    requires forall r :: r in RowsOf(out, a) ==> KnownAudio(r.audio) && '|' !in r.resolution && '|' !in r.audio
    requires forall r, s :: r in RowsOf(out, a) && s in RowsOf(out, a) && r != s ==> !SameDims(Classify(r), Classify(s))
    ensures text == text'
  {
    var rows := RowsOf(out, a);
    assert IsMergeFor(obs, ovr, passes, a, rows) && IsMergeFor(obs, ovr, passes, a, RowsOf(out', a));
    var p, q := HasParts(obs, ovr, passes, a, rows);
    if rows == [] {
      EmptyFeed(obs, ovr, passes, a);
      assert MayFeed(obs, ovr, passes, a, text) && MayFeed(obs, ovr, passes, a, text');
    } else {
      ClassifiedKeysDistinct(rows);
      ClassifiedAudioKnown(rows);
      KnownAudioIsApart(Apply(Classify, rows));
      ApplyConcat(Classify, p, q);
      ApartIsSeparated(Apply(Classify, p), Apply(Classify, q));
      SeparatedIsOneText(Apply(Classify, p), Apply(Classify, q));
      assert MayFeed(obs, ovr, passes, a, text) && MayFeed(obs, ovr, passes, a, text');
      FedIsPrinted(obs, ovr, passes, a, p, q, text);
      FedIsPrinted(obs, ovr, passes, a, p, q, text');
    }
  }

  lemma ApartIsSeparated(a: seq<Tier>, b: seq<Tier>)
    requires Apart(a + b)
    ensures Separated(a, b)
  {
    assert forall t :: Winner(a, b, t) ==> t in a + b;
  }

  lemma ClassifiedAudioKnown(rows: seq<PricingRow>)
    requires forall r :: r in rows ==> KnownAudio(r.audio)
    ensures AllKnownAudio(Apply(Classify, rows))
  {
    var ts := Apply(Classify, rows);
    forall t | t in ts ensures KnownAudio(t.audio) {
      var i :| 0 <= i < |ts| && ts[i] == t;
      assert rows[i] in rows;
    }
  }

  lemma ClassifiedKeysDistinct(rows: seq<PricingRow>)
    requires NoRepeats(rows) && forall r :: r in rows ==> '|' !in r.resolution && '|' !in r.audio
    requires forall r, s :: r in rows && s in rows && r != s ==> !SameDims(Classify(r), Classify(s))
    ensures DistinctKeys(Apply(Classify, rows))
  {
    var ts := Apply(Classify, rows);
    forall i, j | 0 <= i < j < |ts| ensures Key(ts[i]) != Key(ts[j]) {
      assert rows[i] in rows && rows[j] in rows;
      PipeFreeKeys(ts[i], ts[j]);
    }
  }
}
