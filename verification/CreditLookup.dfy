/** Two lookups of a variant's credits: a scan of the cost rules, and an index of them. */
module CreditLookup {
  import opened Wrappers

  datatype Key = Key(jst: string, res: string, dur: int, mode: string, audio: string, unit: string)
  datatype Rule = Rule(key: Key, credits: int)

  function FoldedMode(res: string): string {
    if res == "1080p" then "pro" else if res == "720p" then "std" else ""
  }

  /** Resolution-agnostic rules of the variant's kind. */
  predicate Agnostic(k: Key, v: Key) {
    k.jst == v.jst && k.res == "" && k.audio == v.audio && k.dur == v.dur
  }

  predicate Folded(k: Key, v: Key) { Agnostic(k, v) && k.mode == FoldedMode(v.res) }

  /** The key that the index tries after the variant's own. */
  function FoldedKey(v: Key): Key { v.(res := "", mode := FoldedMode(v.res)) }

  function Is(k: Key): Key -> bool { x => x == k }
  function IsFolded(v: Key): Key -> bool { k => Folded(k, v) }
  function IsAgnostic(v: Key): Key -> bool { k => Agnostic(k, v) }

  // ---------------------------------------------------------------- first match

  function First(rules: seq<Rule>, p: Key -> bool): Option<int> {
    if rules == [] then None
    else if p(rules[0].key) then Some(rules[0].credits)
    else First(rules[1..], p)
  }

  lemma {:induction false} FirstMeans(rules: seq<Rule>, p: Key -> bool)
    ensures First(rules, p) == None <==> forall i :: 0 <= i < |rules| ==> !p(rules[i].key)
    ensures First(rules, p).Some? ==>
              exists i :: 0 <= i < |rules| && p(rules[i].key) && rules[i].credits == First(rules, p).value
                && forall j :: 0 <= j < i ==> !p(rules[j].key)
  {
    if rules != [] && !p(rules[0].key) {
      FirstMeans(rules[1..], p);
      if First(rules[1..], p).Some? {
        var i :| 0 <= i < |rules[1..]| && p(rules[1..][i].key) && rules[1..][i].credits == First(rules[1..], p).value
          && forall j :: 0 <= j < i ==> !p(rules[1..][j].key);
        assert forall j :: 0 < j < i + 1 ==> rules[j] == rules[1..][j - 1];
        assert p(rules[i + 1].key) && rules[i + 1].credits == First(rules, p).value;
      }
      assert forall j :: 0 < j < |rules| ==> rules[j] == rules[1..][j - 1];
    }
  }

  lemma {:induction false} FirstSame(rules: seq<Rule>, p: Key -> bool, q: Key -> bool)
    requires forall i :: 0 <= i < |rules| ==> (p(rules[i].key) <==> q(rules[i].key))
    ensures First(rules, p) == First(rules, q)
  {
    if rules != [] {
      assert forall i :: 0 <= i < |rules[1..]| ==> rules[1..][i] == rules[i + 1];
      FirstSame(rules[1..], p, q);
    }
  }

  // ---------------------------------------------------------------- the scan

  method ScanFirst(rules: seq<Rule>, p: Key -> bool) returns (c: Option<int>)
    ensures c == First(rules, p)
  {
    for i := 0 to |rules|
      invariant First(rules, p) == First(rules[i..], p)
    {
      if p(rules[i].key) { return Some(rules[i].credits); }
      assert rules[i..][1..] == rules[i + 1..];
    }
    return None;
  }

  /** Exact, then resolution-agnostic in the folded mode, then in any mode; None: no match. */
  function Scanned(rules: seq<Rule>, v: Key): Option<int> {
    var exact := First(rules, Is(v));
    var folded := First(rules, IsFolded(v));
    if exact.Some? then exact
    else if v.res == "" then None
    else if folded.Some? then folded
    else First(rules, IsAgnostic(v))
  }

  method LookupVariantCredits(rules: seq<Rule>, v: Key) returns (c: Option<int>)
    ensures c == Scanned(rules, v)
  {
    c := ScanFirst(rules, Is(v));
    if c.Some? { return; }
    if v.res == "" { return None; }
    c := ScanFirst(rules, IsFolded(v));
    if c.Some? { return; }
    c := ScanFirst(rules, IsAgnostic(v));
  }

  /** Rule i is the first whose key passes. */
  ghost predicate Earliest(rules: seq<Rule>, passes: Key -> bool, i: int) {
    0 <= i < |rules| && passes(rules[i].key) && forall j :: 0 <= j < i ==> !passes(rules[j].key)
  }

  /** Which rule the lookup takes, from the fields of the rules: the first with all of the variant's
      own; else, for a named resolution, the first without a resolution of the same job-set type,
      audio and duration whose mode is the one the resolution stands for; else the first of those in
      any mode; else none. The unit matters only for the first. */
  lemma LookupTakes(rules: seq<Rule>, v: Key)
    ensures var own := (k: Key) => k == v;
            var any := (k: Key) => k.jst == v.jst && k.res == "" && k.audio == v.audio && k.dur == v.dur;
            var mode := if v.res == "1080p" then "pro" else if v.res == "720p" then "std" else "";
            var folded := (k: Key) => any(k) && k.mode == mode;
            if exists i :: Earliest(rules, own, i)
            then forall i :: Earliest(rules, own, i) ==> Scanned(rules, v) == Some(rules[i].credits)
            else if v.res != "" && exists i :: Earliest(rules, folded, i)
            then forall i :: Earliest(rules, folded, i) ==> Scanned(rules, v) == Some(rules[i].credits)
            else if v.res != "" && exists i :: Earliest(rules, any, i)
            then forall i :: Earliest(rules, any, i) ==> Scanned(rules, v) == Some(rules[i].credits)
            else Scanned(rules, v) == None
  {
    var any := (k: Key) => k.jst == v.jst && k.res == "" && k.audio == v.audio && k.dur == v.dur;
    var mode := if v.res == "1080p" then "pro" else if v.res == "720p" then "std" else "";
    FirstIsEarliest(rules, Is(v), (k: Key) => k == v);
    FirstIsEarliest(rules, IsFolded(v), (k: Key) => any(k) && k.mode == mode);
    FirstIsEarliest(rules, IsAgnostic(v), any);
  }

  lemma FirstIsEarliest(rules: seq<Rule>, p: Key -> bool, passes: Key -> bool)
    requires forall k :: p(k) <==> passes(k)
    ensures First(rules, p).Some? <==> exists i :: Earliest(rules, passes, i)
    ensures forall i :: Earliest(rules, passes, i) ==> First(rules, p) == Some(rules[i].credits)
  {
    FirstMeans(rules, p);
    if First(rules, p).Some? {
      var i :| 0 <= i < |rules| && p(rules[i].key) && rules[i].credits == First(rules, p).value
        && forall j :: 0 <= j < i ==> !p(rules[j].key);
      assert Earliest(rules, passes, i);
      forall j | Earliest(rules, passes, j) ensures j == i {}
    }
  }

  // ---------------------------------------------------------------- the index

  ghost predicate IsIndex(rules: seq<Rule>, idx: map<Key, int>) {
    forall k :: if k in idx then First(rules, Is(k)) == Some(idx[k]) else First(rules, Is(k)) == None
  }

  lemma {:induction false} FirstSnoc(rules: seq<Rule>, r: Rule, p: Key -> bool)
    ensures First(rules + [r], p) ==
            if First(rules, p).Some? then First(rules, p) else if p(r.key) then Some(r.credits) else None
  {
    if rules == [] {
      assert rules + [r] == [r];
      assert [r][1..] == [];
    } else {
      assert (rules + [r])[1..] == rules[1..] + [r];
      FirstSnoc(rules[1..], r, p);
    }
  }

  lemma IndexSnoc(rules: seq<Rule>, r: Rule, idx: map<Key, int>)
    requires IsIndex(rules, idx)
    ensures IsIndex(rules + [r], if r.key in idx then idx else idx[r.key := r.credits])
  {
    var idx' := if r.key in idx then idx else idx[r.key := r.credits];
    forall k
      ensures if k in idx' then First(rules + [r], Is(k)) == Some(idx'[k]) else First(rules + [r], Is(k)) == None
    {
      FirstSnoc(rules, r, Is(k));
    }
  }

  /** First rule wins. */
  method BuildIndex(rules: seq<Rule>) returns (idx: map<Key, int>)
    ensures IsIndex(rules, idx)
  {
    idx := map[];
    for i := 0 to |rules|
      invariant IsIndex(rules[..i], idx)
    {
      assert rules[..i + 1] == rules[..i] + [rules[i]];
      IndexSnoc(rules[..i], rules[i], idx);
      if rules[i].key !in idx { idx := idx[rules[i].key := rules[i].credits]; }
    }
    assert rules[..|rules|] == rules;
  }

  ghost predicate FromIndex(idx: map<Key, int>, v: Key, c: int) {
    exists k :: k in idx && Agnostic(k, v) && c == idx[k]
  }

  /** What the lookup may answer; Go iterates over a map in any order. */
  ghost predicate MayAnswer(idx: map<Key, int>, v: Key, c: int) {
    if v.jst == "" then c == 0
    else if v in idx then c == idx[v]
    else if v.res == "" then c == 0
    else if FoldedKey(v) in idx then c == idx[FoldedKey(v)]
    else if exists k :: k in idx && Agnostic(k, v) then FromIndex(idx, v, c)
    else c == 0
  }

  method LookupCreditsForFloor(idx: map<Key, int>, v: Key) returns (c: int)
    ensures MayAnswer(idx, v, c)
  {
    if v.jst == "" { return 0; }
    if v in idx { return idx[v]; }
    if v.res == "" { return 0; }
    var folded := v.(res := "", mode := FoldedMode(v.res));
    if folded in idx { return idx[folded]; }
    var unseen := idx.Keys;
    while unseen != {}
      invariant unseen <= idx.Keys
      invariant forall k :: k in idx && k !in unseen ==> !Agnostic(k, v)
      decreases |unseen|
    {
      var k :| k in unseen;
      unseen := unseen - {k};
      if k.jst != v.jst || k.res != "" { continue; }
      if k.audio == v.audio && k.dur == v.dur { return idx[k]; }
    }
    return 0;
  }

  // ---------------------------------------------------------------- agreement

  /** The scan's answer where the endpoint shows a number: no match reads as zero. */
  function ScannedCredits(rules: seq<Rule>, v: Key): int {
    if Scanned(rules, v).Some? then Scanned(rules, v).value else 0
  }

  /** The first rule of each key is the one that counts. */
  ghost predicate Leads(rules: seq<Rule>, i: int) {
    0 <= i < |rules| && forall j :: 0 <= j < i ==> rules[j].key != rules[i].key
  }

  ghost predicate HasKey(rules: seq<Rule>, v: Key) { exists i :: 0 <= i < |rules| && rules[i].key == v }

  lemma IndexHas(rules: seq<Rule>, idx: map<Key, int>, k: Key)
    requires IsIndex(rules, idx)
    ensures k in idx <==> HasKey(rules, k)
    ensures k in idx ==> First(rules, Is(k)) == Some(idx[k])
  {
    FirstMeans(rules, Is(k));
  }

  ghost predicate FromRules(rules: seq<Rule>, v: Key, c: int) {
    exists i :: 0 <= i < |rules| && Leads(rules, i) && Agnostic(rules[i].key, v) && rules[i].credits == c
  }

  /** The credits the map iteration may stop at are those of the leading agnostic rules. */
  lemma IndexAgnostic(rules: seq<Rule>, idx: map<Key, int>, v: Key, c: int)
    requires IsIndex(rules, idx)
    ensures FromIndex(idx, v, c) <==> FromRules(rules, v, c)
  {
    if k :| k in idx && Agnostic(k, v) && c == idx[k] {
      IndexHas(rules, idx, k);
      FirstMeans(rules, Is(k));
      var i :| 0 <= i < |rules| && rules[i].key == k && rules[i].credits == idx[k]
        && forall j :: 0 <= j < i ==> rules[j].key != k;
      assert Leads(rules, i);
    }
    if i :| 0 <= i < |rules| && Leads(rules, i) && Agnostic(rules[i].key, v) && rules[i].credits == c {
      var k := rules[i].key;
      IndexHas(rules, idx, k);
      FirstMeans(rules, Is(k));
    }
  }

  /** Rule i is the first of those with p. */
  ghost predicate IsFirst(rules: seq<Rule>, p: Key -> bool, i: int) {
    0 <= i < |rules| && p(rules[i].key) && forall j :: 0 <= j < i ==> !p(rules[j].key)
  }

  /** The condition on the rule table under which no iteration order can set the two apart. An
      exact rule or a variant without a resolution settles it. Else, with a rule in the folded
      mode and the variant's unit, the first such rule must charge what the first rule in the
      folded mode of any unit charges; and without one, all the agnostic rules that lead their
      key must charge the same. */
  ghost predicate Agrees(rules: seq<Rule>, v: Key) {
    HasKey(rules, v) || v.res == ""
    || (if HasKey(rules, FoldedKey(v))
        then forall i, j :: IsFirst(rules, IsFolded(v), i) && IsFirst(rules, Is(FoldedKey(v)), j) ==>
               rules[i].credits == rules[j].credits
        else forall i, j ::
               Leads(rules, i) && Leads(rules, j) && Agnostic(rules[i].key, v) && Agnostic(rules[j].key, v) ==>
               rules[i].credits == rules[j].credits)
  }

  lemma FirstIs(rules: seq<Rule>, p: Key -> bool, i: int)
    requires IsFirst(rules, p, i)
    ensures First(rules, p) == Some(rules[i].credits)
  {
    FirstMeans(rules, p);
    var j := FirstExists(rules, p);
    assert i == j;
  }

  /** The scan's own agnostic answer is that of a rule that leads its key. */
  lemma ScanAnswerLeads(rules: seq<Rule>, v: Key) returns (i: int)
    requires !HasKey(rules, v) && v.res != "" && exists j :: 0 <= j < |rules| && Agnostic(rules[j].key, v)
    ensures Leads(rules, i) && Agnostic(rules[i].key, v) && rules[i].credits == ScannedCredits(rules, v)
  {
    FirstMeans(rules, Is(v));
    FirstMeans(rules, IsAgnostic(v));
    var folded := First(rules, IsFolded(v)).Some?;
    i := FirstExists(rules, if folded then IsFolded(v) else IsAgnostic(v));
    LeadsWhenFirst(rules, if folded then IsFolded(v) else IsAgnostic(v), i);
  }

  lemma LeadsWhenFirst(rules: seq<Rule>, p: Key -> bool, i: int)
    requires IsFirst(rules, p, i)
    ensures Leads(rules, i)
  {}

  lemma LooseAgreement(rules: seq<Rule>, v: Key)
    requires !HasKey(rules, v) && v.res != "" && !HasKey(rules, FoldedKey(v))
    ensures Agrees(rules, v) <==> forall c :: FromRules(rules, v, c) ==> c == ScannedCredits(rules, v)
  {
    if exists j :: 0 <= j < |rules| && Agnostic(rules[j].key, v) {
      var i := ScanAnswerLeads(rules, v);
      forall j | Leads(rules, j) && Agnostic(rules[j].key, v) ensures FromRules(rules, v, rules[j].credits) {}
    }
  }

  lemma FirstExists(rules: seq<Rule>, p: Key -> bool) returns (i: int)
    requires First(rules, p).Some?
    ensures IsFirst(rules, p, i) && First(rules, p) == Some(rules[i].credits)
  {
    FirstMeans(rules, p);
    i :| 0 <= i < |rules| && p(rules[i].key) && rules[i].credits == First(rules, p).value
      && forall j :: 0 <= j < i ==> !p(rules[j].key);
  }

  lemma FoldedAgreement(rules: seq<Rule>, v: Key)
    requires !HasKey(rules, v) && v.res != "" && HasKey(rules, FoldedKey(v))
    ensures Agrees(rules, v) <==> First(rules, IsFolded(v)) == First(rules, Is(FoldedKey(v)))
  {
    var n :| 0 <= n < |rules| && rules[n].key == FoldedKey(v);
    assert IsFolded(v)(rules[n].key) && Is(FoldedKey(v))(rules[n].key);
    FirstMeans(rules, IsFolded(v));
    FirstMeans(rules, Is(FoldedKey(v)));
    var i := FirstExists(rules, IsFolded(v));
    var j := FirstExists(rules, Is(FoldedKey(v)));
    forall x | IsFirst(rules, IsFolded(v), x)
      ensures rules[x].credits == rules[i].credits {
      FirstIs(rules, IsFolded(v), x);
    }
    forall x | IsFirst(rules, Is(FoldedKey(v)), x) ensures rules[x].credits == rules[j].credits {
      FirstIs(rules, Is(FoldedKey(v)), x);
    }
  }

  ghost predicate AlwaysAnswers(idx: map<Key, int>, v: Key, want: int) {
    forall c :: MayAnswer(idx, v, c) ==> c == want
  }

  lemma AnswersOne(idx: map<Key, int>, v: Key, only: int, want: int)
    requires forall c :: MayAnswer(idx, v, c) <==> c == only
    ensures AlwaysAnswers(idx, v, want) <==> only == want
  {
    assert MayAnswer(idx, v, only);
  }

  lemma AgreesWhenKeyed(rules: seq<Rule>, idx: map<Key, int>, v: Key)
    requires IsIndex(rules, idx) && v.jst != ""
    requires HasKey(rules, v) || v.res == "" || HasKey(rules, FoldedKey(v))
    ensures AlwaysAnswers(idx, v, ScannedCredits(rules, v)) <==> Agrees(rules, v)
  {
    IndexHas(rules, idx, v);
    IndexHas(rules, idx, FoldedKey(v));
    FirstMeans(rules, Is(v));
    FirstMeans(rules, IsFolded(v));
    var only := if v in idx then idx[v] else if v.res == "" then 0 else idx[FoldedKey(v)];
    AnswersOne(idx, v, only, ScannedCredits(rules, v));
    if !HasKey(rules, v) && v.res != "" {
      FoldedAgreement(rules, v);
      var i :| 0 <= i < |rules| && rules[i].key == FoldedKey(v);
      assert IsFolded(v)(rules[i].key);
    }
  }

  lemma AgreesWhenLoose(rules: seq<Rule>, idx: map<Key, int>, v: Key)
    requires IsIndex(rules, idx) && v.jst != ""
    requires !HasKey(rules, v) && v.res != "" && !HasKey(rules, FoldedKey(v))
    ensures AlwaysAnswers(idx, v, ScannedCredits(rules, v)) <==> Agrees(rules, v)
  {
    IndexHas(rules, idx, v);
    IndexHas(rules, idx, FoldedKey(v));
    LooseAgreement(rules, v);
    forall c ensures FromIndex(idx, v, c) <==> FromRules(rules, v, c) { IndexAgnostic(rules, idx, v, c); }
    if exists k :: k in idx && Agnostic(k, v) {
      assert forall c :: MayAnswer(idx, v, c) <==> FromIndex(idx, v, c);
    } else {
      assert forall c :: MayAnswer(idx, v, c) <==> c == 0;
      AnswersOne(idx, v, 0, ScannedCredits(rules, v));
      NothingAgnostic(rules, idx, v);
    }
  }

  lemma NothingAgnostic(rules: seq<Rule>, idx: map<Key, int>, v: Key)
    requires IsIndex(rules, idx) && !HasKey(rules, v) && !exists k :: k in idx && Agnostic(k, v)
    ensures ScannedCredits(rules, v) == 0
    ensures forall c :: !FromRules(rules, v, c)
  {
    forall i | 0 <= i < |rules| ensures !Agnostic(rules[i].key, v) { IndexHas(rules, idx, rules[i].key); }
    FirstMeans(rules, Is(v));
    FirstMeans(rules, IsFolded(v));
    FirstMeans(rules, IsAgnostic(v));
  }

  /** Exactly when the index answers as the scan does. */
  lemma IndexRefinesScanIff(rules: seq<Rule>, idx: map<Key, int>, v: Key)
    requires IsIndex(rules, idx) && v.jst != ""
    ensures AlwaysAnswers(idx, v, ScannedCredits(rules, v)) <==> Agrees(rules, v)
  {
    if HasKey(rules, v) || v.res == "" || HasKey(rules, FoldedKey(v)) {
      AgreesWhenKeyed(rules, idx, v);
    } else {
      AgreesWhenLoose(rules, idx, v);
    }
  }

  /** The case the catalogue is in: an exact rule, or agnostic rules that all bill in the
      variant's unit, one of them in the folded mode. */
  lemma OneUnitAgrees(rules: seq<Rule>, idx: map<Key, int>, v: Key, c: int)
    requires IsIndex(rules, idx) && v.jst != "" && MayAnswer(idx, v, c)
    requires HasKey(rules, v)
             || ((forall i :: 0 <= i < |rules| && Agnostic(rules[i].key, v) ==> rules[i].key.unit == v.unit)
                 && exists i :: 0 <= i < |rules| && Folded(rules[i].key, v))
    ensures Scanned(rules, v).Some? || v.res == ""
    ensures c == ScannedCredits(rules, v)
  {
    FirstMeans(rules, Is(v));
    FirstMeans(rules, IsFolded(v));
    if !HasKey(rules, v) {
      assert forall i :: 0 <= i < |rules| ==> (Folded(rules[i].key, v) <==> rules[i].key == FoldedKey(v));
      FirstSame(rules, IsFolded(v), Is(FoldedKey(v)));
      if v.res != "" {
        var i :| 0 <= i < |rules| && Folded(rules[i].key, v);
        assert rules[i].key == FoldedKey(v);
        FoldedAgreement(rules, v);
      }
    }
    IndexRefinesScanIff(rules, idx, v);
  }

  /** Whatever else the index answers is zero or the credits of some agnostic rule. */
  lemma OtherAnswersAreAgnostic(rules: seq<Rule>, idx: map<Key, int>, v: Key, c: int)
    requires IsIndex(rules, idx) && MayAnswer(idx, v, c) && !HasKey(rules, v) && c != 0
    ensures v.res != "" && exists i :: 0 <= i < |rules| && Agnostic(rules[i].key, v) && rules[i].credits == c
  {
    IndexHas(rules, idx, v);
    IndexAgnostic(rules, idx, v, c);
    assert FoldedKey(v) in idx && c == idx[FoldedKey(v)] ==> Agnostic(FoldedKey(v), v);
  }

  /** They do differ: the scan takes an agnostic rule of the folded mode whatever its unit, the
      index only one of the variant's unit. */
  lemma UnitsSetThemApart(v: Key, unit: string, mode: string, a: int, b: int)
    requires v.jst != "" && v.res != "" && unit != v.unit && mode != FoldedMode(v.res) && a != b
    ensures var other, folded := FoldedKey(v).(mode := mode), FoldedKey(v).(unit := unit);
            var idx := map[other := b, folded := a];
            IsIndex([Rule(other, b), Rule(folded, a)], idx)
            && Scanned([Rule(other, b), Rule(folded, a)], v) == Some(a) && MayAnswer(idx, v, b)
  {
    var other, folded := FoldedKey(v).(mode := mode), FoldedKey(v).(unit := unit);
    var rules := [Rule(other, b), Rule(folded, a)];
    var idx := map[other := b, folded := a];
    assert other in idx && Agnostic(other, v) && b == idx[other];
    assert rules[1..] == [Rule(folded, a)] && rules[1..][1..] == [];
    FirstTwo(rules[0], rules[1], Is(v));
    FirstTwo(rules[0], rules[1], IsFolded(v));
    forall k: Key ensures First(rules, Is(k)) == if k == other then Some(b) else if k == folded then Some(a) else None {
      FirstTwo(rules[0], rules[1], Is(k));
    }
  }

  lemma FirstTwo(a: Rule, b: Rule, p: Key -> bool)
    ensures First([a, b], p) == if p(a.key) then Some(a.credits) else if p(b.key) then Some(b.credits) else None
  {
    assert [a, b][1..] == [b] && [b][1..] == [];
    assert First([b], p) == if p(b.key) then Some(b.credits) else First([], p);
  }

  /** A variant whose alias is unknown has no job-set type: the index answers zero, while the scan
      would use a rule without one. */
  lemma UnknownAliasIsZero(rules: seq<Rule>, idx: map<Key, int>, v: Key, c: int)
    requires IsIndex(rules, idx) && v.jst == ""
    ensures MayAnswer(idx, v, c) <==> c == 0
    ensures HasKey(rules, v) ==> Scanned(rules, v).Some?
  {
    FirstMeans(rules, Is(v));
  }
}
