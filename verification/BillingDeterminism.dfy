/** When the billing text is determined: exactly when no order of its rows, and no order that the
    sort may give to ties, can be told from it. */
module BillingDeterminism {
  import opened Wrappers
  import opened BillingOrder
  import opened BillingExpr
  import opened BillingMeaning
  import opened BillingTheorems

  // The tiers come in two parts, each in any order: rows kept from observations first, then rows
  // of overrides. A list in any order at all is the case of one empty part.

  /** A text that some order of the two parts may print. */
  ghost predicate MayPrint(a: seq<Tier>, b: seq<Tier>, text: string) {
    exists a', b' :: multiset(a') == multiset(a) && multiset(b') == multiset(b) && Prints(a' + b', text)
  }

  ghost predicate OneText(a: seq<Tier>, b: seq<Tier>) {
    forall text, text' :: MayPrint(a, b, text) && MayPrint(a, b, text') ==> text == text'
  }

  /** The tiers that may survive the dedupe: a key of the second part drops the first part's. */
  ghost predicate Winner(a: seq<Tier>, b: seq<Tier>, t: Tier) {
    t in b || (t in a && forall u :: u in b ==> Key(u) != Key(t))
  }

  /** Different winners differ in their key, and the comparator orders them. */
  ghost predicate DistinctWinners(a: seq<Tier>, b: seq<Tier>) {
    forall x, y :: Winner(a, b, x) && Winner(a, b, y) && x != y ==> Key(x) != Key(y)
  }

  ghost predicate OrderedWinners(a: seq<Tier>, b: seq<Tier>) {
    forall x, y :: Winner(a, b, x) && Winner(a, b, y) && x != y ==> Ordered(x, y)
  }

  ghost predicate Separated(a: seq<Tier>, b: seq<Tier>) { DistinctWinners(a, b) && OrderedWinners(a, b) }

  // ---------------------------------------------------------------- survivors of the dedupe

  ghost predicate LastAt(ts: seq<Tier>, n: nat) {
    n < |ts| && forall j :: n < j < |ts| ==> Key(ts[j]) != Key(ts[n])
  }

  lemma {:induction false} LastWithKey(ts: seq<Tier>, i: nat) returns (n: nat)
    requires i < |ts|
    ensures LastAt(ts, n) && Key(ts[n]) == Key(ts[i])
    decreases |ts| - i
  {
    if j :| i < j < |ts| && Key(ts[j]) == Key(ts[i]) {
      n := LastWithKey(ts, j);
    } else {
      n := i;
    }
  }

  lemma SurvivorIsLast(ts: seq<Tier>, t: Tier) returns (n: nat)
    requires t in Collapse(ts)
    ensures LastAt(ts, n) && ts[n] == t
  {
    CollapseMembers(ts);
    var i :| 0 <= i < |ts| && ts[i] == t;
    n := LastWithKey(ts, i);
    LastRowWins(ts, n);
    SameKeySame(Collapse(ts), ts[n], t);
  }

  lemma SurvivorWins(a: seq<Tier>, b: seq<Tier>, a': seq<Tier>, b': seq<Tier>, t: Tier)
    requires multiset(a') == multiset(a) && multiset(b') == multiset(b) && t in Collapse(a' + b')
    ensures Winner(a, b, t)
  {
    SameMembers(a, a');
    SameMembers(b, b');
    var n := SurvivorIsLast(a' + b', t);
    if n < |a'| {
      assert t == a'[n];
      forall u | u in b ensures Key(u) != Key(t) {
        var j :| 0 <= j < |b'| && b'[j] == u;
        assert (a' + b')[|a'| + j] == u;
      }
    } else {
      assert t == b'[n - |a'|];
    }
  }

  lemma WinnerSurvives(a: seq<Tier>, b: seq<Tier>, a': seq<Tier>, b': seq<Tier>, t: Tier)
    requires multiset(a') == multiset(a) && multiset(b') == multiset(b) && Winner(a, b, t) && DistinctWinners(a, b)
    ensures t in Collapse(a' + b')
  {
    SameMembers(a, a');
    SameMembers(b, b');
    CollapseMembers(a' + b');
    assert t in a' + b';
    var u :| u in Collapse(a' + b') && Key(u) == Key(t);
    SurvivorWins(a, b, a', b', u);
  }

  lemma SameSurvivors(a: seq<Tier>, b: seq<Tier>, a': seq<Tier>, b': seq<Tier>)
    requires multiset(a') == multiset(a) && multiset(b') == multiset(b) && DistinctWinners(a, b)
    ensures multiset(Collapse(a' + b')) == multiset(Collapse(a + b))
  {
    CollapseMembers(a + b);
    CollapseMembers(a' + b');
    DistinctIsNoRepeats(Collapse(a + b));
    DistinctIsNoRepeats(Collapse(a' + b'));
    forall t ensures t in Collapse(a' + b') <==> t in Collapse(a + b) {
      if t in Collapse(a' + b') {
        SurvivorWins(a, b, a', b', t);
        WinnerSurvives(a, b, a, b, t);
      }
      if t in Collapse(a + b) {
        SurvivorWins(a, b, a, b, t);
        WinnerSurvives(a, b, a', b', t);
      }
    }
    SameBag(Collapse(a' + b'), Collapse(a + b));
  }

  // ---------------------------------------------------------------- separated winners fix the text

  lemma SeparatedPrints(a: seq<Tier>, b: seq<Tier>, text: string, sorted: seq<Tier>)
    requires Separated(a, b) && MayPrint(a, b, text) && IsSortOf(Collapse(a + b), sorted)
    ensures text == ChainText(sorted)
  {
    var a', b' :| multiset(a') == multiset(a) && multiset(b') == multiset(b) && Prints(a' + b', text);
    var s :| IsSortOf(Collapse(a' + b'), s) && text == ChainText(s);
    SameSurvivors(a, b, a', b');
    SameMembers(s, Collapse(a + b));
    forall x, y | x in s && y in s && x != y ensures Less(x, y) || Less(y, x) {
      SurvivorWins(a, b, a, b, x);
      SurvivorWins(a, b, a, b, y);
      assert Ordered(x, y);
    }
    SortIsUnique(s, sorted);
  }

  lemma SeparatedIsOneText(a: seq<Tier>, b: seq<Tier>)
    requires Separated(a, b)
    ensures OneText(a, b)
  {
    var sorted := SortExists(Collapse(a + b));
    forall text, text' | MayPrint(a, b, text) && MayPrint(a, b, text') ensures text == text' {
      SeparatedPrints(a, b, text, sorted);
      SeparatedPrints(a, b, text', sorted);
    }
  }

  // ---------------------------------------------------------------- a shared key shows the order

  lemma MoveLast(ts: seq<Tier>, x: Tier) returns (us: seq<Tier>)
    requires x in ts
    ensures multiset(us) == multiset(ts) && us != [] && us[|us| - 1] == x
  {
    var i :| 0 <= i < |ts| && ts[i] == x;
    us := Without(ts, i) + [x];
    BagWithout(ts, i);
  }

  /** Each winner survives in some order. */
  lemma SurvivesInSome(a: seq<Tier>, b: seq<Tier>, x: Tier) returns (a': seq<Tier>, b': seq<Tier>)
    requires Winner(a, b, x)
    ensures multiset(a') == multiset(a) && multiset(b') == multiset(b) && x in Collapse(a' + b')
  {
    a', b' := a, b;
    if x in b {
      b' := MoveLast(b, x);
      assert (a' + b')[|a'| + |b'| - 1] == x;
      LastRowWins(a' + b', |a'| + |b'| - 1);
    } else {
      a' := MoveLast(a, x);
      var n := |a'| - 1;
      forall j | n < j < |a' + b'| ensures Key((a' + b')[j]) != Key((a' + b')[n]) {
        assert (a' + b')[j] == b[j - |a'|];
        assert b[j - |a'|] in b;
      }
      LastRowWins(a' + b', n);
    }
  }

  /** ... and is then in the text. */
  lemma PrintsWith(a: seq<Tier>, b: seq<Tier>, x: Tier) returns (s: seq<Tier>)
    requires Winner(a, b, x)
    ensures MayPrint(a, b, ChainText(s)) && x in s && DistinctKeys(s)
  {
    var a', b' := SurvivesInSome(a, b, x);
    s := SortExists(Collapse(a' + b'));
    SameMembers(s, Collapse(a' + b'));
    SortKeepsKeys(Collapse(a' + b'), s);
    assert Prints(a' + b', ChainText(s));
  }

  lemma SortKeepsKeys(ts: seq<Tier>, s: seq<Tier>)
    requires IsSortOf(ts, s) && (exists us :: ts == Collapse(us))
    ensures DistinctKeys(s)
  {
    var us :| ts == Collapse(us);
    CollapseMembers(us);
    PermutedKeys(ts, s);
  }

  /** Two winners that share a key, such as one variant priced in two units, give two texts. */
  lemma SharedKeyDependsOnOrder(a: seq<Tier>, b: seq<Tier>, x: Tier, y: Tier)
    requires Winner(a, b, x) && Winner(a, b, y) && x != y && Key(x) == Key(y)
    ensures !OneText(a, b)
  {
    var s := PrintsWith(a, b, x);
    var s' := PrintsWith(a, b, y);
    assert y !in s by { if y in s { SameKeySame(s, x, y); } }
    PrintingIsInjective(s, s');
  }

  // ---------------------------------------------------------------- a tie shows the sort

  /** A sorted list with a tie has another order as good. */
  lemma OtherSort(s: seq<Tier>, x: Tier, y: Tier) returns (s': seq<Tier>)
    requires Sorted(s) && x in s && y in s && x != y && !Ordered(x, y)
    ensures Sorted(s') && multiset(s') == multiset(s) && s' != s
  {
    var p :| 0 <= p < |s| && s[p] == x;
    var q :| 0 <= q < |s| && s[q] == y;
    var i, j := if p < q then p else q, if p < q then q else p;
    s' := Swap(s, i, j);
    SwapKeepsSorted(s, i, j);
    SwapBag(s, i, j);
    assert s'[i] != s[i];
  }

  /** Two tied winners, such as an unknown audio value and an empty one or another unknown one,
      give two texts. */
  lemma TiesAreAmbiguous(a: seq<Tier>, b: seq<Tier>, x: Tier, y: Tier)
    requires DistinctWinners(a, b)
    requires Winner(a, b, x) && Winner(a, b, y) && x != y && !Ordered(x, y)
    ensures !OneText(a, b)
  {
    var s := SortExists(Collapse(a + b));
    SameMembers(s, Collapse(a + b));
    WinnerSurvives(a, b, a, b, x);
    WinnerSurvives(a, b, a, b, y);
    var s' := OtherSort(s, x, y);
    PrintingIsInjective(s, s');
    SortMayPrint(a, b, s);
    SortMayPrint(a, b, s');
  }

  lemma SortMayPrint(a: seq<Tier>, b: seq<Tier>, s: seq<Tier>)
    requires IsSortOf(Collapse(a + b), s)
    ensures MayPrint(a, b, ChainText(s))
  {
    assert Prints(a + b, ChainText(s));
  }

  // ---------------------------------------------------------------- exactly when

  /** The text is the same for every order of the two parts and everything the sort may do exactly
      when different winners differ in their key and the comparator orders them. */
  lemma TextIsDeterminedIff(a: seq<Tier>, b: seq<Tier>)
    ensures OneText(a, b) <==> Separated(a, b)
  {
    if Separated(a, b) {
      SeparatedIsOneText(a, b);
    } else if !DistinctWinners(a, b) {
      var x, y :| Winner(a, b, x) && Winner(a, b, y) && x != y && Key(x) == Key(y);
      SharedKeyDependsOnOrder(a, b, x, y);
    } else {
      var x, y :| Winner(a, b, x) && Winner(a, b, y) && x != y && !Ordered(x, y);
      TiesAreAmbiguous(a, b, x, y);
    }
  }

  lemma ListWinners(ts: seq<Tier>, t: Tier)
    ensures Winner([], ts, t) <==> t in ts
  {}

  ghost predicate Apart(ts: seq<Tier>) {
    forall x, y :: x in ts && y in ts && x != y ==> Key(x) != Key(y) && Ordered(x, y)
  }

  lemma ListSeparated(ts: seq<Tier>)
    ensures Separated([], ts) <==> Apart(ts)
  {
    forall t ensures Winner([], ts, t) <==> t in ts { ListWinners(ts, t); }
  }

  /** For one list in any order. */
  lemma ListTextIsDeterminedIff(ts: seq<Tier>)
    ensures OneText([], ts) <==> Apart(ts)
  {
    ListSeparated(ts);
    Leading(ts);
    TextIsDeterminedIff([], ts);
  }

  lemma KnownAudioIsApart(ts: seq<Tier>)
    requires DistinctKeys(ts) && AllKnownAudio(ts)
    ensures Apart(ts)
  {
    forall x, y | x in ts && y in ts && x != y ensures Key(x) != Key(y) && Ordered(x, y) {
      if Key(x) == Key(y) { SameKeySame(ts, x, y); }
      KeyDiffersDimsDiffer(ts, x, y);
      LessTotal(x, y);
    }
  }

  /** Known audio values and distinct keys are enough: the text depends on the set of tiers alone. */
  lemma TextIsOrderIndependent(ts: seq<Tier>, ts': seq<Tier>, text: string, text': string)
    requires DistinctKeys(ts) && AllKnownAudio(ts)
    requires multiset(ts) == multiset(ts') && Prints(ts, text) && Prints(ts', text')
    ensures text == text'
  {
    KnownAudioIsApart(ts);
    ListSeparated(ts);
    SeparatedIsOneText([], ts);
    ListMayPrint(ts, ts, text);
    ListMayPrint(ts, ts', text');
  }

  lemma ListMayPrint(ts: seq<Tier>, us: seq<Tier>, text: string)
    requires multiset(us) == multiset(ts) && Prints(us, text)
    ensures MayPrint([], ts, text)
  {
    Leading(us);
    var none: seq<Tier> := [];
    assert multiset(none) == multiset([]) && Prints(none + us, text);
  }

  // ---------------------------------------------------------------- a deterministic sort

  /** A sort as the positions from which it takes its elements. */
  type Sorter = seq<Tier> -> seq<nat>

  ghost predicate Positions(at: seq<nat>, n: nat) {
    |at| == n && forall k :: 0 <= k < n ==> at[k] < n
  }

  function Taken(ts: seq<Tier>, at: seq<nat>): (us: seq<Tier>)
    requires forall k :: 0 <= k < |at| ==> at[k] < |ts|
    ensures |us| == |at| && forall k :: 0 <= k < |at| ==> us[k] == ts[at[k]]
  {
    seq(|at|, k requires 0 <= k < |at| => ts[at[k]])
  }

  /** The comparator cannot tell the two lists apart. */
  ghost predicate CompareAlike(ts: seq<Tier>, us: seq<Tier>) {
    |ts| == |us|
    && forall i, j :: 0 <= i < |ts| && 0 <= j < |ts| ==> (Less(ts[i], ts[j]) <==> Less(us[i], us[j]))
  }

  /** sort.Slice as a function of its input: it sorts, and sees the elements only through the
      comparator. */
  ghost predicate IsSorter(f: Sorter) {
    && (forall ts :: Positions(f(ts), |ts|))
    && (forall ts :: IsSortOf(ts, Taken(ts, f(ts))))
    && (forall ts, us :: CompareAlike(ts, us) ==> f(ts) == f(us))
  }

  function SortedWith(f: Sorter, ts: seq<Tier>): seq<Tier>
    requires IsSorter(f)
  {
    Taken(ts, f(ts))
  }

  function TextOf(f: Sorter, ts: seq<Tier>): string
    requires IsSorter(f)
  {
    ChainText(SortedWith(f, Collapse(ts)))
  }

  lemma TextOfPrints(f: Sorter, ts: seq<Tier>)
    requires IsSorter(f)
    ensures Prints(ts, TextOf(f, ts))
  {
    assert IsSortOf(Collapse(ts), SortedWith(f, Collapse(ts)));
  }

  /** One more step of the dedupe behind two tiers in front. */
  function Behind(x: Tier, y: Tier, v: seq<Tier>, t: Tier): seq<Tier> {
    var i := KeyIndex(v, Key(t));
    if t == x || t == y then v else if i < |v| then v[i := t] else v + [t]
  }

  /** Two tiers in front stay in front; what follows does not depend on their order. */
  lemma {:induction false} CollapseFronts(x: Tier, y: Tier, rest: seq<Tier>) returns (w: seq<Tier>)
    requires Key(x) != Key(y)
    requires forall t :: t in rest ==> (Key(t) == Key(x) ==> t == x) && (Key(t) == Key(y) ==> t == y)
    ensures Collapse([x, y] + rest) == [x, y] + w && Collapse([y, x] + rest) == [y, x] + w
    decreases |rest|
  {
    if rest == [] {
      w := [];
      CollapseTwo(x, y);
      CollapseTwo(y, x);
      Trailing([x, y]);
      Trailing([y, x]);
    } else {
      var init, t := rest[..|rest| - 1], rest[|rest| - 1];
      assert rest == init + [t];
      var v := CollapseFronts(x, y, init);
      w := Behind(x, y, v, t);
      CollapseOnto(x, y, init, t, v);
      CollapseOnto(y, x, init, t, v);
    }
  }

  lemma CollapseTwo(x: Tier, y: Tier)
    requires Key(x) != Key(y)
    ensures Collapse([x, y]) == [x, y]
  {
    CollapseDistinct([x, y]);
  }

  lemma CollapseOnto(x: Tier, y: Tier, init: seq<Tier>, t: Tier, v: seq<Tier>)
    requires Key(x) != Key(y) && Collapse([x, y] + init) == [x, y] + v
    requires (Key(t) == Key(x) ==> t == x) && (Key(t) == Key(y) ==> t == y)
    ensures Collapse([x, y] + (init + [t])) == [x, y] + Behind(x, y, v, t)
  {
    CollapseSnoc([x, y] + init, t);
    Assoc([x, y], init, [t]);
    PutBehind(x, y, v, t);
  }

  function Put(done: seq<Tier>, t: Tier): seq<Tier> {
    var i := KeyIndex(done, Key(t));
    if i < |done| then done[i := t] else done + [t]
  }

  lemma CollapseSnoc(ts: seq<Tier>, t: Tier)
    ensures Collapse(ts + [t]) == Put(Collapse(ts), t)
  {
    assert (ts + [t])[..|ts|] == ts;
  }

  lemma PutBehind(x: Tier, y: Tier, v: seq<Tier>, t: Tier)
    requires Key(x) != Key(y) && (Key(t) == Key(x) ==> t == x) && (Key(t) == Key(y) ==> t == y)
    ensures Put([x, y] + v, t) == [x, y] + Behind(x, y, v, t)
  {
    FrontIndex(x, y, v, Key(t));
  }

  lemma FrontIndex(x: Tier, y: Tier, v: seq<Tier>, k: string)
    ensures KeyIndex([x, y] + v, k) == if Key(x) == k then 0 else if Key(y) == k then 1 else 2 + KeyIndex(v, k)
  {
    assert ([x, y] + v)[1..] == [y] + v && ([y] + v)[1..] == v;
  }

  lemma TiedListsCompareAlike(x: Tier, y: Tier, w: seq<Tier>)
    requires !Ordered(x, y)
    ensures CompareAlike([x, y] + w, [y, x] + w)
  {
    var s, t := [x, y] + w, [y, x] + w;
    forall i, j | 0 <= i < |s| && 0 <= j < |s| ensures Less(s[i], s[j]) <==> Less(t[i], t[j]) {
      TiedCompareAlike(x, y, s[i]);
      TiedCompareAlike(x, y, s[j]);
      TiedCompareAlike(x, y, t[i]);
      TiedCompareAlike(x, y, t[j]);
    }
  }

  lemma TiedSortsDiffer(f: Sorter, x: Tier, y: Tier, w: seq<Tier>)
    requires IsSorter(f) && !Ordered(x, y) && x != y && x !in w
    ensures SortedWith(f, [x, y] + w) != SortedWith(f, [y, x] + w)
  {
    TiedListsCompareAlike(x, y, w);
    SorterFacts(f, [x, y] + w, [y, x] + w);
    TakenHas([x, y] + w, f([x, y] + w));
    TakenDiffer(x, y, w, f([x, y] + w));
  }

  lemma SorterFacts(f: Sorter, s: seq<Tier>, t: seq<Tier>)
    requires IsSorter(f) && CompareAlike(s, t)
    ensures f(s) == f(t) && Positions(f(s), |s|) && IsSortOf(s, Taken(s, f(s)))
  {}

  lemma TakenHas(s: seq<Tier>, at: seq<nat>)
    requires s != [] && Positions(at, |s|) && IsSortOf(s, Taken(s, at))
    ensures s[0] in Taken(s, at)
  {
    SameMembers(Taken(s, at), s);
  }

  lemma TakenDiffer(x: Tier, y: Tier, w: seq<Tier>, at: seq<nat>)
    requires Positions(at, |w| + 2) && x != y && x !in w && x in Taken([x, y] + w, at)
    ensures Taken([x, y] + w, at) != Taken([y, x] + w, at)
  {
    var s, t := [x, y] + w, [y, x] + w;
    var k :| 0 <= k < |at| && Taken(s, at)[k] == x;
    assert forall i :: 2 <= i < |s| ==> s[i] == w[i - 2] && w[i - 2] in w;
    assert at[k] == 0;
    assert Taken(t, at)[k] == t[0] == y;
  }

  lemma TwoInFront(ts: seq<Tier>, x: Tier, y: Tier) returns (rest: seq<Tier>)
    requires x in ts && y in ts && x != y
    ensures multiset([x, y] + rest) == multiset(ts) && multiset([y, x] + rest) == multiset(ts)
  {
    var i :| 0 <= i < |ts| && ts[i] == x;
    var less := Without(ts, i);
    BagWithout(ts, i);
    assert y in multiset(less);
    var j :| 0 <= j < |less| && less[j] == y;
    rest := Without(less, j);
    BagWithout(less, j);
    FrontBag(x, y, rest);
    FrontBag(y, x, rest);
  }

  lemma FrontBag<T>(x: T, y: T, rest: seq<T>)
    ensures multiset([x, y] + rest) == multiset(rest) + multiset{y} + multiset{x}
  {}

  lemma TiedInFront(ts: seq<Tier>, x: Tier, y: Tier) returns (rest: seq<Tier>, w: seq<Tier>)
    requires x in ts && y in ts && x != y && forall t, u :: t in ts && u in ts && t != u ==> Key(t) != Key(u)
    ensures multiset([x, y] + rest) == multiset(ts) == multiset([y, x] + rest)
    ensures Collapse([x, y] + rest) == [x, y] + w && Collapse([y, x] + rest) == [y, x] + w && x !in w
  {
    rest := TwoInFront(ts, x, y);
    SameMembers([x, y] + rest, ts);
    forall t | t in rest ensures (Key(t) == Key(x) ==> t == x) && (Key(t) == Key(y) ==> t == y) {
      assert t in [x, y] + rest;
    }
    w := CollapseFronts(x, y, rest);
    CollapseMembers([x, y] + rest);
    FrontOnce([x, y] + w);
    assert ([x, y] + w)[2..] == w;
  }

  /** Two rows that tie show their order in the text, whatever the sort's algorithm: the two lists
      differ only in that they swap the tied tiers. */
  lemma TiedOrdersDiffer(f: Sorter, ts: seq<Tier>, x: Tier, y: Tier) returns (rest: seq<Tier>)
    requires IsSorter(f) && x in ts && y in ts && x != y && !Ordered(x, y)
    requires forall t, u :: t in ts && u in ts && t != u ==> Key(t) != Key(u)
    ensures multiset([x, y] + rest) == multiset(ts) == multiset([y, x] + rest)
    ensures TextOf(f, [x, y] + rest) != TextOf(f, [y, x] + rest)
  {
    var w;
    rest, w := TiedInFront(ts, x, y);
    TiedSortsDiffer(f, x, y, w);
    PrintingIsInjective(SortedWith(f, [x, y] + w), SortedWith(f, [y, x] + w));
  }

  lemma FrontOnce(ts: seq<Tier>)
    requires DistinctKeys(ts) && |ts| >= 2
    ensures ts[0] !in ts[2..]
  {
    forall i | 2 <= i < |ts| ensures ts[i] != ts[0] { assert Key(ts[0]) != Key(ts[i]); }
  }

  /** Two rows that share a key show which comes last. */
  lemma KeyedOrdersDiffer(f: Sorter, ts: seq<Tier>, x: Tier, y: Tier) returns (us: seq<Tier>, vs: seq<Tier>)
    requires IsSorter(f) && x in ts && y in ts && x != y && Key(x) == Key(y)
    ensures multiset(us) == multiset(ts) == multiset(vs)
    ensures TextOf(f, us) != TextOf(f, vs)
  {
    us := MoveLast(ts, x);
    vs := MoveLast(ts, y);
    LastIsSorted(f, us);
    LastIsSorted(f, vs);
    var s, t := SortedWith(f, Collapse(us)), SortedWith(f, Collapse(vs));
    assert y !in s by { if y in s { SameKeySame(s, x, y); } }
    PrintingIsInjective(s, t);
  }

  lemma LastIsSorted(f: Sorter, us: seq<Tier>)
    requires IsSorter(f) && us != []
    ensures us[|us| - 1] in SortedWith(f, Collapse(us)) && DistinctKeys(SortedWith(f, Collapse(us)))
  {
    LastRowWins(us, |us| - 1);
    CollapseMembers(us);
    var s := SortedWith(f, Collapse(us));
    assert IsSortOf(Collapse(us), s);
    SameMembers(s, Collapse(us));
    PermutedKeys(Collapse(us), s);
  }

  ghost predicate OneTextWith(f: Sorter, ts: seq<Tier>)
    requires IsSorter(f)
  {
    forall us, vs :: multiset(us) == multiset(ts) && multiset(vs) == multiset(ts) ==> TextOf(f, us) == TextOf(f, vs)
  }

  lemma ApartIsOneText(f: Sorter, ts: seq<Tier>)
    requires IsSorter(f) && Apart(ts)
    ensures OneTextWith(f, ts)
  {
    ListTextIsDeterminedIff(ts);
    forall us | multiset(us) == multiset(ts) ensures MayPrint([], ts, TextOf(f, us)) {
      TextOfPrints(f, us);
      ListMayPrint(ts, us, TextOf(f, us));
    }
  }

  lemma TwoTexts(f: Sorter, ts: seq<Tier>, us: seq<Tier>, vs: seq<Tier>)
    requires IsSorter(f) && multiset(us) == multiset(ts) && multiset(vs) == multiset(ts)
             && TextOf(f, us) != TextOf(f, vs)
    ensures !OneTextWith(f, ts)
  {}

  lemma KeyedIsAmbiguous(f: Sorter, ts: seq<Tier>, x: Tier, y: Tier)
    requires IsSorter(f) && x in ts && y in ts && x != y && Key(x) == Key(y)
    ensures !OneTextWith(f, ts)
  {
    var us, vs := KeyedOrdersDiffer(f, ts, x, y);
    TwoTexts(f, ts, us, vs);
  }

  lemma TiedIsAmbiguous(f: Sorter, ts: seq<Tier>, x: Tier, y: Tier)
    requires IsSorter(f) && x in ts && y in ts && x != y && !Ordered(x, y)
    requires forall t, u :: t in ts && u in ts && t != u ==> Key(t) != Key(u)
    ensures !OneTextWith(f, ts)
  {
    var rest := TiedOrdersDiffer(f, ts, x, y);
    TwoTexts(f, ts, [x, y] + rest, [y, x] + rest);
  }

  /** For one list and any deterministic sort: the text is the same for every order of the rows
      exactly when different tiers have different keys and do not tie. */
  lemma SortedTextIsDeterminedIff(f: Sorter, ts: seq<Tier>)
    requires IsSorter(f)
    ensures OneTextWith(f, ts) <==> Apart(ts)
  {
    if Apart(ts) {
      ApartIsOneText(f, ts);
    } else if x, y :| x in ts && y in ts && x != y && Key(x) == Key(y) {
      KeyedIsAmbiguous(f, ts, x, y);
    } else {
      var x, y :| x in ts && y in ts && x != y && !Ordered(x, y);
      TiedIsAmbiguous(f, ts, x, y);
    }
  }

  // ---------------------------------------------------------------- such sorts exist

  function InsertPosition(ts: seq<Tier>, n: nat, at: seq<nat>): seq<nat>
    requires n < |ts| && forall k :: 0 <= k < |at| ==> at[k] < |ts|
  {
    if at == [] then [n]
    else if Less(ts[n], ts[at[0]]) then [n] + at
    else [at[0]] + InsertPosition(ts, n, at[1..])
  }

  lemma {:induction false} PositionInserted(ts: seq<Tier>, n: nat, at: seq<nat>)
    requires n < |ts| && forall k :: 0 <= k < |at| ==> at[k] < n
    ensures var next := InsertPosition(ts, n, at);
            && |next| == |at| + 1 && (forall k :: 0 <= k < |next| ==> next[k] <= n)
            && Taken(ts, next) == Insert(ts[n], Taken(ts, at))
    decreases |at|
  {
    if at != [] && !Less(ts[n], ts[at[0]]) {
      PositionInserted(ts, n, at[1..]);
      assert Taken(ts, at)[1..] == Taken(ts, at[1..]);
    }
  }

  function InsertionSort(ts: seq<Tier>): (at: seq<nat>)
    ensures Positions(at, |ts|)
  {
    if ts == [] then []
    else
      var n := |ts| - 1;
      PositionInserted(ts, n, InsertionSort(ts[..n]));
      InsertPosition(ts, n, InsertionSort(ts[..n]))
  }

  lemma {:induction false} InsertionSorts(ts: seq<Tier>)
    ensures IsSortOf(ts, Taken(ts, InsertionSort(ts)))
  {
    if ts != [] {
      var n := |ts| - 1;
      var at := InsertionSort(ts[..n]);
      InsertionSorts(ts[..n]);
      assert Taken(ts, at) == Taken(ts[..n], at);
      PositionInserted(ts, n, at);
      InsertSorts(ts, n, Taken(ts, at));
    }
  }

  lemma InsertSorts(ts: seq<Tier>, n: nat, sorted: seq<Tier>)
    requires |ts| == n + 1 && IsSortOf(ts[..n], sorted)
    ensures IsSortOf(ts, Insert(ts[n], sorted))
  {
    InsertKeepsSorted(ts[n], sorted);
    assert ts == ts[..n] + [ts[n]];
  }

  lemma {:induction false} SamePosition(ts: seq<Tier>, us: seq<Tier>, n: nat, at: seq<nat>)
    requires CompareAlike(ts, us) && n < |ts| && forall k :: 0 <= k < |at| ==> at[k] < |ts|
    ensures InsertPosition(ts, n, at) == InsertPosition(us, n, at)
    decreases |at|
  {
    if at != [] { SamePosition(ts, us, n, at[1..]); }
  }

  lemma {:induction false} InsertsAlike(ts: seq<Tier>, us: seq<Tier>)
    requires CompareAlike(ts, us)
    ensures InsertionSort(ts) == InsertionSort(us)
  {
    if ts != [] {
      var n := |ts| - 1;
      InsertsAlike(ts[..n], us[..n]);
      SamePosition(ts, us, n, InsertionSort(ts[..n]));
    }
  }

  lemma SorterExists()
    ensures IsSorter(InsertionSort)
  {
    forall ts ensures IsSortOf(ts, Taken(ts, InsertionSort(ts))) { InsertionSorts(ts); }
    forall ts, us | CompareAlike(ts, us) ensures InsertionSort(ts) == InsertionSort(us) { InsertsAlike(ts, us); }
  }
}
