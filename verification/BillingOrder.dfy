/** The hand-written tier comparator and what sorting by it determines. */
module BillingOrder {
  import opened Wrappers

  /** The intermediate value of the DSL builder: one priced variant. An empty dimension
      puts no condition on the request. */
  datatype Tier = Tier(resolution: string, audio: string, mode: string,
                       tierLabel: string, fixed: int, note: string)

  /** Go's strings.ToLower on the characters that can occur in a ranked resolution; the
      Kelvin sign is the one character outside ASCII that lower-cases to one of them. */
  function LowerChar(c: char): char {
    if 'A' <= c <= 'Z' then (c as int + 32) as char
    else if c == '\U{212A}' then 'k'
    else c
  }

  function ResolutionRank(r: string): int {
    var low := Apply(LowerChar, r);
    if low == "4k" || low == "2160p" then 400
    else if low == "1440p" || low == "2k" then 300
    else if low == "1080p" then 200
    else if low == "768p" then 150
    else if low == "720p" then 100
    else if low == "512p" then 80
    else if low == "480p" then 50
    else 0
  }

  function CompareResolution(a: string, b: string): int {
    var ra, rb := ResolutionRank(a), ResolutionRank(b);
    if ra != rb then (if ra > rb then -1 else 1)
    else if StringLess(a, b) then -1
    else if StringLess(b, a) then 1
    else 0
  }

  function AudioRank(a: string): int {
    match a
    case "on" => 3
    case "voice_control" => 2
    case "off" => 1
    case _ => 0
  }

  predicate KnownAudio(a: string) {
    a in {"on", "voice_control", "off", ""}
  }

  function CompareAudio(a: string, b: string): int {
    var ra, rb := AudioRank(a), AudioRank(b);
    if ra == rb then 0 else if ra > rb then -1 else 1
  }

  /** The comparator handed to sort.Slice. */
  predicate Less(a: Tier, b: Tier) {
    if (a.resolution == "") != (b.resolution == "") then a.resolution != ""
    else if CompareResolution(a.resolution, b.resolution) != 0 then
      CompareResolution(a.resolution, b.resolution) < 0
    else if CompareAudio(a.audio, b.audio) != 0 then CompareAudio(a.audio, b.audio) < 0
    else StringLess(a.mode, b.mode)
  }

  predicate SameDims(a: Tier, b: Tier) {
    a.resolution == b.resolution && a.audio == b.audio && a.mode == b.mode
  }

  // ---------------------------------------------------------------- order laws

  lemma CompareResolutionTotal(a: string, b: string)
    ensures CompareResolution(a, b) == 0 <==> a == b
    ensures CompareResolution(a, b) == -CompareResolution(b, a)
  {
    StringLessTotal(a, b);
  }

  lemma CompareResolutionTransitive(a: string, b: string, c: string)
    requires CompareResolution(a, b) < 0 && CompareResolution(b, c) < 0
    ensures CompareResolution(a, c) < 0
  {
    if ResolutionRank(a) == ResolutionRank(b) == ResolutionRank(c) {
      StringLessTransitive(a, b, c);
    }
  }

  /** The comparator is irreflexive and asymmetric, and two tiers tie exactly when they
      agree on resolution, on audio rank and on mode: an unknown audio value ties with "". */
  lemma TieCondition(a: Tier, b: Tier)
    ensures !(Less(a, b) && Less(b, a))
    ensures !Less(a, b) && !Less(b, a) <==>
            a.resolution == b.resolution && AudioRank(a.audio) == AudioRank(b.audio) && a.mode == b.mode
  {
    CompareResolutionTotal(a.resolution, b.resolution);
    StringLessTotal(a.mode, b.mode);
  }

  lemma LessTransitive(a: Tier, b: Tier, c: Tier)
    requires Less(a, b) && Less(b, c)
    ensures Less(a, c)
  {
    CompareResolutionTotal(a.resolution, b.resolution);
    CompareResolutionTotal(b.resolution, c.resolution);
    if CompareResolution(a.resolution, b.resolution) < 0 && CompareResolution(b.resolution, c.resolution) < 0 {
      CompareResolutionTransitive(a.resolution, b.resolution, c.resolution);
    }
    if StringLess(a.mode, b.mode) && StringLess(b.mode, c.mode) {
      StringLessTransitive(a.mode, b.mode, c.mode);
    }
    CompareResolutionTotal(a.resolution, c.resolution);
  }

  /** On known audio values the comparator orders any two tiers with different dimensions. */
  lemma LessTotal(a: Tier, b: Tier)
    requires KnownAudio(a.audio) && KnownAudio(b.audio) && !SameDims(a, b)
    ensures Less(a, b) || Less(b, a)
  {
    TieCondition(a, b);
  }

  /** Lines of the picture that a resolution names; zero for any other name. */
  function Height(resolution: string): nat {
    var name := Apply(LowerChar, resolution);
    if name == "2160p" || name == "4k" then 2160
    else if name == "1440p" || name == "2k" then 1440
    else if name == "1080p" then 1080
    else if name == "768p" then 768
    else if name == "720p" then 720
    else if name == "512p" then 512
    else if name == "480p" then 480
    else 0
  }

  /** The place of an audio value among the tiers of one resolution. */
  function AudioPlace(audio: string): nat {
    if audio == "on" then 1 else if audio == "voice_control" then 2 else if audio == "off" then 3 else 4
  }

  /** The order a reader of the text sees: named resolutions before none, higher pictures before
      lower ones and those before other names, then the names themselves, then audio, then mode. */
  predicate Precedes(a: Tier, b: Tier) {
    if a.resolution != b.resolution then
      if a.resolution == "" || b.resolution == "" then b.resolution == ""
      else Height(a.resolution) > Height(b.resolution)
           || (Height(a.resolution) == Height(b.resolution) && StringLess(a.resolution, b.resolution))
    else
      AudioPlace(a.audio) < AudioPlace(b.audio)
      || (AudioPlace(a.audio) == AudioPlace(b.audio) && StringLess(a.mode, b.mode))
  }

  lemma RankIsHeight(a: string, b: string)
    ensures ResolutionRank(a) > ResolutionRank(b) <==> Height(a) > Height(b)
    ensures ResolutionRank(a) == ResolutionRank(b) <==> Height(a) == Height(b)
  {}

  /** The comparator is that order. */
  lemma LessMeans(a: Tier, b: Tier)
    ensures Less(a, b) <==> Precedes(a, b)
  {
    RankIsHeight(a.resolution, b.resolution);
    CompareResolutionTotal(a.resolution, b.resolution);
    StringLessTotal(a.resolution, b.resolution);
  }

  // ---------------------------------------------------------------- sorting

  /** What sort.Slice promises: the result is never out of order. */
  ghost predicate SortedBy<T>(less: (T, T) -> bool, a: seq<T>) {
    forall i, j :: 0 <= i < j < |a| ==> !less(a[j], a[i])
  }

  ghost predicate Sorted(ts: seq<Tier>) {
    SortedBy(Less, ts)
  }

  ghost predicate IsSortOf(ts: seq<Tier>, sorted: seq<Tier>) {
    multiset(sorted) == multiset(ts) && Sorted(sorted)
  }

  /** A stand-in for sort.Slice; callers only learn what sort.Slice guarantees. */
  method SortSlice(ts: seq<Tier>) returns (sorted: seq<Tier>)
    ensures IsSortOf(ts, sorted)
  {
    sorted := [];
    for i := 0 to |ts|
      invariant IsSortOf(ts[..i], sorted)
    {
      assert ts[..i + 1] == ts[..i] + [ts[i]];
      InsertKeepsSorted(ts[i], sorted);
      sorted := Insert(ts[i], sorted);
    }
    assert ts[..|ts|] == ts;
  }

  function Insert(t: Tier, sorted: seq<Tier>): seq<Tier> {
    if sorted == [] then [t]
    else if Less(t, sorted[0]) then [t] + sorted
    else [sorted[0]] + Insert(t, sorted[1..])
  }

  lemma {:induction false} InsertKeepsSorted(t: Tier, sorted: seq<Tier>)
    requires Sorted(sorted)
    ensures multiset(Insert(t, sorted)) == multiset(sorted) + multiset{t}
    ensures Sorted(Insert(t, sorted))
  {
    if sorted == [] {
    } else if Less(t, sorted[0]) {
      TieCondition(t, sorted[0]);
      forall j | 0 <= j < |sorted| ensures !Less(sorted[j], t) {
        if Less(sorted[j], t) { LessTransitive(sorted[j], t, sorted[0]); }
      }
    } else {
      InsertKeepsSorted(t, sorted[1..]);
      assert sorted == [sorted[0]] + sorted[1..];
      PrependSorted(sorted[0], Insert(t, sorted[1..]), t, sorted);
    }
  }

  lemma PrependSorted(x: Tier, rest: seq<Tier>, t: Tier, sorted: seq<Tier>)
    requires Sorted(rest) && Sorted(sorted) && sorted != [] && sorted[0] == x && !Less(t, x)
    requires multiset(rest) == multiset(sorted[1..]) + multiset{t}
    ensures Sorted([x] + rest)
  {
    forall j | 0 <= j < |rest| ensures !Less(rest[j], x) {
      assert rest[j] in multiset(rest);
      if rest[j] != t { assert rest[j] in sorted[1..]; }
    }
  }

  lemma {:induction false} SortExists(ts: seq<Tier>) returns (sorted: seq<Tier>)
    ensures IsSortOf(ts, sorted)
  {
    if ts == [] {
      sorted := [];
    } else {
      var init, last := ts[..|ts| - 1], ts[|ts| - 1];
      var rest := SortExists(init);
      sorted := Insert(last, rest);
      InsertKeepsSorted(last, rest);
      assert ts == init + [last];
    }
  }

  // ---------------------------------------------------------------- ties

  predicate Ordered(x: Tier, y: Tier) { Less(x, y) || Less(y, x) }

  function Swap<T>(s: seq<T>, i: nat, j: nat): seq<T>
    requires i < j < |s|
  {
    s[i := s[j]][j := s[i]]
  }

  lemma SwapBag<T>(s: seq<T>, i: nat, j: nat)
    requires i < j < |s|
    ensures multiset(Swap(s, i, j)) == multiset(s)
  {
    var l, m, r := s[..i], s[i + 1..j], s[j + 1..];
    assert s == l + [s[i]] + m + [s[j]] + r;
    assert Swap(s, i, j) == l + [s[j]] + m + [s[i]] + r;
  }

  /** Tied tiers compare alike with everything. */
  lemma TiedCompareAlike(x: Tier, y: Tier, z: Tier)
    requires !Ordered(x, y)
    ensures (Less(x, z) <==> Less(y, z)) && (Less(z, x) <==> Less(z, y))
  {
    TieCondition(x, y);
  }

  lemma SwapKeepsSorted(s: seq<Tier>, i: nat, j: nat)
    requires Sorted(s) && i < j < |s| && !Ordered(s[i], s[j])
    ensures Sorted(Swap(s, i, j))
  {
    var t := Swap(s, i, j);
    forall m, n | 0 <= m < n < |t| ensures !Less(t[n], t[m]) {
      TiedCompareAlike(s[i], s[j], t[m]);
      TiedCompareAlike(s[i], s[j], t[n]);
      TiedCompareAlike(s[i], s[j], s[m]);
      TiedCompareAlike(s[i], s[j], s[n]);
      assert !Less(s[n], s[m]);
    }
  }

  /** sort.Slice is unstable, yet where the comparator never ties it has only one result. */
  lemma {:induction false} SortIsUnique(a: seq<Tier>, b: seq<Tier>)
    requires multiset(a) == multiset(b) && Sorted(a) && Sorted(b)
    requires forall x, y :: x in a && y in a && x != y ==> Less(x, y) || Less(y, x)
    ensures a == b
  {
    SortIsUniqueBy(Less, a, b);
  }

  lemma {:induction false} SortIsUniqueBy<T>(less: (T, T) -> bool, a: seq<T>, b: seq<T>)
    requires multiset(a) == multiset(b) && SortedBy(less, a) && SortedBy(less, b)
    requires forall x, y :: x in a && y in a && x != y ==> less(x, y) || less(y, x)
    ensures a == b
    decreases |a|
  {
    SameMembers(a, b);
    if a != [] {
      SortedHeadsAgree(less, a, b);
      SortedTail(less, a);
      SortedTail(less, b);
      TailBags(a, b);
      SortIsUniqueBy(less, a[1..], b[1..]);
      assert a == [a[0]] + a[1..] && b == [b[0]] + b[1..];
    }
  }

  lemma TailBags<T>(a: seq<T>, b: seq<T>)
    requires a != [] && b != [] && a[0] == b[0] && multiset(a) == multiset(b)
    ensures multiset(a[1..]) == multiset(b[1..])
  {
    BagWithout(a, 0);
    BagWithout(b, 0);
    assert Without(a, 0) == a[1..] && Without(b, 0) == b[1..];
    CancelBag(multiset(a[1..]), multiset(b[1..]), a[0]);
  }

  lemma SortedTail<T>(less: (T, T) -> bool, a: seq<T>)
    requires a != [] && SortedBy(less, a)
    ensures SortedBy(less, a[1..])
    ensures multiset(a[1..]) == multiset(a) - multiset{a[0]}
    ensures forall x :: x in a[1..] ==> x in a
  {
    assert a == [a[0]] + a[1..];
  }

  lemma SortedHeadsAgree<T>(less: (T, T) -> bool, a: seq<T>, b: seq<T>)
    requires a != [] && b != [] && multiset(a) == multiset(b)
    requires SortedBy(less, a) && SortedBy(less, b)
    requires forall x, y :: x in a && y in a && x != y ==> less(x, y) || less(y, x)
    ensures a[0] == b[0]
  {
    assert a[0] in multiset(b) && b[0] in multiset(a);
    var i :| 0 <= i < |b| && b[i] == a[0];
    var j :| 0 <= j < |a| && a[j] == b[0];
    assert i > 0 ==> !less(b[i], b[0]);
    assert j > 0 ==> !less(a[j], a[0]);
  }
}
