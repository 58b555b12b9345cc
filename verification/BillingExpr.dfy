/** The compiler from priced rows to the ternary billing expression, and what the emitted
    text means to a request. */
module BillingExpr {
  import opened Wrappers
  import opened BillingText
  import opened BillingOrder

  // ---------------------------------------------------------------- rows and tiers

  datatype PricingRow = PricingRow(
    modelAlias: string, unit: string, priceMicros: int, officialPriceMicros: int,
    resolution: string, durationSeconds: int, mode: string, audio: string)

  predicate FoldsDuration(d: PricingRow) {
    d.unit == "per_second" && d.durationSeconds > 0
  }

  /** What a request on this variant is charged in full: a per-second price covers the
      row's whole duration. */
  function FoldedPrice(d: PricingRow): int {
    if FoldsDuration(d) then d.priceMicros * d.durationSeconds else d.priceMicros
  }

  function FoldedOfficial(d: PricingRow): int {
    if FoldsDuration(d) then d.officialPriceMicros * d.durationSeconds else d.officialPriceMicros
  }

  const SEPARATOR := " \U{00B7} "

  function NoteParts(d: PricingRow): seq<string> {
    var official := FoldedOfficial(d);
    [d.unit]
    + (if d.durationSeconds > 0 then ["duration_seconds=" + Itoa(d.durationSeconds)] else [])
    + (if official > 0 && official != FoldedPrice(d) then ["official_micros=" + Itoa(official)] else [])
  }

  function LabelParts(resolution: string, audio: string, mode: string): seq<string> {
    (if resolution != "" then [resolution] else [])
    + (if audio != "" then ["audio=" + audio] else [])
    + (if mode != "" then ["mode=" + mode] else [])
  }

  function LabelText(resolution: string, audio: string, mode: string): string {
    var parts := LabelParts(resolution, audio, mode);
    if parts == [] then "default" else Join(parts, SEPARATOR)
  }

  function Classify(d: PricingRow): Tier {
    Tier(d.resolution, d.audio, d.mode, LabelText(d.resolution, d.audio, d.mode), FoldedPrice(d),
         Join(NoteParts(d), SEPARATOR))
  }

  /** The name under which the dedupe pass buckets a tier. */
  function Key(t: Tier): string {
    t.resolution + "|" + t.audio + "|" + t.mode
  }

  predicate Dimensioned(t: Tier) {
    t.resolution != "" || t.audio != "" || t.mode != ""
  }

  // ---------------------------------------------------------------- emission

  function DimensionClause(param: string, value: string): seq<Clause> {
    if value != "" then [Has(param, value)] else []
  }

  function GuardOf(t: Tier): seq<Clause> {
    DimensionClause("resolution", t.resolution) + DimensionClause("audio", t.audio)
    + DimensionClause("mode", t.mode)
  }

  function CallOf(t: Tier): Call {
    Call(t.tierLabel, t.fixed, t.note)
  }

  function BranchOf(t: Tier): Branch {
    Branch(GuardOf(t), CallOf(t))
  }

  const UNPRICED := Call("unpriced", 0, "no matching variant")

  const UNPRICED_TEXT := "tier(\"" + "unpriced" + "\", " + "0" + ", \"" + "no matching variant" + "\")"

  /** The printed chain: first tier outermost; a tier without dimensions loses its guard
      and its question mark but keeps its colon. */
  function ChainText(ts: seq<Tier>): string {
    if ts == [] then CallText(UNPRICED)
    else if !Dimensioned(ts[0]) then CallText(CallOf(ts[0])) + " : " + ChainText(ts[1..])
    else GuardText(GuardOf(ts[0])) + " ? " + CallText(CallOf(ts[0])) + " : " + ChainText(ts[1..])
  }

  /** The dedupe pass: one tier per key, in order of first appearance, the last one wins. */
  function Collapse(ts: seq<Tier>): seq<Tier> {
    if ts == [] then []
    else
      var done, t := Collapse(ts[..|ts| - 1]), ts[|ts| - 1];
      var i := KeyIndex(done, Key(t));
      if i < |done| then done[i := t] else done + [t]
  }

  function KeyIndex(ts: seq<Tier>, k: string): (i: nat)
    ensures i <= |ts|
    ensures i < |ts| ==> Key(ts[i]) == k
    ensures forall j :: 0 <= j < i ==> Key(ts[j]) != k
  {
    if ts == [] || Key(ts[0]) == k then 0 else 1 + KeyIndex(ts[1..], k)
  }

  /** Every text the builder may print for these tiers, whatever sort.Slice does with ties. */
  ghost predicate Prints(ts: seq<Tier>, text: string) {
    exists sorted :: IsSortOf(Collapse(ts), sorted) && text == ChainText(sorted)
  }

  /** Every text the builder may return for these rows. */
  ghost predicate Builds(rows: seq<PricingRow>, text: string) {
    if rows == [] then text == "" else Prints(Apply(Classify, rows), text)
  }

  method TierLabelFrom(resolution: string, audio: string, mode: string) returns (text: string)
    ensures text == LabelText(resolution, audio, mode)
  {
    var parts := [];
    if resolution != "" { parts := parts + [resolution]; }
    if audio != "" { parts := parts + ["audio=" + audio]; }
    if mode != "" { parts := parts + ["mode=" + mode]; }
    assert parts == LabelParts(resolution, audio, mode);
    if |parts| == 0 { return "default"; }
    text := Join(parts, SEPARATOR);
  }

  method BuildGuard(t: Tier) returns (text: string)
    ensures text == GuardText(GuardOf(t))
    ensures text == "" <==> !Dimensioned(t)
  {
    var clauses := AppendClause([], [], "resolution", t.resolution);
    ghost var guard := DimensionClause("resolution", t.resolution);
    clauses := AppendClause(clauses, guard, "audio", t.audio);
    guard := guard + DimensionClause("audio", t.audio);
    clauses := AppendClause(clauses, guard, "mode", t.mode);
    if |clauses| == 0 { return ""; }
    GuardTextStart(GuardOf(t), "");
    text := Join(clauses, " && ");
  }

  /** An empty dimension contributes no clause. Parameter names are printed verbatim;
      those the builder uses need no escapes. */
  method AppendClause(clauses: seq<string>, ghost guard: seq<Clause>, param: string, value: string)
    returns (r: seq<string>)
    requires Plain(param) && clauses == Apply(ClauseText, guard)
    ensures r == Apply(ClauseText, guard + DimensionClause(param, value))
  {
    r := clauses;
    if value != "" {
      var v := QuoteNote(value);
      PlainEscape(param);
      assert "has(param(\"" + param + "\")," == "has(param(" + Quote(param) + "),";
      r := r + ["has(param(\"" + param + "\")," + v + ")"];
    }
  }

  predicate Plain(s: string) {
    forall i :: 0 <= i < |s| ==> s[i] != '\\' && s[i] != '"'
  }

  lemma {:induction false} PlainEscape(s: string)
    requires Plain(s)
    ensures Escape(s) == s
  {
    if s != "" {
      PlainEscape(s[1..]);
      assert s == [s[0]] + s[1..];
    }
  }

  lemma PlainCallText(c: Call)
    requires Plain(c.tierLabel) && Plain(c.note)
    ensures CallText(c) == "tier(\"" + c.tierLabel + "\", " + Itoa(c.fixed) + ", \"" + c.note + "\")"
  {
    PlainEscape(c.tierLabel);
    PlainEscape(c.note);
    var a, n := c.tierLabel, c.note;
    assert "tier(" + Quote(a) + ", " == "tier(\"" + a + "\", ";
    assert ", " + Quote(n) + ")" == ", \"" + n + "\")";
    var front := "tier(" + Quote(a) + ", " + Itoa(c.fixed);
    assert front + ", " + Quote(n) + ")" == front + (", " + Quote(n) + ")");
  }

  /** fallbackTier(): the text the source ends every chain with is the call UNPRICED. */
  lemma UnpricedText()
    ensures CallText(UNPRICED) == UNPRICED_TEXT
    ensures UNPRICED == Call("unpriced", 0, "no matching variant")
  {
    PlainCallText(UNPRICED);
  }

  /** Escaping goes character by character: a backslash before quotes and backslashes, nothing else. */
  lemma {:induction false} EscapeMeans(a: string, b: string, c: char)
    ensures Escape(a + b) == Escape(a) + Escape(b)
    ensures Escape([c]) == if c == '"' || c == '\\' then ['\\', c] else [c]
  {
    assert [c][1..] == "" && EscapeChar(c) + "" == EscapeChar(c);
    if a == "" {
      assert a + b == b;
    } else {
      EscapeMeans(a[1..], b, c);
      assert (a + b)[1..] == a[1..] + b;
      Assoc(EscapeChar(a[0]), Escape(a[1..]), Escape(b));
    }
  }

  /** A list with the separator after every part. */
  function Ended(parts: seq<string>, sep: string): string {
    if parts == [] then "" else parts[0] + sep + Ended(parts[1..], sep)
  }

  lemma {:induction false} JoinEnds(parts: seq<string>, sep: string)
    requires parts != []
    ensures Join(parts, sep) + sep == Ended(parts, sep)
  {
    if |parts| == 1 {
      assert Ended(parts[1..], sep) == "";
    } else {
      JoinEnds(parts[1..], sep);
      Assoc(parts[0] + sep, Join(parts[1..], sep), sep);
    }
  }

  lemma {:induction false} EndedConcat(a: seq<string>, b: seq<string>, sep: string)
    ensures Ended(a + b, sep) == Ended(a, sep) + Ended(b, sep)
  {
    if a == [] {
      assert a + b == b;
    } else {
      EndedConcat(a[1..], b, sep);
      assert (a + b)[1..] == a[1..] + b;
      Assoc(a[0] + sep, Ended(a[1..], sep), Ended(b, sep));
    }
  }

  lemma EndedThree(a: seq<string>, b: seq<string>, c: seq<string>, sep: string)
    ensures Ended(a + b + c, sep) == Ended(a, sep) + Ended(b, sep) + Ended(c, sep)
  {
    EndedConcat(a + b, c, sep);
    EndedConcat(a, b, sep);
  }

  lemma EndedOne(part: string, named: bool, sep: string)
    ensures Ended(if named then [part] else [], sep) == if named then part + sep else ""
  {
    if named { assert Ended([part][1..], sep) == ""; }
  }

  /** What a row's note says, with a separator after each part: the unit, the duration if there is
      one, and the official price for the whole duration if it is set and differs from the price. */
  lemma NoteSays(d: PricingRow)
    ensures var whole := if d.unit == "per_second" && d.durationSeconds > 0 then d.durationSeconds else 1;
            var official, sep := d.officialPriceMicros * whole, " \U{00B7} ";
            Classify(d).note + sep ==
              d.unit + sep
              + (if d.durationSeconds > 0 then "duration_seconds=" + Itoa(d.durationSeconds) + sep else "")
              + (if official > 0 && official != d.priceMicros * whole
                 then "official_micros=" + Itoa(official) + sep else "")
  {
    var whole := if d.unit == "per_second" && d.durationSeconds > 0 then d.durationSeconds else 1;
    var official := d.officialPriceMicros * whole;
    NoteIs(d, official, d.priceMicros * whole);
  }

  lemma NoteIs(d: PricingRow, official: int, price: int)
    requires official == FoldedOfficial(d) && price == FoldedPrice(d)
    ensures Classify(d).note + SEPARATOR ==
              d.unit + SEPARATOR
              + (if d.durationSeconds > 0 then "duration_seconds=" + Itoa(d.durationSeconds) + SEPARATOR else "")
              + (if official > 0 && official != price then "official_micros=" + Itoa(official) + SEPARATOR else "")
  {
    var lasting, listed := d.durationSeconds > 0, official > 0 && official != price;
    var duration, full := "duration_seconds=" + Itoa(d.durationSeconds), "official_micros=" + Itoa(official);
    var b, c := if lasting then [duration] else [], if listed then [full] else [];
    assert NoteParts(d) == [d.unit] + b + c;
    JoinEnds([d.unit] + b + c, SEPARATOR);
    EndedThree([d.unit], b, c, SEPARATOR);
    EndedOne(d.unit, true, SEPARATOR);
    EndedOne(duration, lasting, SEPARATOR);
    EndedOne(full, listed, SEPARATOR);
  }

  /** A row's label, likewise: its named dimensions, or "default". */
  lemma LabelSays(d: PricingRow)
    ensures var t, sep := Classify(d), " \U{00B7} ";
            if d.resolution == "" && d.audio == "" && d.mode == "" then t.tierLabel == "default"
            else t.tierLabel + sep ==
                 (if d.resolution != "" then d.resolution + sep else "")
                 + (if d.audio != "" then "audio=" + d.audio + sep else "")
                 + (if d.mode != "" then "mode=" + d.mode + sep else "")
  {
    var audio, mode := "audio=" + d.audio, "mode=" + d.mode;
    var r := if d.resolution != "" then [d.resolution] else [];
    var a, m := if d.audio != "" then [audio] else [], if d.mode != "" then [mode] else [];
    assert LabelParts(d.resolution, d.audio, d.mode) == r + a + m;
    if r + a + m != [] { JoinEnds(r + a + m, SEPARATOR); }
    EndedThree(r, a, m, SEPARATOR);
    EndedOne(d.resolution, d.resolution != "", SEPARATOR);
    EndedOne(audio, d.audio != "", SEPARATOR);
    EndedOne(mode, d.mode != "", SEPARATOR);
  }

  lemma TwoClauses(r: Clause, m: Clause)
    ensures GuardText([r, m]) == ClauseText(r) + " && " + ClauseText(m)
  {
    assert Apply(ClauseText, [r, m]) == [ClauseText(r), ClauseText(m)];
    JoinTwo(ClauseText(r), ClauseText(m), " && ");
  }

  lemma JoinTwo(a: string, b: string, sep: string)
    ensures Join([a, b], sep) == a + sep + b
  {
    assert [a, b][1..] == [b];
  }

  /** The text of a clause without quotes and backslashes. */
  lemma PlainClause(param: string, value: string)
    requires Plain(param) && Plain(value)
    ensures ClauseText(Has(param, value)) == "has(param(\"" + param + "\"),\"" + value + "\")"
  {
    PlainEscape(param);
    PlainEscape(value);
    assert "has(param(" + ("\"" + param + "\"") + ")," == "has(param(\"" + param + "\"),";
    assert ("has(param(\"" + param + "\"),") + ("\"" + value + "\"") + ")"
        == "has(param(\"" + param + "\"),\"" + value + "\")";
  }

  method ClassifyRow(d: PricingRow) returns (t: Tier)
    ensures t == Classify(d)
  {
    var fixed, official := d.priceMicros, d.officialPriceMicros;
    var noteParts := [d.unit];
    if d.unit == "per_second" && d.durationSeconds > 0 {
      fixed := d.priceMicros * d.durationSeconds;
      official := official * d.durationSeconds;
      noteParts := noteParts + ["duration_seconds=" + Itoa(d.durationSeconds)];
    } else if d.durationSeconds > 0 {
      noteParts := noteParts + ["duration_seconds=" + Itoa(d.durationSeconds)];
    }
    if official > 0 && official != fixed {
      noteParts := noteParts + ["official_micros=" + Itoa(official)];
    }
    assert noteParts == NoteParts(d);
    var tierLabel := TierLabelFrom(d.resolution, d.audio, d.mode);
    t := Tier(d.resolution, d.audio, d.mode, tierLabel, fixed, Join(noteParts, SEPARATOR));
  }

  lemma ChainStep(ts: seq<Tier>)
    requires ts != []
    ensures ChainText(ts) ==
            (if Dimensioned(ts[0]) then GuardText(GuardOf(ts[0])) + " ? " + CallText(CallOf(ts[0]))
             else CallText(CallOf(ts[0]))) + " : " + ChainText(ts[1..])
  {}

  /** Pass 3 of the builder: inside out, from the fallback to the first tier. */
  method EmitChain(order: seq<Tier>) returns (expr: string)
    ensures expr == ChainText(order)
  {
    UnpricedText();
    expr := UNPRICED_TEXT;
    var i := |order|;
    assert order[i..] == [];
    while i > 0
      invariant 0 <= i <= |order|
      invariant expr == ChainText(order[i..])
    {
      i := i - 1;
      var t := order[i];
      assert order[i..][0] == t && order[i..][1..] == order[i + 1..];
      ChainStep(order[i..]);
      var tierLabel := QuoteNote(t.tierLabel);
      var note := QuoteNote(t.note);
      var call := "tier(" + tierLabel + ", " + Itoa(t.fixed) + ", " + note + ")";
      assert call == CallText(CallOf(t));
      var guard := BuildGuard(t);
      if guard == "" {
        expr := call + " : " + expr;
      } else {
        expr := guard + " ? " + call + " : " + expr;
      }
    }
    assert order[0..] == order;
  }

  /** The keys and the map of pass 2 hold the tiers kept so far. */
  ghost predicate Buckets<T>(key: T -> string, keys: seq<string>, unique: map<string, T>, done: seq<T>) {
    && |keys| == |done|
    && (forall i :: 0 <= i < |keys| ==> keys[i] == key(done[i]) && keys[i] in unique && unique[keys[i]] == done[i])
    && (forall i, j :: 0 <= i < j < |keys| ==> keys[i] != keys[j])
    && (forall k :: k in unique ==> k in keys)
  }

  lemma NewBucket<T>(key: T -> string, keys: seq<string>, unique: map<string, T>, done: seq<T>, t: T)
    requires Buckets(key, keys, unique, done) && key(t) !in unique
    ensures Buckets(key, keys + [key(t)], unique[key(t) := t], done + [t])
    ensures forall i :: 0 <= i < |done| ==> key(done[i]) != key(t)
  {}

  lemma OldBucket<T>(key: T -> string, keys: seq<string>, unique: map<string, T>, done: seq<T>, t: T, at: nat)
    requires Buckets(key, keys, unique, done) && at < |keys| && keys[at] == key(t)
    ensures Buckets(key, keys, unique[key(t) := t], done[at := t])
  {}

  /** Pass 2 of the builder: the keys in order of first appearance and the last tier of each. */
  method Bucket(tiers: seq<Tier>) returns (keys: seq<string>, unique: map<string, Tier>)
    ensures |keys| == |Collapse(tiers)|
    ensures forall i :: 0 <= i < |keys| ==> keys[i] in unique && unique[keys[i]] == Collapse(tiers)[i]
  {
    keys, unique := [], map[];
    for n := 0 to |tiers|
      invariant Buckets(Key, keys, unique, Collapse(tiers[..n]))
    {
      var t := tiers[n];
      var k := Key(t);
      ghost var done := Collapse(tiers[..n]);
      CollapseNext(tiers, n);
      if k !in unique {
        NewBucket(Key, keys, unique, done, t);
        keys := keys + [k];
      } else {
        OldBucket(Key, keys, unique, done, t, KeyIndex(done, k));
      }
      unique := unique[k := t];
    }
    assert tiers[..|tiers|] == tiers;
  }

  lemma CollapseNext(tiers: seq<Tier>, n: nat)
    requires n < |tiers|
    ensures var done, i := Collapse(tiers[..n]), KeyIndex(Collapse(tiers[..n]), Key(tiers[n]));
            Collapse(tiers[..n + 1]) == if i < |done| then done[i := tiers[n]] else done + [tiers[n]]
  {
    assert tiers[..n + 1][..n] == tiers[..n];
  }

  ghost predicate DistinctKeys(ts: seq<Tier>) {
    forall i, j :: 0 <= i < j < |ts| ==> Key(ts[i]) != Key(ts[j])
  }

  method ClassifyRows(rows: seq<PricingRow>) returns (tiers: seq<Tier>)
    ensures tiers == Apply(Classify, rows)
  {
    tiers := [];
    for n := 0 to |rows|
      invariant tiers == Apply(Classify, rows[..n])
    {
      var t := ClassifyRow(rows[n]);
      tiers := tiers + [t];
      assert rows[..n + 1] == rows[..n] + [rows[n]];
    }
    assert rows[..|rows|] == rows;
  }

  method BuildBillingExpr(rows: seq<PricingRow>) returns (expr: string)
    ensures Builds(rows, expr)
  {
    if |rows| == 0 { return ""; }

    // Pass 1: classify each row.
    var tiers := ClassifyRows(rows);

    // Pass 2: bucket by key, last one wins.
    var keys, unique := Bucket(tiers);
    var order := seq(|keys|, i requires 0 <= i < |keys| && keys[i] in unique => unique[keys[i]]);
    assert order == Collapse(tiers);
    order := SortSlice(order);

    // Pass 3: emit.
    expr := EmitChain(order);
  }
}
