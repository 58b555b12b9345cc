/** The credit-weighted unit cost over purchase batches, and the retail floor built on it. Money
    is in micros, credits in hundredths. */
module PricingFloor {
  import opened Wrappers

  datatype Batch = Batch(active: bool, pricingClass: string, promotion: string,
                         creditsPerAccount: int, paid: int, accounts: int)

  datatype Cost = Cost(unit: int, paid: int, credits: int, eligible: int, fallback: bool)

  predicate Eligible(b: Batch) {
    b.active && b.pricingClass == "normal" && (b.promotion == "" || b.promotion == "none")
    && b.creditsPerAccount > 0 && b.paid > 0 && b.accounts > 0
  }

  function EligibleOnly(bs: seq<Batch>): seq<Batch> {
    if bs == [] then []
    else EligibleOnly(bs[..|bs| - 1]) + if Eligible(bs[|bs| - 1]) then [bs[|bs| - 1]] else []
  }

  function Hundredths(b: Batch): int { b.creditsPerAccount * b.accounts }

  function Sum<T>(f: T -> int, s: seq<T>): int {
    if s == [] then 0 else Sum(f, s[..|s| - 1]) + f(s[|s| - 1])
  }

  function PaidFor(b: Batch): int { if Eligible(b) then b.paid else 0 }
  function CreditsOf(b: Batch): int { if Eligible(b) then Hundredths(b) else 0 }
  function One(b: Batch): int { if Eligible(b) then 1 else 0 }

  function Paid(bs: seq<Batch>): int { Sum(PaidFor, bs) }
  function Credits(bs: seq<Batch>): int { Sum(CreditsOf, bs) }
  function Count(bs: seq<Batch>): int { Sum(One, bs) }

  lemma {:induction false} TotalsAreNonneg(bs: seq<Batch>)
    ensures Paid(bs) >= 0 && Credits(bs) >= Count(bs) >= 0
  {
    if bs != [] {
      TotalsAreNonneg(bs[..|bs| - 1]);
      if Eligible(bs[|bs| - 1]) { ProductIsPositive(bs[|bs| - 1].creditsPerAccount, bs[|bs| - 1].accounts); }
    }
  }

  lemma ProductIsPositive(x: int, y: int)
    requires x > 0 && y > 0
    ensures x * y >= 1
  {}

  /** The calculator's answer. */
  function CostOf(bs: seq<Batch>, fallback: int): Cost
  {
    TotalsAreNonneg(bs);
    if Credits(bs) < 100 then Cost(fallback, 0, 0, 0, true)
    else Cost(Paid(bs) / (Credits(bs) / 100), Paid(bs), Credits(bs) / 100, Count(bs), false)
  }

  method EffectiveUnitCost(batches: seq<Batch>, fallback: int) returns (r: Cost)
    ensures r == CostOf(batches, fallback)
  {
    var paid, credits, eligible := 0, 0, 0;
    for i := 0 to |batches|
      invariant paid == Paid(batches[..i]) && credits == Credits(batches[..i])
      invariant eligible == Count(batches[..i])
    {
      var b := batches[i];
      assert batches[..i + 1][..i] == batches[..i];
      if !b.active { continue; }
      if b.pricingClass != "normal" { continue; }
      if b.promotion != "" && b.promotion != "none" { continue; }
      if b.creditsPerAccount <= 0 { continue; }
      if b.paid <= 0 { continue; }
      if b.accounts <= 0 { continue; }
      paid := paid + b.paid;
      credits := credits + b.creditsPerAccount * b.accounts;
      eligible := eligible + 1;
    }
    assert batches[..|batches|] == batches;
    TotalsAreNonneg(batches);
    if credits == 0 { return Cost(fallback, 0, 0, 0, true); }
    var whole := credits / 100;
    if whole == 0 { return Cost(fallback, 0, 0, 0, true); }
    return Cost(paid / whole, paid, whole, eligible, false);
  }

  // ---------------------------------------------------------------- accuracy

  lemma Times(x: int, y: int, k: int)
    requires x <= y && k >= 0
    ensures x * k <= y * k
  {}

  lemma Quotient(p: int, h: int)
    requires p >= 0 && h >= 100
    ensures var c := h / 100; var r := p / c;
            c >= 1 && r >= 0 && r * c <= p < (r + 1) * c && 100 * c <= h <= 100 * c + 99
  {}

  /** The result never falls short of the true average by a whole micro; it can exceed it, by
      what dropping up to 99 hundredths from the denominator allows. */
  lemma UnitCostBounds(bs: seq<Batch>, fallback: int)
    requires Credits(bs) >= 100
    ensures var r, p, h := CostOf(bs, fallback).unit, Paid(bs), Credits(bs);
            100 * p < (r + 1) * h && r * (h - 99) <= 100 * p
  {
    TotalsAreNonneg(bs);
    var p, h := Paid(bs), Credits(bs);
    Quotient(p, h);
    var c := h / 100;
    var r := p / c;
    Times(100 * c, h, r + 1);
    Times(h - 99, 100 * c, r);
    assert (100 * c) * (r + 1) == 100 * ((r + 1) * c) && (100 * c) * r == 100 * (r * c);
    assert h * (r + 1) == (r + 1) * h && (h - 99) * r == r * (h - 99);
  }

  function UnitCost(p: int, h: int): int
    requires h >= 100
  {
    p / (h / 100)
  }

  predicate WithinAMicro(r: int, p: int, h: int) { r * h - h <= 100 * p <= r * h + h }

  /** Exactly when the rounding error is at most one micro per credit whatever was paid: when the
      credits bought are a whole number. */
  lemma AccurateIffWholeCredits(h: int)
    requires h >= 100
    ensures h % 100 == 0 <==> forall p: nat :: WithinAMicro(UnitCost(p, h), p, h)
  {
    var c := h / 100;
    if h % 100 == 0 {
      forall p: nat ensures WithinAMicro(UnitCost(p, h), p, h) { WholeIsAccurate(p, h); }
    } else {
      OvershootGrows(h);
      var p: nat := c * (h + 1);
      assert !WithinAMicro(UnitCost(p, h), p, h);
    }
  }

  lemma WholeIsAccurate(p: nat, h: int)
    requires h >= 100 && h % 100 == 0
    ensures WithinAMicro(UnitCost(p, h), p, h)
    ensures UnitCost(p, h) * h <= 100 * p < (UnitCost(p, h) + 1) * h
  {
    Quotient(p, h);
    var c := h / 100;
    var r := p / c;
    assert h == 100 * c;
    assert r * h == 100 * (r * c) && (r + 1) * h == 100 * ((r + 1) * c);
    assert (r + 1) * h == r * h + h;
  }

  lemma OvershootGrows(h: int)
    requires h >= 100 && h % 100 != 0
    ensures var p := (h / 100) * (h + 1); p >= 0 && UnitCost(p, h) * h > 100 * p + h
  {
    var c := h / 100;
    var p := c * (h + 1);
    ProductIsPositive(c, h + 1);
    assert p / c == h + 1 by { ExactQuotient(c, h + 1); }
    assert (h + 1) * h == (h + 1) * (100 * c) + (h + 1) * (h - 100 * c);
    assert (h + 1) * (100 * c) == 100 * p;
    Times(1, h - 100 * c, h + 1);
  }

  lemma ExactQuotient(c: int, k: int)
    requires c > 0
    ensures (c * k) / c == k
  {
    var q := (c * k) / c;
    assert q * c <= c * k < (q + 1) * c;
    if q < k { Times(q + 1, k, c); }
    if q > k { Times(k + 1, q, c); }
  }

  // ---------------------------------------------------------------- between the batches

  function BatchCost(b: Batch): int
    requires Eligible(b)
  {
    ProductIsPositive(b.creditsPerAccount, b.accounts);
    (100 * b.paid) / Hundredths(b)
  }

  lemma BatchCostMeans(b: Batch)
    requires Eligible(b)
    ensures Hundredths(b) >= 1
    ensures BatchCost(b) * Hundredths(b) <= 100 * b.paid < (BatchCost(b) + 1) * Hundredths(b)
  {
    ProductIsPositive(b.creditsPerAccount, b.accounts);
  }

  predicate CostsAtLeast(bs: seq<Batch>, m: int) { forall b :: b in bs && Eligible(b) ==> m <= BatchCost(b) }
  predicate CostsAtMost(bs: seq<Batch>, m: int) { forall b :: b in bs && Eligible(b) ==> BatchCost(b) <= m }

  lemma LowerStep(m: int, h: int, p: int, c: int, moreH: int, moreP: int)
    requires m * h <= 100 * p && m <= c && c * moreH <= 100 * moreP && moreH >= 1
    ensures m * (h + moreH) <= 100 * (p + moreP)
  {
    Times(m, c, moreH);
    assert m * (h + moreH) == m * h + m * moreH;
  }

  lemma UpperStep(m: int, h: int, p: int, c: int, moreH: int, moreP: int)
    requires 100 * p <= (m + 1) * h && c <= m && 100 * moreP < (c + 1) * moreH && moreH >= 1
    ensures 100 * (p + moreP) < (m + 1) * (h + moreH)
  {
    Times(c + 1, m + 1, moreH);
    assert (m + 1) * (h + moreH) == (m + 1) * h + (m + 1) * moreH;
  }

  lemma {:induction false} TotalsAbove(bs: seq<Batch>, m: int)
    requires CostsAtLeast(bs, m)
    ensures m * Credits(bs) <= 100 * Paid(bs)
  {
    if bs != [] {
      var init, b := bs[..|bs| - 1], bs[|bs| - 1];
      TotalsAbove(init, m);
      if Eligible(b) {
        BatchCostMeans(b);
        LowerStep(m, Credits(init), Paid(init), BatchCost(b), Hundredths(b), b.paid);
      }
    }
  }

  lemma {:induction false} TotalsBelow(bs: seq<Batch>, m: int)
    requires CostsAtMost(bs, m)
    ensures 100 * Paid(bs) <= (m + 1) * Credits(bs)
    ensures Credits(bs) > 0 ==> 100 * Paid(bs) < (m + 1) * Credits(bs)
  {
    if bs != [] {
      var init, b := bs[..|bs| - 1], bs[|bs| - 1];
      TotalsBelow(init, m);
      TotalsAreNonneg(init);
      if Eligible(b) {
        BatchCostMeans(b);
        UpperStep(m, Credits(init), Paid(init), BatchCost(b), Hundredths(b), b.paid);
      }
    }
  }

  /** The result lies between the cheapest and the dearest batch: never below any lower bound of
      the batches' own unit costs, and never above any upper bound when credits are whole. */
  lemma UnitCostIsAnAverage(bs: seq<Batch>, fallback: int, low: int, high: int)
    requires Credits(bs) >= 100
    ensures CostsAtLeast(bs, low) ==> low <= CostOf(bs, fallback).unit
    ensures CostsAtMost(bs, high) && Credits(bs) % 100 == 0 ==> CostOf(bs, fallback).unit <= high
  {
    var r, p, h := CostOf(bs, fallback).unit, Paid(bs), Credits(bs);
    TotalsAreNonneg(bs);
    UnitCostBounds(bs, fallback);
    if CostsAtLeast(bs, low) {
      TotalsAbove(bs, low);
      Cancel(low, r + 1, h);
    }
    if CostsAtMost(bs, high) && h % 100 == 0 {
      TotalsBelow(bs, high);
      WholeIsAccurate(p, h);
      Cancel(r, high + 1, h);
    }
  }

  lemma Cancel(x: int, y: int, k: int)
    requires k > 0 && x * k < y * k
    ensures x < y
  {
    if y <= x { Times(y, x, k); }
  }

  // ---------------------------------------------------------------- what it ignores

  /** The fallback is used exactly when the eligible batches hold less than one credit. */
  lemma FallbackIff(bs: seq<Batch>, fallback: int)
    ensures CostOf(bs, fallback).fallback <==> Credits(bs) < 100
    ensures CostOf(bs, fallback).fallback ==>
              CostOf(bs, fallback).unit == fallback && CostOf(bs, fallback).eligible == 0
    ensures EligibleOnly(bs) == [] ==> CostOf(bs, fallback).fallback
    ensures !CostOf(bs, fallback).fallback ==> CostOf(bs, fallback).unit >= 0
  {
    TotalsAreNonneg(bs);
    NothingEligible(bs);
    if Credits(bs) >= 100 { Quotient(Paid(bs), Credits(bs)); }
  }

  lemma {:induction false} NothingEligible(bs: seq<Batch>)
    ensures EligibleOnly(bs) == [] ==> Credits(bs) == 0
  {
    if bs != [] { NothingEligible(bs[..|bs| - 1]); }
  }

  lemma {:induction false} IgnoresIneligible(bs: seq<Batch>, fallback: int)
    ensures Paid(EligibleOnly(bs)) == Paid(bs) && Credits(EligibleOnly(bs)) == Credits(bs)
    ensures Count(EligibleOnly(bs)) == Count(bs)
    ensures CostOf(EligibleOnly(bs), fallback) == CostOf(bs, fallback)
  {
    if bs != [] {
      IgnoresIneligible(bs[..|bs| - 1], fallback);
      var es := EligibleOnly(bs[..|bs| - 1]);
      assert (es + [bs[|bs| - 1]])[..|es|] == es && es + [] == es;
    }
  }

  lemma {:induction false} SumConcat<T>(f: T -> int, a: seq<T>, b: seq<T>)
    ensures Sum(f, a + b) == Sum(f, a) + Sum(f, b)
  {
    if b == [] {
      assert a + b == a;
    } else {
      SumConcat(f, a, b[..|b| - 1]);
      assert (a + b)[..|a + b| - 1] == a + b[..|b| - 1];
    }
  }

  lemma {:induction false} SumWithout<T>(f: T -> int, b: seq<T>, j: nat)
    requires j < |b|
    ensures Sum(f, b) == Sum(f, Without(b, j)) + f(b[j])
    decreases |b|
  {
    var n := |b| - 1;
    if j == n {
      assert Without(b, j) == b[..n];
    } else {
      SumWithout(f, b[..n], j);
      assert Without(b, j)[..n - 1] == Without(b[..n], j);
    }
  }

  lemma {:induction false} SumPermutes<T>(f: T -> int, a: seq<T>, b: seq<T>)
    requires multiset(a) == multiset(b)
    ensures Sum(f, a) == Sum(f, b)
    decreases |a|
  {
    if a == [] {
      assert |multiset(b)| == 0;
    } else {
      assert a[0] in multiset(b);
      var j :| 0 <= j < |b| && b[j] == a[0];
      SumWithout(f, a, 0);
      SumWithout(f, b, j);
      BagWithout(a, 0);
      BagWithout(b, j);
      CancelBag(multiset(Without(a, 0)), multiset(Without(b, j)), a[0]);
      SumPermutes(f, Without(a, 0), Without(b, j));
    }
  }

  lemma OrderDoesNotMatter(a: seq<Batch>, b: seq<Batch>, fallback: int)
    requires multiset(a) == multiset(b)
    ensures CostOf(a, fallback) == CostOf(b, fallback)
  {
    SumPermutes(PaidFor, a, b);
    SumPermutes(CreditsOf, a, b);
    SumPermutes(One, a, b);
  }

  /** Totals are additive over the batches, and one batch adds its payment, its accounts times the
      credits of each, and itself if it is active, of class normal, without a promotion and positive in
      all three numbers, else nothing: this fixes them on every list. */
  lemma TotalsAreSums(a: seq<Batch>, b: seq<Batch>, x: Batch)
    ensures Paid(a + b) == Paid(a) + Paid(b) && Credits(a + b) == Credits(a) + Credits(b)
            && Count(a + b) == Count(a) + Count(b)
    ensures x.active && x.pricingClass == "normal" && (x.promotion == "" || x.promotion == "none")
            && x.creditsPerAccount > 0 && x.paid > 0 && x.accounts > 0 ==>
              Paid([x]) == x.paid && Credits([x]) == x.accounts * x.creditsPerAccount && Count([x]) == 1
    ensures !x.active || x.pricingClass != "normal" || (x.promotion != "" && x.promotion != "none")
            || x.creditsPerAccount <= 0 || x.paid <= 0 || x.accounts <= 0 ==>
              Paid([x]) == 0 && Credits([x]) == 0 && Count([x]) == 0
  {
    SumConcat(PaidFor, a, b);
    SumConcat(CreditsOf, a, b);
    SumConcat(One, a, b);
    SumOne(PaidFor, x);
    SumOne(CreditsOf, x);
    SumOne(One, x);
  }

  lemma SumOne<T>(f: T -> int, x: T)
    ensures Sum(f, [x]) == f(x)
  {
    assert [x][..0] == [];
  }

  // ---------------------------------------------------------------- the retail floor

  /** Go's integer division truncates toward zero. */
  function TruncDiv(n: int, d: int): int
    requires d > 0
  {
    if n >= 0 then n / d else -((-n) / d)
  }

  /** The quotient is exact up to a remainder smaller than the divisor and of the dividend's sign. */
  lemma TruncDivMeans(n: int, d: int)
    requires d > 0
    ensures var r := n - TruncDiv(n, d) * d; -d < r < d && (n >= 0 ==> r >= 0) && (n <= 0 ==> r <= 0)
  {
    DivMeans(if n >= 0 then n else -n, d);
  }

  lemma DivMeans(n: int, d: int)
    requires n >= 0 && d > 0
    ensures 0 <= n - n / d * d < d
  {}

  /** credits x unit cost / 100, then the markup, truncated twice. */
  function FloorMicros(credits: int, unitCost: int, markup: real): int {
    Trunc(TruncDiv(credits * unitCost, 100) as real * markup)
  }

  /** The two truncations together lose less than the markup plus one micro. */
  lemma FloorIsTight(credits: int, unitCost: int, markup: real)
    requires credits >= 0 && unitCost >= 0 && markup > 0.0
    ensures var exact := (credits * unitCost) as real * markup / 100.0;
            exact - markup - 1.0 < FloorMicros(credits, unitCost, markup) as real <= exact
  {
    var n := credits * unitCost;
    assert n >= 0 by { NonnegProduct(credits, unitCost); }
    TruncatedTwice(n, markup, FloorMicros(credits, unitCost, markup));
  }

  lemma NonnegProduct(a: int, b: int)
    requires a >= 0 && b >= 0
    ensures a * b >= 0
  {}

  lemma TruncatedTwice(n: int, markup: real, floor: int)
    requires n >= 0 && markup > 0.0 && floor == Trunc(TruncDiv(n, 100) as real * markup)
    ensures n as real * markup / 100.0 - markup - 1.0 < floor as real <= n as real * markup / 100.0
  {
    var q := n / 100;
    var marked, whole := q as real * markup, n as real * markup;
    MarkupLoss(n, q, markup, marked, whole);
    TruncLoss(marked);
  }

  lemma TruncLoss(x: real)
    requires x >= 0.0
    ensures x - 1.0 < Trunc(x) as real <= x
  {}

  /** A quotient times the markup against the dividend times the markup. */
  lemma MarkupLoss(n: int, q: int, markup: real, marked: real, whole: real)
    requires 0 <= 100 * q <= n < 100 * q + 100 && markup > 0.0
    requires marked == q as real * markup && whole == n as real * markup
    ensures 0.0 <= 100.0 * marked <= whole < 100.0 * marked + 100.0 * markup
  {
    var part := (n - 100 * q) as real;
    var loss := part * markup;
    SplitDividend(n as real, q as real, part, markup, marked, whole, loss);
    ProductBetween(q as real, q as real, markup, marked);
    ProductBetween(part, 99.0, markup, loss);
  }

  lemma ProductBetween(x: real, most: real, r: real, product: real)
    requires 0.0 <= x <= most && r >= 0.0 && product == x * r
    ensures 0.0 <= product <= most * r
  {
    Scale(0.0, x, r);
    Scale(x, most, r);
  }

  lemma SplitDividend(n: real, q: real, part: real, r: real, marked: real, whole: real, loss: real)
    requires n == 100.0 * q + part && marked == q * r && whole == n * r && loss == part * r
    ensures whole == 100.0 * marked + loss
  {}

  datatype Warning = NoWarning | RuleMissing | BelowFloor(floor: int)

  /** `credits` is the variant's lookup; a non-positive unit cost or markup switches the check off. */
  method RetailFloorWarning(price: int, credits: Option<int>, unitCost: int, markup: real) returns (w: Warning)
    ensures markup <= 0.0 || unitCost <= 0 ==> w == NoWarning
    ensures markup > 0.0 && unitCost > 0 ==>
              w == if credits == None then RuleMissing
                   else if price < FloorMicros(credits.value, unitCost, markup)
                     then BelowFloor(FloorMicros(credits.value, unitCost, markup))
                   else NoWarning
  {
    if markup <= 0.0 { return NoWarning; }
    if unitCost <= 0 { return NoWarning; }
    if credits == None { return RuleMissing; }
    var floor := TruncDiv(credits.value * unitCost, 100);
    floor := Trunc(floor as real * markup);
    if price >= floor { return NoWarning; }
    return BelowFloor(floor);
  }

  /** A warned price is below the marked-up cost, and a price at least the markup and a micro below
      that cost is always warned about. */
  lemma WarningsAreTrue(price: int, credits: int, unitCost: int, markup: real)
    requires credits >= 0 && unitCost >= 0 && markup > 0.0
    ensures var exact := (credits * unitCost) as real * markup / 100.0;
            (price < FloorMicros(credits, unitCost, markup) ==> price as real < exact)
            && (price as real <= exact - markup - 1.0 ==> price < FloorMicros(credits, unitCost, markup))
  {
    FloorIsTight(credits, unitCost, markup);
  }
}
