/** The `AnalyticsDashboard` aggregations: savings of used coupons per month over the
    last six months, used and total coupons per category, the top-five source ranking
    and the integer counters of the summary cards. */
module AnalyticsDashboard {

  import opened Coupons
  import opened Seqs
  import opened Counting
  import CouponStats

  // ---------------------------------------------------------------------------
  // Monthly savings

  /** The instant a used coupon is booked under: `usedAt` when it has one, otherwise
      `acquiredAt`. */
  function BookingInstant(c: Coupon): (t: int)
    ensures c.usedAt.Some? ==> t == c.usedAt.value
    ensures c.usedAt.None? ==> t == c.acquiredAt
  {
    match c.usedAt
    case Some(t) => t
    case None => c.acquiredAt
  }

  /** The `YYYY-MM` key of the month a coupon is booked under, as a month index. */
  function BookingMonth(cal: LocalCalendar, c: Coupon): (key: int)
    ensures var d := cal(BookingInstant(c));
      0 <= d.month < 12 ==> key / 12 == d.year && key % 12 == d.month
  {
    var d := cal(BookingInstant(c));
    MonthIndex(d.year, d.month)
  }

  /** A used coupon booked in month `key`. */
  predicate UsedIn(cal: LocalCalendar, key: int, c: Coupon)
  {
    IsUsed(c) && BookingMonth(cal, c) == key
  }

  /** The savings (missing amounts counting 0) of the used coupons booked in month `key`. */
  function MonthlyTotal(cs: seq<Coupon>, cal: LocalCalendar, key: int): int
  {
    Sum(SavedOrZero, Filter((c: Coupon) => UsedIn(cal, key, c), cs))
  }

  /** The six months ending with month `nowKey`, oldest first, each with its savings. */
  function MonthlyBuckets(cs: seq<Coupon>, cal: LocalCalendar, nowKey: int): (r: seq<(int, int)>)
    ensures |r| == 6
    ensures forall j :: 0 <= j < 6 ==> r[j].0 == nowKey - 5 + j
  {
    seq(6, j requires 0 <= j < 6 => (nowKey - 5 + j, MonthlyTotal(cs, cal, nowKey - 5 + j)))
  }

  /** `monthlySavingsData`: six buckets set to 0 for the current month and the five before
      it, then the amount of every used coupon added to the bucket of its month when that
      month is one of the six. */
  method MonthlySavings(cs: seq<Coupon>, now: int, cal: LocalCalendar) returns (monthly: seq<(int, int)>)
    ensures monthly == MonthlyBuckets(cs, cal, MonthIndex(cal(now).year, cal(now).month))
  {
    var today := cal(now);
    var nowKey := MonthIndex(today.year, today.month);
    monthly := [];
    var i := 5;
    while i >= 0
      invariant -1 <= i <= 5
      invariant |monthly| == 5 - i
      invariant forall j :: 0 <= j < |monthly| ==> monthly[j] == (nowKey - 5 + j, 0)
    {
      var date := NormalizeMonth(today.year, today.month - i);
      monthly := monthly + [(MonthIndex(date.0, date.1), 0)];
      i := i - 1;
    }
    assert cs[..0] == [];
    MonthlyBucketsEmpty(cal, nowKey);
    var n := 0;
    while n < |cs|
      invariant 0 <= n <= |cs|
      invariant monthly == MonthlyBuckets(cs[..n], cal, nowKey)
    {
      var c := cs[n];
      assert cs[..n + 1] == cs[..n] + [c];
      MonthlyBucketsSnoc(cs[..n], c, cal, nowKey);
      if IsUsed(c) {
        var key := BookingMonth(cal, c);
        var j := key - (nowKey - 5);
        if 0 <= j < 6 {
          monthly := monthly[j := (key, monthly[j].1 + SavedOrZero(c))];
        }
      }
      n := n + 1;
    }
    assert cs[..n] == cs;
  }

  /** Before any coupon is counted every bucket is 0. */
  lemma MonthlyBucketsEmpty(cal: LocalCalendar, nowKey: int)
    ensures forall j :: 0 <= j < 6 ==> MonthlyBuckets([], cal, nowKey)[j].1 == 0
  {
    forall key ensures MonthlyTotal([], cal, key) == 0 {
      assert Filter((c: Coupon) => UsedIn(cal, key, c), []) == [];
    }
  }

  lemma MonthlyTotalSnoc(cs: seq<Coupon>, c: Coupon, cal: LocalCalendar, key: int)
    ensures MonthlyTotal(cs + [c], cal, key) ==
              MonthlyTotal(cs, cal, key) + (if UsedIn(cal, key, c) then SavedOrZero(c) else 0)
  {
    FilterSnoc((x: Coupon) => UsedIn(cal, key, x), cs, c);
    var before := Filter((x: Coupon) => UsedIn(cal, key, x), cs);
    if UsedIn(cal, key, c) {
      SumSnoc(SavedOrZero, before, c);
    } else {
      assert before + [] == before;
    }
  }

  /** One more coupon changes at most its own month's bucket, by its amount. */
  lemma MonthlyBucketsSnoc(cs: seq<Coupon>, c: Coupon, cal: LocalCalendar, nowKey: int)
    ensures var before, j := MonthlyBuckets(cs, cal, nowKey), BookingMonth(cal, c) - (nowKey - 5);
      MonthlyBuckets(cs + [c], cal, nowKey) ==
        if IsUsed(c) && 0 <= j < 6 then before[j := (before[j].0, before[j].1 + SavedOrZero(c))]
        else before
  {
    var before, j := MonthlyBuckets(cs, cal, nowKey), BookingMonth(cal, c) - (nowKey - 5);
    var after := MonthlyBuckets(cs + [c], cal, nowKey);
    var expected := if IsUsed(c) && 0 <= j < 6 then before[j := (before[j].0, before[j].1 + SavedOrZero(c))]
                    else before;
    forall i | 0 <= i < 6 ensures after[i] == expected[i] {
      MonthlyTotalSnoc(cs, c, cal, nowKey - 5 + i);
    }
    assert |after| == |expected|;
  }

  function Amount(e: (int, int)): int
  {
    e.1
  }

  /** `actualSavings`: the amounts of the used coupons, non-negative when every amount is. */
  function ActualSavings(cs: seq<Coupon>): (r: int)
    ensures (forall c :: c in cs ==> SavedOrZero(c) >= 0) ==> r >= 0
  {
    var used := Filter(IsUsed, cs);
    FilterSpec(IsUsed, cs);
    SumNonNegativeWhen(SavedOrZero, used);
    Sum(SavedOrZero, used)
  }

  predicate IsUnused(c: Coupon)
  {
    !IsUsed(c)
  }

  /** `totalSavings`: the amounts of all coupons, which are the used coupons' amounts
      plus the unused coupons' amounts. */
  function TotalSavings(cs: seq<Coupon>): (r: int)
    ensures r == ActualSavings(cs) + Sum(SavedOrZero, Filter(IsUnused, cs))
  {
    SumFilterSplit(SavedOrZero, IsUsed, IsUnused, cs);
    Sum(SavedOrZero, cs)
  }

  /** With non-negative amounts the chart never shows more than the used coupons saved. */
  lemma {:induction false} MonthlyWithinActual(cs: seq<Coupon>, cal: LocalCalendar, nowKey: int)
    requires forall c :: c in cs ==> SavedOrZero(c) >= 0
    ensures Sum(Amount, MonthlyBuckets(cs, cal, nowKey)) <= ActualSavings(cs)
    decreases |cs|
  {
    if cs == [] {
      MonthlyBucketsEmpty(cal, nowKey);
      SumZero(Amount, MonthlyBuckets(cs, cal, nowKey));
    } else {
      var init, c := cs[..|cs| - 1], cs[|cs| - 1];
      assert cs == init + [c];
      assert forall x :: x in init ==> x in cs;
      MonthlyWithinActual(init, cal, nowKey);
      MonthlySumSnoc(init, c, cal, nowKey);
      ActualSavingsSnoc(init, c);
    }
  }

  /** One more coupon adds its amount to the chart total when it is used and booked in
      one of the six months, and nothing otherwise. */
  lemma MonthlySumSnoc(cs: seq<Coupon>, c: Coupon, cal: LocalCalendar, nowKey: int)
    ensures var j := BookingMonth(cal, c) - (nowKey - 5);
      Sum(Amount, MonthlyBuckets(cs + [c], cal, nowKey)) ==
        Sum(Amount, MonthlyBuckets(cs, cal, nowKey)) + (if IsUsed(c) && 0 <= j < 6 then SavedOrZero(c) else 0)
  {
    MonthlyBucketsSnoc(cs, c, cal, nowKey);
    var before, j := MonthlyBuckets(cs, cal, nowKey), BookingMonth(cal, c) - (nowKey - 5);
    if IsUsed(c) && 0 <= j < 6 {
      SumUpdate(Amount, before, j, (before[j].0, before[j].1 + SavedOrZero(c)));
    }
  }

  /** One more coupon adds its amount to `actualSavings` exactly when it is used. */
  lemma ActualSavingsSnoc(cs: seq<Coupon>, c: Coupon)
    ensures ActualSavings(cs + [c]) == ActualSavings(cs) + (if IsUsed(c) then SavedOrZero(c) else 0)
  {
    FilterSnoc(IsUsed, cs, c);
    if IsUsed(c) {
      SumSnoc(SavedOrZero, Filter(IsUsed, cs), c);
    } else {
      assert Filter(IsUsed, cs) + [] == Filter(IsUsed, cs);
    }
  }

  /** With non-negative amounts the used coupons never saved more than all coupons. */
  lemma ActualWithinTotal(cs: seq<Coupon>)
    requires forall c :: c in cs ==> SavedOrZero(c) >= 0
    ensures ActualSavings(cs) <= TotalSavings(cs)
  {
    SumFilterBound(SavedOrZero, IsUsed, cs);
  }

  // ---------------------------------------------------------------------------
  // Category usage

  /** The `{ total, used }` pair kept per category. */
  datatype Usage = Usage(total: nat, used: nat)

  /** The category of every coupon, in list order. */
  function CategoriesOf(cs: seq<Coupon>): (r: seq<Category>)
    ensures |r| == |cs|
    ensures forall i :: 0 <= i < |cs| ==> r[i] == cs[i].category
  {
    seq(|cs|, i requires 0 <= i < |cs| => cs[i].category)
  }

  /** Number of used coupons of category `k`. */
  function UsedOf(cs: seq<Coupon>, k: Category): nat
  {
    |Filter((c: Coupon) => c.category == k && IsUsed(c), cs)|
  }

  lemma UsedOfSnoc(cs: seq<Coupon>, c: Coupon, k: Category)
    ensures UsedOf(cs + [c], k) == UsedOf(cs, k) + (if c.category == k && IsUsed(c) then 1 else 0)
  {
    FilterSnoc((x: Coupon) => x.category == k && IsUsed(x), cs, c);
  }

  lemma UsedOfAbsent(cs: seq<Coupon>, k: Category)
    requires k !in CategoriesOf(cs)
    ensures UsedOf(cs, k) == 0
  {
    var p := (c: Coupon) => c.category == k && IsUsed(c);
    FilterSpec(p, cs);
    if Filter(p, cs) != [] {
      assert false;
    }
  }

  lemma CategoriesOfSnoc(cs: seq<Coupon>, c: Coupon)
    ensures CategoriesOf(cs + [c]) == CategoriesOf(cs) + [c.category]
  {
  }

  /** The categories and totals of the record follow the tally `t`. */
  ghost predicate TotalsOf(usage: seq<(Category, Usage)>, t: seq<(Category, nat)>)
  {
    && |usage| == |t|
    && (forall i :: 0 <= i < |usage| ==> usage[i].0 == t[i].0 && usage[i].1.total == t[i].1)
  }

  /** Every entry holds its category's number of used coupons among `cs`. */
  ghost predicate UsedCounts(usage: seq<(Category, Usage)>, cs: seq<Coupon>)
  {
    forall i :: 0 <= i < |usage| ==> usage[i].1.used == UsedOf(cs, usage[i].0)
  }

  /** The category record `usage` after the coupons `cs`: the categories and totals of
      `Tally`, and each category's used count. */
  ghost predicate UsageOf(usage: seq<(Category, Usage)>, cs: seq<Coupon>)
  {
    TotalsOf(usage, Tally(CategoriesOf(cs))) && UsedCounts(usage, cs)
  }

  /** `categoryUsageData`: one entry per category present, in the order the categories
      first occur, holding how many coupons have it and how many of those are used. */
  method CategoryUsage(cs: seq<Coupon>) returns (usage: seq<(Category, Usage)>)
    ensures UsageOf(usage, cs)
  {
    usage := [];
    var n := 0;
    assert cs[..0] == [];
    while n < |cs|
      invariant 0 <= n <= |cs|
      invariant UsageOf(usage, cs[..n])
    {
      var c := cs[n];
      var j := FindCategory(usage, c.category);
      CategoryUsageStep(usage, cs, n, j);
      usage := CountCoupon(usage, c, j);
      n := n + 1;
    }
    assert cs[..n] == cs;
  }

  /** The lookup `categoryData[category]`: the position of the category's entry, or the
      length of the record when it has none. */
  method FindCategory(usage: seq<(Category, Usage)>, k: Category) returns (j: int)
    ensures 0 <= j <= |usage|
    ensures forall i :: 0 <= i < j ==> usage[i].0 != k
    ensures j < |usage| ==> usage[j].0 == k
  {
    j := 0;
    while j < |usage| && usage[j].0 != k
      invariant 0 <= j <= |usage|
      invariant forall i :: 0 <= i < j ==> usage[i].0 != k
    {
      j := j + 1;
    }
  }

  /** The body of the `forEach`: create the entry when the category has none, then
      increment its total, and its used count when the coupon is used. */
  method CountCoupon(usage: seq<(Category, Usage)>, c: Coupon, j: int) returns (r: seq<(Category, Usage)>)
    requires 0 <= j <= |usage|
    ensures r == Counted(usage, c, j)
  {
    r := usage;
    if j == |r| {
      r := r + [(c.category, Usage(0, 0))];
    }
    var entry := r[j].1;
    entry := entry.(total := entry.total + 1);
    if IsUsed(c) {
      entry := entry.(used := entry.used + 1);
    }
    r := r[j := (c.category, entry)];
  }

  /** The record after one more coupon, `j` being where the lookup found its category. */
  function Counted(usage: seq<(Category, Usage)>, c: Coupon, j: int): seq<(Category, Usage)>
    requires 0 <= j <= |usage|
  {
    var grown := if j == |usage| then usage + [(c.category, Usage(0, 0))] else usage;
    grown[j := (c.category, Usage(grown[j].1.total + 1, grown[j].1.used + if IsUsed(c) then 1 else 0))]
  }

  /** Counting one more coupon: its category's entry (appended when new) gains one coupon,
      and one used coupon when it is used. */
  lemma CategoryUsageStep(usage: seq<(Category, Usage)>, all: seq<Coupon>, n: int, j: int)
    requires 0 <= n < |all|
    requires UsageOf(usage, all[..n])
    requires 0 <= j <= |usage|
    requires forall i :: 0 <= i < j ==> usage[i].0 != all[n].category
    requires j < |usage| ==> usage[j].0 == all[n].category
    ensures UsageOf(Counted(usage, all[n], j), all[..n + 1])
  {
    assert all[..n + 1] == all[..n] + [all[n]];
    CountOneMore(usage, all[..n], all[n], j);
  }

  lemma CountOneMore(usage: seq<(Category, Usage)>, cs: seq<Coupon>, c: Coupon, j: int)
    requires UsageOf(usage, cs)
    requires 0 <= j <= |usage|
    requires forall i :: 0 <= i < j ==> usage[i].0 != c.category
    requires j < |usage| ==> usage[j].0 == c.category
    ensures UsageOf(Counted(usage, c, j), cs + [c])
  {
    var t0 := Tally(CategoriesOf(cs));
    CategoriesOfSnoc(cs, c);
    TallySnoc(CategoriesOf(cs), c.category);
    TotalsStep(usage, t0, c, j);
    if j == |usage| {
      TallySpec(CategoriesOf(cs));
      assert c.category !in KeysOf(t0);
    }
    forall i | 0 <= i < |usage| && i != j ensures usage[i].0 != c.category {
      if i > j {
        assert t0[j].0 != t0[i].0;
      }
    }
    UsedStep(usage, cs, c, j);
  }

  lemma TotalsStep(usage: seq<(Category, Usage)>, t: seq<(Category, nat)>, c: Coupon, j: int)
    requires DistinctKeys(t) && TotalsOf(usage, t)
    requires 0 <= j <= |usage|
    requires forall i :: 0 <= i < j ==> usage[i].0 != c.category
    requires j < |usage| ==> usage[j].0 == c.category
    ensures TotalsOf(Counted(usage, c, j), Bump(t, c.category))
  {
    if j == |usage| {
      assert c.category !in KeysOf(t);
    }
  }

  lemma UsedStep(usage: seq<(Category, Usage)>, cs: seq<Coupon>, c: Coupon, j: int)
    requires UsedCounts(usage, cs)
    requires 0 <= j <= |usage|
    requires j < |usage| ==> usage[j].0 == c.category
    requires forall i :: 0 <= i < |usage| && i != j ==> usage[i].0 != c.category
    requires j == |usage| ==> c.category !in CategoriesOf(cs)
    ensures UsedCounts(Counted(usage, c, j), cs + [c])
  {
    forall k {
      UsedOfSnoc(cs, c, k);
    }
    if j == |usage| {
      UsedOfAbsent(cs, c.category);
    }
  }

  /** No category has more used coupons than coupons. */
  lemma {:induction false} UsedWithinTotal(cs: seq<Coupon>, k: Category)
    ensures UsedOf(cs, k) <= multiset(CategoriesOf(cs))[k]
    decreases |cs|
  {
    if cs != [] {
      var init, c := cs[..|cs| - 1], cs[|cs| - 1];
      assert cs == init + [c];
      UsedWithinTotal(init, k);
      UsedOfSnoc(init, c, k);
      CategoriesOfSnoc(init, c);
    }
  }

  /** The entries of the category record: each category's total is its number of coupons,
      its used count is at most that, the totals add up to the number of coupons, and the
      categories appear in order of first occurrence. */
  lemma CategoryUsageTable(cs: seq<Coupon>)
    ensures var t := Tally(CategoriesOf(cs));
      forall i :: 0 <= i < |t| ==> t[i].1 == multiset(CategoriesOf(cs))[t[i].0] && UsedOf(cs, t[i].0) <= t[i].1
    ensures Sum((e: (Category, nat)) => e.1, Tally(CategoriesOf(cs))) == |cs|
    ensures var t := Tally(CategoriesOf(cs));
      forall i :: 0 <= i < |t| ==> t[i].0 in CategoriesOf(cs)
    ensures var t := Tally(CategoriesOf(cs));
      forall i, j :: 0 <= i < j < |t| ==>
        FirstIndex(CategoriesOf(cs), t[i].0) < FirstIndex(CategoriesOf(cs), t[j].0)
  {
    TallySpec(CategoriesOf(cs));
    forall k {
      UsedWithinTotal(cs, k);
    }
    TallyTotal(CategoriesOf(cs));
    TallyFirstSeenOrder(CategoriesOf(cs));
  }

  // ---------------------------------------------------------------------------
  // Source ranking

  /** The source of every coupon, in list order. */
  function SourcesOf(cs: seq<Coupon>): (r: seq<string>)
    ensures |r| == |cs|
    ensures forall i :: 0 <= i < |cs| ==> r[i] == cs[i].source
  {
    seq(|cs|, i requires 0 <= i < |cs| => cs[i].source)
  }

  /** Number of places in the ranking. */
  const RankingSize: nat := 5

  /** `sourceRanking`: count the coupons per source, sort the entries by descending count
      and keep the first five. */
  method SourceRanking(cs: seq<Coupon>) returns (ranking: seq<(string, nat)>)
    ensures ranking == Take(SortByCount(Tally(SourcesOf(cs))), RankingSize)
  {
    var sourceCount: seq<(string, nat)> := [];
    var n := 0;
    assert SourcesOf(cs[..0]) == [];
    while n < |cs|
      invariant 0 <= n <= |cs|
      invariant sourceCount == Tally(SourcesOf(cs[..n]))
    {
      assert SourcesOf(cs[..n + 1]) == SourcesOf(cs[..n]) + [cs[n].source];
      TallySnoc(SourcesOf(cs[..n]), cs[n].source);
      sourceCount := Bump(sourceCount, cs[n].source);
      n := n + 1;
    }
    assert cs[..n] == cs;
    ranking := Take(SortByCount(sourceCount), RankingSize);
  }

  /** The sorted source record: every entry is a source with its number of coupons. */
  lemma SortedSourceCounts(cs: seq<Coupon>)
    ensures var sorted := SortByCount(Tally(SourcesOf(cs)));
      forall i :: 0 <= i < |sorted| ==> sorted[i].1 == multiset(SourcesOf(cs))[sorted[i].0]
  {
    var t := Tally(SourcesOf(cs));
    var sorted := SortByCount(t);
    TallySpec(SourcesOf(cs));
    forall i | 0 <= i < |sorted| ensures sorted[i].1 == multiset(SourcesOf(cs))[sorted[i].0] {
      assert sorted[i] in multiset(t);
    }
  }

  /** The ranking holds at most five distinct sources with non-increasing counts, each
      count the number of coupons from that source. */
  lemma RankingCounts(cs: seq<Coupon>)
    ensures var r := Take(SortByCount(Tally(SourcesOf(cs))), RankingSize);
      && |r| <= RankingSize
      && NonIncreasing(r)
      && DistinctKeys(r)
      && (forall i :: 0 <= i < |r| ==> r[i].1 == multiset(SourcesOf(cs))[r[i].0])
  {
    var t := Tally(SourcesOf(cs));
    var sorted := SortByCount(t);
    var r := Take(sorted, RankingSize);
    SortedSourceCounts(cs);
    forall i, j | 0 <= i < j < |r| ensures r[i].0 != r[j].0 {
      SortedKeysDistinct(t, sorted, i, j);
    }
  }

  /** A source left out of the ranking has no more coupons than any ranked source. */
  lemma RankingLeavesOutNoLarger(cs: seq<Coupon>, s: string, i: int)
    requires s in SourcesOf(cs)
    requires s !in KeysOf(Take(SortByCount(Tally(SourcesOf(cs))), RankingSize))
    requires 0 <= i < |Take(SortByCount(Tally(SourcesOf(cs))), RankingSize)|
    ensures multiset(SourcesOf(cs))[s] <= Take(SortByCount(Tally(SourcesOf(cs))), RankingSize)[i].1
  {
    var t := Tally(SourcesOf(cs));
    TallySpec(SourcesOf(cs));
    assert s in KeysOf(t);
    var m :| 0 <= m < |t| && KeysOf(t)[m] == s;
    var sorted := SortByCount(t);
    PrefixLeavesOutNoLarger(t, sorted, Take(sorted, RankingSize), m, i);
  }

  /** Sources with equal counts stay in the order they were first seen. */
  lemma RankingStable(cs: seq<Coupon>, c: nat)
    ensures WithCount(SortByCount(Tally(SourcesOf(cs))), c) == WithCount(Tally(SourcesOf(cs)), c)
  {
    SortByCountStable(Tally(SourcesOf(cs)), c);
  }

  // ---------------------------------------------------------------------------
  // Summary counters

  /** The integer fields of `analytics`. */
  datatype Analytics = Analytics(
    totalCoupons: nat,
    usedCoupons: nat,
    totalSavings: int,
    actualSavings: int,
    expired: nat,
    active: int)

  predicate ExpiredAt(now: int, c: Coupon)
  {
    c.expiresAt < now
  }

  /** `analytics` without its floating-point ratios: used coupons never outnumber all
      coupons, and expired plus active coupons are all coupons. */
  function ComputeAnalytics(cs: seq<Coupon>, now: int): (a: Analytics)
    ensures a.totalCoupons == |cs|
    ensures a.usedCoupons == |Filter(IsUsed, cs)| <= a.totalCoupons
    ensures a.totalSavings == TotalSavings(cs) && a.actualSavings == ActualSavings(cs)
    ensures a.expired == |Filter((c: Coupon) => ExpiredAt(now, c), cs)|
    ensures a.expired + a.active == a.totalCoupons && 0 <= a.active
  {
    var expired := |Filter((c: Coupon) => ExpiredAt(now, c), cs)|;
    Analytics(|cs|, |Filter(IsUsed, cs)|, TotalSavings(cs), ActualSavings(cs), expired, |cs| - expired)
  }

  /** The "effective utilization" card divides used coupons by used plus active ones only
      when some coupon is active, so the divisor is then positive and the ratio at most 1;
      otherwise it shows 0. */
  function EffectiveUtilization(a: Analytics): (r: Option<(nat, nat)>)
    requires a.active >= 0
    ensures r.Some? <==> a.active > 0
    ensures r.Some? ==> r.value.1 > 0 && r.value.0 <= r.value.1
    ensures r.Some? ==> r.value == (a.usedCoupons, a.usedCoupons + a.active)
  {
    if a.active > 0 then Some((a.usedCoupons, a.usedCoupons + a.active)) else None
  }

  /** The dashboard and the statistics bar agree on how many coupons have expired. */
  lemma ExpiredAgreesWithStats(cs: seq<Coupon>, now: int)
    ensures ComputeAnalytics(cs, now).expired == CouponStats.ComputeStats(cs, now).expired
    ensures ComputeAnalytics(cs, now).active == CouponStats.ComputeStats(cs, now).active
  {
    CouponStats.FilterSame((c: Coupon) => ExpiredAt(now, c), (c: Coupon) => CouponStats.ExpiredAt(now, c), cs);
  }
}
