/** The summary numbers `CouponStats` shows for a coupon list at instant `now`. */
module CouponStats {

  import opened Coupons
  import opened Seqs
  import CouponCard

  /** `sevenDaysLater - now`. */
  const SevenDays: int := 7 * MsPerDay

  datatype Stats = Stats(
    total: nat,
    active: int,
    expired: nat,
    expiringSoon: nat,
    byCategory: map<Category, nat>)

  /** Number of coupons of category `k`. */
  function CountOfCategory(cs: seq<Coupon>, k: Category): (n: nat)
    ensures n <= |cs|
    ensures n == 0 <==> forall c :: c in cs ==> c.category != k
  {
    FilterSpec((c: Coupon) => c.category == k, cs);
    |Filter((c: Coupon) => c.category == k, cs)|
  }

  /** The `reduce` that fills `byCategory`, one `acc[category] = (acc[category] || 0) + 1`
      per coupon: a key for every category present, holding its number of coupons. */
  function ByCategory(cs: seq<Coupon>): (m: map<Category, nat>)
    ensures forall k :: k in m <==> CountOfCategory(cs, k) > 0
    ensures forall k :: k in m ==> m[k] == CountOfCategory(cs, k)
    decreases |cs|
  {
    if cs == [] then map[]
    else
      var init, c := cs[..|cs| - 1], cs[|cs| - 1];
      var m := ByCategory(init);
      CountOfCategorySnoc(init, c);
      assert cs == init + [c];
      m[c.category := (if c.category in m then m[c.category] else 0) + 1]
  }

  lemma CountOfCategorySnoc(cs: seq<Coupon>, c: Coupon)
    ensures forall k :: CountOfCategory(cs + [c], k) ==
                          CountOfCategory(cs, k) + (if c.category == k then 1 else 0)
  {
    forall k ensures CountOfCategory(cs + [c], k) ==
                       CountOfCategory(cs, k) + (if c.category == k then 1 else 0) {
      FilterSnoc((x: Coupon) => x.category == k, cs, c);
    }
  }

  /** The value the record holds for `k`, 0 when it has no such key. */
  function Get(m: map<Category, nat>, k: Category): nat
  {
    if k in m then m[k] else 0
  }

  /** The six category counts added up. */
  function CategoryTotal(m: map<Category, nat>): nat
  {
    Get(m, Food) + Get(m, Shopping) + Get(m, Travel) + Get(m, Entertainment) + Get(m, Service) + Get(m, Other)
  }

  /** Reading the record with a default of 0 gives the category's count. */
  lemma GetByCategory(cs: seq<Coupon>, k: Category)
    ensures Get(ByCategory(cs), k) == CountOfCategory(cs, k)
  {
  }

  /** The six category counts added up. */
  function CountTotal(cs: seq<Coupon>): nat
  {
    CountOfCategory(cs, Food) + CountOfCategory(cs, Shopping) + CountOfCategory(cs, Travel) +
    CountOfCategory(cs, Entertainment) + CountOfCategory(cs, Service) + CountOfCategory(cs, Other)
  }

  lemma {:induction false} CountTotalIsLength(cs: seq<Coupon>)
    ensures CountTotal(cs) == |cs|
    decreases |cs|
  {
    if cs != [] {
      var init, c := cs[..|cs| - 1], cs[|cs| - 1];
      CountTotalIsLength(init);
      assert cs == init + [c];
      CountTotalSnoc(init, c);
    }
  }

  lemma CountTotalSnoc(cs: seq<Coupon>, c: Coupon)
    ensures CountTotal(cs + [c]) == CountTotal(cs) + 1
  {
    CountOfCategorySnoc(cs, c);
  }

  /** The category counts add up to the number of coupons. */
  lemma ByCategoryTotal(cs: seq<Coupon>)
    ensures CategoryTotal(ByCategory(cs)) == |cs|
  {
    GetByCategory(cs, Food);
    GetByCategory(cs, Shopping);
    GetByCategory(cs, Travel);
    GetByCategory(cs, Entertainment);
    GetByCategory(cs, Service);
    GetByCategory(cs, Other);
    CountTotalIsLength(cs);
  }

  predicate ExpiredAt(now: int, c: Coupon)
  {
    c.expiresAt < now
  }

  predicate InSevenDayWindow(now: int, c: Coupon)
  {
    now <= c.expiresAt <= now + SevenDays
  }

  /** The `stats` memo: expired are the coupons whose expiry is before `now`, expiring
      soon those expiring from `now` to seven days later inclusive; the two never
      overlap, so `active` is never negative. */
  function ComputeStats(cs: seq<Coupon>, now: int): (s: Stats)
    ensures s.total == |cs|
    ensures s.expired == |Filter((c: Coupon) => ExpiredAt(now, c), cs)|
    ensures s.expiringSoon == |Filter((c: Coupon) => InSevenDayWindow(now, c), cs)|
    ensures s.active == s.total - s.expired >= 0
    ensures s.expired + s.expiringSoon <= s.total
    ensures s.byCategory == ByCategory(cs)
  {
    var expired := |Filter((c: Coupon) => ExpiredAt(now, c), cs)|;
    var soon := |Filter((c: Coupon) => InSevenDayWindow(now, c), cs)|;
    DisjointCounts((c: Coupon) => ExpiredAt(now, c), (c: Coupon) => InSevenDayWindow(now, c), cs);
    Stats(|cs|, |cs| - expired, expired, soon, ByCategory(cs))
  }

  /** Two predicates that never hold together select at most all elements between them. */
  lemma {:induction false} DisjointCounts<T(!new)>(p: T -> bool, q: T -> bool, s: seq<T>)
    requires forall x :: !(p(x) && q(x))
    ensures |Filter(p, s)| + |Filter(q, s)| <= |s|
    decreases |s|
  {
    if s != [] {
      DisjointCounts(p, q, s[1..]);
    }
  }

  /** Selecting by a weaker predicate selects at least as many elements. */
  lemma {:induction false} FilterCountMonotone<T(!new)>(p: T -> bool, q: T -> bool, s: seq<T>)
    requires forall x :: p(x) ==> q(x)
    ensures |Filter(p, s)| <= |Filter(q, s)|
    decreases |s|
  {
    if s != [] {
      FilterCountMonotone(p, q, s[1..]);
    }
  }

  /** An empty list gives all zeros and no categories. */
  lemma EmptyStats(now: int)
    ensures ComputeStats([], now) == Stats(0, 0, 0, 0, map[])
  {
  }

  /** Every coupon whose card carries an urgency badge is counted as expiring soon, and
      the expired count is the number of cards showing their date in red. */
  lemma StatsAgreeWithCards(cs: seq<Coupon>, now: int)
    ensures |Filter((c: Coupon) => CouponCard.IsExpiringSoon(c.expiresAt, now), cs)|
              <= ComputeStats(cs, now).expiringSoon
    ensures ComputeStats(cs, now).expired ==
              |Filter((c: Coupon) => CouponCard.IsExpired(c.expiresAt, now), cs)|
  {
    assert forall c: Coupon :: CouponCard.IsExpiringSoon(c.expiresAt, now) ==> InSevenDayWindow(now, c);
    FilterCountMonotone((c: Coupon) => CouponCard.IsExpiringSoon(c.expiresAt, now),
                        (c: Coupon) => InSevenDayWindow(now, c), cs);
    FilterSame((c: Coupon) => CouponCard.IsExpired(c.expiresAt, now), (c: Coupon) => ExpiredAt(now, c), cs);
  }

  lemma {:induction false} FilterSame<T(!new)>(p: T -> bool, q: T -> bool, s: seq<T>)
    requires forall x :: p(x) == q(x)
    ensures Filter(p, s) == Filter(q, s)
    decreases |s|
  {
    if s != [] {
      FilterSame(p, q, s[1..]);
    }
  }
}
