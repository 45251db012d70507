/** The coupon record shared by every component, with the instants it carries
    represented as integer milliseconds since the epoch. */
module Coupons {

  datatype Option<+T> = None | Some(value: T)

  /** The six-valued `CouponCategory` union. */
  datatype Category = Food | Shopping | Travel | Entertainment | Service | Other

  const AllCategories: seq<Category> := [Food, Shopping, Travel, Entertainment, Service, Other]

  /** A coupon as the components read it: the declared fields plus the optional
      `isFavorite`, `isUsed`, `usedAt` and `savedAmount` that the dashboard and
      the card read although the declared interface does not list them. */
  datatype Coupon = Coupon(
    id: string,
    source: string,
    title: string,
    description: string,
    category: Category,
    expiresAt: int,
    url: string,
    acquiredAt: int,
    tags: seq<string>,
    isFavorite: Option<bool>,
    isUsed: Option<bool>,
    usedAt: Option<int>,
    savedAmount: Option<int>)

  /** `Omit<Coupon, 'id' | 'acquiredAt'>`: what a caller supplies when adding a coupon. */
  datatype Draft = Draft(
    source: string,
    title: string,
    description: string,
    category: Category,
    expiresAt: int,
    url: string,
    tags: seq<string>,
    isFavorite: Option<bool>,
    isUsed: Option<bool>,
    usedAt: Option<int>,
    savedAmount: Option<int>)

  /** The fields of a coupon other than `id` and `acquiredAt`. */
  function DraftOf(c: Coupon): Draft
  {
    Draft(c.source, c.title, c.description, c.category, c.expiresAt, c.url, c.tags,
          c.isFavorite, c.isUsed, c.usedAt, c.savedAmount)
  }

  /** `1000 * 60 * 60 * 24`. */
  const MsPerDay: int := 86_400_000

  /** `Math.ceil(a / b)` for a positive divisor, on integers. */
  function CeilDiv(a: int, b: int): (q: int)
    requires b > 0
    ensures (q - 1) * b < a <= q * b
  {
    var f := (-a) / b;
    assert f * b <= -a < f * b + b;
    -f
  }

  /** `Math.ceil((expiresAt - now) / (1000 * 60 * 60 * 24))`: whole days left, rounded up. */
  function DaysUntilExpiry(expiresAt: int, now: int): (d: int)
    ensures (d - 1) * MsPerDay < expiresAt - now <= d * MsPerDay
  {
    CeilDiv(expiresAt - now, MsPerDay)
  }

  /** Truthiness of `coupon.isUsed`. */
  predicate IsUsed(c: Coupon)
  {
    c.isUsed == Some(true)
  }

  /** `coupon.savedAmount || 0`. */
  function SavedOrZero(c: Coupon): int
  {
    match c.savedAmount
    case Some(v) => v
    case None => 0
  }

  /** A local calendar date as `getFullYear()`, `getMonth()` (0 to 11) and `getDate()` report it. */
  datatype CivilDate = CivilDate(year: int, month: int, day: int)

  /** The local-time calendar date of an instant; the time zone lives inside it. */
  type LocalCalendar = int -> CivilDate

  /** The month a date belongs to, numbered consecutively across years. */
  function MonthIndex(year: int, month: int): int
  {
    12 * year + month
  }

  /** The carrying of an out-of-range month into the year that `new Date(year, month, day)`
      performs, on the proleptic Gregorian calendar (years 100 to 9999; see README). */
  function NormalizeMonth(year: int, month: int): (r: (int, int))
    ensures 0 <= r.1 < 12
    ensures MonthIndex(r.0, r.1) == MonthIndex(year, month)
  {
    (year + month / 12, month % 12)
  }
}
