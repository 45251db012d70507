/** The urgency classification `CouponCard` computes for one coupon at instant `now`,
    and the border and badge it picks from it. */
module CouponCard {

  import opened Coupons

  /** `expiresAt < now`: the expiry date is shown in red. The day count agrees in sign:
      none left once expired, and never negative before. */
  predicate IsExpired(expiresAt: int, now: int)
    ensures IsExpired(expiresAt, now) ==> DaysUntilExpiry(expiresAt, now) <= 0
    ensures !IsExpired(expiresAt, now) ==> DaysUntilExpiry(expiresAt, now) >= 0
  {
    expiresAt < now
  }

  /** `daysUntilExpiry <= 7 && daysUntilExpiry > 0`: expiring after `now` and at most
      seven days later. */
  predicate IsExpiringSoon(expiresAt: int, now: int)
    ensures IsExpiringSoon(expiresAt, now) <==> now < expiresAt <= now + 7 * MsPerDay
  {
    var days := DaysUntilExpiry(expiresAt, now);
    assert days > 7 ==> (days - 1) * MsPerDay >= 7 * MsPerDay;
    assert days <= 0 ==> days * MsPerDay <= 0;
    days <= 7 && days > 0
  }

  /** `daysUntilExpiry <= 3 && daysUntilExpiry > 0`: expiring after `now` and at most
      three days later. */
  predicate IsExpiringVeryEarly(expiresAt: int, now: int)
    ensures IsExpiringVeryEarly(expiresAt, now) <==> now < expiresAt <= now + 3 * MsPerDay
  {
    var days := DaysUntilExpiry(expiresAt, now);
    assert days > 3 ==> (days - 1) * MsPerDay >= 3 * MsPerDay;
    assert days <= 0 ==> days * MsPerDay <= 0;
    days <= 3 && days > 0
  }

  /** The two thresholds nest, and an expired coupon meets neither. */
  lemma UrgencyConsistent(expiresAt: int, now: int)
    ensures IsExpiringVeryEarly(expiresAt, now) ==> IsExpiringSoon(expiresAt, now)
    ensures IsExpired(expiresAt, now) ==>
              !IsExpiringSoon(expiresAt, now) && !IsExpiringVeryEarly(expiresAt, now)
  {
  }

  /** Two days ahead meets both thresholds; ten days ahead meets neither. */
  lemma UrgencyExamples(now: int)
    ensures IsExpiringSoon(now + 2 * MsPerDay, now) && IsExpiringVeryEarly(now + 2 * MsPerDay, now)
    ensures !IsExpiringSoon(now + 10 * MsPerDay, now) && !IsExpiringVeryEarly(now + 10 * MsPerDay, now)
  {
  }

  datatype Border = RedBorder | OrangeBorder | NeutralBorder

  /** The urgency badges next to the category label, each carrying the days left. */
  datatype Badge = RedBadge(days: int) | OrangeBadge(days: int)

  /** The card's border colour: red when very early, else orange when soon, else neutral. */
  function BorderOf(expiresAt: int, now: int): (b: Border)
    ensures b == RedBorder <==> IsExpiringVeryEarly(expiresAt, now)
    ensures b == OrangeBorder <==>
              IsExpiringSoon(expiresAt, now) && !IsExpiringVeryEarly(expiresAt, now)
    ensures b == NeutralBorder <==> !IsExpiringSoon(expiresAt, now)
  {
    if IsExpiringVeryEarly(expiresAt, now) then RedBorder
    else if IsExpiringSoon(expiresAt, now) then OrangeBorder
    else NeutralBorder
  }

  /** The badges the card renders: the red one when very early, the orange one when soon
      but not very early; never both. */
  function BadgesOf(expiresAt: int, now: int): (r: seq<Badge>)
    ensures |r| <= 1
    ensures |r| == 1 <==> IsExpiringSoon(expiresAt, now)
    ensures forall b :: b in r ==> b.days == DaysUntilExpiry(expiresAt, now) && 0 < b.days <= 7
    ensures forall b :: b in r ==> (b.RedBadge? <==> BorderOf(expiresAt, now) == RedBorder)
  {
    var days := DaysUntilExpiry(expiresAt, now);
    (if IsExpiringVeryEarly(expiresAt, now) then [RedBadge(days)] else []) +
    (if IsExpiringSoon(expiresAt, now) && !IsExpiringVeryEarly(expiresAt, now)
     then [OrangeBadge(days)] else [])
  }
}
