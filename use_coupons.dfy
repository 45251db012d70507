/** The `useCoupons` hook: the ordered coupon list, its three list operations, and the
    rule that the list is written to storage only once the initial load is done. */
module UseCoupons {

  import opened Coupons
  import opened Seqs
  import Decimal
  import CouponCard

  /** The coupon `addCoupon` builds: the supplied fields, the id made from the
      current time and the acquisition instant set to that time. */
  function NewCoupon(d: Draft, now: int): (c: Coupon)
    ensures DraftOf(c) == d
    ensures c.id == Decimal.IntToString(now)
    ensures c.acquiredAt == now
  {
    Coupon(Decimal.IntToString(now), d.source, d.title, d.description, d.category, d.expiresAt,
           d.url, now, d.tags, d.isFavorite, d.isUsed, d.usedAt, d.savedAmount)
  }

  /** The list `removeCoupon(id)` leaves: every coupon with that id dropped, the others kept in order. */
  function RemoveById(cs: seq<Coupon>, id: string): (r: seq<Coupon>)
    ensures forall c :: c in r ==> c.id != id
    ensures forall c: Coupon :: c.id != id ==> multiset(r)[c] == multiset(cs)[c]
    ensures SubsequenceOf(r, cs)
  {
    FilterSpec((c: Coupon) => c.id != id, cs);
    Filter((c: Coupon) => c.id != id, cs)
  }

  /** The list `clearExpiredCoupons` leaves at instant `now`: the coupons whose expiry is
      strictly later than `now`, every one of them, in order. */
  function ClearExpired(cs: seq<Coupon>, now: int): (r: seq<Coupon>)
    ensures forall c :: c in r ==> c.expiresAt > now
    ensures forall c: Coupon :: c.expiresAt > now ==> multiset(r)[c] == multiset(cs)[c]
    ensures SubsequenceOf(r, cs)
  {
    FilterSpec((c: Coupon) => c.expiresAt > now, cs);
    Filter((c: Coupon) => c.expiresAt > now, cs)
  }

  /** Removing an id that no coupon has leaves the list as it was. */
  lemma RemoveAbsentId(cs: seq<Coupon>, id: string)
    requires forall c :: c in cs ==> c.id != id
    ensures RemoveById(cs, id) == cs
  {
    FilterAll((c: Coupon) => c.id != id, cs);
  }

  /** Clearing expired coupons twice at the same instant clears them once. */
  lemma ClearExpiredIdempotent(cs: seq<Coupon>, now: int)
    ensures ClearExpired(ClearExpired(cs, now), now) == ClearExpired(cs, now)
  {
    FilterIdempotent((c: Coupon) => c.expiresAt > now, cs);
  }

  /** After clearing, the card shows no remaining coupon as expired at that instant,
      and a coupon expiring exactly then is gone. */
  lemma ClearExpiredLeavesNoExpired(cs: seq<Coupon>, now: int)
    ensures forall c :: c in ClearExpired(cs, now) ==> !CouponCard.IsExpired(c.expiresAt, now)
    ensures forall c :: c in cs && c.expiresAt == now ==> c !in ClearExpired(cs, now)
  {
  }

  /** What the storage read on mount found: no entry (or an empty one), a document that
      does not parse as a coupon array, or a parsed list. */
  datatype Stored = Missing | Unparsable | Saved(list: seq<Coupon>)

  /** The state of the hook: the list, the loading flag and every document written to storage. */
  class CouponStore {
    var coupons: seq<Coupon>
    var isLoading: bool
    var writes: seq<seq<Coupon>>

    /** Nothing is written while loading; once loaded, the last write is the current list. */
    ghost predicate Valid()
      reads this
    {
      (isLoading ==> writes == []) &&
      (!isLoading ==> writes != [] && writes[|writes| - 1] == coupons)
    }

    /** The initial render: an empty list, still loading. */
    constructor ()
      ensures Valid()
      ensures coupons == [] && isLoading && writes == []
    {
      coupons := [];
      isLoading := true;
      writes := [];
    }

    /** The save effect, run after every change of `coupons` or `isLoading`. */
    method SaveEffect()
      modifies this
      ensures coupons == old(coupons) && isLoading == old(isLoading)
      ensures writes == if isLoading then old(writes) else old(writes) + [coupons]
    {
      if !isLoading {
        writes := writes + [coupons];
      }
    }

    /** The mount effect, which runs once: the stored list, or the default list when the
        entry is missing or does not parse; then loading ends and the list is saved. */
    method Load(stored: Stored, defaults: seq<Coupon>)
      requires Valid() && isLoading
      modifies this
      ensures Valid() && !isLoading
      ensures coupons == (if stored.Saved? then stored.list else defaults)
      ensures writes == [coupons]
    {
      if stored.Saved? {
        coupons := stored.list;
      } else {
        coupons := defaults;
      }
      isLoading := false;
      SaveEffect();
    }

    method AddCoupon(d: Draft, now: int)
      requires Valid()
      modifies this
      ensures Valid() && isLoading == old(isLoading)
      ensures coupons == [NewCoupon(d, now)] + old(coupons)
      ensures |coupons| == |old(coupons)| + 1 && coupons[1..] == old(coupons)
      ensures writes == if isLoading then old(writes) else old(writes) + [coupons]
    {
      coupons := [NewCoupon(d, now)] + coupons;
      SaveEffect();
    }

    method RemoveCoupon(id: string)
      requires Valid()
      modifies this
      ensures Valid() && isLoading == old(isLoading)
      ensures coupons == RemoveById(old(coupons), id)
      ensures writes == if isLoading then old(writes) else old(writes) + [coupons]
    {
      coupons := RemoveById(coupons, id);
      SaveEffect();
    }

    method ClearExpiredCoupons(now: int)
      requires Valid()
      modifies this
      ensures Valid() && isLoading == old(isLoading)
      ensures coupons == ClearExpired(old(coupons), now)
      ensures writes == if isLoading then old(writes) else old(writes) + [coupons]
    {
      coupons := ClearExpired(coupons, now);
      SaveEffect();
    }
  }
}
