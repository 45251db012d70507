/** The home page's category filter over the coupon list. */
module HomePage {

  import opened Coupons
  import opened Seqs

  /** `CouponCategory | 'all'`. */
  datatype CategorySelection = All | Only(category: Category)

  /** `filteredCoupons`: everything for `'all'`, otherwise exactly the coupons of the
      selected category, every one of them, in list order. */
  function FilteredCoupons(selected: CategorySelection, cs: seq<Coupon>): (r: seq<Coupon>)
    ensures selected == All ==> r == cs
    ensures selected.Only? ==> forall c :: c in r ==> c.category == selected.category
    ensures selected.Only? ==>
              forall c: Coupon :: c.category == selected.category ==> multiset(r)[c] == multiset(cs)[c]
    ensures SubsequenceOf(r, cs) && |r| <= |cs|
  {
    if selected == All then
      SubsequenceReflexive(cs);
      cs
    else
      FilterSpec((c: Coupon) => c.category == selected.category, cs);
      Filter((c: Coupon) => c.category == selected.category, cs)
  }
}
