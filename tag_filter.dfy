/** The `TagFilter` component: tag usage counts in descending order, and the selection
    and mode changes it reports to its parent. */
module TagFilter {

  import opened Coupons
  import opened Seqs
  import opened Counting

  /** The tag lists of the coupons, in list order. */
  function TagLists(cs: seq<Coupon>): (r: seq<seq<string>>)
    ensures |r| == |cs|
    ensures forall i :: 0 <= i < |cs| ==> r[i] == cs[i].tags
  {
    seq(|cs|, i requires 0 <= i < |cs| => cs[i].tags)
  }

  /** Every tag entry of every coupon, coupon by coupon. */
  function AllTags(cs: seq<Coupon>): seq<string>
  {
    Flatten(TagLists(cs))
  }

  /** `tagStats`: count every tag entry with `stats[tag] = (stats[tag] || 0) + 1`, coupon by
      coupon and tag by tag, then sort the entries by descending count. */
  method TagStats(cs: seq<Coupon>) returns (tagStats: seq<(string, nat)>)
    ensures tagStats == SortByCount(Tally(AllTags(cs)))
  {
    var stats: seq<(string, nat)> := [];
    var i := 0;
    assert TagLists(cs[..0]) == [];
    while i < |cs|
      invariant 0 <= i <= |cs|
      invariant stats == Tally(AllTags(cs[..i]))
    {
      AllTagsStep(cs, i);
      stats := CountTags(stats, AllTags(cs[..i]), cs[i].tags);
      i := i + 1;
    }
    assert cs[..i] == cs;
    tagStats := SortByCount(stats);
  }

  lemma AllTagsStep(cs: seq<Coupon>, i: int)
    requires 0 <= i < |cs|
    ensures AllTags(cs[..i + 1]) == AllTags(cs[..i]) + cs[i].tags
  {
    assert TagLists(cs[..i + 1]) == TagLists(cs[..i]) + [cs[i].tags];
    FlattenSnoc(TagLists(cs[..i]), cs[i].tags);
  }

  /** The inner `forEach` over one coupon's tags. */
  method CountTags(stats: seq<(string, nat)>, ghost seen: seq<string>, tags: seq<string>)
    returns (r: seq<(string, nat)>)
    requires stats == Tally(seen)
    ensures r == Tally(seen + tags)
  {
    r := stats;
    var j := 0;
    TallyFromTally(seen, tags);
    while j < |tags|
      invariant 0 <= j <= |tags|
      invariant DistinctKeys(r)
      invariant TallyFrom(r, tags[j..]) == Tally(seen + tags)
    {
      assert tags[j..][1..] == tags[j + 1..];
      r := Bump(r, tags[j]);
      j := j + 1;
    }
  }

  /** The tag list holds each tag once, with its number of occurrences over all coupons,
      in non-increasing order of that number. */
  lemma TagStatsCounts(cs: seq<Coupon>)
    ensures var r := SortByCount(Tally(AllTags(cs)));
      && NonIncreasing(r)
      && DistinctKeys(r)
      && (forall i :: 0 <= i < |r| ==> r[i].1 == multiset(AllTags(cs))[r[i].0])
  {
    var t := Tally(AllTags(cs));
    var r := SortByCount(t);
    TallySpec(AllTags(cs));
    SortByCountDistinct(t);
    forall i | 0 <= i < |r| ensures r[i].1 == multiset(AllTags(cs))[r[i].0] {
      assert r[i] in multiset(t);
    }
  }

  /** Every tag used by some coupon is in the tag list. */
  lemma TagStatsComplete(cs: seq<Coupon>, tag: string)
    requires tag in AllTags(cs)
    ensures tag in KeysOf(SortByCount(Tally(AllTags(cs))))
  {
    var t := Tally(AllTags(cs));
    var r := SortByCount(t);
    TallySpec(AllTags(cs));
    assert tag in KeysOf(t);
    var m :| 0 <= m < |t| && t[m].0 == tag;
    assert t[m] in multiset(r);
    var p :| 0 <= p < |r| && r[p] == t[m];
    assert KeysOf(r)[p] == tag;
  }

  /** The counts of the tag list add up to the number of tag entries over all coupons. */
  lemma TagStatsTotal(cs: seq<Coupon>)
    ensures Sum((e: (string, nat)) => e.1, SortByCount(Tally(AllTags(cs))))
         == Sum((s: seq<string>) => |s|, TagLists(cs))
  {
    SortByCountSum(Tally(AllTags(cs)));
    TallyTotal(AllTags(cs));
    FlattenLength(TagLists(cs));
  }

  /** Tags of equal count stay in the order they were first seen. */
  lemma TagStatsStable(cs: seq<Coupon>, c: nat)
    ensures WithCount(SortByCount(Tally(AllTags(cs))), c) == WithCount(Tally(AllTags(cs)), c)
  {
    SortByCountStable(Tally(AllTags(cs)), c);
  }

  /** `toggleTag`: a selected tag is removed (every occurrence), an unselected one is
      appended at the end. */
  function ToggleTag(selected: seq<string>, tag: string): (r: seq<string>)
    ensures tag in selected ==> tag !in r && |r| < |selected|
    ensures tag in selected ==> forall t :: t != tag ==> multiset(r)[t] == multiset(selected)[t]
    ensures tag in selected ==> SubsequenceOf(r, selected)
    ensures tag !in selected ==> |r| == |selected| + 1 && r[..|selected|] == selected && r[|selected|] == tag
  {
    if tag in selected then
      FilterSpec((t: string) => t != tag, selected);
      FilterDropsSome((t: string) => t != tag, selected, tag);
      Filter((t: string) => t != tag, selected)
    else selected + [tag]
  }

  /** A filter that rejects an element present in the sequence shortens it. */
  lemma {:induction false} FilterDropsSome<T>(p: T -> bool, s: seq<T>, x: T)
    requires x in s && !p(x)
    ensures |Filter(p, s)| < |s|
    decreases |s|
  {
    if s[0] != x {
      FilterDropsSome(p, s[1..], x);
    }
  }

  /** Selecting an unselected tag and toggling it again restores the selection. */
  lemma ToggleTwiceRestores(selected: seq<string>, tag: string)
    requires tag !in selected
    ensures ToggleTag(ToggleTag(selected, tag), tag) == selected
  {
    var once := selected + [tag];
    FilterSnoc((t: string) => t != tag, selected, tag);
    FilterAll((t: string) => t != tag, selected);
    assert Filter((t: string) => t != tag, selected) + [] == selected;
  }

  /** Deselecting a selected tag and toggling it again moves it to the end. */
  lemma ToggleTwiceMovesToEnd(selected: seq<string>, tag: string)
    requires tag in selected
    ensures ToggleTag(ToggleTag(selected, tag), tag) == Filter((t: string) => t != tag, selected) + [tag]
  {
  }

  /** A selection without duplicates keeps none after a toggle. */
  lemma ToggleKeepsDistinct(selected: seq<string>, tag: string)
    requires NoDuplicates(selected)
    ensures NoDuplicates(ToggleTag(selected, tag))
  {
    if tag in selected {
      FilterNoDuplicates((t: string) => t != tag, selected);
    }
  }

  /** `clearTags`: the empty selection, from which toggling a tag selects just that tag. */
  function ClearTags(): (r: seq<string>)
    ensures forall tag :: tag !in r && ToggleTag(r, tag) == [tag]
  {
    []
  }

  /** The AND/OR match mode of the tag filter. */
  datatype FilterMode = And | Or

  /** The mode button: `filterMode === 'AND' ? 'OR' : 'AND'`. */
  function FlipMode(m: FilterMode): (r: FilterMode)
    ensures r != m
  {
    if m == And then Or else And
  }

  /** Pressing the mode button twice restores the mode. */
  lemma FlipModeTwice(m: FilterMode)
    ensures FlipMode(FlipMode(m)) == m
  {
  }
}
