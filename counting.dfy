/** Counting records: a `Record<string, number>` filled by `stats[k] = (stats[k] || 0) + 1`
    and read back with `Object.entries`, which lists keys in the order they were first
    set; and the stable sort by descending count that the ranking and tag views apply. */
module Counting {

  import opened Seqs

  /** The keys of a record, in entry order. */
  function KeysOf<K>(t: seq<(K, nat)>): (r: seq<K>)
    ensures |r| == |t|
    ensures forall i :: 0 <= i < |t| ==> r[i] == t[i].0
  {
    seq(|t|, i requires 0 <= i < |t| => t[i].0)
  }

  predicate DistinctKeys<K(==)>(t: seq<(K, nat)>)
  {
    forall i, j :: 0 <= i < j < |t| ==> t[i].0 != t[j].0
  }

  /** Position of the first occurrence of `k` in `ks`. */
  function FirstIndex<K(==)>(ks: seq<K>, k: K): (n: nat)
    requires k in ks
    ensures n < |ks| && ks[n] == k && k !in ks[..n]
  {
    if ks[0] == k then 0 else 1 + FirstIndex(ks[1..], k)
  }

  lemma FirstIndexSnoc<K>(ks: seq<K>, x: K, k: K)
    requires k in ks
    ensures FirstIndex(ks + [x], k) == FirstIndex(ks, k)
  {
    assert (ks + [x])[FirstIndex(ks, k)] == k;
  }

  /** Where key `k` sits in the record, or -1 when it has none. */
  function KeyIndex<K(==)>(t: seq<(K, nat)>, k: K): (n: int)
    ensures -1 <= n < |t|
    ensures n >= 0 ==> t[n].0 == k
    ensures n < 0 <==> k !in KeysOf(t)
    decreases |t|
  {
    if t == [] then -1
    else if t[|t| - 1].0 == k then |t| - 1
    else
      assert KeysOf(t) == KeysOf(t[..|t| - 1]) + [t[|t| - 1].0];
      KeyIndex(t[..|t| - 1], k)
  }

  /** One `record[k] = (record[k] || 0) + 1` step on a record with distinct keys: the
      key's count goes up by one, or the key is added at the end with count 1. */
  function Bump<K(==)>(t: seq<(K, nat)>, k: K): (r: seq<(K, nat)>)
    requires DistinctKeys(t)
    ensures DistinctKeys(r)
    ensures |r| == if k in KeysOf(t) then |t| else |t| + 1
    ensures forall i :: 0 <= i < |t| ==> r[i].0 == t[i].0
    ensures forall i :: 0 <= i < |t| ==> r[i].1 == if t[i].0 == k then t[i].1 + 1 else t[i].1
    ensures |r| > |t| ==> r[|t|] == (k, 1)
  {
    var n := KeyIndex(t, k);
    if n >= 0 then t[n := (k, t[n].1 + 1)] else t + [(k, 1)]
  }

  /** The record a `forEach` over `ks` leaves: each distinct key once, with the number of
      times it occurs. */
  function Tally<K(==,!new)>(ks: seq<K>): (t: seq<(K, nat)>)
    ensures DistinctKeys(t)
    decreases |ks|
  {
    if ks == [] then []
    else Bump(Tally(ks[..|ks| - 1]), ks[|ks| - 1])
  }

  /** The tally has an entry for exactly the keys that occur, each holding its number of
      occurrences. */
  lemma {:induction false} TallySpec<K(!new)>(ks: seq<K>)
    ensures forall k :: k in KeysOf(Tally(ks)) <==> k in ks
    ensures forall i :: 0 <= i < |Tally(ks)| ==> Tally(ks)[i].1 == multiset(ks)[Tally(ks)[i].0]
    decreases |ks|
  {
    if ks != [] {
      var init, k := ks[..|ks| - 1], ks[|ks| - 1];
      assert ks == init + [k];
      TallySpec(init);
    }
  }

  /** Keys are listed in the order of their first occurrence. */
  lemma {:induction false} TallyFirstSeenOrder<K(!new)>(ks: seq<K>)
    ensures forall i :: 0 <= i < |Tally(ks)| ==> Tally(ks)[i].0 in ks
    ensures forall i, j :: 0 <= i < j < |Tally(ks)| ==>
              FirstIndex(ks, Tally(ks)[i].0) < FirstIndex(ks, Tally(ks)[j].0)
    decreases |ks|
  {
    TallyKeysOccur(ks);
    if ks != [] {
      var init, k := ks[..|ks| - 1], ks[|ks| - 1];
      assert ks == init + [k];
      TallyFirstSeenOrder(init);
      FirstSeenStep(init, k);
    }
  }

  lemma TallyKeysOccur<K(!new)>(ks: seq<K>)
    ensures forall i :: 0 <= i < |Tally(ks)| ==> Tally(ks)[i].0 in ks
  {
    TallySpec(ks);
    var t := Tally(ks);
    forall i | 0 <= i < |t| ensures t[i].0 in ks {
      assert t[i].0 in KeysOf(t);
    }
  }

  /** Counting one more key keeps the first-seen order. */
  lemma FirstSeenStep<K(!new)>(init: seq<K>, k: K)
    requires forall i :: 0 <= i < |Tally(init)| ==> Tally(init)[i].0 in init
    requires forall i, j :: 0 <= i < j < |Tally(init)| ==>
               FirstIndex(init, Tally(init)[i].0) < FirstIndex(init, Tally(init)[j].0)
    ensures forall i :: 0 <= i < |Tally(init + [k])| ==> Tally(init + [k])[i].0 in init + [k]
    ensures forall i, j :: 0 <= i < j < |Tally(init + [k])| ==>
              FirstIndex(init + [k], Tally(init + [k])[i].0) < FirstIndex(init + [k], Tally(init + [k])[j].0)
  {
    TallySnoc(init, k);
    TallySpec(init);
    BumpFirstSeen(init, Tally(init), k);
  }

  /** Bumping a record listed in first-seen order of `ks` with the next key `k` lists it
      in first-seen order of `ks + [k]`. */
  lemma BumpFirstSeen<K>(ks: seq<K>, t0: seq<(K, nat)>, k: K)
    requires DistinctKeys(t0)
    requires forall x :: x in KeysOf(t0) <==> x in ks
    requires forall i :: 0 <= i < |t0| ==> t0[i].0 in ks
    requires forall i, j :: 0 <= i < j < |t0| ==> FirstIndex(ks, t0[i].0) < FirstIndex(ks, t0[j].0)
    ensures forall i :: 0 <= i < |Bump(t0, k)| ==> Bump(t0, k)[i].0 in ks + [k]
    ensures forall i, j :: 0 <= i < j < |Bump(t0, k)| ==>
              FirstIndex(ks + [k], Bump(t0, k)[i].0) < FirstIndex(ks + [k], Bump(t0, k)[j].0)
  {
    var ks', t := ks + [k], Bump(t0, k);
    forall i | 0 <= i < |t| ensures t[i].0 in ks' {
      if i < |t0| {
        assert t[i].0 == t0[i].0;
      }
    }
    forall i | 0 <= i < |t0| ensures FirstIndex(ks', t[i].0) == FirstIndex(ks, t0[i].0) {
      FirstIndexSnoc(ks, k, t0[i].0);
    }
    if |t| > |t0| {
      assert k !in ks;
      assert FirstIndex(ks', k) == |ks|;
    }
  }

  /** `record[k] = (record[k] || 0) + 1` over the elements in order is exactly `Tally`. */
  lemma TallySnoc<K(!new)>(ks: seq<K>, k: K)
    ensures Tally(ks + [k]) == Bump(Tally(ks), k)
  {
    assert (ks + [k])[..|ks|] == ks;
  }

  /** A record bumped with each key of `ks` in turn. */
  function TallyFrom<K(==)>(t: seq<(K, nat)>, ks: seq<K>): (r: seq<(K, nat)>)
    requires DistinctKeys(t)
    ensures DistinctKeys(r)
    decreases |ks|
  {
    if ks == [] then t else TallyFrom(Bump(t, ks[0]), ks[1..])
  }

  /** Going on counting from the tally of `seen` is counting `seen + ks`. */
  lemma {:induction false} TallyFromTally<K(!new)>(seen: seq<K>, ks: seq<K>)
    ensures TallyFrom(Tally(seen), ks) == Tally(seen + ks)
    decreases |ks|
  {
    if ks != [] {
      var k, rest, seen' := ks[0], ks[1..], seen + [ks[0]];
      TallySnoc(seen, k);
      assert Tally(seen') == Bump(Tally(seen), k);
      TallyFromTally(seen', rest);
      AppendFirst(seen, ks);
    } else {
      assert seen + ks == seen;
    }
  }

  lemma AppendFirst<K>(a: seq<K>, ks: seq<K>)
    requires ks != []
    ensures a + [ks[0]] + ks[1..] == a + ks
  {
    assert ks == [ks[0]] + ks[1..];
  }

  /** The counts of a tally add up to the number of keys counted. */
  lemma {:induction false} TallyTotal<K(!new)>(ks: seq<K>)
    ensures Sum((e: (K, nat)) => e.1, Tally(ks)) == |ks|
    decreases |ks|
  {
    if ks != [] {
      var init, k := ks[..|ks| - 1], ks[|ks| - 1];
      assert ks == init + [k];
      TallyTotal(init);
      BumpTotal(Tally(init), k);
    }
  }

  lemma BumpTotal<K>(t: seq<(K, nat)>, k: K)
    requires DistinctKeys(t)
    ensures Sum((e: (K, nat)) => e.1, Bump(t, k)) == Sum((e: (K, nat)) => e.1, t) + 1
  {
    var n := KeyIndex(t, k);
    if n >= 0 {
      SumUpdate((e: (K, nat)) => e.1, t, n, (k, t[n].1 + 1));
    } else {
      SumSnoc((e: (K, nat)) => e.1, t, (k, 1));
    }
  }

  /** Counts never rise along the sequence. */
  predicate NonIncreasing<K>(t: seq<(K, nat)>)
  {
    forall i, j :: 0 <= i < j < |t| ==> t[i].1 >= t[j].1
  }

  /** The entries having count `c`, in order. */
  function WithCount<K(==,!new)>(t: seq<(K, nat)>, c: nat): seq<(K, nat)>
  {
    Filter((e: (K, nat)) => e.1 == c, t)
  }

  /** Places `e` before the first entry whose count is not larger, so that among equal
      counts the earlier entry stays first. */
  function Insert<K(==,!new)>(e: (K, nat), t: seq<(K, nat)>): (r: seq<(K, nat)>)
    requires NonIncreasing(t)
    ensures NonIncreasing(r)
    ensures multiset(r) == multiset(t) + multiset{e}
    ensures |r| == |t| + 1
    decreases |t|
  {
    if t == [] || t[0].1 <= e.1 then
      NonIncreasingCons(e, t);
      [e] + t
    else
      var rest := Insert(e, t[1..]);
      assert t == [t[0]] + t[1..];
      assert forall x :: x in rest ==> x in multiset(t[1..]) + multiset{e};
      NonIncreasingCons(t[0], rest);
      [t[0]] + rest
  }

  lemma NonIncreasingCons<K>(x: (K, nat), t: seq<(K, nat)>)
    requires NonIncreasing(t)
    requires forall y :: y in t ==> y.1 <= x.1
    ensures NonIncreasing([x] + t)
  {
    forall i, j | 0 <= i < j < |[x] + t| ensures ([x] + t)[i].1 >= ([x] + t)[j].1 {
      if i > 0 {
        assert ([x] + t)[i] == t[i - 1] && ([x] + t)[j] == t[j - 1];
      } else {
        assert ([x] + t)[j] in t;
      }
    }
  }

  /** `entries.sort(([, a], [, b]) => b - a)`: a stable sort by descending count. */
  function SortByCount<K(==,!new)>(t: seq<(K, nat)>): (r: seq<(K, nat)>)
    ensures NonIncreasing(r)
    ensures multiset(r) == multiset(t)
    ensures |r| == |t|
    decreases |t|
  {
    if t == [] then []
    else
      assert t == [t[0]] + t[1..];
      Insert(t[0], SortByCount(t[1..]))
  }

  lemma {:induction false} InsertWithCount<K(!new)>(e: (K, nat), t: seq<(K, nat)>, c: nat)
    requires NonIncreasing(t)
    ensures WithCount(Insert(e, t), c) == if e.1 == c then [e] + WithCount(t, c) else WithCount(t, c)
    decreases |t|
  {
    if t == [] || t[0].1 <= e.1 {
      assert ([e] + t)[1..] == t;
    } else {
      InsertWithCount(e, t[1..], c);
      var rest := Insert(e, t[1..]);
      assert ([t[0]] + rest)[1..] == rest;
    }
  }

  /** The sort is stable: the entries of any one count keep their relative order. */
  lemma {:induction false} SortByCountStable<K(!new)>(t: seq<(K, nat)>, c: nat)
    ensures WithCount(SortByCount(t), c) == WithCount(t, c)
    decreases |t|
  {
    if t != [] {
      SortByCountStable(t[1..], c);
      InsertWithCount(t[0], SortByCount(t[1..]), c);
    }
  }

  /** The first `n` entries (`slice(0, n)`). */
  function Take<T>(t: seq<T>, n: nat): (r: seq<T>)
    ensures |r| <= n && |r| <= |t|
    ensures |t| <= n ==> r == t
    ensures r == t[..|r|]
  {
    if |t| <= n then t else t[..n]
  }

  /** Sorting a record with distinct keys keeps its keys distinct. */
  lemma SortedKeysDistinct<K>(t: seq<(K, nat)>, sorted: seq<(K, nat)>, i: int, j: int)
    requires DistinctKeys(t) && multiset(sorted) == multiset(t)
    requires 0 <= i < j < |sorted|
    ensures sorted[i].0 != sorted[j].0
  {
    assert sorted[i] in multiset(t) && sorted[j] in multiset(t);
    var a :| 0 <= a < |t| && t[a] == sorted[i];
    var b :| 0 <= b < |t| && t[b] == sorted[j];
    if a == b {
      assert multiset(sorted)[sorted[i]] >= 2 by {
        assert sorted[i] == sorted[j];
        MultisetTwo(sorted, i, j);
      }
      MultisetOfDistinct(t, a);
      assert false;
    }
  }

  /** In a record with distinct keys every entry occurs once. */
  lemma {:induction false} MultisetOfDistinct<K>(t: seq<(K, nat)>, a: int)
    requires DistinctKeys(t) && 0 <= a < |t|
    ensures multiset(t)[t[a]] == 1
  {
    assert t == t[..a] + [t[a]] + t[a + 1..];
    assert t[a] !in t[..a] by {
      forall x | 0 <= x < a ensures t[..a][x] != t[a] {
        assert t[x].0 != t[a].0;
      }
    }
    var rest := t[a + 1..];
    assert t[a] !in rest by {
      forall x | 0 <= x < |rest| ensures rest[x] != t[a] {
        assert t[a].0 != t[a + 1 + x].0;
      }
    }
  }

  /** In a prefix of a count-sorted permutation of `t`, every entry counts at least as much
      as an entry of `t` whose key the prefix lacks. */
  lemma PrefixLeavesOutNoLarger<K>(t: seq<(K, nat)>, sorted: seq<(K, nat)>, r: seq<(K, nat)>, m: int, i: int)
    requires multiset(sorted) == multiset(t) && NonIncreasing(sorted)
    requires |r| <= |sorted| && r == sorted[..|r|]
    requires 0 <= m < |t| && t[m].0 !in KeysOf(r)
    requires 0 <= i < |r|
    ensures t[m].1 <= r[i].1
  {
    assert t[m] in multiset(sorted);
    var p :| 0 <= p < |sorted| && sorted[p] == t[m];
    assert p >= |r|;
  }

  /** Inserting an entry adds its count to the total. */
  lemma {:induction false} InsertSum<K(!new)>(e: (K, nat), t: seq<(K, nat)>)
    requires NonIncreasing(t)
    ensures Sum((x: (K, nat)) => x.1, Insert(e, t)) == e.1 + Sum((x: (K, nat)) => x.1, t)
    decreases |t|
  {
    if !(t == [] || t[0].1 <= e.1) {
      InsertSum(e, t[1..]);
      var rest := Insert(e, t[1..]);
      assert ([t[0]] + rest)[1..] == rest;
    }
  }

  /** Sorting keeps the total of the counts. */
  lemma {:induction false} SortByCountSum<K(!new)>(t: seq<(K, nat)>)
    ensures Sum((x: (K, nat)) => x.1, SortByCount(t)) == Sum((x: (K, nat)) => x.1, t)
    decreases |t|
  {
    if t != [] {
      SortByCountSum(t[1..]);
      InsertSum(t[0], SortByCount(t[1..]));
    }
  }

  /** Sorting a record with distinct keys gives a record with distinct keys. */
  lemma SortByCountDistinct<K(!new)>(t: seq<(K, nat)>)
    requires DistinctKeys(t)
    ensures DistinctKeys(SortByCount(t))
  {
    var sorted := SortByCount(t);
    forall i, j | 0 <= i < j < |sorted| ensures sorted[i].0 != sorted[j].0 {
      SortedKeysDistinct(t, sorted, i, j);
    }
  }
}
