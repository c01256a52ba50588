/** An insertion-ordered counter: Python's `defaultdict(int)` used only
    through `d[k] += 1` and iterated with `d.items()`. The keys come out in
    the order in which each was first counted. */
module Tallies {

  datatype Tally<K> = Tally(order: seq<K>, counts: map<K, nat>)

  function EmptyTally<K>(): Tally<K> {
    Tally([], map[])
  }

  /** The keys are listed once each, and exactly the counted keys are listed. */
  ghost predicate Valid<K(!new)>(t: Tally<K>) {
    && (forall i, j :: 0 <= i < j < |t.order| ==> t.order[i] != t.order[j])
    && (forall k :: k in t.counts <==> k in t.order)
  }

  /** `d[k]` on a defaultdict: 0 for a key never counted. */
  function CountOf<K>(t: Tally<K>, k: K): nat {
    if k in t.counts then t.counts[k] else 0
  }

  /** `d[k] += 1`. */
  function Add<K>(t: Tally<K>, k: K): Tally<K> {
    if k in t.counts then Tally(t.order, t.counts[k := t.counts[k] + 1])
    else Tally(t.order + [k], t.counts[k := 1])
  }

  /** Counting `k` raises its count by one and leaves the others alone; a
      new key is appended to the iteration order. */
  lemma AddCounts<K(!new)>(t: Tally<K>, k: K)
    ensures Add(t, k).counts.Keys == t.counts.Keys + {k}
    ensures CountOf(Add(t, k), k) == CountOf(t, k) + 1
    ensures forall j :: j != k ==> CountOf(Add(t, k), j) == CountOf(t, j)
    ensures Valid(t) ==> Valid(Add(t, k))
    ensures k in t.counts ==> Add(t, k).order == t.order
    ensures k !in t.counts ==> Add(t, k).order == t.order + [k]
  {
  }

  /** The counter after counting every element of `ks`, in order. */
  function TallyOf<K>(ks: seq<K>): Tally<K> {
    if ks == [] then EmptyTally() else Add(TallyOf(ks[..|ks| - 1]), ks[|ks| - 1])
  }

  lemma TallyOfAppend<K>(ks: seq<K>, k: K)
    ensures TallyOf(ks + [k]) == Add(TallyOf(ks), k)
  {
    assert (ks + [k])[..|ks|] == ks;
  }

  /** Sum of the counts of the keys of `order` that `keep` selects. */
  function SumOver<K>(order: seq<K>, t: Tally<K>, keep: K -> bool): nat {
    if order == [] then 0
    else
      var last := order[|order| - 1];
      SumOver(order[..|order| - 1], t, keep) + (if keep(last) then CountOf(t, last) else 0)
  }

  function AnyKey<K>(k: K): bool {
    true
  }

  /** Sum of all the counts, taken over the iteration order. */
  function Total<K>(t: Tally<K>): nat {
    SumOver(t.order, t, AnyKey)
  }

  /** The number of elements of `ks` that `keep` selects. */
  function CountWhere<K>(ks: seq<K>, keep: K -> bool): nat {
    if ks == [] then 0
    else CountWhere(ks[..|ks| - 1], keep) + (if keep(ks[|ks| - 1]) then 1 else 0)
  }

  // ---------------------------------------------------------------------

  lemma {:induction false} TallyOfValid<K(!new)>(ks: seq<K>)
    ensures Valid(TallyOf(ks))
    decreases |ks|
  {
    if ks != [] {
      TallyOfValid(ks[..|ks| - 1]);
      AddCounts(TallyOf(ks[..|ks| - 1]), ks[|ks| - 1]);
    }
  }

  /** Each key counts exactly its occurrences in the input, and the keys are
      exactly the values that occur. */
  lemma {:induction false} TallyOfCounts<K(!new)>(ks: seq<K>)
    ensures forall k :: k in TallyOf(ks).counts <==> k in ks
    ensures forall k :: CountOf(TallyOf(ks), k) == multiset(ks)[k]
    decreases |ks|
  {
    if ks != [] {
      var init := ks[..|ks| - 1];
      TallyOfCounts(init);
      AddCounts(TallyOf(init), ks[|ks| - 1]);
      assert ks == init + [ks[|ks| - 1]];
      assert multiset(ks) == multiset(init) + multiset{ks[|ks| - 1]};
    }
  }

  /** SumOver only looks at the keys it is given. */
  lemma {:induction false} SumOverSameCounts<K(!new)>(order: seq<K>, t: Tally<K>, u: Tally<K>, keep: K -> bool)
    requires forall k :: k in order ==> CountOf(t, k) == CountOf(u, k)
    ensures SumOver(order, t, keep) == SumOver(order, u, keep)
    decreases |order|
  {
    if order != [] {
      SumOverSameCounts(order[..|order| - 1], t, u, keep);
    }
  }

  /** Raising one listed key's count by one raises the sum by one when
      `keep` selects that key, and leaves it alone otherwise. */
  lemma {:induction false} SumOverBump<K(!new)>(order: seq<K>, t: Tally<K>, u: Tally<K>, k: K, keep: K -> bool)
    requires forall i, j :: 0 <= i < j < |order| ==> order[i] != order[j]
    requires k in order
    requires CountOf(u, k) == CountOf(t, k) + 1
    requires forall j :: j != k ==> CountOf(u, j) == CountOf(t, j)
    ensures SumOver(order, u, keep) == SumOver(order, t, keep) + (if keep(k) then 1 else 0)
    decreases |order|
  {
    var init, last := order[..|order| - 1], order[|order| - 1];
    if last == k {
      assert k !in init by {
        forall i | 0 <= i < |init| ensures init[i] != k {
          assert order[i] != order[|order| - 1];
        }
      }
      SumOverSameCounts(init, t, u, keep);
    } else {
      assert k in init by {
        var i :| 0 <= i < |order| && order[i] == k;
        assert i < |order| - 1;
        assert init[i] == k;
      }
      SumOverBump(init, t, u, k, keep);
    }
  }

  /** Counting one more key adds one to the sum exactly when `keep` selects it. */
  lemma AddSumOver<K(!new)>(t: Tally<K>, k: K, keep: K -> bool)
    requires Valid(t)
    ensures SumOver(Add(t, k).order, Add(t, k), keep) == SumOver(t.order, t, keep) + (if keep(k) then 1 else 0)
  {
    var r := Add(t, k);
    AddCounts(t, k);
    if k in t.counts {
      SumOverBump(t.order, t, r, k, keep);
    } else {
      assert r.order[..|r.order| - 1] == t.order;
      SumOverSameCounts(t.order, t, r, keep);
    }
  }

  /** Summing the tally's counts over the keys `keep` selects counts the
      elements `keep` selects. */
  lemma {:induction false} TallyOfSumOver<K(!new)>(ks: seq<K>, keep: K -> bool)
    ensures SumOver(TallyOf(ks).order, TallyOf(ks), keep) == CountWhere(ks, keep)
    decreases |ks|
  {
    if ks != [] {
      var init := ks[..|ks| - 1];
      TallyOfSumOver(init, keep);
      TallyOfValid(init);
      AddSumOver(TallyOf(init), ks[|ks| - 1], keep);
    }
  }

  /** The counts add up to the number of elements counted. */
  lemma TallyOfTotal<K(!new)>(ks: seq<K>)
    ensures Total(TallyOf(ks)) == |ks|
  {
    TallyOfSumOver(ks, AnyKey);
    CountWhereAnyKey(ks);
  }

  lemma {:induction false} CountWhereAnyKey<K>(ks: seq<K>)
    ensures CountWhere(ks, AnyKey) == |ks|
    decreases |ks|
  {
    if ks != [] {
      CountWhereAnyKey(ks[..|ks| - 1]);
    }
  }
}
