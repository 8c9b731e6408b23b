/** First-match filling: items in priority order fill the keys still missing from a base map, never overwriting. The
    result is the priority merge of the items whatever order equal priorities come in. */
module PriorityMerge {
  import opened Priorities

  /** How an item takes part in a merge: its priority and the values it offers. */
  datatype Source<!T, !V> = Source(priority: T -> int, values: T -> map<string, V>)

  /** The code's way: apply the items one after another. */
  function FillAll<T, V>(src: Source<T, V>, items: seq<T>, base: map<string, V>): map<string, V> {
    if items == [] then base
    else FillAll(src, items[1..], src.values(items[0]) + base)
  }

  ghost predicate Defines<T(!new), V(!new)>(src: Source<T, V>, items: seq<T>, x: T, key: string) {
    x in items && key in src.values(x)
  }

  /** x is among the items of highest priority that define the key. */
  ghost predicate Leads<T(!new), V(!new)>(src: Source<T, V>, items: seq<T>, x: T, key: string) {
    Defines(src, items, x, key) && forall y | Defines(src, items, y, key) :: src.priority(y) <= src.priority(x)
  }

  /** The declarative merge, one key at a time: the base's own value, else a leading item's, else nothing. */
  ghost predicate MergedAt<T(!new), V(!new)>(src: Source<T, V>, items: seq<T>, base: map<string, V>,
        result: map<string, V>, key: string) {
    if key in base then key in result && result[key] == base[key]
    else if key in result then exists x :: Leads(src, items, x, key) && src.values(x)[key] == result[key]
    else forall x | x in items :: key !in src.values(x)
  }

  ghost predicate IsPriorityMerge<T(!new), V(!new)>(src: Source<T, V>, items: seq<T>, base: map<string, V>,
        result: map<string, V>) {
    forall key :: MergedAt(src, items, base, result, key)
  }

  /** Items that lead the same key agree on its value. */
  ghost predicate LeadersAgree<T(!new), V(!new)>(src: Source<T, V>, items: seq<T>) {
    forall x, y, key | Leads(src, items, x, key) && Leads(src, items, y, key) ::
          src.values(x)[key] == src.values(y)[key]
  }

  /** Filling in priority order is the priority merge. */
  lemma {:induction false} FillAllIsPriorityMerge<T(!new), V(!new)>(src: Source<T, V>, items: seq<T>,
        base: map<string, V>)
    requires NonIncreasing(src.priority, items)
    ensures IsPriorityMerge(src, items, base, FillAll(src, items, base))
  {
    if items != [] {
      var head, rest := items[0], items[1..];
      assert items == [head] + rest;
      var result := FillAll(src, items, base);
      FillAllIsPriorityMerge(src, rest, src.values(head) + base);
      forall key
        ensures MergedAt(src, items, base, result, key)
      {
        assert MergedAt(src, rest, src.values(head) + base, result, key);
        if key !in base && key in src.values(head) {
          assert Leads(src, items, head, key);
        } else if key !in base && key in result {
          var x :| Leads(src, rest, x, key) && src.values(x)[key] == result[key];
          assert forall y | Defines(src, items, y, key) :: Defines(src, rest, y, key);
          assert Leads(src, items, x, key);
        }
      }
    }
  }

  /** The merge depends only on which items there are. */
  lemma MergeIgnoresOrder<T(!new), V(!new)>(src: Source<T, V>, a: seq<T>, b: seq<T>, base: map<string, V>,
        result: map<string, V>)
    requires multiset(a) == multiset(b) && IsPriorityMerge(src, a, base, result)
    ensures IsPriorityMerge(src, b, base, result)
  {
    SameElements(a, b);
    forall key
      ensures MergedAt(src, b, base, result, key)
    {
      assert MergedAt(src, a, base, result, key);
      assert forall x :: Defines(src, a, x, key) <==> Defines(src, b, x, key);
      if key !in base && key in result {
        var x :| Leads(src, a, x, key) && src.values(x)[key] == result[key];
        assert Leads(src, b, x, key);
      }
    }
  }

  /** Whatever the sort does with equal priorities, the result is the priority merge of the unsorted items. */
  lemma SortThenFillIsPriorityMerge<T(!new), V(!new)>(src: Source<T, V>, items: seq<T>, sorted: seq<T>,
        base: map<string, V>)
    requires Sorts(src.priority, items, sorted)
    ensures IsPriorityMerge(src, items, base, FillAll(src, sorted, base))
  {
    FillAllIsPriorityMerge(src, sorted, base);
    MergeIgnoresOrder(src, sorted, items, base, FillAll(src, sorted, base));
  }

  /** Where leading items agree there is only one merge. */
  lemma AgreeingMergesAreEqual<T(!new), V(!new)>(src: Source<T, V>, items: seq<T>, base: map<string, V>,
        r: map<string, V>, s: map<string, V>)
    requires LeadersAgree(src, items)
    requires IsPriorityMerge(src, items, base, r) && IsPriorityMerge(src, items, base, s)
    ensures r == s
  {
    forall key
      ensures key in r <==> key in s
      ensures key in r ==> r[key] == s[key]
    {
      assert MergedAt(src, items, base, r, key) && MergedAt(src, items, base, s, key);
      if key !in base && key in r {
        var x :| Leads(src, items, x, key) && src.values(x)[key] == r[key];
        assert key in s;
      }
      if key !in base && key in s {
        var x :| Leads(src, items, x, key) && src.values(x)[key] == s[key];
        assert key in r;
      }
    }
  }

  lemma {:induction false} FillAllAppend<T, V>(src: Source<T, V>, items: seq<T>, x: T, base: map<string, V>)
    ensures FillAll(src, items + [x], base) == src.values(x) + FillAll(src, items, base)
  {
    if items == [] {
      assert items + [x] == [x];
      assert FillAll(src, [x][1..], src.values(x) + base) == src.values(x) + base;
    } else {
      assert (items + [x])[1..] == items[1..] + [x];
      FillAllAppend(src, items[1..], x, src.values(items[0]) + base);
    }
  }

  lemma {:induction false} FillAllKeeps<T, V>(src: Source<T, V>, items: seq<T>, base: map<string, V>, key: string)
    requires key in base
    ensures key in FillAll(src, items, base) && FillAll(src, items, base)[key] == base[key]
  {
    if items != [] {
      FillAllKeeps(src, items[1..], src.values(items[0]) + base, key);
    }
  }

  lemma {:induction false} InsertedLeaderWins<T, V>(src: Source<T, V>, x: T, sorted: seq<T>, base: map<string, V>,
        key: string)
    requires key in src.values(x) && key !in base
    requires forall y | y in sorted && key in src.values(y) :: src.priority(y) <= src.priority(x)
    ensures key in FillAll(src, Insert(src.priority, x, sorted), base)
    ensures FillAll(src, Insert(src.priority, x, sorted), base)[key] == src.values(x)[key]
  {
    if sorted == [] || src.priority(sorted[0]) <= src.priority(x) {
      assert ([x] + sorted)[1..] == sorted;
      FillAllKeeps(src, sorted, src.values(x) + base, key);
    } else {
      InsertedLeaderWins(src, x, sorted[1..], src.values(sorted[0]) + base, key);
      assert ([sorted[0]] + Insert(src.priority, x, sorted[1..]))[1..] == Insert(src.priority, x, sorted[1..]);
    }
  }

  /** Every leading item wins its key under some outcome of the sort. */
  lemma LeaderMayWin<T(!new), V(!new)>(src: Source<T, V>, items: seq<T>, x: T, base: map<string, V>, key: string)
    returns (sorted: seq<T>)
    requires Leads(src, items, x, key) && key !in base
    ensures Sorts(src.priority, items, sorted)
    ensures key in FillAll(src, sorted, base) && FillAll(src, sorted, base)[key] == src.values(x)[key]
  {
    var i :| 0 <= i < |items| && items[i] == x;
    var rest := items[..i] + items[i + 1..];
    sorted := SortedWithFirst(src.priority, items, i);
    SortedWithFirstSorts(src.priority, items, i);
    SortedSorts(src.priority, rest);
    SameElements(Sorted(src.priority, rest), rest);
    forall y | y in Sorted(src.priority, rest) && key in src.values(y)
      ensures src.priority(y) <= src.priority(x)
    {
      assert y in rest;
      assert Defines(src, items, y, key);
    }
    InsertedLeaderWins(src, x, Sorted(src.priority, rest), base, key);
  }

  /** The merge is independent of the sort for every base exactly when leading items agree. */
  lemma MergeIsDeterminedExactlyWhenLeadersAgree<T(!new), V(!new)>(src: Source<T, V>, items: seq<T>)
    ensures (forall a, b, base | Sorts(src.priority, items, a) && Sorts(src.priority, items, b) ::
               FillAll(src, a, base) == FillAll(src, b, base))
            <==> LeadersAgree(src, items)
  {
    if LeadersAgree(src, items) {
      forall a, b, base | Sorts(src.priority, items, a) && Sorts(src.priority, items, b)
        ensures FillAll(src, a, base) == FillAll(src, b, base)
      {
        SortThenFillIsPriorityMerge(src, items, a, base);
        SortThenFillIsPriorityMerge(src, items, b, base);
        AgreeingMergesAreEqual(src, items, base, FillAll(src, a, base), FillAll(src, b, base));
      }
    } else {
      var x, y, key :| Leads(src, items, x, key) && Leads(src, items, y, key)
            && src.values(x)[key] != src.values(y)[key];
      var a := LeaderMayWin(src, items, x, map[], key);
      var b := LeaderMayWin(src, items, y, map[], key);
      assert FillAll(src, a, map[]) != FillAll(src, b, map[]);
    }
  }

  /** Filling again, with any of the items, changes nothing. */
  lemma MergeIsSaturated<T(!new), V(!new)>(src: Source<T, V>, items: seq<T>, base: map<string, V>,
        result: map<string, V>, x: T)
    requires IsPriorityMerge(src, items, base, result) && x in items
    ensures src.values(x) + result == result
  {
    forall key | key in src.values(x)
      ensures key in result
    {
      assert MergedAt(src, items, base, result, key);
    }
  }
}
