/** Lists in priority order. sort.Slice is not stable: any rearrangement with non-increasing priorities may come
    out. */
module Priorities {

  ghost predicate NonIncreasing<T>(priority: T -> int, items: seq<T>) {
    forall i, j | 0 <= i < j < |items| :: priority(items[i]) >= priority(items[j])
  }

  /** `sorted` is a possible outcome of sorting `items`. */
  ghost predicate Sorts<T>(priority: T -> int, items: seq<T>, sorted: seq<T>) {
    NonIncreasing(priority, sorted) && multiset(sorted) == multiset(items)
  }

  /** The first n items are in order and nothing after them has greater priority. */
  ghost predicate PrefixInPlace<T>(priority: T -> int, s: seq<T>, n: int) {
    forall i, j | 0 <= i < n && i < j < |s| :: priority(s[i]) >= priority(s[j])
  }

  lemma GreatestNext<T>(priority: T -> int, s: seq<T>, n: nat, m: nat)
    requires n <= m < |s| && PrefixInPlace(priority, s, n)
    requires forall j | n <= j < |s| :: priority(s[m]) >= priority(s[j])
    ensures PrefixInPlace(priority, s[n := s[m]][m := s[n]], n + 1)
  {
  }

  method Swap<T>(a: array<T>, i: nat, j: nat)
    requires i <= j < a.Length
    modifies a
    ensures a[..] == old(a[..])[i := old(a[j])][j := old(a[i])]
    ensures multiset(a[..]) == multiset(old(a[..]))
  {
    a[i], a[j] := a[j], a[i];
  }

  /** Which of several greatest elements it picks is left open. */
  method SomeGreatest<T>(priority: T -> int, a: array<T>, n: nat) returns (m: nat)
    requires n < a.Length
    ensures n <= m < a.Length
    ensures forall j | n <= j < a.Length :: priority(a[m]) >= priority(a[j])
  {
    m := n;
    for j := n to a.Length
      invariant n <= m < a.Length
      invariant forall k | n <= k < j :: priority(a[m]) >= priority(a[k])
    {
      if priority(a[j]) > priority(a[m]) {
        m := j;
      } else if priority(a[j]) == priority(a[m]) {
        if * {
          m := j;
        }
      }
    }
  }

  /** sort.Slice by descending priority: repeatedly bring forward some element of greatest remaining priority. */
  method SortByPriority<T>(priority: T -> int, a: array<T>)
    modifies a
    ensures Sorts(priority, old(a[..]), a[..])
  {
    for n := 0 to a.Length
      invariant multiset(a[..]) == multiset(old(a[..]))
      invariant PrefixInPlace(priority, a[..], n)
    {
      var m := SomeGreatest(priority, a, n);
      GreatestNext(priority, a[..], n, m);
      Swap(a, n, m);
    }
  }

  lemma SameElements<T>(a: seq<T>, b: seq<T>)
    requires multiset(a) == multiset(b)
    ensures forall x :: x in a <==> x in b
    ensures |a| == |b|
  {
    forall x
      ensures x in a <==> x in b
    {
      assert x in a <==> x in multiset(a);
      assert x in b <==> x in multiset(b);
    }
    assert |a| == |multiset(a)| && |b| == |multiset(b)|;
  }

  // ---------- every element of greatest priority may come first ----------

  /** x right after the items of strictly greater priority. */
  function Insert<T>(priority: T -> int, x: T, sorted: seq<T>): seq<T> {
    if sorted == [] || priority(sorted[0]) <= priority(x) then [x] + sorted
    else [sorted[0]] + Insert(priority, x, sorted[1..])
  }

  function Sorted<T>(priority: T -> int, items: seq<T>): seq<T> {
    if items == [] then [] else Insert(priority, items[0], Sorted(priority, items[1..]))
  }

  lemma {:induction false} InsertPermutes<T>(priority: T -> int, x: T, sorted: seq<T>)
    ensures multiset(Insert(priority, x, sorted)) == multiset([x] + sorted)
  {
    if sorted != [] && priority(sorted[0]) > priority(x) {
      InsertPermutes(priority, x, sorted[1..]);
      assert sorted == [sorted[0]] + sorted[1..];
    }
  }

  lemma {:induction false} InsertStaysBelow<T>(priority: T -> int, x: T, sorted: seq<T>, bound: int)
    requires priority(x) <= bound && forall i | 0 <= i < |sorted| :: priority(sorted[i]) <= bound
    ensures forall i | 0 <= i < |Insert(priority, x, sorted)| :: priority(Insert(priority, x, sorted)[i]) <= bound
  {
    if sorted != [] && priority(sorted[0]) > priority(x) {
      InsertStaysBelow(priority, x, sorted[1..], bound);
    }
  }

  lemma {:induction false} InsertKeepsOrder<T>(priority: T -> int, x: T, sorted: seq<T>)
    requires NonIncreasing(priority, sorted)
    ensures NonIncreasing(priority, Insert(priority, x, sorted))
  {
    if sorted != [] && priority(sorted[0]) > priority(x) {
      var tail := Insert(priority, x, sorted[1..]);
      InsertKeepsOrder(priority, x, sorted[1..]);
      InsertStaysBelow(priority, x, sorted[1..], priority(sorted[0]));
      assert NonIncreasing(priority, [sorted[0]] + tail);
    }
  }

  lemma InsertSorts<T>(priority: T -> int, x: T, sorted: seq<T>)
    requires NonIncreasing(priority, sorted)
    ensures Sorts(priority, [x] + sorted, Insert(priority, x, sorted))
  {
    InsertPermutes(priority, x, sorted);
    InsertKeepsOrder(priority, x, sorted);
  }

  lemma {:induction false} SortedSorts<T>(priority: T -> int, items: seq<T>)
    ensures Sorts(priority, items, Sorted(priority, items))
  {
    if items != [] {
      SortedSorts(priority, items[1..]);
      InsertSorts(priority, items[0], Sorted(priority, items[1..]));
      assert items == [items[0]] + items[1..];
    }
  }

  /** A sorting outcome in which x stands before every other item of its priority or less. */
  function SortedWithFirst<T>(priority: T -> int, items: seq<T>, i: nat): seq<T>
    requires i < |items|
  {
    Insert(priority, items[i], Sorted(priority, items[..i] + items[i + 1..]))
  }

  lemma SortedWithFirstSorts<T>(priority: T -> int, items: seq<T>, i: nat)
    requires i < |items|
    ensures Sorts(priority, items, SortedWithFirst(priority, items, i))
  {
    var rest := items[..i] + items[i + 1..];
    SortedSorts(priority, rest);
    InsertSorts(priority, items[i], Sorted(priority, rest));
    assert items == items[..i] + [items[i]] + items[i + 1..];
  }
}
