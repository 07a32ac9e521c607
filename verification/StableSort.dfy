/** Python's stable `list.sort(key=...)` on entries that carry their sort key. */
module StableSort {

  datatype Ranked<+T> = Ranked(rank: int, item: T)

  predicate Sorted<T>(s: seq<Ranked<T>>) {
    forall i, j :: 0 <= i < j < |s| ==> s[i].rank <= s[j].rank
  }

  /** x goes behind every entry whose rank is not greater. */
  function Insert<T>(s: seq<Ranked<T>>, x: Ranked<T>): seq<Ranked<T>> {
    if s == [] || s[|s| - 1].rank <= x.rank then s + [x]
    else Insert(s[..|s| - 1], x) + [s[|s| - 1]]
  }

  function Sort<T>(s: seq<Ranked<T>>): seq<Ranked<T>> {
    if s == [] then [] else Insert(Sort(s[..|s| - 1]), s[|s| - 1])
  }

  /** The entries of rank k, in order. */
  function OfRank<T>(s: seq<Ranked<T>>, k: int): seq<Ranked<T>> {
    if s == [] then []
    else OfRank(s[..|s| - 1], k) + (if s[|s| - 1].rank == k then [s[|s| - 1]] else [])
  }

  /** The entries whose item is kept. */
  function Filter<T>(s: seq<Ranked<T>>, keep: T -> bool): seq<Ranked<T>> {
    if s == [] then []
    else Filter(s[..|s| - 1], keep) + (if keep(s[|s| - 1].item) then [s[|s| - 1]] else [])
  }

  /** The entries without the first one equal to x. */
  function RemoveFirst<T(==)>(s: seq<Ranked<T>>, x: Ranked<T>): seq<Ranked<T>> {
    if s == [] then []
    else if x in s[..|s| - 1] then RemoveFirst(s[..|s| - 1], x) + [s[|s| - 1]]
    else if s[|s| - 1] == x then s[..|s| - 1]
    else s
  }

  // ---------------------------------------------------------------- sorting

  lemma BelowLast<T>(s: seq<Ranked<T>>, y: Ranked<T>)
    requires Sorted(s) && s != [] && y in s[..|s| - 1]
    ensures y.rank <= s[|s| - 1].rank
  {
    var j :| 0 <= j < |s| - 1 && s[j] == y;
  }

  lemma {:induction false} InsertMembers<T>(s: seq<Ranked<T>>, x: Ranked<T>, y: Ranked<T>)
    ensures y in Insert(s, x) <==> y in s || y == x
  {
    if s != [] && s[|s| - 1].rank > x.rank {
      var front, last := s[..|s| - 1], s[|s| - 1];
      InsertMembers(front, x, y);
      assert s == front + [last];
    }
  }

  lemma {:induction false} InsertSorted<T>(s: seq<Ranked<T>>, x: Ranked<T>)
    requires Sorted(s)
    ensures Sorted(Insert(s, x))
  {
    if s != [] && s[|s| - 1].rank > x.rank {
      var front, last := s[..|s| - 1], s[|s| - 1];
      InsertSorted(front, x);
      var f := Insert(front, x);
      forall i | 0 <= i < |f| ensures f[i].rank <= last.rank {
        InsertMembers(front, x, f[i]);
        if f[i] in front {
          BelowLast(s, f[i]);
        }
      }
    }
  }

  lemma OfRankAppend<T>(s: seq<Ranked<T>>, x: Ranked<T>, k: int)
    ensures OfRank(s + [x], k) == OfRank(s, k) + (if x.rank == k then [x] else [])
  {
    assert (s + [x])[..|s|] == s;
  }

  lemma {:induction false} InsertRanks<T>(s: seq<Ranked<T>>, x: Ranked<T>, k: int)
    requires Sorted(s)
    ensures OfRank(Insert(s, x), k) == OfRank(s, k) + (if x.rank == k then [x] else [])
  {
    if s == [] || s[|s| - 1].rank <= x.rank {
      OfRankAppend(s, x, k);
    } else {
      var front, last := s[..|s| - 1], s[|s| - 1];
      InsertRanks(front, x, k);
      OfRankAppend(Insert(front, x), last, k);
    }
  }

  /** Both lists hold the same entries of each rank, in the same order. */
  ghost predicate SameRanks<T>(a: seq<Ranked<T>>, b: seq<Ranked<T>>) {
    forall k :: OfRank(a, k) == OfRank(b, k)
  }

  /** Sorting sorts, and keeps the order among entries of equal rank. */
  lemma {:induction false} SortIsStable<T>(s: seq<Ranked<T>>)
    ensures Sorted(Sort(s))
    ensures SameRanks(Sort(s), s)
  {
    if s != [] {
      var front, last := s[..|s| - 1], s[|s| - 1];
      SortIsStable(front);
      InsertSorted(Sort(front), last);
      forall k ensures OfRank(Sort(s), k) == OfRank(s, k) {
        InsertRanks(Sort(front), last, k);
      }
    }
  }

  lemma {:induction false} OfRankMembers<T>(s: seq<Ranked<T>>, k: int, y: Ranked<T>)
    ensures y in OfRank(s, k) <==> y in s && y.rank == k
  {
    if s != [] {
      OfRankMembers(s[..|s| - 1], k, y);
    }
  }

  /** There is only one stable way to sort. */
  lemma {:induction false} OnlyStableSort<T>(a: seq<Ranked<T>>, b: seq<Ranked<T>>)
    requires Sorted(a) && Sorted(b)
    requires SameRanks(a, b)
    ensures a == b
    decreases |a|
  {
    if a == [] {
      if b != [] {
        RankOccurs(b, a);
      }
    } else {
      SameLast(a, b);
      PeelLast(a, b);
      OnlyStableSort(a[..|a| - 1], b[..|b| - 1]);
      assert a == a[..|a| - 1] + [a[|a| - 1]] && b == b[..|b| - 1] + [b[|b| - 1]];
    }
  }

  lemma PeelLast<T>(a: seq<Ranked<T>>, b: seq<Ranked<T>>)
    requires a != [] && b != [] && a[|a| - 1] == b[|b| - 1] && SameRanks(a, b)
    ensures SameRanks(a[..|a| - 1], b[..|b| - 1])
  {
    var fa, fb, last := a[..|a| - 1], b[..|b| - 1], a[|a| - 1];
    assert a == fa + [last] && b == fb + [last];
    forall k ensures OfRank(fa, k) == OfRank(fb, k) {
      OfRankAppend(fa, last, k);
      OfRankAppend(fb, last, k);
      assert OfRank(a, k) == OfRank(b, k);
      SameFront(OfRank(fa, k), OfRank(fb, k), if last.rank == k then [last] else []);
    }
  }

  lemma SameFront<T>(a: seq<T>, b: seq<T>, end: seq<T>)
    requires a + end == b + end
    ensures a == b
  {
    assert a == (a + end)[..|a + end| - |end|] && b == (b + end)[..|b + end| - |end|];
  }

  /** The last entry's rank occurs in both lists. */
  lemma RankOccurs<T>(a: seq<Ranked<T>>, b: seq<Ranked<T>>)
    requires SameRanks(a, b) && a != []
    ensures exists j :: 0 <= j < |b| && b[j].rank == a[|a| - 1].rank
  {
    var x := a[|a| - 1];
    OfRankMembers(a, x.rank, x);
    OfRankMembers(b, x.rank, x);
    assert x in b;
  }

  lemma SameLast<T>(a: seq<Ranked<T>>, b: seq<Ranked<T>>)
    requires Sorted(a) && Sorted(b) && a != []
    requires SameRanks(a, b)
    ensures b != [] && a[|a| - 1] == b[|b| - 1]
  {
    RankOccurs(a, b);
    RankOccurs(b, a);
    assert a[|a| - 1].rank == b[|b| - 1].rank;
    LastOfRank(a);
    LastOfRank(b);
    assert OfRank(a, a[|a| - 1].rank) == OfRank(b, a[|a| - 1].rank);
  }

  lemma LastOfRank<T>(a: seq<Ranked<T>>)
    requires a != []
    ensures var r := OfRank(a, a[|a| - 1].rank); r != [] && r[|r| - 1] == a[|a| - 1]
  {
  }

  /** Sorting a list that is already sorted, up to new entries at its end. */
  lemma SortAgain<T>(s: seq<Ranked<T>>, x: Ranked<T>)
    ensures Sort(Sort(s) + [x]) == Sort(s + [x])
  {
    SortIsStable(s);
    SortIsStable(Sort(s) + [x]);
    SortIsStable(s + [x]);
    forall k ensures OfRank(Sort(Sort(s) + [x]), k) == OfRank(Sort(s + [x]), k) {
      OfRankAppend(Sort(s), x, k);
      OfRankAppend(s, x, k);
      assert OfRank(Sort(Sort(s) + [x]), k) == OfRank(Sort(s) + [x], k);
      assert OfRank(Sort(s + [x]), k) == OfRank(s + [x], k);
      assert OfRank(Sort(s), k) == OfRank(s, k);
    }
    OnlyStableSort(Sort(Sort(s) + [x]), Sort(s + [x]));
  }

  /** Entries of equal rank stand in the order `before`. */
  ghost predicate Tied<T>(s: seq<Ranked<T>>, before: (T, T) -> bool) {
    forall i, j :: 0 <= i < j < |s| && s[i].rank == s[j].rank ==> before(s[i].item, s[j].item)
  }

  lemma {:induction false} SortMembers<T>(s: seq<Ranked<T>>, y: Ranked<T>)
    ensures y in Sort(s) <==> y in s
  {
    if s != [] {
      var front, last := s[..|s| - 1], s[|s| - 1];
      SortMembers(front, y);
      InsertMembers(Sort(front), last, y);
      assert s == front + [last];
    }
  }

  lemma {:induction false} InsertTied<T>(s: seq<Ranked<T>>, x: Ranked<T>, before: (T, T) -> bool)
    requires Sorted(s) && Tied(s, before)
    requires forall i :: 0 <= i < |s| && s[i].rank == x.rank ==> before(s[i].item, x.item)
    ensures Tied(Insert(s, x), before)
  {
    if s != [] && s[|s| - 1].rank > x.rank {
      var front, last := s[..|s| - 1], s[|s| - 1];
      InsertTied(front, x, before);
      var f := Insert(front, x);
      forall i | 0 <= i < |f| && f[i].rank == last.rank ensures before(f[i].item, last.item) {
        InsertMembers(front, x, f[i]);
        var j :| 0 <= j < |front| && front[j] == f[i];
      }
    }
  }

  /** Whatever order the entries of equal rank had, sorting keeps it. */
  lemma {:induction false} SortTied<T>(s: seq<Ranked<T>>, before: (T, T) -> bool)
    requires Tied(s, before)
    ensures Tied(Sort(s), before)
  {
    if s != [] {
      var front, last := s[..|s| - 1], s[|s| - 1];
      SortTied(front, before);
      SortIsStable(front);
      var f := Sort(front);
      forall i | 0 <= i < |f| && f[i].rank == last.rank ensures before(f[i].item, last.item) {
        SortMembers(front, f[i]);
        var j :| 0 <= j < |front| && front[j] == f[i];
      }
      InsertTied(f, last, before);
    }
  }

  // ---------------------------------------------------------------- removing

  lemma {:induction false} FilterMembers<T>(s: seq<Ranked<T>>, keep: T -> bool, y: Ranked<T>)
    ensures y in Filter(s, keep) <==> y in s && keep(y.item)
  {
    if s != [] {
      FilterMembers(s[..|s| - 1], keep, y);
      assert s == s[..|s| - 1] + [s[|s| - 1]];
    }
  }

  lemma {:induction false} FilterSorted<T>(s: seq<Ranked<T>>, keep: T -> bool)
    requires Sorted(s)
    ensures Sorted(Filter(s, keep))
  {
    if s != [] {
      var front := s[..|s| - 1];
      FilterSorted(front, keep);
      var f := Filter(front, keep);
      forall i | 0 <= i < |f| ensures f[i].rank <= s[|s| - 1].rank {
        FilterMembers(front, keep, f[i]);
        BelowLast(s, f[i]);
      }
    }
  }

  lemma {:induction false} FilterRanks<T>(s: seq<Ranked<T>>, keep: T -> bool, k: int)
    ensures OfRank(Filter(s, keep), k) == Filter(OfRank(s, k), keep)
  {
    if s != [] {
      var front, last := s[..|s| - 1], s[|s| - 1];
      FilterRanks(front, keep, k);
      var f, o := Filter(front, keep), OfRank(front, k);
      assert f + [] == f && o + [] == o;
      OfRankAppend(f, last, k);
      FilterAppend(o, last, keep);
    }
  }

  lemma FilterAppend<T>(s: seq<Ranked<T>>, x: Ranked<T>, keep: T -> bool)
    ensures Filter(s + [x], keep) == Filter(s, keep) + (if keep(x.item) then [x] else [])
  {
    assert (s + [x])[..|s|] == s;
  }

  /** Dropping entries and sorting can be done in either order. */
  lemma FilterSorts<T>(s: seq<Ranked<T>>, keep: T -> bool)
    ensures Filter(Sort(s), keep) == Sort(Filter(s, keep))
  {
    SortIsStable(s);
    SortIsStable(Filter(s, keep));
    FilterSorted(Sort(s), keep);
    forall k ensures OfRank(Filter(Sort(s), keep), k) == OfRank(Sort(Filter(s, keep)), k) {
      FilterRanks(Sort(s), keep, k);
      FilterRanks(s, keep, k);
      assert OfRank(Sort(s), k) == OfRank(s, k);
      assert OfRank(Sort(Filter(s, keep)), k) == OfRank(Filter(s, keep), k);
    }
    OnlyStableSort(Filter(Sort(s), keep), Sort(Filter(s, keep)));
  }

  lemma {:induction false} RemoveFirstMembers<T>(s: seq<Ranked<T>>, x: Ranked<T>, y: Ranked<T>)
    ensures y in RemoveFirst(s, x) ==> y in s
  {
    if s != [] {
      RemoveFirstMembers(s[..|s| - 1], x, y);
      assert s == s[..|s| - 1] + [s[|s| - 1]];
    }
  }

  lemma {:induction false} RemoveFirstSorted<T>(s: seq<Ranked<T>>, x: Ranked<T>)
    requires Sorted(s)
    ensures Sorted(RemoveFirst(s, x))
  {
    if s != [] {
      var front := s[..|s| - 1];
      RemoveFirstSorted(front, x);
      var f := RemoveFirst(front, x);
      forall i | 0 <= i < |f| ensures f[i].rank <= s[|s| - 1].rank {
        RemoveFirstMembers(front, x, f[i]);
        BelowLast(s, f[i]);
      }
    }
  }

  lemma RemoveFirstAppend<T>(s: seq<Ranked<T>>, y: Ranked<T>, x: Ranked<T>)
    ensures RemoveFirst(s + [y], x) ==
              if x in s then RemoveFirst(s, x) + [y] else if x == y then s else s + [y]
  {
    assert (s + [y])[..|s|] == s;
  }

  lemma {:induction false} AbsentStays<T>(s: seq<Ranked<T>>, x: Ranked<T>)
    requires x !in s
    ensures RemoveFirst(s, x) == s
  {
  }

  lemma {:induction false} RemoveFirstRanks<T>(s: seq<Ranked<T>>, x: Ranked<T>, k: int)
    ensures OfRank(RemoveFirst(s, x), k) == if k == x.rank then RemoveFirst(OfRank(s, k), x) else OfRank(s, k)
  {
    OfRankMembers(s, k, x);
    if x !in s {
      AbsentStays(s, x);
      AbsentStays(OfRank(s, k), x);
    } else {
      var front, last := s[..|s| - 1], s[|s| - 1];
      assert s == front + [last];
      OfRankMembers(front, k, x);
      OfRankAppend(front, last, k);
      RemoveFirstAppend(front, last, x);
      if x in front {
        RemoveFirstRanks(front, x, k);
        OfRankAppend(RemoveFirst(front, x), last, k);
      }
      if k == x.rank {
        RankedRemoval(OfRank(front, k), last, x);
      }
    }
  }

  lemma RankedRemoval<T>(o: seq<Ranked<T>>, last: Ranked<T>, x: Ranked<T>)
    ensures RemoveFirst(o + [last], x) ==
              if x in o then RemoveFirst(o, x) + [last] else if x == last then o else o + [last]
    ensures x !in o ==> RemoveFirst(o, x) == o
    ensures o + [] == o
  {
    RemoveFirstAppend(o, last, x);
    if x !in o {
      AbsentStays(o, x);
    }
  }

  /** Removing an entry from the sorted list removes it from the list that was sorted. */
  lemma RemoveFirstSorts<T>(s: seq<Ranked<T>>, x: Ranked<T>)
    ensures RemoveFirst(Sort(s), x) == Sort(RemoveFirst(s, x))
  {
    SortIsStable(s);
    SortIsStable(RemoveFirst(s, x));
    RemoveFirstSorted(Sort(s), x);
    forall k ensures OfRank(RemoveFirst(Sort(s), x), k) == OfRank(Sort(RemoveFirst(s, x)), k) {
      RemoveFirstRanks(Sort(s), x, k);
      RemoveFirstRanks(s, x, k);
      assert OfRank(Sort(s), k) == OfRank(s, k);
      assert OfRank(Sort(RemoveFirst(s, x)), k) == OfRank(RemoveFirst(s, x), k);
    }
    OnlyStableSort(RemoveFirst(Sort(s), x), Sort(RemoveFirst(s, x)));
  }
}
