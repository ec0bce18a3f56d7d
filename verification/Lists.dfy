/** Filtering, mapping and flattening, with the few laws the models use. */
module Lists {
  import opened Ordering
  import opened Wrappers

  function Filter<T(!new)>(keep: T -> bool, s: seq<T>): (r: seq<T>)
    ensures forall x :: x in r <==> x in s && keep(x)
  {
    if |s| == 0 then []
    else Filter(keep, s[..|s| - 1]) + if keep(s[|s| - 1]) then [s[|s| - 1]] else []
  }

  function Map<T, U>(f: T -> U, s: seq<T>): seq<U> {
    seq(|s|, i requires 0 <= i < |s| => f(s[i]))
  }

  function Flatten<T>(parts: seq<seq<T>>): seq<T> {
    if |parts| == 0 then [] else Flatten(parts[..|parts| - 1]) + parts[|parts| - 1]
  }

  lemma {:induction false} FilterConcat<T(!new)>(keep: T -> bool, a: seq<T>, b: seq<T>)
    ensures Filter(keep, a + b) == Filter(keep, a) + Filter(keep, b)
  {
    if |b| == 0 {
      assert a + b == a;
    } else {
      assert (a + b)[..|a + b| - 1] == a + b[..|b| - 1];
      FilterConcat(keep, a, b[..|b| - 1]);
    }
  }

  lemma {:induction false} FilterMultiset<T(!new)>(keep: T -> bool, s: seq<T>)
    ensures forall x :: multiset(Filter(keep, s))[x] == if keep(x) then multiset(s)[x] else 0
  {
    if |s| > 0 {
      var front, last := s[..|s| - 1], s[|s| - 1];
      assert s == front + [last];
      FilterMultiset(keep, front);
    }
  }

  /** A sublist of a sorted list is sorted. */
  lemma {:induction false} FilterSorted<T(!new)>(less: (T, T) -> bool, keep: T -> bool, s: seq<T>)
    requires Sorted(less, s)
    ensures Sorted(less, Filter(keep, s))
  {
    if |s| > 0 {
      var front, last := s[..|s| - 1], s[|s| - 1];
      FilterSorted(less, keep, front);
      var f := Filter(keep, front);
      forall i | 0 <= i < |f|
        ensures !less(last, f[i])
      {
        assert f[i] in f;
        var j :| 0 <= j < |front| && front[j] == f[i];
        assert s[j] == f[i];
      }
    }
  }

  lemma {:induction false} FilterSameMembers<T(!new)>(keep: T -> bool, s: seq<T>, t: seq<T>)
    requires multiset(s) == multiset(t)
    ensures multiset(Filter(keep, s)) == multiset(Filter(keep, t))
  {
    FilterMultiset(keep, s);
    FilterMultiset(keep, t);
    assert forall x :: multiset(Filter(keep, s))[x] == multiset(Filter(keep, t))[x];
  }

  /** Filtering commutes with sorting under a total order. */
  lemma {:induction false} FilterSort<T(!new)>(less: (T, T) -> bool, keep: T -> bool, s: seq<T>)
    requires StrictTotal(less)
    ensures Filter(keep, Sort(less, s)) == Sort(less, Filter(keep, s))
  {
    TotalIsWeak(less);
    SortSorts(less, s);
    SortSorts(less, Filter(keep, s));
    FilterSorted(less, keep, Sort(less, s));
    FilterSameMembers(keep, s, Sort(less, s));
    SortedUnique(less, Filter(keep, Sort(less, s)), Sort(less, Filter(keep, s)));
  }

  lemma {:induction false} FilterAll<T(!new)>(keep: T -> bool, s: seq<T>)
    requires forall x :: x in s ==> keep(x)
    ensures Filter(keep, s) == s
  {
    if |s| > 0 {
      var front := s[..|s| - 1];
      FilterAll(keep, front);
      assert s == front + [s[|s| - 1]];
    }
  }

  lemma {:induction false} FilterTwice<T(!new)>(p: T -> bool, q: T -> bool, both: T -> bool, s: seq<T>)
    requires forall x :: x in s ==> both(x) == (p(x) && q(x))
    ensures Filter(q, Filter(p, s)) == Filter(both, s)
  {
    if |s| > 0 {
      var front, last := s[..|s| - 1], s[|s| - 1];
      FilterTwice(p, q, both, front);
      FilterConcat(q, Filter(p, front), if p(last) then [last] else []);
      if p(last) {
        assert [last][..0] == [];
      }
    }
  }

  lemma {:induction false} FilterSame<T(!new)>(p: T -> bool, q: T -> bool, s: seq<T>)
    requires forall x :: x in s ==> p(x) == q(x)
    ensures Filter(p, s) == Filter(q, s)
  {
    if |s| > 0 {
      FilterSame(p, q, s[..|s| - 1]);
    }
  }

  lemma {:induction false} MapFilter<T(!new), U(!new)>(f: T -> U, p: T -> bool, q: U -> bool, s: seq<T>)
    requires forall x :: x in s ==> p(x) == q(f(x))
    ensures Map(f, Filter(p, s)) == Filter(q, Map(f, s))
  {
    if |s| > 0 {
      MapFilter(f, p, q, s[..|s| - 1]);
      assert Map(f, s)[..|s| - 1] == Map(f, s[..|s| - 1]);
    }
  }

  lemma {:induction false} FilterMapSnoc<T(!new), U(!new)>(f: T -> U, q: U -> bool, s: seq<T>, x: T)
    ensures Filter(q, Map(f, s + [x])) == Filter(q, Map(f, s)) + if q(f(x)) then [f(x)] else []
    ensures s + [] == s && Filter(q, Map(f, s)) + [] == Filter(q, Map(f, s))
  {
    assert Map(f, s + [x])[..|s|] == Map(f, s);
  }

  /** Dropping what a later filter would drop anyway changes nothing. */
  lemma {:induction false} FilterEarly<T(!new), U(!new)>(f: T -> U, p: T -> bool, q: U -> bool, s: seq<T>)
    requires forall x :: x in s && q(f(x)) ==> p(x)
    ensures Filter(q, Map(f, Filter(p, s))) == Filter(q, Map(f, s))
  {
    if |s| > 0 {
      var front, last := s[..|s| - 1], s[|s| - 1];
      FilterEarly(f, p, q, front);
      assert s == front + [last];
      FilterMapSnoc(f, q, front, last);
      FilterMapSnoc(f, q, Filter(p, front), last);
    }
  }

  lemma {:induction false} FlattenMember<T(!new), U(!new)>(f: T -> seq<U>, s: seq<T>, y: U)
    ensures y in Flatten(Map(f, s)) <==> exists x :: x in s && y in f(x)
  {
    if |s| > 0 {
      var front, last := s[..|s| - 1], s[|s| - 1];
      FlattenMember(f, front, y);
      assert Map(f, s)[..|s| - 1] == Map(f, front);
      assert s == front + [last];
    }
  }

  lemma {:induction false} FlattenMapNext<T, U>(f: T -> seq<U>, s: seq<T>, i: nat)
    requires i < |s|
    ensures Flatten(Map(f, s[..i + 1])) == Flatten(Map(f, s[..i])) + f(s[i])
  {
    assert Map(f, s[..i + 1])[..i] == Map(f, s[..i]);
  }

  lemma {:induction false} FlattenMapSnoc<T, U>(f: T -> seq<U>, s: seq<T>, x: T)
    ensures Flatten(Map(f, s + [x])) == Flatten(Map(f, s)) + f(x)
    ensures s + [] == s && Flatten(Map(f, s)) + [] == Flatten(Map(f, s))
  {
    assert (s + [x])[..|s|] == s && (s + [x])[..|s| + 1] == s + [x];
    FlattenMapNext(f, s + [x], |s|);
  }

  lemma {:induction false} FilterNone<T(!new)>(keep: T -> bool, s: seq<T>)
    requires forall x :: x in s ==> !keep(x)
    ensures Filter(keep, s) == []
  {
    if |s| > 0 {
      FilterNone(keep, s[..|s| - 1]);
    }
  }

  lemma {:induction false} FiltersSwap<T(!new)>(p: T -> bool, q: T -> bool, s: seq<T>)
    ensures Filter(p, Filter(q, s)) == Filter(q, Filter(p, s))
  {
    var both := (x: T) => p(x) && q(x);
    FilterTwice(p, q, both, s);
    FilterTwice(q, p, both, s);
  }

  lemma {:induction false} FilterSnoc<T(!new)>(keep: T -> bool, s: seq<T>, x: T)
    ensures Filter(keep, s + [x]) == Filter(keep, s) + if keep(x) then [x] else []
  {
    assert (s + [x])[..|s|] == s;
  }

  lemma {:induction false} FilterNext<T(!new)>(keep: T -> bool, s: seq<T>, x: T)
    requires keep(x)
    ensures Filter(keep, s + [x]) == Filter(keep, s) + [x]
  {
    FilterSnoc(keep, s, x);
  }

  lemma {:induction false} FilterSkip<T(!new)>(keep: T -> bool, s: seq<T>, x: T)
    requires !keep(x)
    ensures Filter(keep, s + [x]) == Filter(keep, s)
  {
    FilterSnoc(keep, s, x);
  }

  /** Filtering out the one element in the middle. */
  lemma {:induction false} FilterMiddle<T(!new)>(keep: T -> bool, a: seq<T>, x: T, b: seq<T>)
    requires !keep(x) && (forall y :: y in a ==> keep(y)) && (forall y :: y in b ==> keep(y))
    ensures Filter(keep, a + [x] + b) == a + b
  {
    FilterConcat(keep, a + [x], b);
    FilterSnoc(keep, a, x);
    FilterAll(keep, a);
    FilterAll(keep, b);
    assert a + [] == a;
  }

  // ------------------------------------------------------------ FilterMap

  function Listed<T>(value: Option<T>): seq<T> {
    match value
    case None => []
    case Some(x) => [x]
  }

  function FilterMap<T, U>(f: T -> Option<U>, s: seq<T>): seq<U> {
    if |s| == 0 then [] else FilterMap(f, s[..|s| - 1]) + Listed(f(s[|s| - 1]))
  }

  lemma {:induction false} FilterMapConcat<T, U>(f: T -> Option<U>, a: seq<T>, b: seq<T>)
    ensures FilterMap(f, a + b) == FilterMap(f, a) + FilterMap(f, b)
  {
    if |b| == 0 {
      assert a + b == a;
    } else {
      assert (a + b)[..|a + b| - 1] == a + b[..|b| - 1];
      FilterMapConcat(f, a, b[..|b| - 1]);
    }
  }

  lemma {:induction false} FilterMapNext<T, U>(f: T -> Option<U>, s: seq<T>, i: nat)
    requires i < |s|
    ensures FilterMap(f, s[..i + 1]) == FilterMap(f, s[..i]) + Listed(f(s[i]))
  {
    assert s[..i + 1][..i] == s[..i];
  }

  lemma {:induction false} FilterMapSame<T(!new), U>(f: T -> Option<U>, g: T -> Option<U>, s: seq<T>)
    requires forall x :: f(x) == g(x)
    ensures FilterMap(f, s) == FilterMap(g, s)
  {
    if |s| > 0 {
      FilterMapSame(f, g, s[..|s| - 1]);
    }
  }

  lemma {:induction false} FilterMapSource<T, U>(f: T -> Option<U>, s: seq<T>, y: U) returns (x: T)
    requires y in FilterMap(f, s)
    ensures x in s && f(x) == Some(y)
  {
    x := s[|s| - 1];
    if f(x) != Some(y) {
      x := FilterMapSource(f, s[..|s| - 1], y);
    }
  }

  lemma {:induction false} FilterMapListed<T, U>(f: T -> Option<U>, s: seq<T>, x: T)
    requires x in s && f(x).Some?
    ensures f(x).value in FilterMap(f, s)
  {
    var front, last := s[..|s| - 1], s[|s| - 1];
    assert s == front + [last];
    if x != last {
      FilterMapListed(f, front, x);
    }
  }
}
