/**
 Per-chunk retention is safe: any part of a candidate list may be replaced by its
 own top `k` without changing the global top `k` (the argument in the comment at
 src/knowledge/query.rs:215-217).
 */
module TopK {
  import opened Lists
  import opened Ordering
  import opened Wrappers
  import opened Ranking

  ghost function Ids<P>(s: seq<Item<P>>): set<string> {
    set x | x in s :: x.key.id
  }

  lemma {:induction false} IdsNext<P>(front: seq<Item<P>>, x: Item<P>)
    ensures Ids(front + [x]) == Ids(front) + {x.key.id}
  {
    var s := front + [x];
    assert forall y :: y in s <==> y in front || y == x;
  }

  lemma {:induction false} CountIds<P>(s: seq<Item<P>>)
    ensures |Ids(s)| <= |s|
  {
    if |s| > 0 {
      var front := s[..|s| - 1];
      CountIds(front);
      assert s == front + [s[|s| - 1]];
      IdsNext(front, s[|s| - 1]);
    }
  }

  lemma {:induction false} CountRankedIds<P>(s: seq<Item<P>>)
    requires Ranked(s)
    ensures |Ids(s)| == |s|
  {
    if |s| > 0 {
      var front, x := s[..|s| - 1], s[|s| - 1];
      CountRankedIds(front);
      assert s == front + [x];
      IdsNext(front, x);
      forall y | y in front
        ensures y.key.id != x.key.id
      {
        var i :| 0 <= i < |front| && front[i] == y;
        assert s[i].key.id != s[|s| - 1].key.id;
      }
    }
  }

  lemma {:induction false} SubsetCard(a: set<string>, b: set<string>)
    requires a <= b
    ensures |a| <= |b|
  {
    if a != {} {
      var x :| x in a;
      SubsetCard(a - {x}, b - {x});
    }
  }

  /** |t| distinct IDs whose winners beat d push d beyond position |t|. */
  lemma {:induction false} Pigeonhole<P>(r: seq<Item<P>>, t: seq<Item<P>>, d: Item<P>)
    requires Ranked(r) && Ranked(t)
    requires forall x :: x in t ==> Winner(r, x.key.id).Some? && Before(Winner(r, x.key.id).value, d)
    ensures Beyond(r, |t|, d)
  {
    var p := 0;
    while p < |r| && Before(r[p], d)
      invariant p <= |r|
      invariant forall i :: 0 <= i < p ==> Before(r[i], d)
    {
      p := p + 1;
    }
    forall x | x in t
      ensures x.key.id in Ids(r[..p])
    {
      var w := Winner(r, x.key.id).value;
      var i :| 0 <= i < |r| && r[i] == w;
      if p < i {
        BeforeTransitive(r[p], r[i], d);
      }
      assert r[..p][i] == w;
    }
    assert Ids(t) <= Ids(r[..p]);
    SubsetCard(Ids(t), Ids(r[..p]));
    CountRankedIds(t);
    CountIds(r[..p]);
  }

  /** An item with k better IDs around it never matters for the top k. */
  lemma {:induction false} DropOne<P(!new)>(u: seq<Item<P>>, d: Item<P>, v: seq<Item<P>>, t: seq<Item<P>>)
    requires Ranked(t)
    requires forall x :: x in t ==> x in u + v && Before(x, d)
    ensures Top(u + [d] + v, |t|) == Top(u + v, |t|)
  {
    var short, long := Rank(u + v), Rank(u + [d] + v);
    RankRanks(u + v);
    RankRanks(u + [d] + v);
    forall x | x in t
      ensures Winner(short, x.key.id).Some? && Before(Winner(short, x.key.id).value, d)
    {
      BeforeWeak<P>();
      WinnerBeatsAll(u + v, x);
    }
    Pigeonhole(short, t, d);
    forall x | (x in short) != (x in long)
      ensures Beyond(short, |t|, x)
    {
      DropDiffers(u, d, v, x);
      BeforeWeak<P>();
    }
    AgreeUpTo(short, long, |t|);
  }

  /** Where the rankings with and without d differ, the item is no better than d. */
  lemma {:induction false} DropDiffers<P(!new)>(u: seq<Item<P>>, d: Item<P>, v: seq<Item<P>>, x: Item<P>)
    requires (x in Rank(u + v)) != (x in Rank(u + [d] + v))
    ensures !Before(x, d)
  {
    var id := x.key.id;
    RankRanks(u + v);
    RankRanks(u + [d] + v);
    WinnerOfRanked(Rank(u + v), x);
    WinnerOfRanked(Rank(u + [d] + v), x);
    WinnerMiddle(u, d, v, id);
    WinnerConcat(u, v, id);
    BeforeWeak<P>();
  }

  lemma {:induction false} DropTail<P(!new)>(p: seq<Item<P>>, t: seq<Item<P>>, dropped: seq<Item<P>>, q: seq<Item<P>>)
    requires Ranked(t + dropped)
    ensures Top(p + t + dropped + q, |t|) == Top(p + t + q, |t|)
  {
    var whole := t + dropped;
    assert Ranked(t) by {
      assert forall i :: 0 <= i < |t| ==> t[i] == whole[i];
    }
    if |dropped| == 0 {
      assert p + t + dropped + q == p + t + q;
    } else {
      var d, front := dropped[|dropped| - 1], dropped[..|dropped| - 1];
      assert dropped == front + [d];
      assert whole[..|whole| - 1] == t + front;
      forall x | x in t
        ensures x in (p + t + front) + q && Before(x, d)
      {
        var i :| 0 <= i < |t| && t[i] == x;
        assert whole[i] == x && whole[|whole| - 1] == d;
        assert (p + t + front + q)[|p| + i] == x;
      }
      DropOne(p + t + front, d, q, t);
      assert p + t + dropped + q == (p + t + front) + [d] + q;
      DropTail(p, t, front, q);
    }
  }

  /** One chunk of the candidates may be cut to its own top k. */
  lemma {:induction false} ChunkKeepsTop<P(!new)>(p: seq<Item<P>>, chunk: seq<Item<P>>, q: seq<Item<P>>, k: nat)
    ensures Top(p + Top(chunk, k) + q, k) == Top(p + chunk + q, k)
  {
    var r := Rank(chunk);
    RankRanks(chunk);
    RankRanks(p + r + q);
    forall id
      ensures Winner(Rank(p + r + q), id) == Winner(p + chunk + q, id)
    {
      WinnerConcat(p + r, q, id);
      WinnerConcat(p, r, id);
      WinnerConcat(p + chunk, q, id);
      WinnerConcat(p, chunk, id);
    }
    RankUnique(Rank(p + r + q), p + chunk + q);
    if |r| > k {
      assert r == r[..k] + r[k..];
      DropTail(p, r[..k], r[k..], q);
      assert p + r + q == p + r[..k] + r[k..] + q;
    }
  }

  function TopOfEach<P>(parts: seq<seq<Item<P>>>, k: nat): seq<seq<Item<P>>> {
    seq(|parts|, i requires 0 <= i < |parts| => Top(parts[i], k))
  }

  lemma {:induction false} TopOfNext<P>(parts: seq<seq<Item<P>>>, part: seq<Item<P>>, k: nat)
    ensures Flatten(TopOfEach(parts + [part], k)) == Flatten(TopOfEach(parts, k)) + Top(part, k)
  {
    var tops := TopOfEach(parts + [part], k);
    assert tops[..|parts|] == TopOfEach(parts, k);
  }

  /** Every way of cutting the candidates into chunks gives the global top k. */
  lemma {:induction false} ChunksKeepTop<P(!new)>(parts: seq<seq<Item<P>>>, q: seq<Item<P>>, k: nat)
    ensures Top(Flatten(TopOfEach(parts, k)) + q, k) == Top(Flatten(parts) + q, k)
    decreases parts
  {
    if |parts| == 0 {
      assert TopOfEach(parts, k) == parts;
    } else {
      var front, last := parts[..|parts| - 1], parts[|parts| - 1];
      assert TopOfEach(parts, k)[..|parts| - 1] == TopOfEach(front, k);
      ChunkKeepsTop(Flatten(TopOfEach(front, k)), last, q, k);
      ChunksKeepTop(front, last + q, k);
      assert Flatten(TopOfEach(front, k)) + last + q == Flatten(TopOfEach(front, k)) + (last + q);
      assert Flatten(front) + last + q == Flatten(front) + (last + q);
    }
  }

  // -------------------------------------------------- explaining results

  function Relabel<P, Q>(f: Item<P> -> Q, xs: seq<Item<P>>): seq<Item<Q>> {
    seq(|xs|, i requires 0 <= i < |xs| => Item(xs[i].key, f(xs[i])))
  }

  lemma {:induction false} RelabelConcat<P, Q>(f: Item<P> -> Q, a: seq<Item<P>>, b: seq<Item<P>>)
    ensures Relabel(f, a + b) == Relabel(f, a) + Relabel(f, b)
  {
  }

  lemma {:induction false} RelabelInsert<P(!new), Q(!new)>(f: Item<P> -> Q, s: seq<Item<P>>, x: Item<P>)
    ensures Relabel(f, Insert(Before, s, x)) == Insert(Before, Relabel(f, s), Item(x.key, f(x)))
  {
    if |s| > 0 {
      assert Relabel(f, s)[1..] == Relabel(f, s[1..]);
      assert Before(x, s[0]) == Before(Item(x.key, f(x)), Relabel(f, s)[0]);
      if !Before(x, s[0]) {
        RelabelInsert(f, s[1..], x);
      }
    }
  }

  lemma {:induction false} RelabelSort<P(!new), Q(!new)>(f: Item<P> -> Q, s: seq<Item<P>>)
    ensures Relabel(f, Sort(Before, s)) == Sort(Before, Relabel(f, s))
  {
    if |s| > 0 {
      RelabelSort(f, s[..|s| - 1]);
      assert Relabel(f, s)[..|s| - 1] == Relabel(f, s[..|s| - 1]);
      RelabelInsert(f, Sort(Before, s[..|s| - 1]), s[|s| - 1]);
    }
  }

  lemma {:induction false} RelabelDedup<P(!new), Q(!new)>(f: Item<P> -> Q, s: seq<Item<P>>, seen: set<string>)
    ensures Relabel(f, Dedup(s, seen)) == Dedup(Relabel(f, s), seen)
  {
    if |s| > 0 {
      assert Relabel(f, s)[1..] == Relabel(f, s[1..]);
      RelabelDedup(f, s[1..], if s[0].key.id in seen then seen else seen + {s[0].key.id});
    }
  }

  /** Explaining does not touch the sort key, so it commutes with ranking. */
  lemma {:induction false} RelabelTop<P(!new), Q(!new)>(f: Item<P> -> Q, xs: seq<Item<P>>, k: nat)
    ensures Top(Relabel(f, xs), k) == Relabel(f, Top(xs, k))
  {
    RelabelSort(f, xs);
    RelabelDedup(f, Sort(Before, xs), {});
  }
}
