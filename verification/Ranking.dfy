/**
 Top-k retention by record ID: the order search results are shown in, the final
 sort-and-deduplicate pass, and the law that lets every chunk forget all but its
 own best `k` (src/knowledge/query.rs, src/knowledge/search.rs).
 */
module Ranking {
  import opened Ordering
  import opened Wrappers

  /** What `search_result_order` looks at; `time` is the parsed as_of timestamp. */
  datatype Key = Key(score: int, time: int, id: string, path: seq<string>)

  /** A search result; the payload is everything the order does not look at. */
  datatype Item<+P> = Item(key: Key, payload: P)

  /** Best first: higher score, then newer, then smaller ID, then smaller heading path. */
  predicate KeyBefore(a: Key, b: Key) {
    if a.score != b.score then a.score > b.score
    else if a.time != b.time then a.time > b.time
    else if a.id != b.id then StringLess(a.id, b.id)
    else StringsLess(a.path, b.path)
  }

  predicate Before<P>(a: Item<P>, b: Item<P>) {
    KeyBefore(a.key, b.key)
  }

  /** `out.retain(|item| seen.insert(item.id))`: the first of each ID survives. */
  function Dedup<P>(s: seq<Item<P>>, seen: set<string>): seq<Item<P>> {
    if |s| == 0 then []
    else if s[0].key.id in seen then Dedup(s[1..], seen)
    else [s[0]] + Dedup(s[1..], seen + {s[0].key.id})
  }

  function Take<T>(s: seq<T>, k: nat): seq<T> {
    if |s| <= k then s else s[..k]
  }

  /** One global stable sort followed by one global deduplication. */
  function Rank<P>(xs: seq<Item<P>>): seq<Item<P>> {
    Dedup(Sort(Before, xs), {})
  }

  /** The reference meaning of a search with limit k. */
  function Top<P>(xs: seq<Item<P>>, k: nat): seq<Item<P>> {
    Take(Rank(xs), k)
  }

  // ------------------------------------------------------------ the order

  lemma {:induction false} KeyOrderTotal()
    ensures StrictTotal(KeyBefore)
  {
    StringOrdersTotal();
    forall a, b, c | KeyBefore(a, b) && KeyBefore(b, c)
      ensures KeyBefore(a, c)
    {
    }
  }

  /** Higher score first; then the newer; then the smaller ID; then the smaller heading path. */
  lemma {:induction false} KeyMeaning(a: Key, b: Key)
    ensures KeyBefore(a, b) <==>
            || a.score > b.score
            || (a.score == b.score && a.time > b.time)
            || (a.score == b.score && a.time == b.time && Precedes(a.id, b.id))
            || (a.score == b.score && a.time == b.time && a.id == b.id && PathPrecedes(a.path, b.path))
  {
    StringOrdersTotal();
    StringLessMeaning(a.id, b.id);
    StringsLessMeaning(a.path, b.path);
  }

  lemma {:induction false} BeforeWeak<P(!new)>()
    ensures StrictWeak<Item<P>>(Before)
    ensures forall a: Item<P>, b: Item<P> :: Before(a, b) || a.key == b.key || Before(b, a)
  {
    KeyOrderTotal();
    TotalIsWeak(KeyBefore);
    assert forall a: Item<P>, b: Item<P> :: Before(a, b) == KeyBefore(a.key, b.key);
    assert forall a: Item<P> :: !Before(a, a);
    assert forall a: Item<P>, b: Item<P>, c: Item<P> :: Before(a, b) && Before(b, c) ==> Before(a, c);
    forall a: Item<P>, b: Item<P>, c: Item<P> | Before(a, c)
      ensures Before(a, b) || Before(b, c)
    {
      assert KeyBefore(a.key, b.key) || KeyBefore(b.key, c.key);
    }
  }

  // ------------------------------------- the winner of each ID in a list

  /** The left candidate stays unless the right one comes strictly before it. */
  function Pick<P>(l: Option<Item<P>>, r: Option<Item<P>>): Option<Item<P>> {
    match (l, r)
    case (None, _) => r
    case (_, None) => l
    case (Some(a), Some(b)) => if Before(b, a) then r else l
  }

  /** The earliest of the best items carrying `id`. */
  function Winner<P>(xs: seq<Item<P>>, id: string): (w: Option<Item<P>>)
    ensures w.Some? ==> w.value in xs && w.value.key.id == id
  {
    if |xs| == 0 then None
    else
      var x := xs[|xs| - 1];
      var w := Winner(xs[..|xs| - 1], id);
      if x.key.id != id then w else Pick(w, Some(x))
  }

  lemma {:induction false} WinnerConcat<P(!new)>(a: seq<Item<P>>, b: seq<Item<P>>, id: string)
    ensures Winner(a + b, id) == Pick(Winner(a, id), Winner(b, id))
  {
    if |b| == 0 {
      assert a + b == a;
    } else {
      BeforeWeak<P>();
      var front := b[..|b| - 1];
      assert (a + b)[..|a + b| - 1] == a + front;
      WinnerConcat(a, front, id);
    }
  }

  lemma {:induction false} WinnerSingle<P>(x: Item<P>, id: string)
    ensures Winner([x], id) == if x.key.id == id then Some(x) else None
  {
    assert [x][..0] == [];
    assert Winner([x], id) == if x.key.id != id then Winner<P>([], id) else Pick(Winner<P>([], id), Some(x));
  }

  lemma {:induction false} WinnerBeatsAll<P(!new)>(xs: seq<Item<P>>, x: Item<P>)
    requires x in xs
    ensures Winner(xs, x.key.id).Some? && !Before(x, Winner(xs, x.key.id).value)
  {
    BeforeWeak<P>();
    var front := xs[..|xs| - 1];
    assert xs == front + [xs[|xs| - 1]];
    if x in front {
      WinnerBeatsAll(front, x);
    }
  }

  // ------------------------------------------------ strictly ranked lists

  /** Strictly ordered, one item per ID: the shape of every running top list. */
  ghost predicate Ranked<P>(s: seq<Item<P>>) {
    && (forall i, j :: 0 <= i < j < |s| ==> Before(s[i], s[j]))
    && (forall i, j :: 0 <= i < j < |s| ==> s[i].key.id != s[j].key.id)
  }

  lemma {:induction false} WinnerOfRanked<P(!new)>(s: seq<Item<P>>, x: Item<P>)
    requires Ranked(s)
    ensures x in s <==> Winner(s, x.key.id) == Some(x)
  {
    if x in s {
      WinnerBeatsAll(s, x);
    }
  }

  ghost predicate Beyond<P>(s: seq<Item<P>>, k: nat, x: Item<P>) {
    k > 0 ==> |s| >= k && Before(s[k - 1], x)
  }

  lemma {:induction false} BeforeTransitive<P>(a: Item<P>, b: Item<P>, c: Item<P>)
    requires Before(a, b) && Before(b, c)
    ensures Before(a, c) && !Before(c, a) && !Before(a, a)
  {
    KeyOrderTotal();
  }

  lemma {:induction false} PrefixIndex<P>(s: seq<Item<P>>, t: seq<Item<P>>, k: nat, i: nat, j: nat)
    requires Ranked(s) && Ranked(t) && k <= |s| && k <= |t| && s[..k] == t[..k]
    requires i < |s| && j < |t| && s[i] == t[j] && k <= i
    ensures k <= j
  {
    assert forall m :: 0 <= m < k ==> s[m] == s[..k][m] == t[..k][m] == t[m];
  }

  lemma {:induction false} FreshNext<P>(t: seq<Item<P>>, i: nat)
    requires Ranked(t) && i < |t|
    ensures t[i] in t && t[i] !in t[..i]
  {
    assert forall l :: 0 <= l < i ==> t[..i][l] == t[l];
  }

  lemma {:induction false} AgreeNext<P>(s: seq<Item<P>>, t: seq<Item<P>>, i: nat)
    requires Ranked(s) && Ranked(t) && i < |s| && i <= |t| && s[..i] == t[..i]
    requires s[i] in t
    requires forall x :: x in t && x !in s ==> Before(s[i], x)
    ensures i < |t| && t[i] == s[i]
  {
    var j :| 0 <= j < |t| && t[j] == s[i];
    PrefixIndex(s, t, i, i, j);
    if i < j {
      assert Before(t[i], s[i]);
      if t[i] in s {
        var l :| 0 <= l < |s| && s[l] == t[i];
        PrefixIndex(t, s, i, i, l);
        BeforeTransitive(s[i], s[l], s[i]);
      } else {
        BeforeTransitive(s[i], t[i], s[i]);
      }
    }
  }

  /** Ranked lists that differ only beyond position k agree up to position k. */
  lemma {:induction false} AgreeUpTo<P>(s: seq<Item<P>>, t: seq<Item<P>>, k: nat)
    requires Ranked(s) && Ranked(t)
    requires forall x :: x in s && x !in t ==> Beyond(s, k, x)
    requires forall x :: x in t && x !in s ==> Beyond(s, k, x)
    ensures Take(s, k) == Take(t, k)
  {
    if k > 0 {
      var i := k - 1;
      forall x: Item<P> | Beyond(s, k, x)
        ensures Beyond(s, i, x)
      {
        if i > 0 { BeforeTransitive(s[i - 1], s[i], x); }
      }
      AgreeUpTo(s, t, i);
      if i < |s| {
        assert |t| >= i && s[..i] == t[..i];
        if s[i] !in t {
          assert Beyond(s, k, s[i]);
          BeforeTransitive(s[i], s[i], s[i]);
        }
        AgreeNext(s, t, i);
        assert s[..k] == s[..i] + [s[i]] && t[..k] == t[..i] + [t[i]];
      } else if i < |t| {
        assert s == t[..i];
        FreshNext(t, i);
        assert false;
      }
    }
  }

  /** A ranked list is determined by the winner it shows for each ID. */
  lemma {:induction false} RankedUnique<P(!new)>(s: seq<Item<P>>, t: seq<Item<P>>)
    requires Ranked(s) && Ranked(t)
    requires forall id :: Winner(s, id) == Winner(t, id)
    ensures s == t
  {
    forall x
      ensures x in s <==> x in t
    {
      WinnerOfRanked(s, x);
      WinnerOfRanked(t, x);
    }
    AgreeUpTo(s, t, |s| + |t|);
  }

  // --------------------------------------------------- what Rank computes

  lemma {:induction false} WinnerMiddle<P(!new)>(u: seq<Item<P>>, x: Item<P>, v: seq<Item<P>>, id: string)
    ensures Winner(u + [x] + v, id) ==
            Pick(if x.key.id == id then Pick(Winner(u, id), Some(x)) else Winner(u, id), Winner(v, id))
  {
    WinnerConcat(u + [x], v, id);
    WinnerConcat(u, [x], id);
    WinnerSingle(x, id);
  }

  lemma {:induction false} PickShuffle<P>(a: Option<Item<P>>, x: Item<P>, b: Option<Item<P>>)
    requires a.Some? ==> !Before(x, a.value)
    requires b.Some? ==> Before(x, b.value)
    ensures Pick(Pick(a, Some(x)), b) == Pick(Pick(a, b), Some(x))
  {
    KeyOrderTotal();
  }

  lemma {:induction false} InsertKeepsWinners<P(!new)>(s: seq<Item<P>>, x: Item<P>, id: string)
    requires Sorted(Before, s)
    ensures Winner(Insert(Before, s, x), id) == Winner(s + [x], id)
  {
    BeforeWeak<P>();
    var i := InsertSorted(Before, s, x);
    assert s == s[..i] + s[i..];
    WinnerMiddle(s[..i], x, s[i..], id);
    WinnerConcat(s[..i], s[i..], id);
    WinnerConcat(s, [x], id);
    WinnerSingle(x, id);
    PickShuffle(Winner(s[..i], id), x, Winner(s[i..], id));
  }

  lemma {:induction false} BeforeSorts<P(!new)>(xs: seq<Item<P>>)
    ensures Sorted(Before, Sort(Before, xs))
  {
    BeforeWeak<P>();
    SortSorts(Before, xs);
  }

  lemma {:induction false} LastWinner<P(!new)>(a: seq<Item<P>>, b: seq<Item<P>>, x: Item<P>, id: string)
    requires Winner(a, id) == Winner(b, id)
    ensures Winner(a + [x], id) == Winner(b + [x], id)
  {
    WinnerConcat(a, [x], id);
    WinnerConcat(b, [x], id);
  }

  lemma {:induction false} SortLast<P(!new)>(front: seq<Item<P>>, x: Item<P>, id: string)
    requires Winner(Sort(Before, front), id) == Winner(front, id)
    ensures Winner(Insert(Before, Sort(Before, front), x), id) == Winner(front + [x], id)
  {
    BeforeSorts(front);
    InsertKeepsWinners(Sort(Before, front), x, id);
    LastWinner(Sort(Before, front), front, x, id);
  }

  lemma {:induction false} SortKeepsWinners<P(!new)>(xs: seq<Item<P>>, id: string)
    ensures Winner(Sort(Before, xs), id) == Winner(xs, id)
  {
    if |xs| > 0 {
      var front, x := xs[..|xs| - 1], xs[|xs| - 1];
      SortKeepsWinners(front, id);
      SortLast(front, x, id);
      assert xs == front + [x];
    }
  }

  lemma {:induction false} SortedHead<P(!new)>(s: seq<Item<P>>, y: Item<P>)
    requires |s| > 0 && Sorted(Before, s) && y in s[1..]
    ensures !Before(y, s[0])
    ensures y.key.id != s[0].key.id ==> Before(s[0], y)
  {
    BeforeWeak<P>();
    var j :| 0 <= j < |s[1..]| && s[1..][j] == y;
    assert s[j + 1] == y;
  }

  /** Deduplicating a sorted list leaves a ranked list of items not yet seen. */
  lemma {:induction false} DedupRanks<P(!new)>(s: seq<Item<P>>, seen: set<string>)
    requires Sorted(Before, s)
    ensures Ranked(Dedup(s, seen))
    ensures forall x :: x in Dedup(s, seen) ==> x in s && x.key.id !in seen
  {
    if |s| > 0 {
      var seen' := if s[0].key.id in seen then seen else seen + {s[0].key.id};
      DedupRanks(s[1..], seen');
      var d := Dedup(s[1..], seen');
      if s[0].key.id !in seen {
        forall j | 0 <= j < |d|
          ensures Before(s[0], d[j]) && s[0].key.id != d[j].key.id
        {
          assert d[j] in d;
          SortedHead(s, d[j]);
        }
      }
    }
  }

  lemma {:induction false} DedupKeepsWinners<P(!new)>(s: seq<Item<P>>, seen: set<string>, id: string)
    requires Sorted(Before, s)
    ensures Winner(Dedup(s, seen), id) == if id in seen then None else Winner(s, id)
  {
    if |s| > 0 {
      var x, rest := s[0], s[1..];
      var seen' := if x.key.id in seen then seen else seen + {x.key.id};
      DedupKeepsWinners(rest, seen', id);
      assert s == [x] + rest;
      WinnerConcat([x], rest, id);
      WinnerConcat([x], Dedup(rest, seen'), id);
      WinnerSingle(x, id);
      if Winner(rest, id).Some? {
        SortedHead(s, Winner(rest, id).value);
      }
    }
  }

  lemma {:induction false} RankRanks<P(!new)>(xs: seq<Item<P>>)
    ensures Ranked(Rank(xs))
    ensures forall id :: Winner(Rank(xs), id) == Winner(xs, id)
  {
    BeforeWeak<P>();
    SortSorts(Before, xs);
    DedupRanks(Sort(Before, xs), {});
    forall id
      ensures Winner(Rank(xs), id) == Winner(xs, id)
    {
      SortKeepsWinners(xs, id);
      DedupKeepsWinners(Sort(Before, xs), {}, id);
    }
  }

  /** The whole content of Rank: it is the only ranked list of the winners. */
  lemma {:induction false} RankUnique<P(!new)>(s: seq<Item<P>>, xs: seq<Item<P>>)
    requires Ranked(s)
    requires forall id :: Winner(s, id) == Winner(xs, id)
    ensures s == Rank(xs)
  {
    RankRanks(xs);
    RankedUnique(s, Rank(xs));
  }

  // ------------------------------------------------ what a list of results says

  /** Each ID once; the better score first, then the newer, then the smaller ID. */
  ghost predicate BestFirst<P>(results: seq<Item<P>>) {
    forall i, j :: 0 <= i < j < |results| ==> Leads(results[i].key, results[j].key)
  }

  ghost predicate Leads(a: Key, b: Key) {
    && a.id != b.id
    && (a.score > b.score || (a.score == b.score && (a.time > b.time || (a.time == b.time && Precedes(a.id, b.id)))))
  }

  lemma {:induction false} RankedLeads<P>(s: seq<Item<P>>)
    requires Ranked(s)
    ensures BestFirst(s)
  {
    forall i, j | 0 <= i < j < |s|
      ensures Leads(s[i].key, s[j].key)
    {
      assert Before(s[i], s[j]);
      KeyMeaning(s[i].key, s[j].key);
    }
  }

  lemma {:induction false} TopRanked<P(!new)>(xs: seq<Item<P>>, k: nat)
    ensures Ranked(Top(xs, k)) && |Top(xs, k)| <= k
  {
    RankRanks(xs);
  }

  /** Nothing is left out but for better: its ID is shown by an item as good, or k better items are shown. */
  ghost predicate Represented<P>(top: seq<Item<P>>, k: nat, key: Key) {
    || (exists y :: y in top && y.key.id == key.id && y.key.score >= key.score)
    || (|top| == k && forall y :: y in top ==> y.key.score >= key.score)
  }

  lemma {:induction false} TopRepresents<P(!new)>(xs: seq<Item<P>>, k: nat, x: Item<P>)
    requires x in xs
    ensures Represented(Top(xs, k), k, x.key)
  {
    var r := Rank(xs);
    RankRanks(xs);
    WinnerBeatsAll(xs, x);
    var w := Winner(xs, x.key.id).value;
    WinnerOfRanked(r, w);
    var i :| 0 <= i < |r| && r[i] == w;
    if i < k {
      assert Top(xs, k)[i] == w;
    } else {
      forall y | y in Top(xs, k)
        ensures y.key.score >= x.key.score
      {
        var j :| 0 <= j < k && r[j] == y;
        assert Before(r[j], r[i]);
      }
    }
  }
}
