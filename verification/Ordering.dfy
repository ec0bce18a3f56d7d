/**
 Strict orders, lexicographic comparison and the stable sort used by Rust's
 `sort`, `sort_by` and Python's `sorted`.
 */
module Ordering {

  ghost predicate StrictWeak<T(!new)>(less: (T, T) -> bool) {
    && (forall a :: !less(a, a))
    && (forall a, b, c :: less(a, b) && less(b, c) ==> less(a, c))
    && (forall a, b, c :: less(a, c) ==> less(a, b) || less(b, c))
  }

  ghost predicate StrictTotal<T(!new)>(less: (T, T) -> bool) {
    && (forall a :: !less(a, a))
    && (forall a, b, c :: less(a, b) && less(b, c) ==> less(a, c))
    && (forall a, b :: less(a, b) || a == b || less(b, a))
  }

  lemma {:induction false} TotalIsWeak<T(!new)>(less: (T, T) -> bool)
    requires StrictTotal(less)
    ensures StrictWeak(less)
  {
    forall a, b, c | less(a, c)
      ensures less(a, b) || less(b, c)
    {
      if !less(a, b) && a != b {
        assert less(b, a);
      }
    }
  }

  /** Lexicographic order on sequences; a proper prefix comes first. */
  predicate LexLess<T(==)>(less: (T, T) -> bool, a: seq<T>, b: seq<T>) {
    if |b| == 0 then false
    else if |a| == 0 then true
    else if a[0] == b[0] then LexLess(less, a[1..], b[1..])
    else less(a[0], b[0])
  }

  lemma {:induction false} LexTransitive<T(!new)>(less: (T, T) -> bool, a: seq<T>, b: seq<T>, c: seq<T>)
    requires StrictTotal(less)
    requires LexLess(less, a, b) && LexLess(less, b, c)
    ensures LexLess(less, a, c)
  {
    if |a| > 0 {
      if a[0] == b[0] && b[0] == c[0] {
        LexTransitive(less, a[1..], b[1..], c[1..]);
      } else {
        assert less(a[0], c[0]);
      }
    }
  }

  lemma {:induction false} LexTrichotomy<T(!new)>(less: (T, T) -> bool, a: seq<T>, b: seq<T>)
    requires StrictTotal(less)
    ensures LexLess(less, a, b) || a == b || LexLess(less, b, a)
    ensures !LexLess(less, a, a)
  {
    if |a| > 0 {
      LexTrichotomy(less, a[1..], if |b| > 0 then b[1..] else []);
      if |b| > 0 && a[0] == b[0] && a[1..] == b[1..] {
        assert a == [a[0]] + a[1..] && b == [b[0]] + b[1..];
      }
    }
  }

  /** Rust compares strings by their UTF-8 bytes, which is the order of their code points. */
  predicate StringLess(a: string, b: string) {
    LexLess((c: char, d: char) => c < d, a, b)
  }

  predicate StringsLess(a: seq<string>, b: seq<string>) {
    LexLess(StringLess, a, b)
  }

  lemma {:induction false} LexTotal<T(!new)>(less: (T, T) -> bool)
    requires StrictTotal(less)
    ensures StrictTotal((a: seq<T>, b: seq<T>) => LexLess(less, a, b))
  {
    forall a: seq<T>, b: seq<T>, c: seq<T> | LexLess(less, a, b) && LexLess(less, b, c)
      ensures LexLess(less, a, c)
    {
      LexTransitive(less, a, b, c);
    }
    forall a: seq<T>, b: seq<T>
      ensures (LexLess(less, a, b) || a == b || LexLess(less, b, a)) && !LexLess(less, a, a)
    {
      LexTrichotomy(less, a, b);
    }
  }

  lemma {:induction false} StringOrdersTotal()
    ensures StrictTotal(StringLess)
    ensures StrictTotal(StringsLess)
  {
    var chars := (c: char, d: char) => c < d;
    LexTotal(chars);
    assert StrictTotal(StringLess) by {
      var f := (a: string, b: string) => LexLess(chars, a, b);
      assert forall a: string, b: string :: f(a, b) == StringLess(a, b);
    }
    LexTotal(StringLess);
    assert StrictTotal(StringsLess) by {
      var f := (a: seq<string>, b: seq<string>) => LexLess(StringLess, a, b);
      assert forall a: seq<string>, b: seq<string> :: f(a, b) == StringsLess(a, b);
    }
  }

  /** One is a proper prefix of the other, or is smaller at the first place where they differ. */
  ghost predicate FirstDiffers<T>(less: (T, T) -> bool, a: seq<T>, b: seq<T>, k: nat) {
    && k <= |a| && k < |b| && a[..k] == b[..k]
    && (k == |a| || (a[k] != b[k] && less(a[k], b[k])))
  }

  lemma {:induction false} FirstDiffersNext<T(!new)>(less: (T, T) -> bool, a: seq<T>, b: seq<T>, k: nat)
    requires |a| > 0 && |b| > 0 && a[0] == b[0]
    ensures FirstDiffers(less, a[1..], b[1..], k) <==> FirstDiffers(less, a, b, k + 1)
  {
    if k < |a| && k + 1 < |b| {
      assert a[..k + 1] == [a[0]] + a[1..][..k] && b[..k + 1] == [b[0]] + b[1..][..k];
    }
  }

  lemma {:induction false} SamePrefix<T>(a: seq<T>, b: seq<T>, k: nat)
    requires k <= |a| && k <= |b| && a[..k] == b[..k]
    ensures k > 0 ==> a[0] == b[0]
  {
    if k > 0 {
      assert a[..k][0] == b[..k][0];
    }
  }

  lemma {:induction false} LexMeaning<T(!new)>(less: (T, T) -> bool, a: seq<T>, b: seq<T>)
    ensures LexLess(less, a, b) <==> exists k: nat :: FirstDiffers(less, a, b, k)
  {
    if |b| > 0 && |a| == 0 {
      assert FirstDiffers(less, a, b, 0);
    } else if |b| > 0 && a[0] == b[0] {
      LexMeaning(less, a[1..], b[1..]);
      if k: nat :| FirstDiffers(less, a[1..], b[1..], k) {
        FirstDiffersNext(less, a, b, k);
      }
      if k: nat :| FirstDiffers(less, a, b, k) {
        FirstDiffersNext(less, a, b, k - 1);
      }
    } else if |b| > 0 {
      forall k: nat | FirstDiffers(less, a, b, k)
        ensures k == 0
      {
        SamePrefix(a, b, k);
      }
      assert less(a[0], b[0]) ==> FirstDiffers(less, a, b, 0);
    }
  }

  /** Text in alphabetical order of its characters. */
  ghost predicate Precedes(a: string, b: string) {
    exists k: nat :: k <= |a| && k < |b| && a[..k] == b[..k] && (k == |a| || a[k] < b[k])
  }

  ghost predicate PathPrecedes(a: seq<string>, b: seq<string>) {
    exists k: nat :: k <= |a| && k < |b| && a[..k] == b[..k] && (k == |a| || Precedes(a[k], b[k]))
  }

  lemma {:induction false} StringLessMeaning(a: string, b: string)
    ensures StringLess(a, b) <==> Precedes(a, b)
  {
    var chars := (c: char, d: char) => c < d;
    LexMeaning(chars, a, b);
    if k: nat :| FirstDiffers(chars, a, b, k) {
      assert k <= |a| && k < |b| && a[..k] == b[..k] && (k == |a| || a[k] < b[k]);
    }
    if k: nat :| k <= |a| && k < |b| && a[..k] == b[..k] && (k == |a| || a[k] < b[k]) {
      assert FirstDiffers(chars, a, b, k);
    }
  }

  lemma {:induction false} StringsLessMeaning(a: seq<string>, b: seq<string>)
    ensures StringsLess(a, b) <==> PathPrecedes(a, b)
  {
    StringOrdersTotal();
    LexMeaning(StringLess, a, b);
    forall s: string, t: string
      ensures StringLess(s, t) <==> Precedes(s, t)
    {
      StringLessMeaning(s, t);
    }
    if k: nat :| FirstDiffers(StringLess, a, b, k) {
      assert k <= |a| && k < |b| && a[..k] == b[..k] && (k == |a| || Precedes(a[k], b[k]));
    }
    if k: nat :| k <= |a| && k < |b| && a[..k] == b[..k] && (k == |a| || Precedes(a[k], b[k])) {
      assert FirstDiffers(StringLess, a, b, k);
    }
  }

  /** Inserts x after every element that does not come strictly after it. */
  function Insert<T>(less: (T, T) -> bool, s: seq<T>, x: T): seq<T> {
    if |s| == 0 then [x]
    else if less(x, s[0]) then [x] + s
    else [s[0]] + Insert(less, s[1..], x)
  }

  function Sort<T>(less: (T, T) -> bool, s: seq<T>): seq<T> {
    if |s| == 0 then []
    else Insert(less, Sort(less, s[..|s| - 1]), s[|s| - 1])
  }

  ghost predicate Sorted<T>(less: (T, T) -> bool, s: seq<T>) {
    forall i, j :: 0 <= i < j < |s| ==> !less(s[j], s[i])
  }

  lemma {:induction false} SortedSplice<T>(less: (T, T) -> bool, s: seq<T>, i: nat, x: T)
    requires Sorted(less, s) && i <= |s|
    requires forall j :: 0 <= j < i ==> !less(x, s[j])
    requires forall j :: i <= j < |s| ==> !less(s[j], x)
    ensures Sorted(less, s[..i] + [x] + s[i..])
  {
    var r := s[..i] + [x] + s[i..];
    assert forall j :: 0 <= j < i ==> r[j] == s[j];
    assert forall j :: i < j < |r| ==> r[j] == s[j - 1];
  }

  /** Insertion splits the old sequence at one place. */
  lemma {:induction false} InsertSplits<T>(less: (T, T) -> bool, s: seq<T>, x: T) returns (i: nat)
    ensures i <= |s| && Insert(less, s, x) == s[..i] + [x] + s[i..]
    ensures forall j :: 0 <= j < i ==> !less(x, s[j])
    ensures i < |s| ==> less(x, s[i])
  {
    if |s| == 0 || less(x, s[0]) {
      i := 0;
    } else {
      var k := InsertSplits(less, s[1..], x);
      i := k + 1;
      assert s == [s[0]] + s[1..];
    }
  }

  /** In a sorted sequence that place parts what may precede x from what follows it. */
  lemma {:induction false} InsertSorted<T(!new)>(less: (T, T) -> bool, s: seq<T>, x: T) returns (i: nat)
    requires StrictWeak(less) && Sorted(less, s)
    ensures i <= |s| && Insert(less, s, x) == s[..i] + [x] + s[i..]
    ensures forall j :: 0 <= j < i ==> !less(x, s[j])
    ensures forall j :: i <= j < |s| ==> less(x, s[j])
    ensures Sorted(less, Insert(less, s, x))
  {
    i := InsertSplits(less, s, x);
    forall j | i <= j < |s|
      ensures less(x, s[j]) && !less(s[j], x)
    {
      assert j > i ==> !less(s[j], s[i]);
      assert less(x, s[i]);
    }
    SortedSplice(less, s, i, x);
  }

  lemma {:induction false} SortSorts<T(!new)>(less: (T, T) -> bool, s: seq<T>)
    requires StrictWeak(less)
    ensures Sorted(less, Sort(less, s))
    ensures multiset(Sort(less, s)) == multiset(s)
  {
    if |s| > 0 {
      var front := s[..|s| - 1];
      var sorted := Sort(less, front);
      SortSorts(less, front);
      var i := InsertSorted(less, sorted, s[|s| - 1]);
      assert s == front + [s[|s| - 1]];
      assert sorted == sorted[..i] + sorted[i..];
    }
  }

  lemma {:induction false} SortedHeads<T(!new)>(less: (T, T) -> bool, s: seq<T>, t: seq<T>)
    requires StrictTotal(less) && Sorted(less, s) && Sorted(less, t)
    requires |s| > 0 && |t| > 0 && s[0] in t && t[0] in s
    ensures s[0] == t[0]
  {
    var i :| 0 <= i < |t| && t[i] == s[0];
    var j :| 0 <= j < |s| && s[j] == t[0];
  }

  lemma {:induction false} TailsMatch<T>(s: seq<T>, t: seq<T>)
    requires |s| > 0 && |t| > 0 && s[0] == t[0] && multiset(s) == multiset(t)
    ensures multiset(s[1..]) == multiset(t[1..])
  {
    assert s == [s[0]] + s[1..] && t == [t[0]] + t[1..];
    assert multiset(s[1..]) == multiset(s) - multiset{s[0]};
    assert multiset(t[1..]) == multiset(t) - multiset{t[0]};
  }

  /** Under a total order, two sorted arrangements of the same elements are equal. */
  lemma {:induction false} SortedUnique<T(!new)>(less: (T, T) -> bool, s: seq<T>, t: seq<T>)
    requires StrictTotal(less) && Sorted(less, s) && Sorted(less, t)
    requires multiset(s) == multiset(t)
    ensures s == t
  {
    assert |s| == |multiset(s)| == |multiset(t)| == |t|;
    if |s| > 0 {
      assert s[0] in multiset(t) && t[0] in multiset(s);
      SortedHeads(less, s, t);
      TailsMatch(s, t);
      SortedUnique(less, s[1..], t[1..]);
      assert s == [s[0]] + s[1..] && t == [t[0]] + t[1..];
    }
  }

  /** Sorting forgets the order in which the elements were listed. */
  lemma {:induction false} SortIgnoresOrder<T(!new)>(less: (T, T) -> bool, s: seq<T>, t: seq<T>)
    requires StrictTotal(less) && multiset(s) == multiset(t)
    ensures Sort(less, s) == Sort(less, t)
  {
    TotalIsWeak(less);
    SortSorts(less, s);
    SortSorts(less, t);
    SortedUnique(less, Sort(less, s), Sort(less, t));
  }

  /** The order tells any two different elements of this list apart. */
  ghost predicate Separates<T>(less: (T, T) -> bool, s: seq<T>) {
    forall a, b :: a in s && b in s && a != b ==> less(a, b) || less(b, a)
  }

  lemma {:induction false} SeparatedHeads<T(!new)>(less: (T, T) -> bool, s: seq<T>, t: seq<T>)
    requires Separates(less, s) && Sorted(less, s) && Sorted(less, t)
    requires |s| > 0 && |t| > 0 && s[0] in t && t[0] in s
    ensures s[0] == t[0]
  {
    var i :| 0 <= i < |t| && t[i] == s[0];
    var j :| 0 <= j < |s| && s[j] == t[0];
  }

  lemma {:induction false} SeparatedUnique<T(!new)>(less: (T, T) -> bool, s: seq<T>, t: seq<T>)
    requires Separates(less, s) && Sorted(less, s) && Sorted(less, t)
    requires multiset(s) == multiset(t)
    ensures s == t
  {
    assert |s| == |multiset(s)| == |multiset(t)| == |t|;
    if |s| > 0 {
      assert s[0] in multiset(t) && t[0] in multiset(s);
      SeparatedHeads(less, s, t);
      TailsMatch(s, t);
      SeparatedUnique(less, s[1..], t[1..]);
      assert s == [s[0]] + s[1..] && t == [t[0]] + t[1..];
    }
  }

  lemma {:induction false} SameMembers<T>(s: seq<T>, t: seq<T>, x: T)
    requires multiset(s) == multiset(t)
    ensures x in s <==> x in t
  {
    assert x in s <==> x in multiset(s);
    assert x in t <==> x in multiset(t);
  }

  /** Sorting by a key forgets the listing order when the key tells the elements apart. */
  lemma {:induction false} SortSeparated<T(!new)>(less: (T, T) -> bool, s: seq<T>, t: seq<T>)
    requires StrictWeak(less) && Separates(less, s) && multiset(s) == multiset(t)
    ensures Sort(less, s) == Sort(less, t)
  {
    SortSorts(less, s);
    SortSorts(less, t);
    forall x
      ensures x in Sort(less, s) <==> x in s
    {
      SameMembers(Sort(less, s), s, x);
    }
    SeparatedUnique(less, Sort(less, s), Sort(less, t));
  }
}
