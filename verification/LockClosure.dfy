/**
 The runtime closure of a lockfile: packages reached from the root through
 regular dependencies and through the extras that dependencies request
 (apps/guruterminal/openbb/license_bundle.py:84-131).
 */
module LockClosure {
  import opened Lists
  import opened LockFile
  import opened Wrappers

  // --------------------------------------------------- what must be selected

  /** A package's regular dependencies, or those of one of its extras. */
  datatype Goal = Regular(name: string) | Extra(name: string, extra: string)

  function DependenciesOf(packages: Packages, g: Goal): seq<Dependency> {
    if g.name !in packages then []
    else
      match g
      case Regular(name) => packages[name].dependencies
      case Extra(name, extra) => if extra in packages[name].optional then packages[name].optional[extra] else []
  }

  type Item = (string, seq<string>)

  function ItemOf(): Dependency -> Item {
    (d: Dependency) => (d.name, RequestedExtras(d))
  }

  predicate Asks(item: Item, g: Goal) {
    g.name == CanonicalizeName(item.0) && (g.Extra? ==> g.extra in item.1)
  }

  /** The package lists this dependency, among its regular ones or under the extra. */
  predicate DependsOn(packages: Packages, g: Goal, d: Dependency) {
    && g.name in packages
    && match g
       case Regular(name) => d in packages[name].dependencies
       case Extra(name, extra) => extra in packages[name].optional && d in packages[name].optional[extra]
  }

  /** Following g leads to h: a dependency of g names h's package and, for an extra, asks for it. */
  ghost predicate Leads(packages: Packages, g: Goal, h: Goal) {
    exists d ::
      DependsOn(packages, g, d) && CanonicalizeName(d.name) == h.name && (h.Extra? ==> Wants(d, h.extra))
  }

  lemma {:induction false} LeadsMeaning(packages: Packages, g: Goal, h: Goal)
    ensures Leads(packages, g, h) <==> exists d :: d in DependenciesOf(packages, g) && Asks(ItemOf()(d), h)
  {
    forall d
      ensures DependsOn(packages, g, d) <==> d in DependenciesOf(packages, g)
      ensures Asks(ItemOf()(d), h) <==> CanonicalizeName(d.name) == h.name && (h.Extra? ==> Wants(d, h.extra))
    {
      RequestedMeaning(d);
    }
  }

  ghost predicate IsPath(packages: Packages, path: seq<Goal>) {
    && |path| > 0 && path[0] == Regular("guruterminal-openbb")
    && forall i :: 0 <= i < |path| - 1 ==> Leads(packages, path[i], path[i + 1])
  }

  /** The runtime needs this goal. */
  ghost predicate Reached(packages: Packages, g: Goal) {
    exists path :: IsPath(packages, path) && path[|path| - 1] == g
  }

  lemma {:induction false} ReachedRoot(packages: Packages)
    ensures Reached(packages, Regular(ROOT))
  {
    assert IsPath(packages, [Regular(ROOT)]);
  }

  lemma {:induction false} ReachedNext(packages: Packages, g: Goal, h: Goal)
    requires Reached(packages, g) && Leads(packages, g, h)
    ensures Reached(packages, h)
  {
    var path :| IsPath(packages, path) && path[|path| - 1] == g;
    assert IsPath(packages, path + [h]);
  }

  ghost predicate Closed(packages: Packages, goals: iset<Goal>) {
    && Regular(ROOT) in goals
    && forall g, h :: g in goals && Leads(packages, g, h) ==> h in goals
  }

  /** What is reached is closed and lies in every closed set: it is the least one. */
  lemma {:induction false} ReachedIsLeast(packages: Packages, goals: iset<Goal>, g: Goal)
    requires Closed(packages, goals) && Reached(packages, g)
    ensures g in goals
  {
    var path :| IsPath(packages, path) && path[|path| - 1] == g;
    PathStays(packages, goals, path, |path| - 1);
  }

  lemma {:induction false} PathStays(packages: Packages, goals: iset<Goal>, path: seq<Goal>, i: nat)
    requires Closed(packages, goals) && IsPath(packages, path) && i < |path|
    ensures path[i] in goals
  {
    if i > 0 {
      PathStays(packages, goals, path, i - 1);
      assert Leads(packages, path[i - 1], path[i - 1 + 1]);
    }
  }

  lemma {:induction false} ReachedIsClosed(packages: Packages)
    ensures Closed(packages, iset g | Reached(packages, g))
  {
    ReachedRoot(packages);
    forall g, h | Reached(packages, g) && Leads(packages, g, h)
      ensures Reached(packages, h)
    {
      ReachedNext(packages, g, h);
    }
  }

  // ------------------------------------------------------------ the worklist

  /** The three sets and the pending list of the resolver. */
  datatype Work = Work(pending: seq<Item>, selected: set<string>, regular: set<string>,
                       extras: map<string, set<string>>)

  predicate IsDone(w: Work, g: Goal) {
    match g
    case Regular(name) => name in w.regular
    case Extra(name, extra) => name in w.extras && extra in w.extras[name]
  }

  predicate Awaited(pending: seq<Item>, g: Goal) {
    exists item | item in pending :: Asks(item, g)
  }

  ghost predicate Complete(packages: Packages, w: Work) {
    && (IsDone(w, Regular(ROOT)) || Awaited(w.pending, Regular(ROOT)))
    && forall g, h :: IsDone(w, g) && Leads(packages, g, h) ==> IsDone(w, h) || Awaited(w.pending, h)
  }

  ghost predicate Correct(packages: Packages, w: Work) {
    && (forall g :: Awaited(w.pending, g) ==> Reached(packages, g))
    && (forall g :: IsDone(w, g) ==> Reached(packages, g))
    && w.selected == w.regular
  }

  /** Every extra that any dependency requests. */
  function Universe(packages: Packages): set<string> {
    (set n, d, e | n in packages && d in packages[n].dependencies && e in RequestedExtras(d) :: e) +
    (set n, x, d, e | n in packages && x in packages[n].optional && d in packages[n].optional[x] &&
                      e in RequestedExtras(d) :: e)
  }

  ghost predicate Bounded(packages: Packages, w: Work) {
    && w.regular <= packages.Keys
    && (forall item, e :: item in w.pending && e in item.1 ==> e in Universe(packages))
    && (forall n :: n in w.extras ==> n in packages && w.extras[n] <= Universe(packages))
  }

  function Pairs(names: set<string>, extras: set<string>): set<(string, string)> {
    set n, e | n in names && e in extras :: (n, e)
  }

  function DonePairs(w: Work): set<(string, string)> {
    set n, e | n in w.extras && e in w.extras[n] :: (n, e)
  }

  /** Packages still to expand, extras still to expand, items still to look at. */
  function PackagesLeft(packages: Packages, w: Work): nat {
    |packages.Keys - w.regular|
  }

  function ExtrasLeft(packages: Packages, w: Work): nat {
    |Pairs(packages.Keys, Universe(packages)) - DonePairs(w)|
  }

  /** Exactly these dependencies are pushed: of the package if new, of its new extras. */
  ghost predicate Pushes(packages: Packages, name: string, known: set<string>, unseen: set<string>, items: seq<Item>) {
    forall item :: item in items <==>
      (exists g, d :: Expands(name, known, unseen, g) && d in DependenciesOf(packages, g) && item == ItemOf()(d))
  }

  predicate Expands(name: string, known: set<string>, unseen: set<string>, g: Goal) {
    g.name == name && match g case Regular(_) => name !in known case Extra(_, extra) => extra in unseen
  }

  method PushAll(pending: seq<Item>, dependencies: seq<Dependency>) returns (pushed: seq<Item>)
    ensures pushed == pending + Map(ItemOf(), dependencies)
  {
    pushed := pending;
    for i := 0 to |dependencies|
      invariant pushed == pending + Map(ItemOf(), dependencies[..i])
    {
      var d := dependencies[i];
      assert Map(ItemOf(), dependencies[..i + 1]) == Map(ItemOf(), dependencies[..i]) + [ItemOf()(d)];
      pushed := pushed + [(d.name, RequestedExtras(d))];
    }
    assert dependencies[..|dependencies|] == dependencies;
  }

  /** The items of the new extras' dependencies, the extras in any order. */
  method PushExtras(packages: Packages, name: string, unseen: set<string>) returns (items: seq<Item>)
    requires name in packages
    ensures Pushes(packages, name, {name}, unseen, items)
  {
    items := [];
    var left := unseen;
    while left != {}
      invariant left <= unseen && Pushes(packages, name, {name}, unseen - left, items)
      decreases |left|
    {
      var extra :| extra in left;
      ghost var before := items;
      items := PushAll(items, DependenciesOf(packages, Extra(name, extra)));
      PushOne(packages, name, unseen - left, extra, before, items);
      assert unseen - left + {extra} == unseen - (left - {extra});
      left := left - {extra};
    }
    assert unseen - left == unseen;
  }

  lemma {:induction false} MapMember(ds: seq<Dependency>, item: Item)
    ensures item in Map(ItemOf(), ds) <==> exists d :: d in ds && item == ItemOf()(d)
  {
    if d :| d in ds && item == ItemOf()(d) {
      var i :| 0 <= i < |ds| && ds[i] == d;
      assert Map(ItemOf(), ds)[i] == item;
    }
  }

  lemma {:induction false} PushOne(packages: Packages, name: string, done: set<string>, extra: string,
                                   before: seq<Item>, after: seq<Item>)
    requires Pushes(packages, name, {name}, done, before)
    requires after == before + Map(ItemOf(), DependenciesOf(packages, Extra(name, extra)))
    ensures Pushes(packages, name, {name}, done + {extra}, after)
  {
    forall item
      ensures item in after <==>
              (exists g, d :: Expands(name, {name}, done + {extra}, g) && d in DependenciesOf(packages, g) &&
                              item == ItemOf()(d))
    {
      MapMember(DependenciesOf(packages, Extra(name, extra)), item);
      if item in before {
        var g, d :| Expands(name, {name}, done, g) && d in DependenciesOf(packages, g) && item == ItemOf()(d);
        assert Expands(name, {name}, done + {extra}, g);
      }
      if item in Map(ItemOf(), DependenciesOf(packages, Extra(name, extra))) {
        assert Expands(name, {name}, done + {extra}, Extra(name, extra));
      }
      if g, d :| Expands(name, {name}, done + {extra}, g) && d in DependenciesOf(packages, g) && item == ItemOf()(d) {
        assert g == Extra(name, extra) || Expands(name, {name}, done, g);
      }
    }
  }

  lemma {:induction false} PushBoth(packages: Packages, name: string, known: set<string>, unseen: set<string>,
                                    items: seq<Item>, all: seq<Item>)
    requires Pushes(packages, name, {name}, unseen, items)
    requires all == (if name !in known then Map(ItemOf(), DependenciesOf(packages, Regular(name))) else []) + items
    ensures Pushes(packages, name, known, unseen, all)
  {
    forall item
      ensures item in all <==>
        (exists g, d :: Expands(name, known, unseen, g) && d in DependenciesOf(packages, g) && item == ItemOf()(d))
    {
      MapMember(DependenciesOf(packages, Regular(name)), item);
      if item in items {
        var g, d :| Expands(name, {name}, unseen, g) && d in DependenciesOf(packages, g) && item == ItemOf()(d);
        assert Expands(name, known, unseen, g);
      }
      if name !in known && item in Map(ItemOf(), DependenciesOf(packages, Regular(name))) {
        assert Expands(name, known, unseen, Regular(name));
      }
      if g, d :| Expands(name, known, unseen, g) && d in DependenciesOf(packages, g) && item == ItemOf()(d) {
        assert g == Regular(name) || Expands(name, {name}, unseen, g);
      }
    }
  }

  // ---------------------------------------------------------------- one turn

  function ProcessedExtras(w: Work, name: string): set<string> {
    if name in w.extras then w.extras[name] else {}
  }

  function RequestedSet(item: Item): set<string> {
    set extra | extra in item.1
  }

  /** The sets after the last pending item, with the items it pushes. */
  function Popped(w: Work, items: seq<Item>): Work
    requires |w.pending| > 0
  {
    var item := w.pending[|w.pending| - 1];
    var name := CanonicalizeName(item.0);
    Work(w.pending[..|w.pending| - 1] + items, w.selected + {name}, w.regular + {name},
         w.extras[name := ProcessedExtras(w, name) + RequestedSet(item)])
  }

  ghost predicate PoppedPushes(packages: Packages, w: Work, items: seq<Item>)
    requires |w.pending| > 0
  {
    var item := w.pending[|w.pending| - 1];
    var name := CanonicalizeName(item.0);
    Pushes(packages, name, w.regular, RequestedSet(item) - ProcessedExtras(w, name), items)
  }

  lemma {:induction false} AwaitedJoin(a: seq<Item>, b: seq<Item>, g: Goal)
    ensures Awaited(a + b, g) <==> Awaited(a, g) || Awaited(b, g)
  {
  }

  lemma {:induction false} AwaitedLast(pending: seq<Item>, g: Goal)
    requires |pending| > 0
    ensures Awaited(pending, g) <==> Awaited(pending[..|pending| - 1], g) || Asks(pending[|pending| - 1], g)
  {
    assert pending == pending[..|pending| - 1] + [pending[|pending| - 1]];
    AwaitedJoin(pending[..|pending| - 1], [pending[|pending| - 1]], g);
  }

  /** What is done afterwards: what was done, and what the item asked for. */
  lemma {:induction false} PoppedDone(w: Work, items: seq<Item>, g: Goal)
    requires |w.pending| > 0
    ensures IsDone(Popped(w, items), g) <==> IsDone(w, g) || Asks(w.pending[|w.pending| - 1], g)
  {
  }

  /** The pushed items ask for everything the newly done goals lead to, and nothing else. */
  lemma {:induction false} PushedAsks(packages: Packages, w: Work, items: seq<Item>, h: Goal)
    requires |w.pending| > 0 && PoppedPushes(packages, w, items)
    ensures Awaited(items, h) <==>
            exists g :: Asks(w.pending[|w.pending| - 1], g) && !IsDone(w, g) && Leads(packages, g, h)
  {
    var last := w.pending[|w.pending| - 1];
    var name := CanonicalizeName(last.0);
    var unseen := RequestedSet(last) - ProcessedExtras(w, name);
    assert forall g :: Expands(name, w.regular, unseen, g) <==> Asks(last, g) && !IsDone(w, g);
    if item :| item in items && Asks(item, h) {
      var g, d :| Expands(name, w.regular, unseen, g) && d in DependenciesOf(packages, g) && item == ItemOf()(d);
      LeadsMeaning(packages, g, h);
    }
    if g :| Asks(last, g) && !IsDone(w, g) && Leads(packages, g, h) {
      LeadsMeaning(packages, g, h);
      var d :| d in DependenciesOf(packages, g) && Asks(ItemOf()(d), h);
      assert Expands(name, w.regular, unseen, g);
      assert ItemOf()(d) in items;
    }
  }

  lemma {:induction false} PoppedComplete(packages: Packages, w: Work, items: seq<Item>)
    requires |w.pending| > 0 && PoppedPushes(packages, w, items) && Complete(packages, w)
    ensures Complete(packages, Popped(w, items))
  {
    var next := Popped(w, items);
    var front := w.pending[..|w.pending| - 1];
    forall h | IsDone(w, h) || Awaited(w.pending, h)
      ensures IsDone(next, h) || Awaited(next.pending, h)
    {
      PoppedDone(w, items, h);
      AwaitedLast(w.pending, h);
      AwaitedJoin(front, items, h);
    }
    forall g, h | IsDone(next, g) && Leads(packages, g, h)
      ensures IsDone(next, h) || Awaited(next.pending, h)
    {
      PoppedDone(w, items, g);
      PushedAsks(packages, w, items, h);
      AwaitedJoin(front, items, h);
    }
  }

  lemma {:induction false} PoppedCorrect(packages: Packages, w: Work, items: seq<Item>)
    requires |w.pending| > 0 && PoppedPushes(packages, w, items) && Correct(packages, w)
    ensures Correct(packages, Popped(w, items))
  {
    var next := Popped(w, items);
    forall g
      ensures IsDone(next, g) ==> Reached(packages, g)
      ensures Awaited(next.pending, g) ==> Reached(packages, g)
    {
      PoppedDone(w, items, g);
      AwaitedLast(w.pending, g);
      AwaitedJoin(w.pending[..|w.pending| - 1], items, g);
      PushedAsks(packages, w, items, g);
      if Awaited(items, g) {
        var f :| Asks(w.pending[|w.pending| - 1], f) && !IsDone(w, f) && Leads(packages, f, g);
        AwaitedLast(w.pending, f);
        ReachedNext(packages, f, g);
      }
    }
  }

  lemma {:induction false} DependencyExtrasKnown(packages: Packages, g: Goal, d: Dependency)
    requires d in DependenciesOf(packages, g)
    ensures forall e :: e in RequestedExtras(d) ==> e in Universe(packages)
  {
  }

  lemma {:induction false} PoppedBounded(packages: Packages, w: Work, items: seq<Item>)
    requires |w.pending| > 0 && PoppedPushes(packages, w, items) && Bounded(packages, w)
    requires CanonicalizeName(w.pending[|w.pending| - 1].0) in packages
    ensures Bounded(packages, Popped(w, items))
  {
    var last := w.pending[|w.pending| - 1];
    var name := CanonicalizeName(last.0);
    assert last in w.pending;
    forall item, e | item in items && e in item.1
      ensures e in Universe(packages)
    {
      var g, d :| Expands(name, w.regular, RequestedSet(last) - ProcessedExtras(w, name), g) &&
                  d in DependenciesOf(packages, g) && item == ItemOf()(d);
      DependencyExtrasKnown(packages, g, d);
    }
  }

  lemma {:induction false} StrictlyLess<T>(all: set<T>, a: set<T>, b: set<T>)
    requires a <= b
    ensures |all - b| <= |all - a|
    ensures (exists x :: x in all && x in b && x !in a) ==> |all - b| < |all - a|
  {
    assert all - a == (all - b) + (all * (b - a));
    if x :| x in all && x in b && x !in a {
      assert x in all * (b - a);
    }
  }

  ghost predicate Shrinks(packages: Packages, w: Work, next: Work) {
    || PackagesLeft(packages, next) < PackagesLeft(packages, w)
    || (PackagesLeft(packages, next) == PackagesLeft(packages, w) &&
        ExtrasLeft(packages, next) < ExtrasLeft(packages, w))
    || (PackagesLeft(packages, next) == PackagesLeft(packages, w) &&
        ExtrasLeft(packages, next) == ExtrasLeft(packages, w) &&
        |next.pending| < |w.pending|)
  }

  lemma {:induction false} NewPackage(packages: Packages, w: Work, items: seq<Item>)
    requires |w.pending| > 0 && CanonicalizeName(w.pending[|w.pending| - 1].0) in packages
    requires CanonicalizeName(w.pending[|w.pending| - 1].0) !in w.regular
    ensures PackagesLeft(packages, Popped(w, items)) < PackagesLeft(packages, w)
  {
    StrictlyLess(packages.Keys, w.regular, Popped(w, items).regular);
  }

  lemma {:induction false} SamePackages(packages: Packages, w: Work, items: seq<Item>)
    requires |w.pending| > 0 && CanonicalizeName(w.pending[|w.pending| - 1].0) in w.regular
    ensures PackagesLeft(packages, Popped(w, items)) == PackagesLeft(packages, w)
  {
    assert Popped(w, items).regular == w.regular;
  }

  function UnseenExtras(w: Work): set<string>
    requires |w.pending| > 0
  {
    RequestedSet(w.pending[|w.pending| - 1]) - ProcessedExtras(w, CanonicalizeName(w.pending[|w.pending| - 1].0))
  }

  /** Each turn expands a package, expands an extra, or only shortens the list. */
  lemma {:induction false} PoppedShrinks(packages: Packages, w: Work, items: seq<Item>)
    requires |w.pending| > 0 && PoppedPushes(packages, w, items) && Bounded(packages, w)
    requires CanonicalizeName(w.pending[|w.pending| - 1].0) in packages
    ensures Shrinks(packages, w, Popped(w, items))
  {
    if CanonicalizeName(w.pending[|w.pending| - 1].0) !in w.regular {
      NewPackage(packages, w, items);
    } else {
      SamePackages(packages, w, items);
      if UnseenExtras(w) != {} {
        NewPair(packages, w, items);
      } else {
        NoNewPair(w, items);
        NothingPushed(packages, CanonicalizeName(w.pending[|w.pending| - 1].0), w.regular, UnseenExtras(w), items);
      }
    }
  }

  lemma {:induction false} NothingPushed(packages: Packages, name: string, known: set<string>, unseen: set<string>,
                                         items: seq<Item>)
    requires Pushes(packages, name, known, unseen, items) && name in known && unseen == {}
    ensures items == []
  {
    FirstMember(items);
    assert forall g :: !Expands(name, known, unseen, g);
  }

  lemma {:induction false} FirstMember(items: seq<Item>)
    ensures items == [] || exists item :: item in items
  {
    if items != [] {
      assert items[0] in items;
    }
  }

  lemma {:induction false} NewPair(packages: Packages, w: Work, items: seq<Item>)
    requires |w.pending| > 0 && Bounded(packages, w) && UnseenExtras(w) != {}
    requires CanonicalizeName(w.pending[|w.pending| - 1].0) in packages
    ensures ExtrasLeft(packages, Popped(w, items)) < ExtrasLeft(packages, w)
  {
    var extra :| extra in UnseenExtras(w);
    var last := w.pending[|w.pending| - 1];
    var name := CanonicalizeName(last.0);
    assert last in w.pending;
    ExtraKnown(packages, name, extra);
    DonePairsGrow(w, items, extra);
    StrictlyLess(Pairs(packages.Keys, Universe(packages)), DonePairs(w), DonePairs(Popped(w, items)));
  }

  lemma {:induction false} ExtraKnown(packages: Packages, name: string, extra: string)
    requires name in packages && extra in Universe(packages)
    ensures (name, extra) in Pairs(packages.Keys, Universe(packages))
  {
  }

  lemma {:induction false} DonePairsGrow(w: Work, items: seq<Item>, extra: string)
    requires |w.pending| > 0 && extra in UnseenExtras(w)
    ensures DonePairs(w) <= DonePairs(Popped(w, items))
    ensures var name := CanonicalizeName(w.pending[|w.pending| - 1].0);
            (name, extra) in DonePairs(Popped(w, items)) && (name, extra) !in DonePairs(w)
  {
  }

  lemma {:induction false} NoNewPair(w: Work, items: seq<Item>)
    requires |w.pending| > 0
    requires UnseenExtras(w) == {}
    ensures DonePairs(Popped(w, items)) == DonePairs(w)
  {
    var last := w.pending[|w.pending| - 1];
    NothingMissing(RequestedSet(last), ProcessedExtras(w, CanonicalizeName(last.0)));
  }

  lemma {:induction false} NothingMissing(a: set<string>, b: set<string>)
    requires a - b == {}
    ensures a <= b
  {
    assert forall x :: x in a ==> x in b || x in a - b;
  }

  // -------------------------------------------------------------- the closure

  ghost predicate Sound(packages: Packages, w: Work) {
    Complete(packages, w) && Correct(packages, w) && Bounded(packages, w)
  }

  /** The items one package pushes: its dependencies if new, those of its new extras. */
  method Expand(packages: Packages, name: string, regular: set<string>, unseen: set<string>) returns (pushed: seq<Item>)
    requires name in packages
    ensures Pushes(packages, name, regular, unseen, pushed)
  {
    pushed := [];
    if name !in regular {
      pushed := PushAll(pushed, DependenciesOf(packages, Regular(name)));
    }
    var optional := PushExtras(packages, name, unseen);
    PushBoth(packages, name, regular, unseen, optional, pushed + optional);
    pushed := pushed + optional;
  }

  /** One turn of the loop; an unknown package ends it. */
  method TakeLast(packages: Packages, w: Work) returns (next: Result<Work, string>)
    requires |w.pending| > 0 && Sound(packages, w)
    ensures next.Ok? ==> Sound(packages, next.value) && Shrinks(packages, w, next.value)
    ensures next.Err? ==> Reached(packages, Regular(next.error)) && next.error !in packages
  {
    var (rawName, extras) := w.pending[|w.pending| - 1];
    var name := CanonicalizeName(rawName);
    if name !in packages {
      AwaitedLast(w.pending, Regular(name));
      return Err(name);
    }
    var requested := set extra | extra in extras;
    var processed := if name in w.extras then w.extras[name] else {};
    var pushed := Expand(packages, name, w.regular, requested - processed);
    next := Ok(Work(w.pending[..|w.pending| - 1] + pushed, w.selected + {name}, w.regular + {name},
                    w.extras[name := processed + requested]));
    assert next.value == Popped(w, pushed);
    PoppedSound(packages, w, pushed);
  }

  lemma {:induction false} PoppedSound(packages: Packages, w: Work, items: seq<Item>)
    requires |w.pending| > 0 && Sound(packages, w) && PoppedPushes(packages, w, items)
    requires CanonicalizeName(w.pending[|w.pending| - 1].0) in packages
    ensures Sound(packages, Popped(w, items)) && Shrinks(packages, w, Popped(w, items))
  {
    PoppedComplete(packages, w, items);
    PoppedCorrect(packages, w, items);
    PoppedBounded(packages, w, items);
    PoppedShrinks(packages, w, items);
  }

  const START: Work := Work([(ROOT, [])], {}, {}, map[])

  lemma {:induction false} StartSound(packages: Packages)
    ensures Sound(packages, START)
  {
    RootIsCanonical();
    ReachedRoot(packages);
    assert Awaited(START.pending, Regular(ROOT)) by {
      assert (ROOT, []) in START.pending && Asks((ROOT, []), Regular(ROOT));
    }
    forall g | Awaited(START.pending, g)
      ensures g == Regular(ROOT)
    {
      var item :| item in START.pending && Asks(item, g);
    }
  }

  lemma {:induction false} RootIsCanonical()
    ensures CanonicalizeName(ROOT) == ROOT
  {
    NormalIsCanonical(ROOT);
  }

  /** With nothing pending, what is done is exactly what is reached. */
  lemma {:induction false} DoneIsReached(packages: Packages, w: Work, g: Goal)
    requires Sound(packages, w) && w.pending == []
    ensures IsDone(w, g) <==> Reached(packages, g)
  {
    if Reached(packages, g) {
      var done := iset h | IsDone(w, h);
      assert Closed(packages, done);
      ReachedIsLeast(packages, done, g);
    }
  }

  ghost predicate AllKnown(packages: Packages) {
    forall name :: Reached(packages, Regular(name)) ==> name in packages
  }

  /** What must be bundled: every package reached, except the root itself. */
  ghost predicate IsClosure(packages: Packages, closure: Packages) {
    forall name :: name in closure <==> Reached(packages, Regular(name)) && name != "guruterminal-openbb"
  }

  /**
   `locked_runtime_closure`: succeeds exactly when every package reached is in
   the lockfile, and then selects exactly those.
   */
  method LockedRuntimeClosure(packages: Packages) returns (closure: Result<Packages, LockError>)
    ensures closure.Ok? <==> AllKnown(packages)
    ensures closure.Ok? ==> IsClosure(packages, closure.value) &&
                            forall name :: name in closure.value ==>
                              name in packages && closure.value[name] == packages[name]
    ensures closure.Err? ==> closure.error.MissingDependency? && closure.error.name !in packages &&
                             Reached(packages, Regular(closure.error.name))
  {
    var w := START;
    StartSound(packages);
    while w.pending != []
      invariant Sound(packages, w)
      decreases PackagesLeft(packages, w), ExtrasLeft(packages, w), |w.pending|
    {
      var next := TakeLast(packages, w);
      if next.Err? {
        return Err(MissingDependency(next.error));
      }
      w := next.value;
    }
    closure := Ok(Selected(packages, w));
    SelectedIsClosure(packages, w);
  }

  function Selected(packages: Packages, w: Work): Packages {
    map name | name in packages && name in w.selected && name != ROOT :: packages[name]
  }

  lemma {:induction false} SelectedIsClosure(packages: Packages, w: Work)
    requires Sound(packages, w) && w.pending == []
    ensures AllKnown(packages) && IsClosure(packages, Selected(packages, w))
  {
    forall name
      ensures name in w.selected <==> Reached(packages, Regular(name))
    {
      DoneIsReached(packages, w, Regular(name));
    }
  }
}
