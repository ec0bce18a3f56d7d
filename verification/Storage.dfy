/**
 What the private-storage entries hold, and what a rename or a removal does to
 them and to everything below them (the calls of
 apps/guruterminal/src-tauri/src/secure_delete.rs:182-330, 353-400 that deletion uses).
 */
module Storage {
  import opened Journals
  import opened Wrappers

  /** One entry; identity is None when it is not a directory. */
  datatype Tree = Tree(identity: Option<Identity>, content: string)

  type Entries = map<Path, Tree>

  // ------------------------------------------------- an entry and all below it

  function Suffixes(e: Entries, root: Path): set<Path> {
    set q | q in e && Prefix(root, q) :: q[|root|..]
  }

  /** The entry at the root and everything below it, by relative path. */
  function Sub(e: Entries, root: Path): Entries {
    map s | s in Suffixes(e, root) && root + s in e :: e[root + s]
  }

  predicate SameAt(e: Entries, f: Entries, q: Path) {
    (q in e <==> q in f) && (q in e ==> e[q] == f[q])
  }

  /** The same entries at and below these two roots. */
  ghost predicate SameTree(e: Entries, r: Path, f: Entries, t: Path) {
    forall s :: (r + s in e <==> t + s in f) && (r + s in e ==> e[r + s] == f[t + s])
  }

  lemma {:induction false} PrefixSplits(root: Path, q: Path)
    ensures Prefix(root, q) ==> root + q[|root|..] == q
    ensures forall s :: Prefix(root, root + s) && (root + s)[|root|..] == s
  {
    forall s: Path
      ensures Prefix(root, root + s) && (root + s)[|root|..] == s
    {
    }
  }

  lemma {:induction false} SubAt(e: Entries, root: Path, s: Path)
    ensures s in Sub(e, root) <==> root + s in e
    ensures s in Sub(e, root) ==> Sub(e, root)[s] == e[root + s]
  {
    PrefixSplits(root, root + s);
  }

  lemma {:induction false} SubEqual(e: Entries, r: Path, f: Entries, t: Path)
    ensures Sub(e, r) == Sub(f, t) <==> SameTree(e, r, f, t)
  {
    forall s
      ensures s in Sub(e, r) <==> r + s in e
      ensures s in Sub(e, r) ==> Sub(e, r)[s] == e[r + s]
      ensures s in Sub(f, t) <==> t + s in f
      ensures s in Sub(f, t) ==> Sub(f, t)[s] == f[t + s]
    {
      SubAt(e, r, s);
      SubAt(f, t, s);
    }
  }

  /** Nothing at or below the root differs. */
  ghost predicate SameBelow(e: Entries, f: Entries, root: Path) {
    forall q :: Prefix(root, q) ==> SameAt(e, f, q)
  }

  lemma {:induction false} SameBelowSub(e: Entries, f: Entries, root: Path)
    requires SameBelow(e, f, root)
    ensures Sub(e, root) == Sub(f, root) && (root in e <==> root in f)
  {
    assert root[..|root|] == root;
    assert Prefix(root, root) && SameAt(e, f, root);
    forall s
      ensures (root + s in e <==> root + s in f) && (root + s in e ==> e[root + s] == f[root + s])
    {
      PrefixSplits(root, root + s);
      assert SameAt(e, f, root + s);
    }
    SubEqual(e, root, f, root);
  }

  // ------------------------------------------------------ two-sided entries

  /** The live entry and the tombstone never stand side by side. */
  predicate OneSide(e: Entries, p: DeletionPath) {
    !(p.source in e && p.tombstone in e)
  }

  /** Everything that stands at the path, live or as a tombstone. */
  function Held(e: Entries, p: DeletionPath): Option<Entries> {
    if p.source in e then Some(Sub(e, p.source))
    else if p.tombstone in e then Some(Sub(e, p.tombstone))
    else None
  }

  /** The entry at the path itself, live or as a tombstone. */
  function HeldEntry(e: Entries, p: DeletionPath): Option<Tree> {
    if p.source in e then Some(e[p.source])
    else if p.tombstone in e then Some(e[p.tombstone])
    else None
  }

  /** What is held determines the entry itself. */
  lemma {:induction false} HeldRoot(e: Entries, p: DeletionPath)
    ensures HeldEntry(e, p) == match Held(e, p)
                               case None => None
                               case Some(sub) => if [] in sub then Some(sub[[]]) else None
  {
    SubAt(e, p.source, []);
    SubAt(e, p.tombstone, []);
    assert p.source + [] == p.source && p.tombstone + [] == p.tombstone;
  }

  /** The path is at or below none of these. */
  predicate Clear(q: Path, touched: set<Path>) {
    forall r | r in touched :: !Prefix(r, q)
  }

  ghost predicate Outside(e: Entries, f: Entries, touched: set<Path>) {
    forall q :: Clear(q, touched) ==> SameAt(e, f, q)
  }

  /** A directory that is not there has nothing in it. */
  ghost predicate Tidy(e: Entries, touched: set<Path>) {
    forall r, q :: r in touched && q in e && Prefix(r, q) ==> r in e
  }

  /** Nothing stands here. */
  ghost predicate Bare(e: Entries, root: Path) {
    forall q :: Prefix(root, q) ==> q !in e
  }

  lemma {:induction false} TidyBare(e: Entries, touched: set<Path>, root: Path)
    requires Tidy(e, touched) && root in touched && root !in e
    ensures Bare(e, root)
  {
  }

  ghost predicate SidesKept(e: Entries, f: Entries, p: DeletionPath) {
    OneSide(e, p) ==> OneSide(f, p) && Held(f, p) == Held(e, p)
  }

  /** Renaming may have moved entries to the other side, but lost and changed nothing. */
  ghost predicate Conserves(e: Entries, f: Entries, paths: seq<DeletionPath>) {
    && Outside(e, f, Touched(paths))
    && (Tidy(e, Touched(paths)) ==> Tidy(f, Touched(paths)))
    && (forall p :: p in paths ==> SidesKept(e, f, p))
  }

  lemma {:induction false} OutsideTransitive(e: Entries, f: Entries, g: Entries, touched: set<Path>)
    requires Outside(e, f, touched) && Outside(f, g, touched)
    ensures Outside(e, g, touched)
  {
    forall q | Clear(q, touched)
      ensures SameAt(e, g, q)
    {
      assert SameAt(e, f, q) && SameAt(f, g, q);
    }
  }

  lemma {:induction false} ConservesTransitive(e: Entries, f: Entries, g: Entries, paths: seq<DeletionPath>)
    requires Conserves(e, f, paths) && Conserves(f, g, paths)
    ensures Conserves(e, g, paths)
  {
    OutsideTransitive(e, f, g, Touched(paths));
    forall p | p in paths
      ensures SidesKept(e, g, p)
    {
      assert SidesKept(e, f, p) && SidesKept(f, g, p);
    }
  }

  // --------------------------------------------------------------- renames

  predicate Movable(e: Entries, from: Path, to: Path, expected: Option<Identity>) {
    from in e && (expected.Some? ==> e[from].identity == expected) && to !in e
  }

  /** Where the entry that a rename puts at q came from. */
  function Whence(from: Path, to: Path, q: Path): Path {
    if Prefix(to, q) then from + q[|to|..] else q
  }

  /** A rename moves the entry and everything below it. */
  function Move(e: Entries, from: Path, to: Path): Entries {
    map q | q in e.Keys + (set s | s in Suffixes(e, from) :: to + s) && !Prefix(from, q) && Whence(from, to, q) in e ::
      e[Whence(from, to, q)]
  }

  lemma {:induction false} MoveAt(e: Entries, from: Path, to: Path, q: Path)
    requires Apart(from, to)
    ensures Prefix(from, q) ==> q !in Move(e, from, to)
    ensures Prefix(to, q) ==>
              (q in Move(e, from, to) <==> from + q[|to|..] in e) &&
              (q in Move(e, from, to) ==> Move(e, from, to)[q] == e[from + q[|to|..]])
    ensures !Prefix(from, q) && !Prefix(to, q) ==> SameAt(e, Move(e, from, to), q)
  {
    if Prefix(to, q) {
      if Prefix(from, q) {
        CommonBelow(from, to, q);
      }
      var s := q[|to|..];
      PrefixSplits(to, q);
      PrefixSplits(from, from + s);
      assert from + s in e ==> s in Suffixes(e, from);
    }
  }

  lemma {:induction false} MovedAt(e: Entries, from: Path, to: Path, s: Path)
    requires Apart(from, to)
    ensures to + s in Move(e, from, to) <==> from + s in e
    ensures from + s in e ==> Move(e, from, to)[to + s] == e[from + s]
    ensures from + s !in Move(e, from, to)
  {
    PrefixSplits(to, to + s);
    PrefixSplits(from, from + s);
    MoveAt(e, from, to, to + s);
    MoveAt(e, from, to, from + s);
  }

  /** After the rename the destination holds what the source held, and the source is bare. */
  lemma {:induction false} MoveMoves(e: Entries, from: Path, to: Path)
    requires Apart(from, to) && from in e
    ensures Sub(Move(e, from, to), to) == Sub(e, from)
    ensures to in Move(e, from, to) && Move(e, from, to)[to] == e[from]
    ensures forall q :: Prefix(from, q) ==> q !in Move(e, from, to)
  {
    forall s: Path
      ensures to + s in Move(e, from, to) <==> from + s in e
      ensures from + s in e ==> Move(e, from, to)[to + s] == e[from + s]
    {
      MovedAt(e, from, to, s);
    }
    SubEqual(Move(e, from, to), to, e, from);
    MovedAt(e, from, to, []);
    assert to + [] == to && from + [] == from;
    forall q | Prefix(from, q)
      ensures q !in Move(e, from, to)
    {
      MoveAt(e, from, to, q);
    }
  }

  lemma {:induction false} MoveElsewhere(e: Entries, from: Path, to: Path, root: Path)
    requires Apart(from, to) && Apart(from, root) && Apart(to, root)
    ensures SameBelow(e, Move(e, from, to), root)
  {
    forall q | Prefix(root, q)
      ensures SameAt(e, Move(e, from, to), q)
    {
      if Prefix(from, q) {
        CommonBelow(from, root, q);
      }
      if Prefix(to, q) {
        CommonBelow(to, root, q);
      }
      MoveAt(e, from, to, q);
    }
  }

  /** Moving one of the entries to its other side conserves all of them. */
  lemma {:induction false} MoveConserves(e: Entries, paths: seq<DeletionPath>, p: DeletionPath, from: Path, to: Path)
    requires Distinct(paths) && p in paths && {from, to} == {p.source, p.tombstone}
    requires from in e && to !in e
    ensures Conserves(e, Move(e, from, to), paths)
    ensures forall q :: q in paths && q != p ==> SameFor(e, Move(e, from, to), q)
    ensures forall q :: !Prefix(p.source, q) && !Prefix(p.tombstone, q) ==> SameAt(e, Move(e, from, to), q)
  {
    var f := Move(e, from, to);
    var k :| 0 <= k < |paths| && paths[k] == p;
    assert Apart(paths[k].source, paths[k].tombstone);
    assert Apart(from, to);
    MoveMoves(e, from, to);
    FromIsNotThere(e, from, to);
    forall q | !Prefix(p.source, q) && !Prefix(p.tombstone, q)
      ensures SameAt(e, f, q)
    {
      MoveAt(e, from, to, q);
    }
    forall i | 0 <= i < |paths| && i != k
      ensures SameFor(e, f, paths[i])
    {
      assert Separate(paths[i], paths[k]);
      MoveElsewhere(e, from, to, paths[i].source);
      MoveElsewhere(e, from, to, paths[i].tombstone);
    }
    MoveOutside(e, paths, p, f);
    MoveSides(e, paths, k, f);
    MoveTidy(e, paths, k, from, to);
  }

  lemma {:induction false} FromIsNotThere(e: Entries, from: Path, to: Path)
    requires Apart(from, to) && from in e
    ensures from !in Move(e, from, to)
  {
    assert from[..|from|] == from;
    MoveAt(e, from, to, from);
  }

  lemma {:induction false} MoveOutside(e: Entries, paths: seq<DeletionPath>, p: DeletionPath, f: Entries)
    requires p in paths && forall q :: !Prefix(p.source, q) && !Prefix(p.tombstone, q) ==> SameAt(e, f, q)
    ensures Outside(e, f, Touched(paths))
  {
    assert p.source in Touched(paths) && p.tombstone in Touched(paths);
  }

  ghost predicate SameFor(e: Entries, f: Entries, p: DeletionPath) {
    SameBelow(e, f, p.source) && SameBelow(e, f, p.tombstone)
  }

  lemma {:induction false} SameForAt(e: Entries, f: Entries, p: DeletionPath)
    requires SameFor(e, f, p)
    ensures SameAt(e, f, p.source) && SameAt(e, f, p.tombstone)
  {
    assert Prefix(p.source, p.source) && Prefix(p.tombstone, p.tombstone);
  }

  lemma {:induction false} SameForTransitive(e: Entries, f: Entries, g: Entries, p: DeletionPath)
    requires SameFor(e, f, p) && SameFor(f, g, p)
    ensures SameFor(e, g, p)
  {
    forall q | Prefix(p.source, q) || Prefix(p.tombstone, q)
      ensures SameAt(e, g, q)
    {
      assert SameAt(e, f, q) && SameAt(f, g, q);
    }
  }

  lemma {:induction false} SameForSides(e: Entries, f: Entries, p: DeletionPath)
    requires SameFor(e, f, p)
    ensures Held(f, p) == Held(e, p) && HeldEntry(f, p) == HeldEntry(e, p) && OneSide(e, p) == OneSide(f, p)
    ensures (p.source in e <==> p.source in f) && (p.tombstone in e <==> p.tombstone in f)
  {
    SameBelowSub(e, f, p.source);
    SameBelowSub(e, f, p.tombstone);
    HeldRoot(e, p);
    HeldRoot(f, p);
  }

  lemma {:induction false} MoveSides(e: Entries, paths: seq<DeletionPath>, k: nat, f: Entries)
    requires k < |paths|
    requires forall i :: 0 <= i < |paths| && i != k ==> SameFor(e, f, paths[i])
    requires SidesKept(e, f, paths[k])
    ensures forall p :: p in paths ==> SidesKept(e, f, p)
  {
    forall i | 0 <= i < |paths| && i != k
      ensures SidesKept(e, f, paths[i])
    {
      SameForSides(e, f, paths[i]);
    }
  }

  lemma {:induction false} MoveTidy(e: Entries, paths: seq<DeletionPath>, k: nat, from: Path, to: Path)
    requires k < |paths| && {from, to} == {paths[k].source, paths[k].tombstone} && Apart(from, to) && from in e
    requires forall i :: 0 <= i < |paths| && i != k ==> SameFor(e, Move(e, from, to), paths[i])
    ensures Tidy(e, Touched(paths)) ==> Tidy(Move(e, from, to), Touched(paths))
  {
    var f := Move(e, from, to);
    MoveMoves(e, from, to);
    forall r, q | Tidy(e, Touched(paths)) && r in Touched(paths) && q in f && Prefix(r, q)
      ensures r in f
    {
      var i :| 0 <= i < |paths| && (r == paths[i].source || r == paths[i].tombstone);
      if i != k {
        SameForSides(e, f, paths[i]);
        assert SameAt(e, f, q);
      }
    }
  }

  // --------------------------------------------------------------- cleanup

  /** Only tombstones and what is below them may have shrunk. */
  ghost predicate Cleans(e: Entries, f: Entries, paths: seq<DeletionPath>) {
    && Outside(e, f, Tombstones(paths))
    && (Tidy(e, Touched(paths)) ==> Tidy(f, Touched(paths)))
    && (forall q :: q in f ==> q in e && f[q] == e[q])
  }

  function Tombstones(paths: seq<DeletionPath>): set<Path> {
    set p | p in paths :: p.tombstone
  }

  lemma {:induction false} CleansTransitive(e: Entries, f: Entries, g: Entries, paths: seq<DeletionPath>)
    requires Cleans(e, f, paths) && Cleans(f, g, paths)
    ensures Cleans(e, g, paths)
  {
    OutsideTransitive(e, f, g, Tombstones(paths));
  }

  /** One tree replaced by a part of it that keeps its root, or gone. */
  ghost predicate Shrinks(e: Entries, f: Entries, root: Path) {
    && (forall q :: !Prefix(root, q) ==> SameAt(e, f, q))
    && (forall q :: q in f ==> q in e && f[q] == e[q])
    && (forall q :: q in f && Prefix(root, q) && root in e ==> root in f)
    && (root !in e ==> f == e)
  }

  lemma {:induction false} ShrinkElsewhere(e: Entries, f: Entries, root: Path, other: Path)
    requires Shrinks(e, f, root) && Apart(root, other)
    ensures SameBelow(e, f, other)
  {
    forall q | Prefix(other, q)
      ensures SameAt(e, f, q)
    {
      if Prefix(root, q) {
        CommonBelow(root, other, q);
      }
    }
  }

  lemma {:induction false} ShrinkCleans(e: Entries, f: Entries, paths: seq<DeletionPath>, p: DeletionPath)
    requires Distinct(paths) && p in paths && Shrinks(e, f, p.tombstone)
    ensures Cleans(e, f, paths)
    ensures forall q :: q in paths && q != p ==> SameFor(e, f, q)
  {
    var k :| 0 <= k < |paths| && paths[k] == p;
    assert Apart(paths[k].source, paths[k].tombstone);
    assert p.tombstone in Tombstones(paths);
    ShrinkElsewhere(e, f, p.tombstone, p.source);
    forall i | 0 <= i < |paths| && i != k
      ensures SameFor(e, f, paths[i])
    {
      assert Separate(paths[i], paths[k]);
      ShrinkElsewhere(e, f, p.tombstone, paths[i].source);
      ShrinkElsewhere(e, f, p.tombstone, paths[i].tombstone);
    }
    ShrinkTidy(e, f, paths, k);
  }

  lemma {:induction false} ShrinkTidy(e: Entries, f: Entries, paths: seq<DeletionPath>, k: nat)
    requires k < |paths| && Shrinks(e, f, paths[k].tombstone) && SameBelow(e, f, paths[k].source)
    requires forall i :: 0 <= i < |paths| && i != k ==> SameFor(e, f, paths[i])
    ensures Tidy(e, Touched(paths)) ==> Tidy(f, Touched(paths))
  {
    forall r, q | Tidy(e, Touched(paths)) && r in Touched(paths) && q in f && Prefix(r, q)
      ensures r in f
    {
      var i :| 0 <= i < |paths| && (r == paths[i].source || r == paths[i].tombstone);
      assert q in e && r in e;
      if i != k || r == paths[k].source {
        assert SameBelow(e, f, r);
        SameBelowSub(e, f, r);
      }
    }
  }
}
