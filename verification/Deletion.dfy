/**
 Crash-safe deletion (apps/guruterminal/src-tauri/src/deletion.rs:83-129,
 281-381): a durable journal, renames to tombstones, the row deletion, and the
 removal of the tombstones.
 */
module Deletion {
  import opened Journals
  import opened Storage
  import opened World
  import opened Wrappers

  // ---------------------------------------------------------- path by path

  lemma {:induction false} RenameConserves(e: Entries, f: Entries, paths: seq<DeletionPath>, p: DeletionPath,
                                           from: Path, to: Path)
    requires Distinct(paths) && p in paths && {from, to} == {p.source, p.tombstone}
    requires f == e || (from in e && to !in e && f == Move(e, from, to))
    ensures Conserves(e, f, paths)
    ensures forall q :: q in paths && q != p ==> SameFor(e, f, q)
  {
    if f != e {
      MoveConserves(e, paths, p, from, to);
    }
  }

  /** Once p's entries are as before or moved, every other entry is still what it was. */
  lemma {:induction false} OthersStay(e: Entries, f: Entries, g: Entries, paths: seq<DeletionPath>, i: nat)
    requires Distinct(paths) && i < |paths|
    requires forall q :: q in paths && q != paths[i] ==> SameFor(f, g, q)
    ensures forall j :: 0 <= j < |paths| && j != i ==> SameAt(f, g, paths[j].source) && SameAt(f, g, paths[j].tombstone)
    ensures forall j :: 0 <= j < |paths| && j != i && SameFor(e, f, paths[j]) ==> SameFor(e, g, paths[j])
  {
    forall j | 0 <= j < |paths| && j != i
      ensures SameAt(f, g, paths[j].source) && SameAt(f, g, paths[j].tombstone)
      ensures SameFor(e, f, paths[j]) ==> SameFor(e, g, paths[j])
    {
      NotTwice(paths, i, j);
      SameForAt(f, g, paths[j]);
      if SameFor(e, f, paths[j]) {
        SameForTransitive(e, f, g, paths[j]);
      }
    }
  }

  lemma {:induction false} NotTwice(paths: seq<DeletionPath>, i: nat, j: nat)
    requires Distinct(paths) && i < |paths| && j < |paths| && i != j
    ensures paths[i] != paths[j]
  {
    assert Separate(paths[i], paths[j]);
    NotApartFromItself(paths[i].source);
  }

  method RollbackDetached(w: World, ghost paths: seq<DeletionPath>, detached: seq<DeletionPath>)
    returns (r: Result<(), Error>)
    requires Distinct(paths) && forall p :: p in detached ==> p in paths
    modifies w`entries, w`step, w`crashed
    ensures Conserves(old(w.entries), w.entries, paths)
    ensures old(w.crashed) ==> w.crashed && w.entries == old(w.entries)
    ensures old(w.Quiet()) ==> w.Quiet()
  {
    for i := |detached| downto 0
      invariant Conserves(old(w.entries), w.entries, paths)
      invariant old(w.crashed) ==> w.crashed && w.entries == old(w.entries)
      invariant old(w.Quiet()) ==> w.Quiet()
    {
      var p := detached[i];
      ghost var before := w.entries;
      var moved := w.RenameExpected(p.tombstone, p.source, p.expected);
      RenameConserves(before, w.entries, paths, p, p.tombstone, p.source);
      ConservesTransitive(old(w.entries), before, w.entries, paths);
      if moved.Err? {
        return Err(moved.error);
      }
      if !moved.value {
        return Err(RollbackLost);
      }
    }
    r := Ok(());
  }

  predicate Detachable(e: Entries, p: DeletionPath) {
    && p.tombstone !in e
    && (p.required ==> p.source in e)
    && (p.source in e && p.expected.Some? ==> e[p.source].identity == p.expected)
  }

  /** One turn of the detach loop. */
  method DetachPath(w: World, ghost paths: seq<DeletionPath>, p: DeletionPath, detached: seq<DeletionPath>)
    returns (r: Result<seq<DeletionPath>, Error>)
    requires Distinct(paths) && p in paths && forall q :: q in detached ==> q in paths
    modifies w`entries, w`step, w`crashed
    ensures Conserves(old(w.entries), w.entries, paths)
    ensures r.Ok? ==> forall q :: q in r.value ==> q in paths
    ensures r.Ok? ==> p.source !in w.entries
    ensures r.Ok? ==> forall q :: q in paths && q != p ==> SameFor(old(w.entries), w.entries, q)
    ensures old(w.crashed) ==> w.crashed && w.entries == old(w.entries)
    ensures old(w.Quiet()) ==> w.Quiet() && (r.Ok? <==> Detachable(old(w.entries), p))
  {
    var taken := w.EntryExists(p.tombstone);
    if taken.Err? {
      return Err(taken.error);
    }
    if taken.value {
      var undone := RollbackDetached(w, paths, detached);
      return Err(if undone.Err? then undone.error else TombstoneExists);
    }
    var moved := w.RenameExpected(p.source, p.tombstone, p.expected);
    RenameConserves(old(w.entries), w.entries, paths, p, p.source, p.tombstone);
    ghost var after := w.entries;
    match moved {
      case Ok(true) => r := Ok(detached + [p]);
      case Ok(false) =>
        if !p.required {
          r := Ok(detached);
        } else {
          var undone := RollbackDetached(w, paths, detached);
          ConservesTransitive(old(w.entries), after, w.entries, paths);
          r := Err(if undone.Err? then undone.error else SourceMissing);
        }
      case Err(error) =>
        var undone := RollbackDetached(w, paths, detached);
        ConservesTransitive(old(w.entries), after, w.entries, paths);
        r := Err(if undone.Err? then undone.error else error);
    }
  }

  ghost predicate AllDetachable(e: Entries, paths: seq<DeletionPath>) {
    forall p :: p in paths ==> Detachable(e, p)
  }

  /** How far detaching has come: the first i entries are not live, the others untouched. */
  ghost predicate DetachedUpTo(e: Entries, f: Entries, paths: seq<DeletionPath>, i: nat) {
    && i <= |paths| && Conserves(e, f, paths)
    && (forall j :: 0 <= j < i ==> paths[j].source !in f)
    && (forall j :: i <= j < |paths| ==> SameFor(e, f, paths[j]))
  }

  lemma {:induction false} DetachNext(e: Entries, f: Entries, g: Entries, paths: seq<DeletionPath>, i: nat)
    requires Distinct(paths) && i < |paths| && DetachedUpTo(e, f, paths, i) && Conserves(f, g, paths)
    requires paths[i].source !in g && forall q :: q in paths && q != paths[i] ==> SameFor(f, g, q)
    ensures DetachedUpTo(e, g, paths, i + 1)
  {
    ConservesTransitive(e, f, g, paths);
    OthersStay(e, f, g, paths, i);
  }

  lemma {:induction false} UntriedDetachable(e: Entries, f: Entries, paths: seq<DeletionPath>, i: nat)
    requires i < |paths| && DetachedUpTo(e, f, paths, i)
    ensures Detachable(e, paths[i]) == Detachable(f, paths[i])
  {
    SameForAt(e, f, paths[i]);
  }

  method DetachPaths(w: World, paths: seq<DeletionPath>) returns (r: Result<(), Error>)
    requires Distinct(paths)
    modifies w`entries, w`step, w`crashed
    ensures Conserves(old(w.entries), w.entries, paths)
    ensures r.Ok? ==> forall p :: p in paths ==> p.source !in w.entries
    ensures old(w.crashed) ==> w.crashed && w.entries == old(w.entries)
    ensures old(w.Quiet()) ==> w.Quiet() && (r.Ok? <==> AllDetachable(old(w.entries), paths))
  {
    ghost var e := w.entries;
    var detached: seq<DeletionPath> := [];
    for i := 0 to |paths|
      invariant DetachedUpTo(e, w.entries, paths, i)
      invariant forall p :: p in detached ==> p in paths
      invariant old(w.crashed) ==> w.crashed && w.entries == e
      invariant old(w.Quiet()) ==> w.Quiet() && forall j :: 0 <= j < i ==> Detachable(e, paths[j])
    {
      ghost var before := w.entries;
      UntriedDetachable(e, before, paths, i);
      var next := DetachPath(w, paths, paths[i], detached);
      if next.Err? {
        ConservesTransitive(e, before, w.entries, paths);
        return Err(next.error);
      }
      DetachNext(e, before, w.entries, paths, i);
      detached := next.value;
    }
    r := Ok(());
  }

  // -------------------------------------------------------------- rollback

  /** What a rollback needs to find: one side, the required entry, the right identity. */
  predicate Mendable(e: Entries, p: DeletionPath) {
    && OneSide(e, p)
    && (p.required ==> Held(e, p).Some?)
    && (p.expected.Some? && HeldEntry(e, p).Some? ==> HeldEntry(e, p).value.identity == p.expected)
  }

  lemma {:induction false} MendableSame(e: Entries, f: Entries, p: DeletionPath)
    requires SameFor(e, f, p)
    ensures Mendable(e, p) == Mendable(f, p)
    ensures OneSide(e, p) == OneSide(f, p)
  {
    SameForSides(e, f, p);
  }

  predicate IsLive(e: Entries, p: DeletionPath) {
    p.tombstone !in e && (p.required ==> p.source in e)
  }

  /** One turn of the rollback loop. */
  method RollbackPath(w: World, ghost paths: seq<DeletionPath>, p: DeletionPath) returns (r: Result<(), Error>)
    requires Distinct(paths) && p in paths
    modifies w`entries, w`step, w`crashed
    ensures Conserves(old(w.entries), w.entries, paths)
    ensures forall q :: q in paths && q != p ==> SameFor(old(w.entries), w.entries, q)
    ensures p.tombstone in w.entries ==> p.tombstone in old(w.entries)
    ensures r.Ok? ==> OneSide(old(w.entries), p) && IsLive(w.entries, p)
    ensures old(w.crashed) ==> w.crashed && w.entries == old(w.entries)
    ensures old(w.Quiet()) ==> w.Quiet() && (r.Ok? <==> Mendable(old(w.entries), p))
  {
    var live := w.EntryExists(p.source);
    if live.Err? {
      return Err(live.error);
    }
    var hidden := w.EntryExists(p.tombstone);
    if hidden.Err? {
      return Err(hidden.error);
    }
    if live.value && p.expected.Some? {
      var observed := w.DirectoryIdentity(p.source);
      if observed.Err? {
        return Err(observed.error);
      }
      if observed.value.None? {
        return Err(SourceMissing);
      }
      if observed.value != p.expected {
        return Err(IdentityChanged);
      }
    }
    match (live.value, hidden.value) {
      case (true, true) => r := Err(BothExist);
      case (false, true) =>
        var moved := w.RenameExpected(p.tombstone, p.source, p.expected);
        RenameConserves(old(w.entries), w.entries, paths, p, p.tombstone, p.source);
        r := if moved.Err? then Err(moved.error) else if !moved.value then Err(RollbackLost) else Ok(());
      case (false, false) => r := if p.required then Err(SourceMissing) else Ok(());
      case (true, false) => r := Ok(());
    }
  }

  ghost predicate AllMendable(e: Entries, paths: seq<DeletionPath>) {
    forall p :: p in paths ==> Mendable(e, p)
  }

  /** Rolling back has not reached the first i entries and made no tombstone. */
  ghost predicate RolledFrom(e: Entries, f: Entries, paths: seq<DeletionPath>, i: nat) {
    && Conserves(e, f, paths)
    && (forall j :: 0 <= j < |paths| && paths[j].tombstone in f ==> paths[j].tombstone in e)
    && (forall j :: 0 <= j < i && j < |paths| ==> SameFor(e, f, paths[j]))
  }

  lemma {:induction false} RollNext(e: Entries, f: Entries, g: Entries, paths: seq<DeletionPath>, i: nat)
    requires Distinct(paths) && i < |paths| && RolledFrom(e, f, paths, i + 1) && Conserves(f, g, paths)
    requires paths[i].tombstone in g ==> paths[i].tombstone in f
    requires forall q :: q in paths && q != paths[i] ==> SameFor(f, g, q)
    ensures RolledFrom(e, g, paths, i)
    ensures forall j :: i < j < |paths| && IsLive(f, paths[j]) ==> IsLive(g, paths[j])
  {
    ConservesTransitive(e, f, g, paths);
    OthersStay(e, f, g, paths, i);
  }

  method RollbackPaths(w: World, paths: seq<DeletionPath>) returns (r: Result<(), Error>)
    requires Distinct(paths)
    modifies w`entries, w`step, w`crashed
    ensures Conserves(old(w.entries), w.entries, paths)
    ensures forall p :: p in paths && p.tombstone in w.entries ==> p.tombstone in old(w.entries)
    ensures r.Ok? ==> forall p :: p in paths ==> OneSide(old(w.entries), p)
    ensures r.Ok? ==> forall p :: p in paths ==>
                        p.tombstone !in w.entries && (p.required ==> p.source in w.entries)
    ensures old(w.crashed) ==> w.crashed && w.entries == old(w.entries)
    ensures old(w.Quiet()) ==> w.Quiet() && (r.Ok? <==> AllMendable(old(w.entries), paths))
  {
    ghost var e := w.entries;
    for i := |paths| downto 0
      invariant RolledFrom(e, w.entries, paths, i)
      invariant forall j :: i <= j < |paths| ==> OneSide(e, paths[j]) && IsLive(w.entries, paths[j])
      invariant old(w.crashed) ==> w.crashed && w.entries == e
      invariant old(w.Quiet()) ==> w.Quiet() && forall j :: i <= j < |paths| ==> Mendable(e, paths[j])
    {
      ghost var before := w.entries;
      MendableSame(e, before, paths[i]);
      var done := RollbackPath(w, paths, paths[i]);
      RollNext(e, before, w.entries, paths, i);
      if done.Err? {
        return Err(done.error);
      }
    }
    r := Ok(());
  }

  // --------------------------------------------------------------- cleanup

  predicate Cleanable(e: Entries, p: DeletionPath) {
    p.tombstone in e && p.expected.Some? ==> e[p.tombstone].identity == p.expected
  }

  ghost predicate AllCleanable(e: Entries, paths: seq<DeletionPath>) {
    forall p :: p in paths ==> Cleanable(e, p)
  }

  method CleanupPaths(w: World, paths: seq<DeletionPath>) returns (r: Result<(), Error>)
    requires Distinct(paths)
    modifies w`entries, w`step, w`crashed
    ensures Cleans(old(w.entries), w.entries, paths)
    ensures r.Ok? ==> forall p :: p in paths ==> p.tombstone !in w.entries
    ensures old(w.crashed) ==> w.crashed && w.entries == old(w.entries)
    ensures old(w.Quiet()) ==> w.Quiet() && (r.Ok? <==> AllCleanable(old(w.entries), paths))
  {
    for i := 0 to |paths|
      invariant Cleans(old(w.entries), w.entries, paths)
      invariant forall j :: 0 <= j < i ==> paths[j].tombstone !in w.entries
      invariant forall j :: i <= j < |paths| ==> SameAt(old(w.entries), w.entries, paths[j].tombstone)
      invariant old(w.crashed) ==> w.crashed && w.entries == old(w.entries)
      invariant old(w.Quiet()) ==> w.Quiet() && forall j :: 0 <= j < i ==> Cleanable(old(w.entries), paths[j])
    {
      ghost var before := w.entries;
      var removed := w.RemoveTreeExpected(paths[i].tombstone, paths[i].expected);
      ShrinkCleans(before, w.entries, paths, paths[i]);
      CleansTransitive(old(w.entries), before, w.entries, paths);
      if removed.Err? {
        assert old(w.Quiet()) ==> !Cleanable(old(w.entries), paths[i]);
        return Err(removed.error);
      }
      OthersStay(old(w.entries), before, w.entries, paths, i);
    }
    r := Ok(());
  }
}
