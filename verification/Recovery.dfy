/**
 Whole deletions, startup recovery over every pending journal, and runs of both
 under arbitrary failures and crashes
 (apps/guruterminal/src-tauri/src/deletion.rs:27-220).
 */
module Recovery {
  import opened Deletion
  import opened Journals
  import opened Protection
  import opened Storage
  import opened World
  import opened Wrappers

  // -------------------------------------------------------- one deletion

  predicate Deletes(target: Target, j: Journal) {
    match target
    case ChatTarget(id, guru, _) => j.kind.Chat? && j.target == id && j.guru == guru
    case GuruTarget(id, _) => j.kind.Guru? && j.guru == id
  }

  /** The only row under this ID is the one we stored. */
  predicate Only(records: seq<Record>, stored: Journal) {
    Valid(stored) in records && forall r | r in records :: r.Id() == stored.id ==> r == Valid(stored)
  }

  /** Only this deletion's entries and journal rows may have changed. */
  ghost predicate Confined(s: State, s': State, j: Journal) {
    && Outside(s.entries, s'.entries, Touched(PathsOf(j)))
    && (forall r: Record :: r.Id() != j.id ==> (r in s.records <==> r in s'.records))
    && (UniqueKeys(s.records) ==> UniqueKeys(s'.records))
  }

  /** Nothing changed, except perhaps the order of the journal table. */
  ghost predicate Unchanged(s: State, s': State) {
    && s.gurus == s'.gurus && s.chats == s'.chats && s.entries == s'.entries
    && forall r :: r in s.records <==> r in s'.records
  }

  lemma {:induction false} StillProtected(s: State, s': State, t: Tracked)
    requires Protected(s, t) && s.gurus == s'.gurus && s.chats == s'.chats
    requires forall r :: r in s'.records && r.Id() == t.journal.id ==> Ours(r, t.journal)
    requires Conserves(s.entries, s'.entries, PathsOf(t.journal))
    requires HasTarget(s, t.journal) || AllAbsent(s.entries, t.journal)
    requires Pending(s', t.journal.id) || NoTombstones(s'.entries, t.journal)
    ensures Protected(s', t)
    ensures !HasTarget(s, t.journal) ==> AllAbsent(s'.entries, t.journal)
  {
    ConservingIsSafe(s.entries, s'.entries, t, HasTarget(s, t.journal));
  }

  /** A journal row may go once no tombstone is left. */
  lemma {:induction false} JournalMayGo(s: State, s': State, t: Tracked, stored: Journal)
    requires Protected(s, t) && NoTombstones(s.entries, t.journal) && Ours(Valid(stored), t.journal)
    requires s' == s.(records := s'.records)
    requires s'.records == s.records || s'.records == Without(s.records, Valid(stored))
    ensures Protected(s', t) && Confined(s, s', t.journal)
  {
    WithoutMember(s.records, Valid(stored));
    if UniqueKeys(s.records) {
      KeysWithout(s.records, Valid(stored));
    }
  }

  lemma {:induction false} ConservesOutside(e: Entries, f: Entries, paths: seq<DeletionPath>)
    requires Conserves(e, f, paths) || Cleans(e, f, paths)
    ensures Outside(e, f, Touched(paths))
  {
    if Cleans(e, f, paths) {
      forall q | Clear(q, Touched(paths))
        ensures SameAt(e, f, q)
      {
        assert Tombstones(paths) <= Touched(paths);
        assert Clear(q, Tombstones(paths));
      }
    }
  }

  lemma {:induction false} RollbackWorks(s: State, t: Tracked)
    requires Protected(s, t) && HasTarget(s, t.journal)
    ensures AllMendable(s.entries, PathsOf(t.journal))
  {
    KeptIsMendable(s.entries, t);
  }

  /** Rolls the paths back and, if that worked, forgets the journal. */
  method UndoDeletion(w: World, stored: Journal, paths: seq<DeletionPath>, error: Error, ghost t: Tracked)
    returns (reported: Error)
    requires Protected(Now(w), t) && paths == PathsOf(t.journal)
    requires Ours(Valid(stored), t.journal) && Pending(Now(w), t.journal.id)
    requires w.crashed || HasTarget(Now(w), t.journal) || AllAbsent(w.entries, t.journal)
    modifies w`records, w`entries, w`step, w`crashed
    ensures Protected(Now(w), t)
    ensures Confined(old(Now(w)), Now(w), t.journal)
    ensures old(w.Quiet()) && old(HasTarget(Now(w), t.journal)) && Valid(stored) in old(w.records) ==>
              w.Quiet() && NoTombstones(w.entries, t.journal) && w.records == Without(old(w.records), Valid(stored))
  {
    reported := error;
    PathsDistinct(t.journal);
    ghost var s := Now(w);
    if HasTarget(s, t.journal) {
      RollbackWorks(s, t);
    }
    var rolled := RollbackPaths(w, paths);
    ghost var m := Now(w);
    ConservesOutside(s.entries, m.entries, paths);
    assert Pending(m, t.journal.id);
    if m.entries != s.entries {
      StillProtected(s, m, t);
    }
    if rolled.Ok? {
      assert NoTombstones(m.entries, t.journal);
      var deleted := w.DeleteJournal(stored);
      JournalMayGo(m, Now(w), t, stored);
      if deleted.Err? {
        reported := deleted.error;
      }
    }
  }

  lemma {:induction false} DetachWorks(s: State, t: Tracked)
    requires Protected(s, t) && HasTarget(s, t.journal) && NoTombstones(s.entries, t.journal)
    ensures AllDetachable(s.entries, PathsOf(t.journal))
  {
    forall p | p in PathsOf(t.journal)
      ensures Detachable(s.entries, p)
    {
      assert Kept(s.entries, t, p) && Fits(t, p);
      KeptEntry(s.entries, t, p);
    }
  }

  lemma {:induction false} ReplacedOnly(records: seq<Record>, expected: Journal, j: Journal)
    requires Only(records, expected) && j.id == expected.id && j.guru == expected.guru && j.target == expected.target
    ensures UniqueKeys(records) ==> UniqueKeys(Without(records, Valid(expected)) + [Valid(j)])
    ensures Only(Without(records, Valid(expected)) + [Valid(j)], j)
    ensures forall r: Record :: r.Id() != j.id ==>
            (r in records <==> r in Without(records, Valid(expected)) + [Valid(j)])
  {
    WithoutMember(records, Valid(expected));
    if UniqueKeys(records) {
      KeysReplaced(records, Valid(expected), Valid(j));
    }
  }

  lemma {:induction false} ConfinedTransitive(a: State, b: State, c: State, j: Journal)
    requires Confined(a, b, j) && Confined(b, c, j)
    ensures Confined(a, c, j)
  {
    OutsideTransitive(a.entries, b.entries, c.entries, Touched(PathsOf(j)));
  }

  lemma {:induction false} PendingBy(s: State, stored: Journal)
    requires Valid(stored) in s.records
    ensures Pending(s, stored.id)
  {
    assert Valid(stored).Id() == stored.id;
  }

  /** Renames every path away, or puts everything back. */
  method DetachOrUndo(w: World, prepared: Journal, paths: seq<DeletionPath>, ghost t: Tracked)
    returns (r: Result<(), Error>)
    requires Protected(Now(w), t) && t.journal == prepared && Only(w.records, prepared) && paths == PathsOf(prepared)
    requires HasTarget(Now(w), prepared) || AllAbsent(w.entries, prepared)
    modifies w`records, w`entries, w`step, w`crashed
    ensures Protected(Now(w), t) && Confined(old(Now(w)), Now(w), prepared)
    ensures r.Ok? ==> w.records == old(w.records) && NothingLive(w.entries, prepared) &&
                      (HasTarget(Now(w), prepared) || AllAbsent(w.entries, prepared))
    ensures old(w.Quiet() && HasTarget(Now(w), prepared) && NoTombstones(w.entries, prepared)) ==> w.Quiet() && r.Ok?
  {
    ghost var s := Now(w);
    PathsDistinct(prepared);
    if HasTarget(s, prepared) && NoTombstones(s.entries, prepared) {
      DetachWorks(s, t);
    }
    PendingBy(s, prepared);
    r := DetachPaths(w, paths);
    ghost var m := Now(w);
    ConservesOutside(s.entries, m.entries, paths);
    StillProtected(s, m, t);
    if r.Err? {
      var reported := UndoDeletion(w, prepared, paths, r.error, t);
      ConfinedTransitive(s, m, Now(w), prepared);
      r := Err(reported);
    }
  }

  /** Records the Detached phase, or puts everything back. */
  method ReplaceOrUndo(w: World, prepared: Journal, next: Journal, paths: seq<DeletionPath>, ghost t: Tracked)
    returns (r: Result<(), Error>)
    requires Protected(Now(w), t) && t.journal == prepared && Only(w.records, prepared) && paths == PathsOf(prepared)
    requires next == AsDetached(prepared)
    requires HasTarget(Now(w), prepared) || AllAbsent(w.entries, prepared)
    modifies w`records, w`entries, w`step, w`crashed
    ensures Protected(Now(w), t) && Confined(old(Now(w)), Now(w), prepared)
    ensures r.Ok? ==> w.records == Without(old(w.records), Valid(prepared)) + [Valid(next)] &&
                      w.entries == old(w.entries)
    ensures old(w.Quiet()) ==> r.Ok? && w.Quiet()
  {
    ghost var s := Now(w);
    ReplacedOnly(w.records, prepared, next);
    r := w.ReplaceJournal(prepared, next);
    ghost var m := Now(w);
    PhaseProtected(s, m, t);
    if r.Err? {
      var reported := UndoDeletion(w, prepared, paths, r.error, t);
      ConfinedTransitive(s, m, Now(w), prepared);
      r := Err(reported);
    }
  }

  /** From the journal's creation to its Detached phase. */
  method DetachRecorded(w: World, prepared: Journal, ghost t: Tracked) returns (r: Result<Journal, Error>)
    requires Protected(Now(w), t) && t.journal == prepared && Only(w.records, prepared)
    requires HasTarget(Now(w), prepared) || AllAbsent(w.entries, prepared)
    modifies w`records, w`entries, w`step, w`crashed
    ensures Protected(Now(w), t) && Confined(old(Now(w)), Now(w), prepared)
    ensures r.Ok? ==> r.value == AsDetached(prepared) &&
                      w.records == Without(old(w.records), Valid(prepared)) + [Valid(r.value)] &&
                      NothingLive(w.entries, prepared) &&
                      (HasTarget(Now(w), prepared) || AllAbsent(w.entries, prepared))
    ensures old(w.Quiet() && HasTarget(Now(w), prepared) && NoTombstones(w.entries, prepared)) ==> w.Quiet() && r.Ok?
  {
    ghost var s := Now(w);
    var paths := PathsOf(prepared);
    var detached := DetachOrUndo(w, prepared, paths, t);
    if detached.Err? {
      return Err(detached.error);
    }
    ghost var m := Now(w);
    var next := AsDetached(prepared);
    var replaced := ReplaceOrUndo(w, prepared, next, paths, t);
    ConfinedTransitive(s, m, Now(w), prepared);
    r := if replaced.Err? then Err(replaced.error) else Ok(next);
  }

  /** Replacing our own row by its Detached phase. */
  lemma {:induction false} PhaseProtected(s: State, s': State, t: Tracked)
    requires Protected(s, t) && Only(s.records, t.journal)
    requires s' == s.(records := s'.records)
    requires s'.records == s.records || Only(s'.records, AsDetached(t.journal))
    ensures Protected(s', t) && Pending(s', t.journal.id)
  {
    if s'.records == s.records {
      PendingBy(s, t.journal);
    } else {
      PendingBy(s', AsDetached(t.journal));
    }
  }

  /** From the row deletion to the removal of the journal. */
  method CommitDeletion(w: World, detached: Journal, target: Target, ghost t: Tracked) returns (r: Result<(), Error>)
    requires Protected(Now(w), t) && detached == AsDetached(t.journal) && Only(w.records, detached)
    requires Deletes(target, t.journal)
    requires NothingLive(w.entries, t.journal)
    requires HasTarget(Now(w), t.journal) || AllAbsent(w.entries, t.journal)
    modifies w`records, w`gurus, w`chats, w`entries, w`step, w`crashed
    ensures Protected(Now(w), t) && Confined(old(Now(w)), Now(w), t.journal)
    ensures RowsKept(old(Now(w)), Now(w), target)
    ensures r.Ok? ==> (w.gurus, w.chats) == RowsWithout(old(w.gurus), old(w.chats), target) &&
                      !HasTarget(Now(w), t.journal) && !Pending(Now(w), t.journal.id)
    ensures old(w.Quiet() && HasTarget(Now(w), t.journal)) ==>
              && w.Quiet()
              && (r.Ok? <==> Current(old(w.gurus), old(w.chats), target))
              && (r.Err? ==> NoTombstones(w.entries, t.journal) && w.gurus == old(w.gurus) && w.chats == old(w.chats) &&
                             w.records == Without(old(w.records), Valid(detached)))
  {
    ghost var s := Now(w);
    var paths := PathsOf(detached);
    PathsDistinct(t.journal);
    PendingBy(s, detached);
    var deleted := w.DeleteTarget(target);
    ghost var m := Now(w);
    RowProtected(s, m, t, target);
    if deleted.Err? {
      var reported := UndoDeletion(w, detached, paths, deleted.error, t);
      return Err(reported);
    }
    r := FinishDeletion(w, detached, paths, t);
  }

  /** The rows are as they were, or the target is gone. */
  ghost predicate RowsKept(s: State, s': State, target: Target) {
    || (s'.gurus == s.gurus && s'.chats == s.chats)
    || (Current(s.gurus, s.chats, target) && (s'.gurus, s'.chats) == RowsWithout(s.gurus, s.chats, target))
  }

  lemma {:induction false} RowProtected(s: State, s': State, t: Tracked, target: Target)
    requires Protected(s, t) && Pending(s, t.journal.id) && Deletes(target, t.journal)
    requires NothingLive(s.entries, t.journal)
    requires s' == s.(gurus := s'.gurus, chats := s'.chats) && RowsKept(s, s', target)
    ensures Protected(s', t) && Pending(s', t.journal.id)
    ensures (s'.gurus, s'.chats) == RowsWithout(s.gurus, s.chats, target) ==> !HasTarget(s', t.journal)
  {
    if HasTarget(s, t.journal) {
      RowMayGo(s.entries, t);
    }
  }

  /** The row is gone: remove the tombstones, then the journal. */
  method FinishDeletion(w: World, detached: Journal, paths: seq<DeletionPath>, ghost t: Tracked)
    returns (r: Result<(), Error>)
    requires Protected(Now(w), t) && detached == AsDetached(t.journal) && Only(w.records, detached)
    requires !HasTarget(Now(w), t.journal) && paths == PathsOf(t.journal)
    modifies w`records, w`entries, w`step, w`crashed
    ensures Protected(Now(w), t) && Confined(old(Now(w)), Now(w), t.journal)
    ensures r.Ok? ==> !Pending(Now(w), t.journal.id)
    ensures old(w.Quiet()) ==> w.Quiet() && r.Ok?
  {
    ghost var s := Now(w);
    PathsDistinct(t.journal);
    PendingBy(s, detached);
    CleanupWorks(s, t);
    var cleaned := CleanupPaths(w, paths);
    ghost var m := Now(w);
    ConservesOutside(s.entries, m.entries, paths);
    CleaningIsSafe(s.entries, m.entries, t);
    assert Pending(m, t.journal.id);
    if cleaned.Err? {
      return Err(cleaned.error);
    }
    r := w.DeleteJournal(detached);
    JournalMayGo(m, Now(w), t, detached);
    WithoutMember(m.records, Valid(detached));
  }

  lemma {:induction false} CleanupWorks(s: State, t: Tracked)
    requires Protected(s, t) && !HasTarget(s, t.journal)
    ensures AllCleanable(s.entries, PathsOf(t.journal))
  {
    forall p | p in PathsOf(t.journal)
      ensures Cleanable(s.entries, p)
    {
      assert Dropped(s.entries, t, p) && Fits(t, p);
    }
  }

  lemma {:induction false} CreatedProtected(s: State, s': State, t: Tracked)
    requires Protected(s, t) && s' == s.(records := s'.records)
    requires s'.records == s.records || (Insertable(s.records, t.journal) &&
                                         s'.records == s.records + [Valid(t.journal)])
    ensures Protected(s', t) && Confined(s, s', t.journal)
    ensures s'.records != s.records ==>
            Only(s'.records, t.journal) && !Pending(s, t.journal.id) && NoTombstones(s.entries, t.journal)
    ensures s'.records != s.records ==> HasTarget(s', t.journal) || AllAbsent(s'.entries, t.journal)
  {
    if s'.records != s.records {
      PendingBy(s', t.journal);
      if UniqueKeys(s.records) {
        KeysAppended(s.records, Valid(t.journal));
      }
    } else {
      assert Protected(s', t);
    }
  }

  lemma {:induction false} ResolvedAlike(e: Entries, f: Entries, t: Tracked, p: DeletionPath, q: Path)
    requires Resolved(e, t, p, true) && Resolved(f, t, p, true) && (Prefix(p.source, q) || Prefix(p.tombstone, q))
    ensures SameAt(e, f, q)
  {
    if Prefix(p.source, q) && p.source in t.origins {
      PrefixSplits(p.source, q);
      SubEqual(e, p.source, f, p.source);
      var s := q[|p.source|..];
      assert p.source + s in e <==> p.source + s in f;
    }
  }

  /** Restored entries on both sides of a failed deletion are the same entries. */
  lemma {:induction false} RefusedUnchanged(s: State, s': State, t: Tracked)
    requires Protected(s, t) && Protected(s', t) && HasTarget(s, t.journal) && HasTarget(s', t.journal)
    requires NoTombstones(s.entries, t.journal) && NoTombstones(s'.entries, t.journal)
    requires Outside(s.entries, s'.entries, Touched(PathsOf(t.journal)))
    ensures s.entries == s'.entries
  {
    SafeResolves(s.entries, t, true);
    SafeResolves(s'.entries, t, true);
    forall q
      ensures SameAt(s.entries, s'.entries, q)
    {
      if r :| r in Touched(PathsOf(t.journal)) && Prefix(r, q) {
        var p :| p in PathsOf(t.journal) && (r == p.source || r == p.tombstone);
        ResolvedAlike(s.entries, s'.entries, t, p, q);
      } else {
        assert Clear(q, Touched(PathsOf(t.journal)));
      }
    }
    assert forall q :: q in s.entries <==> q in s'.entries by {
      forall q
        ensures q in s.entries <==> q in s'.entries
      {
        assert SameAt(s.entries, s'.entries, q);
      }
    }
    forall q | q in s.entries
      ensures s.entries[q] == s'.entries[q]
    {
      assert SameAt(s.entries, s'.entries, q);
    }
  }

  lemma {:induction false} RecordsBack(records: seq<Record>, j: Journal)
    requires forall r :: r in records ==> r.Id() != j.id
    ensures var created := records + [Valid(j)];
            var replaced := Without(created, Valid(j)) + [Valid(AsDetached(j))];
            forall r :: r in Without(replaced, Valid(AsDetached(j))) <==> r in records
  {
    var created := records + [Valid(j)];
    WithoutMember(created, Valid(j));
    WithoutMember(Without(created, Valid(j)) + [Valid(AsDetached(j))], Valid(AsDetached(j)));
    assert Valid(j).Id() == j.id && Valid(AsDetached(j)).Id() == j.id;
  }

  /** A deletion whose journal has been created. */
  method RunRecorded(w: World, prepared: Journal, target: Target, ghost t: Tracked) returns (r: Result<(), Error>)
    requires Protected(Now(w), t) && t.journal == prepared && Only(w.records, prepared) && Deletes(target, prepared)
    requires HasTarget(Now(w), prepared) || AllAbsent(w.entries, prepared)
    modifies w`records, w`gurus, w`chats, w`entries, w`step, w`crashed
    ensures Protected(Now(w), t) && Confined(old(Now(w)), Now(w), prepared)
    ensures RowsKept(old(Now(w)), Now(w), target)
    ensures r.Ok? ==> !HasTarget(Now(w), prepared) && Settled(Now(w), t)
    ensures old(w.Quiet() && HasTarget(Now(w), prepared) && NoTombstones(w.entries, prepared)) ==>
              && (r.Ok? <==> Current(old(w.gurus), old(w.chats), target))
              && (r.Err? ==> w.gurus == old(w.gurus) && w.chats == old(w.chats) && w.entries == old(w.entries) &&
                             w.records == Without(Without(old(w.records), Valid(prepared)) +
                                                  [Valid(AsDetached(prepared))],
                                                  Valid(AsDetached(prepared))))
  {
    ghost var s := Now(w);
    ReplacedOnly(w.records, prepared, AsDetached(prepared));
    var detached := DetachRecorded(w, prepared, t);
    ghost var d := Now(w);
    if detached.Err? {
      return Err(detached.error);
    }
    r := CommitDeletion(w, detached.value, target, t);
    ghost var e := Now(w);
    ConfinedTransitive(s, d, e, prepared);
    if r.Ok? {
      ProtectedSettles(e, t);
    } else if HasTarget(s, prepared) && HasTarget(e, prepared) && NoTombstones(s.entries, prepared) &&
        NoTombstones(e.entries, prepared) {
      RefusedUnchanged(s, e, t);
    }
  }

  /**
   `execute_deletion` under any failures and any crash. Success means row,
   entries and journal are gone; without failures it succeeds exactly when the
   row is still the one expected, and otherwise changes nothing.
   */
  method ExecuteDeletion(w: World, prepared: Journal, target: Target, ghost t: Tracked) returns (r: Result<(), Error>)
    requires t.journal == prepared && Deletes(target, prepared)
    requires ValidJournal(prepared) ==> Protected(Now(w), t)
    modifies w`records, w`gurus, w`chats, w`entries, w`step, w`crashed
    ensures !ValidJournal(prepared) ==> r.Err? && Now(w) == old(Now(w))
    ensures ValidJournal(prepared) ==> Protected(Now(w), t) && Confined(old(Now(w)), Now(w), prepared)
    ensures RowsKept(old(Now(w)), Now(w), target)
    ensures r.Ok? ==> !HasTarget(Now(w), prepared) && Settled(Now(w), t)
    ensures old(ValidJournal(prepared) && w.Quiet() && HasTarget(Now(w), prepared)) ==>
              && (r.Ok? <==> Current(old(w.gurus), old(w.chats), target) && Insertable(old(w.records), prepared))
              && (r.Err? ==> Unchanged(old(Now(w)), Now(w)))
  {
    if !ValidJournal(prepared) {
      return Err(InvalidJournal);
    }
    ghost var s := Now(w);
    var created := w.CreateJournal(prepared);
    ghost var c := Now(w);
    CreatedProtected(s, c, t);
    if created.Err? {
      return Err(created.error);
    }
    r := RunRecorded(w, prepared, target, t);
    ConfinedTransitive(s, c, Now(w), prepared);
    RecordsBack(s.records, prepared);
  }
}
