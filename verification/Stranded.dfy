/**
 Deleting a Guru beside a pending deletion of one of its Chats: when the Chat
 is settled, and a history in which it never is
 (apps/guruterminal/src-tauri/src/deletion.rs:27-220;
 apps/guruterminal/src-tauri/src/commands/records.rs:101-122;
 apps/guruterminal/src-tauri/src/commands/guru.rs:603-650).
 */
module Stranded {
  import opened Deletion
  import opened Histories
  import opened Journals
  import opened Nested
  import opened Protection
  import opened Recovery
  import opened Startup
  import opened Storage
  import opened World
  import opened Wrappers

  /** The store and both deletions are in order. */
  ghost predicate Beside(s: State, t: Tracked, g: Journal) {
    InOrder(s, t, g) && UniqueKeys(s.records) && OthersDiffer(s.records, t, g)
  }

  /** Whether a recovery that meets no failure will not settle the Chat. */
  ghost predicate Doomed(s: State, t: Tracked, g: Journal) {
    Lost(s, t, g) || (OutOfSight(s, t, g) && ChatFirst(s.records, |s.records|, t, g))
  }

  /** `recover` under any failures, with both deletions pending. */
  method RecoverBoth(w: World, ghost t: Tracked, ghost g: Journal) returns (r: Result<set<string>, Error>)
    requires Beside(Now(w), t, g)
    modifies w`records, w`entries, w`scope, w`step, w`crashed
    ensures Beside(Now(w), t, g) && w.gurus == old(w.gurus)
    ensures r.Ok? && !w.crashed && BothCalm(w.plan, t, g) ==>
              && (Settled(Now(w), t) <==> !Doomed(old(Now(w)), t, g))
              && !Pending(Now(w), t.journal.id) && !HomeHidden(w.entries, g)
              && (Settled(Now(w), t) || Lost(Now(w), t, g))
    ensures !old(w.crashed) && CalmEverywhere(w.plan) ==> r.Ok? && !w.crashed
  {
    ghost var records, s0 := w.records, Now(w);
    ghost var trace;
    r, trace := Recover(w, []);
    ghost var last := Now(w);
    WalkNested(records, trace, s0, last, |trace| - 1, t, g);
    if r.Ok? && !w.crashed && BothCalm(w.plan, t, g) {
      NestedSettled(w.plan, records, trace, s0, last, t, g);
    }
  }

  /**
   Deleting a Guru under any failures while a deletion of its Chat is pending,
   any number of failing startups, and one startup without failures: the Chat
   is settled exactly if the last startup did not find it doomed.
   */
  method DeleteGuruBesideChat(w: World, prepared: Journal, target: Target, restarts: seq<Plan>, calm: Plan,
                              ghost t: Tracked, ghost tg: Tracked)
    returns (r: Result<(), Error>, ghost start: State)
    requires ChatOf(t.journal, prepared) && t.journal.id != prepared.id && !SameDeletion(t.journal, prepared)
    requires tg == Tracked(prepared, w.entries) && Deletes(target, prepared)
    requires Protected(Now(w), t) && Protected(Now(w), tg)
    requires HasTarget(Now(w), prepared) && Home(prepared) in w.entries
    requires UniqueKeys(w.records) && OthersDiffer(w.records, t, prepared)
    requires CalmEverywhere(calm)
    modifies w
    ensures Beside(start, t, prepared) && (r.Ok? ==> !HasTarget(start, prepared))
    ensures Settled(Now(w), t) <==> !Doomed(start, t, prepared)
  {
    ghost var s := Now(w);
    w.Enter(prepared.id);
    r := ExecuteDeletion(w, prepared, target, tg);
    GuruDeletionNests(s, Now(w), t, tg, target);
    ExecutionDiffers(s.records, w.records, t, tg);
    for i := 0 to |restarts|
      invariant Beside(Now(w), t, prepared)
      invariant r.Ok? ==> !HasTarget(Now(w), prepared)
    {
      w.Restart(restarts[i]);
      var _ := RecoverBoth(w, t, prepared);
    }
    w.Restart(calm);
    start := Now(w);
    assert CalmIn(calm, t.journal.id) && CalmIn(calm, prepared.id);
    var _ := RecoverBoth(w, t, prepared);
  }

  lemma {:induction false} ExecutionDiffers(records: seq<Record>, after: seq<Record>, t: Tracked, tg: Tracked)
    requires OthersDiffer(records, t, tg.journal)
    requires forall r: Record :: r.Id() != tg.journal.id ==> (r in records <==> r in after)
    ensures OthersDiffer(after, t, tg.journal)
  {
    forall r | r in after
      ensures OtherDeletion(r, t, tg.journal)
    {
      if r.Id() != tg.journal.id {
        assert r in records;
      }
    }
  }

  // ------------------------------------------- a Chat that stays unsettled

  function NoFaults(): Plan {
    (id: string, n: nat) => Fine
  }

  function EveryCallFails(): Plan {
    (id: string, n: nat) => Fault(false, Nothing)
  }

  /** A Chat with something stored, in a Guru whose home is in place; nothing is being deleted. */
  ghost predicate Stored(s: State, c: Journal, g: Journal) {
    && ChatOf(c, g) && c.id != g.id && !SameDeletion(c, g) && s.records == []
    && Fresh(s, c) && Fresh(s, g) && Home(g) in s.entries && s.entries[Home(g)].identity == g.expected
    && SomethingStored(s.entries, c)
  }

  ghost predicate SomethingStored(e: Entries, c: Journal) {
    exists p :: p in PathsOf(c) && p.source in e
  }

  /** The Chat's entries are renamed and its Detached phase is recorded. */
  ghost predicate ChatDetached(s0: State, s: State, c: Journal) {
    && Protected(s, Tracked(c, s0.entries)) && Outside(s0.entries, s.entries, Touched(PathsOf(c)))
    && s.records == [Valid(AsDetached(c))] && s.gurus == s0.gurus && !NoTombstones(s.entries, c)
  }

  lemma {:induction false} TombstoneStands(e: Entries, t: Tracked)
    requires EntriesSafe(e, t, true) && NothingLive(e, t.journal)
    requires SomethingStored(t.origins, t.journal)
    ensures !NoTombstones(e, t.journal)
  {
    var p :| p in PathsOf(t.journal) && p.source in t.origins;
    assert Kept(e, t, p);
  }

  lemma {:induction false} FirstRecord(c: Journal)
    ensures [] + [Valid(c)] == [Valid(c)]
    ensures Without([Valid(c)], Valid(c)) + [Valid(AsDetached(c))] == [Valid(AsDetached(c))]
    ensures Only([Valid(c)], c) && Only([Valid(AsDetached(c))], AsDetached(c))
  {
    assert [Valid(c)][..0] == [];
    assert Without([Valid(c)], Valid(c)) == [];
  }

  lemma {:induction false} ChatBegins(s: State, c: Journal, g: Journal)
    requires Stored(s, c, g)
    ensures Insertable(s.records, c) && Protected(s, Tracked(c, s.entries))
    ensures HasTarget(s, c) && NoTombstones(s.entries, c)
  {
    FreshProtected(s, Tracked(c, s.entries));
  }

  lemma {:induction false} ChatIsDetached(s0: State, s: State, c: Journal, g: Journal)
    requires Stored(s0, c, g) && Protected(s, Tracked(c, s0.entries)) && HasTarget(s, c) && NothingLive(s.entries, c)
    requires Outside(s0.entries, s.entries, Touched(PathsOf(c))) && s.gurus == s0.gurus
    requires s.records == Without(s0.records + [Valid(c)], Valid(c)) + [Valid(AsDetached(c))]
    ensures ChatDetached(s0, s, c)
  {
    assert s0.records == [];
    FirstRecord(c);
    var t := Tracked(c, s0.entries);
    assert EntriesSafe(s.entries, t, true) && SomethingStored(t.origins, c);
    TombstoneStands(s.entries, t);
  }

  /** The first half of `execute_deletion`, when nothing fails. */
  method RecordAndDetach(w: World, j: Journal, ghost t: Tracked)
    requires t.journal == j && Protected(Now(w), t) && Insertable(w.records, j)
    requires w.Quiet() && HasTarget(Now(w), j) && NoTombstones(w.entries, j)
    modifies w`records, w`entries, w`step, w`crashed
    ensures w.Quiet() && Protected(Now(w), t) && NothingLive(w.entries, j)
    ensures Outside(old(w.entries), w.entries, Touched(PathsOf(j)))
    ensures w.records == Without(old(w.records) + [Valid(j)], Valid(j)) + [Valid(AsDetached(j))]
  {
    ghost var s := Now(w);
    var created := w.CreateJournal(j);
    CreatedProtected(s, Now(w), t);
    PendingBy(Now(w), j);
    assert Valid(j) in w.records;
    var detached := DetachRecorded(w, j, t);
  }

  /** From the start of the Chat's deletion to its Detached phase. */
  method DetachChat(w: World, c: Journal, ghost s0: State, ghost g: Journal)
    requires Now(w) == s0 && Stored(s0, c, g) && w.Quiet()
    modifies w`records, w`entries, w`step, w`crashed
    ensures w.Quiet() && ChatDetached(s0, Now(w), c) && HasTarget(Now(w), c)
    ensures NothingLive(w.entries, c)
  {
    ChatBegins(s0, c, g);
    RecordAndDetach(w, c, Tracked(c, s0.entries));
    ChatIsDetached(s0, Now(w), c, g);
  }

  /** The Chat's row is deleted; the first call of the cleanup fails and ends the deletion. */
  method ChatCleanupFails(w: World, c: Journal, data: string, ghost s0: State, ghost g: Journal)
    requires Now(w) == s0 && Stored(s0, c, g) && w.Quiet()
    requires Current(s0.gurus, s0.chats, ChatTarget(c.target, c.guru, data))
    modifies w
    ensures !w.crashed && ChatDetached(s0, Now(w), c) && c.target !in w.chats
  {
    DetachChat(w, c, s0, g);
    ghost var s := Now(w);
    var target := ChatTarget(c.target, c.guru, data);
    var deleted := w.DeleteTarget(target);
    RowGone(s0, s, Now(w), c, target);
    w.Face(EveryCallFails());
    var removed := w.RemoveTreeExpected(PathsOf(c)[0].tombstone, None);
  }

  lemma {:induction false} RowGone(s0: State, s: State, s': State, c: Journal, target: Target)
    requires ChatDetached(s0, s, c) && NothingLive(s.entries, c) && Deletes(target, c)
    requires s' == s.(gurus := s'.gurus, chats := s'.chats) && s'.gurus == s.gurus && RowsKept(s, s', target)
    ensures ChatDetached(s0, s', c)
  {
    PendingBy(s, AsDetached(c));
    RowProtected(s, s', Tracked(c, s0.entries), target);
  }

  /** The Guru's home, workspace and rows are where they were. */
  lemma {:induction false} GuruBegins(s0: State, s: State, c: Journal, g: Journal, sealed: Option<Identity>)
    requires Stored(s0, c, g) && ChatDetached(s0, s, c) && SealIntact(s0.entries, g.guru, sealed)
    ensures Fresh(s, g) && Protected(s, Tracked(g, s.entries)) && Insertable(s.records, g)
    ensures SealIntact(s.entries, g.guru, sealed) && s.entries[Home(g)].identity == g.expected
  {
    var e, f := s0.entries, s.entries;
    ChatLeavesGuru(e, f, c, g);
    GuruSameAt(e, f, g);
    GuruStillReconcilable(s0, s.(gurus := s0.gurus, chats := s0.chats), g);
    TidyKept(e, f, g);
    WorkspaceStays(e, f, c, g);
    assert Fresh(s, g);
    FreshProtected(s, Tracked(g, f));
  }

  lemma {:induction false} WorkspaceStays(e: Entries, f: Entries, c: Journal, g: Journal)
    requires ChatOf(c, g) && Outside(e, f, Touched(PathsOf(c)))
    ensures SameAt(e, f, ["gurus", g.guru, "workspace"])
  {
    var workspace := ["gurus", g.guru, "workspace"];
    forall x | x in Touched(PathsOf(c))
      ensures !Prefix(x, workspace)
    {
      ChatEntry(c, x);
    }
    assert Clear(workspace, Touched(PathsOf(c)));
  }

  /** The home renamed: both deletions in order, the Chat's tombstone inside it, its journal first. */
  lemma {:induction false} HomeMoved(s0: State, s: State, s': State, c: Journal, g: Journal, sealed: Option<Identity>)
    requires Stored(s0, c, g) && ChatDetached(s0, s, c) && SealIntact(s0.entries, g.guru, sealed)
    requires s' == s.(records := s.records + [Valid(g)], entries := Move(s.entries, Home(g), HiddenHome(g)))
    ensures Beside(s', Tracked(c, s0.entries), g) && OutOfSight(s', Tracked(c, s0.entries), g)
    ensures ChatFirst(s'.records, |s'.records|, Tracked(c, s0.entries), g)
  {
    GuruBegins(s0, s, c, g, sealed);
    HomeMovable(s0, s, c, g, sealed);
    HomeMovedInOrder(s, s', Tracked(c, s0.entries), Tracked(g, s.entries));
    assert s'.records[0] == Valid(AsDetached(c)) && s'.records[1] == Valid(g);
    assert NotYet(s'.records, 0, g.id);
  }

  lemma {:induction false} HomeMovedInOrder(s: State, s': State, t: Tracked, tg: Tracked)
    requires ChatOf(t.journal, tg.journal) && t.journal.id != tg.journal.id && !SameDeletion(t.journal, tg.journal)
    requires Protected(s, t) && Protected(s, tg) && tg.origins == s.entries && Insertable(s.records, tg.journal)
    requires HasTarget(s, tg.journal)
    requires Movable(s.entries, Home(tg.journal), HiddenHome(tg.journal), tg.journal.expected)
    requires s' == s.(records := s.records + [Valid(tg.journal)],
                      entries := Move(s.entries, Home(tg.journal), HiddenHome(tg.journal)))
    ensures InOrder(s', t, tg.journal) && HomeHidden(s'.entries, tg.journal)
    ensures NoTombstones(View(s'.entries, tg.journal), t.journal) == NoTombstones(s.entries, t.journal)
  {
    HomeMovedSafely(s, s', tg);
    GuruDeletionNests(s, s', t, tg, GuruTarget(tg.journal.guru, ""));
    HomeKept(s.entries, s'.entries, t.journal, tg);
    SameForSafe(View(s.entries, tg.journal), View(s'.entries, tg.journal), t, HasTarget(s, t.journal));
  }

  lemma {:induction false} HomeMovedSafely(s: State, s': State, tg: Tracked)
    requires Protected(s, tg) && tg.journal.kind.Guru? && HasTarget(s, tg.journal) && Insertable(s.records, tg.journal)
    requires Home(tg.journal) in s.entries && HiddenHome(tg.journal) !in s.entries
    requires s' == s.(records := s.records + [Valid(tg.journal)],
                      entries := Move(s.entries, Home(tg.journal), HiddenHome(tg.journal)))
    ensures Protected(s', tg) && Confined(s, s', tg.journal)
    ensures HomeHidden(s'.entries, tg.journal)
  {
    var g := tg.journal;
    var p := PathsOf(g)[0];
    assert p in PathsOf(g);
    var m := s.(records := s'.records);
    CreatedProtected(s, m, tg);
    PendingBy(s', g);
    PathsDistinct(g);
    MoveConserves(s.entries, PathsOf(g), p, Home(g), HiddenHome(g));
    StillProtected(m, s', tg);
    MoveMoves(s.entries, Home(g), HiddenHome(g));
    assert Prefix(Home(g), Home(g));
  }

  /** The Guru's deletion renames the home; the process ends before its next call. */
  method HideHome(w: World, ghost s0: State, ghost c: Journal, g: Journal, sealed: Option<Identity>)
    requires Stored(s0, c, g) && ChatDetached(s0, Now(w), c) && !w.crashed
    requires SealIntact(s0.entries, g.guru, sealed)
    modifies w
    ensures Beside(Now(w), Tracked(c, s0.entries), g) && OutOfSight(Now(w), Tracked(c, s0.entries), g)
    ensures ChatFirst(w.records, |w.records|, Tracked(c, s0.entries), g)
    ensures w.chats == old(w.chats) && !w.crashed
  {
    ghost var s := Now(w);
    HomeMovable(s0, s, c, g, sealed);
    w.Face(NoFaults());
    w.Enter(g.id);
    var observed := CheckSeal(w, g.guru, sealed);
    BeginGuru(w, g);
    HomeMoved(s0, s, Now(w), c, g, sealed);
  }

  lemma {:induction false} HomeMovable(s0: State, s: State, c: Journal, g: Journal, sealed: Option<Identity>)
    requires Stored(s0, c, g) && ChatDetached(s0, s, c) && SealIntact(s0.entries, g.guru, sealed)
    ensures Insertable(s.records, g) && Movable(s.entries, Home(g), HiddenHome(g), g.expected)
  {
    GuruBegins(s0, s, c, g, sealed);
    assert PathsOf(g)[0] in PathsOf(g);
  }

  /** The calls after the checks of `delete_guru`, up to the first rename. */
  method BeginGuru(w: World, g: Journal)
    requires Insertable(w.records, g) && w.Quiet()
    requires Movable(w.entries, Home(g), HiddenHome(g), g.expected)
    modifies w`records, w`entries, w`step, w`crashed
    ensures Now(w) == old(Now(w)).(records := old(w.records) + [Valid(g)],
                                   entries := Move(old(w.entries), Home(g), HiddenHome(g)))
    ensures !w.crashed
  {
    var created := w.CreateJournal(g);
    var taken := w.EntryExists(HiddenHome(g));
    var moved := w.RenameExpected(Home(g), HiddenHome(g), g.expected);
  }

  /**
   A Chat is deleted and its cleanup fails; the deletion of its Guru is cut off
   once the home is renamed; the next startup meets no failure. The Chat's
   journal is then gone and the Guru back, with the Chat's tombstone inside it:
   nothing is left that would remove it.
   */
  method StrandedChat(w: World, chat: string, guru: string, data: string, home: Identity, sealed: Option<Identity>,
                      first: int, second: int)
    returns (r: Result<set<string>, Error>, ghost t: Tracked)
    requires first + 1 < second && chat != guru
    requires Stored(Now(w), ChatJournal(chat, guru, first), GuruJournal(guru, home, second)) && !w.crashed
    requires Current(w.gurus, w.chats, ChatTarget(chat, guru, data)) && SealIntact(w.entries, guru, sealed)
    modifies w
    ensures r.Ok? && t == Tracked(ChatJournal(chat, guru, first), old(w.entries)) && !Settled(Now(w), t)
    ensures !Pending(Now(w), t.journal.id) && chat !in w.chats && guru in w.gurus
    ensures ["gurus", guru] in w.entries && !NoTombstones(w.entries, t.journal)
  {
    r, t := Strand(w, ChatJournal(chat, guru, first), GuruJournal(guru, home, second), data, sealed);
  }

  method Strand(w: World, c: Journal, g: Journal, data: string, sealed: Option<Identity>)
    returns (r: Result<set<string>, Error>, ghost t: Tracked)
    requires Stored(Now(w), c, g) && !w.crashed
    requires Current(w.gurus, w.chats, ChatTarget(c.target, c.guru, data)) && SealIntact(w.entries, g.guru, sealed)
    modifies w
    ensures r.Ok? && t == Tracked(c, old(w.entries)) && !Settled(Now(w), t)
    ensures !Pending(Now(w), c.id) && c.target !in w.chats && g.guru in w.gurus
    ensures Home(g) in w.entries && !NoTombstones(w.entries, c)
  {
    ghost var s0 := Now(w);
    t := Tracked(c, s0.entries);
    HideBoth(w, c, g, data, sealed, s0);
    w.Restart(NoFaults());
    r := RecoverLost(w, t, g);
  }

  /** Both deletions, up to the crash. */
  method HideBoth(w: World, c: Journal, g: Journal, data: string, sealed: Option<Identity>, ghost s0: State)
    requires Now(w) == s0 && Stored(s0, c, g) && !w.crashed
    requires Current(s0.gurus, s0.chats, ChatTarget(c.target, c.guru, data)) && SealIntact(s0.entries, g.guru, sealed)
    modifies w
    ensures Beside(Now(w), Tracked(c, s0.entries), g) && OutOfSight(Now(w), Tracked(c, s0.entries), g)
    ensures ChatFirst(w.records, |w.records|, Tracked(c, s0.entries), g) && c.target !in w.chats
  {
    w.Face(NoFaults());
    w.Enter(c.id);
    ChatCleanupFails(w, c, data, s0, g);
    HideHome(w, s0, c, g, sealed);
  }

  /** A startup without failures that finds the Chat's tombstone out of sight and its journal first. */
  method RecoverLost(w: World, ghost t: Tracked, ghost g: Journal) returns (r: Result<set<string>, Error>)
    requires Beside(Now(w), t, g) && CalmEverywhere(w.plan) && !w.crashed
    requires OutOfSight(Now(w), t, g) && ChatFirst(w.records, |w.records|, t, g)
    modifies w`records, w`entries, w`scope, w`step, w`crashed
    ensures r.Ok? && !Settled(Now(w), t) && !Pending(Now(w), t.journal.id)
    ensures g.guru in w.gurus && Home(g) in w.entries && !NoTombstones(w.entries, t.journal)
  {
    assert CalmIn(w.plan, t.journal.id) && CalmIn(w.plan, g.id);
    r := RecoverBoth(w, t, g);
    LostInPlace(Now(w), t, g);
  }

  lemma {:induction false} LostInPlace(s: State, t: Tracked, g: Journal)
    requires InOrder(s, t, g) && Lost(s, t, g) && !HomeHidden(s.entries, g)
    ensures Home(g) in s.entries && !NoTombstones(s.entries, t.journal)
  {
    assert PathsOf(g)[0] in PathsOf(g) && Mendable(s.entries, PathsOf(g)[0]);
  }
}