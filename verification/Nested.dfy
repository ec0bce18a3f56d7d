/**
 A Chat deletion and a Guru deletion of the same Guru, both pending: the Chat's
 entries lie inside the entry that the Guru's deletion hides
 (apps/guruterminal/src-tauri/src/deletion.rs:131-220, 242-279;
 apps/guruterminal/src-tauri/src/commands/records.rs:101-122;
 apps/guruterminal/src-tauri/src/commands/guru.rs:603-650).
 */
module Nested {
  import opened Deletion
  import opened Journals
  import opened Protection
  import opened Recovery
  import opened Startup
  import opened Storage
  import opened World
  import opened Wrappers

  // ------------------------------------------- a Guru's home, where it stands

  function Home(g: Journal): Path {
    ["gurus", g.guru]
  }

  function HiddenHome(g: Journal): Path {
    ["gurus", Hidden(g.guru)]
  }

  predicate HomeHidden(e: Entries, g: Journal) {
    Home(g) !in e && HiddenHome(g) in e
  }

  /** Where the entry that belongs at q, inside the home, now stands. */
  function Seat(e: Entries, g: Journal, q: Path): Path {
    if Home(g) !in e && Prefix(Home(g), q) then HiddenHome(g) + q[2..] else q
  }

  /** The entries as they would be with the home in its place. */
  function View(e: Entries, g: Journal): Entries {
    if Home(g) in e then e else Move(e, HiddenHome(g), Home(g))
  }

  lemma {:induction false} HomesApart(g: Journal)
    requires ValidJournal(g)
    ensures Apart(Home(g), HiddenHome(g))
  {
    HiddenNames(g.guru, g.guru);
    DifferApart(Home(g), HiddenHome(g), 1);
  }

  lemma {:induction false} ViewAt(e: Entries, g: Journal, q: Path)
    requires ValidJournal(g) && Prefix(Home(g), q)
    ensures q in View(e, g) <==> Seat(e, g, q) in e
    ensures q in View(e, g) ==> View(e, g)[q] == e[Seat(e, g, q)]
    ensures Home(g) !in e ==> Prefix(HiddenHome(g), Seat(e, g, q))
  {
    HomesApart(g);
    MoveAt(e, HiddenHome(g), Home(g), q);
    PrefixSplits(HiddenHome(g), q);
  }

  /** The Chat's entries, seen with the home in its place, are the same ones. */
  ghost predicate ViewSame(e: Entries, f: Entries, j: Journal, g: Journal) {
    forall p :: p in PathsOf(j) ==> SameFor(View(e, g), View(f, g), p)
  }

  /** Entries whose seats did not move and hold the same are seen the same. */
  lemma {:induction false} SeatsSame(e: Entries, f: Entries, g: Journal, root: Path)
    requires ValidJournal(g) && Prefix(Home(g), root) && (Home(g) in e <==> Home(g) in f)
    requires if Home(g) in e then SameBelow(e, f, root) else SameBelow(e, f, HiddenHome(g))
    ensures SameBelow(View(e, g), View(f, g), root)
  {
    forall q | Prefix(root, q)
      ensures SameAt(View(e, g), View(f, g), q)
    {
      PrefixThrough(Home(g), root, q);
      ViewAt(e, g, q);
      ViewAt(f, g, q);
      assert SameAt(e, f, Seat(e, g, q));
    }
  }

  lemma {:induction false} PrefixThrough(a: Path, b: Path, c: Path)
    requires Prefix(a, b) && Prefix(b, c)
    ensures Prefix(a, c)
  {
    assert c[..|a|] == c[..|b|][..|a|];
  }

  // ---------------------------------------------- what deletions leave alone

  predicate ChatOf(j: Journal, g: Journal) {
    ValidJournal(j) && ValidJournal(g) && j.kind.Chat? && g.kind.Guru? && j.guru == g.guru
  }

  lemma {:induction false} ChatInHome(j: Journal, g: Journal, x: Path)
    requires ChatOf(j, g) && x in Touched(PathsOf(j))
    ensures Prefix(Home(g), x) && !Prefix(x, Home(g)) && Apart(x, HiddenHome(g))
    ensures Apart(x, ["runs", g.guru]) && Apart(x, ["runs", Hidden(g.guru)])
  {
    ChatEntry(j, x);
    HiddenNames(g.guru, g.guru);
    assert x[..2] == Home(g);
    DifferApart(x, HiddenHome(g), 1);
    DifferApart(x, ["runs", g.guru], 0);
    DifferApart(x, ["runs", Hidden(g.guru)], 0);
  }

  /** The Guru's own entries are untouched, and so is everything in the hidden home. */
  ghost predicate GuruSame(e: Entries, f: Entries, g: Journal) {
    && SameAt(e, f, Home(g)) && SameBelow(e, f, HiddenHome(g))
    && SameBelow(e, f, ["runs", g.guru]) && SameBelow(e, f, ["runs", Hidden(g.guru)])
  }

  lemma {:induction false} GuruEntries(g: Journal)
    requires g.kind.Guru?
    ensures Touched(PathsOf(g)) == {Home(g), HiddenHome(g), ["runs", g.guru], ["runs", Hidden(g.guru)]}
  {
    var paths := PathsOf(g);
    assert paths[0] in paths && paths[1] in paths;
  }

  lemma {:induction false} ChatLeavesGuru(e: Entries, f: Entries, j: Journal, g: Journal)
    requires ChatOf(j, g) && Outside(e, f, Touched(PathsOf(j)))
    ensures GuruSame(e, f, g)
  {
    var touched := Touched(PathsOf(j));
    forall x | x in touched
      ensures !Prefix(x, Home(g)) && Apart(x, HiddenHome(g))
      ensures Apart(x, ["runs", g.guru]) && Apart(x, ["runs", Hidden(g.guru)])
    {
      ChatInHome(j, g, x);
    }
    assert Clear(Home(g), touched);
    BelowClear(touched, HiddenHome(g));
    BelowClear(touched, ["runs", g.guru]);
    BelowClear(touched, ["runs", Hidden(g.guru)]);
  }

  lemma {:induction false} ApartLeavesGuru(e: Entries, f: Entries, j: Journal, g: Journal)
    requires g.kind.Guru? && JournalsApart(j, g) && Outside(e, f, Touched(PathsOf(j)))
    ensures GuruSame(e, f, g) && SameBelow(e, f, Home(g))
  {
    var touched := Touched(PathsOf(j));
    GuruEntries(g);
    BelowClear(touched, Home(g));
    BelowClear(touched, HiddenHome(g));
    BelowClear(touched, ["runs", g.guru]);
    BelowClear(touched, ["runs", Hidden(g.guru)]);
    assert Prefix(Home(g), Home(g));
  }

  lemma {:induction false} GuruSameAt(e: Entries, f: Entries, g: Journal)
    requires GuruSame(e, f, g)
    ensures forall x :: x in {Home(g), HiddenHome(g), ["runs", g.guru], ["runs", Hidden(g.guru)]} ==> SameAt(e, f, x)
  {
    assert forall x: Path :: Prefix(x, x);
  }

  /** What the Guru's own recovery looks at is as it was. */
  lemma {:induction false} GuruStillReconcilable(s: State, s': State, g: Journal)
    requires g.kind.Guru? && GuruSame(s.entries, s'.entries, g) && s.gurus == s'.gurus && s.chats == s'.chats
    ensures Reconcilable(s, g) ==> Reconcilable(s', g)
    ensures HomeHidden(s.entries, g) == HomeHidden(s'.entries, g)
    ensures NoTombstones(s.entries, g) == NoTombstones(s'.entries, g)
  {
    GuruSameAt(s.entries, s'.entries, g);
    GuruEntries(g);
    forall p | p in PathsOf(g)
      ensures SameAt(s.entries, s'.entries, p.source) && SameAt(s.entries, s'.entries, p.tombstone)
    {
      assert p.source in Touched(PathsOf(g)) && p.tombstone in Touched(PathsOf(g));
    }
    forall p | p in PathsOf(g)
      ensures Mendable(s.entries, p) == Mendable(s'.entries, p)
      ensures Cleanable(s.entries, p) == Cleanable(s'.entries, p)
    {
      MendableByRoots(s.entries, s'.entries, p);
    }
  }

  lemma {:induction false} MendableByRoots(e: Entries, f: Entries, p: DeletionPath)
    requires SameAt(e, f, p.source) && SameAt(e, f, p.tombstone)
    ensures Mendable(e, p) == Mendable(f, p)
    ensures Cleanable(e, p) == Cleanable(f, p)
  {
  }

  /** Where nothing stands, neither renaming nor cleaning puts anything. */
  lemma {:induction false} BareStays(e: Entries, f: Entries, paths: seq<DeletionPath>, root: Path)
    requires Bare(e, root) && (Conserves(e, f, paths) || Cleans(e, f, paths))
    requires forall x :: x in Touched(paths) ==> Prefix(root, x)
    ensures Bare(f, root)
  {
    if Conserves(e, f, paths) && !Cleans(e, f, paths) {
      forall q | Prefix(root, q)
        ensures q !in f
      {
        if x :| x in Touched(paths) && Prefix(x, q) {
          var p :| p in paths && (x == p.source || x == p.tombstone);
          assert p.source in Touched(paths) && p.tombstone in Touched(paths);
          assert SidesKept(e, f, p);
          assert p.source !in f && p.tombstone !in f;
          assert Tidy(f, Touched(paths));
        } else {
          assert Clear(q, Touched(paths)) && SameAt(e, f, q);
        }
      }
    }
  }

  // --------------------------------------------------- both deletions pending

  /** The Chat's entries are safe inside these entries. */
  ghost predicate Inside(e: Entries, t: Tracked, row: bool) {
    EntriesSafe(e, t, row) && Tidy(e, Touched(PathsOf(t.journal)))
  }

  /** Each deletion alone is in order, wherever the Guru's home stands. */
  ghost predicate InOrder(s: State, t: Tracked, g: Journal) {
    && ChatOf(t.journal, g) && t.journal.id != g.id && !SameDeletion(t.journal, g)
    && Standing(s, t)
    && (forall r :: r in s.records && r.Id() == g.id ==> Ours(r, g))
    && Reconcilable(s, g) && Tidy(s.entries, Touched(PathsOf(g)))
    && (HomeHidden(s.entries, g) ==> Pending(s, g.id))
    && Housed(s, t, g)
  }

  /** While the Guru's row stands its home holds the Chat's entries; later both are gone. */
  ghost predicate Housed(s: State, t: Tracked, g: Journal) {
    if g.guru in s.gurus then Inside(View(s.entries, g), t, HasTarget(s, t.journal))
    else !HasTarget(s, t.journal) && Home(g) !in s.entries
  }

  /** The Chat's journal is gone, its Guru stands, and a tombstone of it is left. */
  ghost predicate Lost(s: State, t: Tracked, g: Journal) {
    && g.guru in s.gurus && !Pending(s, t.journal.id)
    && !NoTombstones(View(s.entries, g), t.journal)
  }

  /** Recovery cannot see the Chat's tombstone: it stands inside the hidden home. */
  ghost predicate OutOfSight(s: State, t: Tracked, g: Journal) {
    g.guru in s.gurus && HomeHidden(s.entries, g) && !NoTombstones(View(s.entries, g), t.journal)
  }

  lemma {:induction false} HomeBare(e: Entries, g: Journal)
    requires g.kind.Guru? && Tidy(e, Touched(PathsOf(g))) && Home(g) !in e
    ensures Bare(e, Home(g))
  {
    GuruEntries(g);
  }

  lemma {:induction false} ChatPathsInHome(j: Journal, g: Journal)
    requires ChatOf(j, g)
    ensures forall p :: p in PathsOf(j) ==> Prefix(Home(g), p.source) && Prefix(Home(g), p.tombstone)
  {
    forall p | p in PathsOf(j)
      ensures Prefix(Home(g), p.source) && Prefix(Home(g), p.tombstone)
    {
      assert p.source in Touched(PathsOf(j)) && p.tombstone in Touched(PathsOf(j));
      ChatInHome(j, g, p.source);
      ChatInHome(j, g, p.tombstone);
    }
  }

  /** With no home in its place, none of the Chat's entries stand. */
  lemma {:induction false} ChatAbsent(e: Entries, j: Journal, g: Journal)
    requires ChatOf(j, g) && Bare(e, Home(g))
    ensures AllAbsent(e, j) && forall p :: p in PathsOf(j) ==> Bare(e, p.source) && Bare(e, p.tombstone)
  {
    ChatPathsInHome(j, g);
    forall p | p in PathsOf(j)
      ensures Bare(e, p.source) && Bare(e, p.tombstone)
    {
      BareBelow(e, Home(g), p.source);
      BareBelow(e, Home(g), p.tombstone);
    }
    assert forall x: Path :: Prefix(x, x);
  }

  lemma {:induction false} BareBelow(e: Entries, root: Path, x: Path)
    requires Bare(e, root) && Prefix(root, x)
    ensures Bare(e, x)
  {
    forall q | Prefix(x, q)
      ensures q !in e
    {
      PrefixThrough(root, x, q);
    }
  }

  lemma {:induction false} TidyKept(e: Entries, f: Entries, g: Journal)
    requires g.kind.Guru? && Tidy(e, Touched(PathsOf(g))) && GuruSame(e, f, g)
    requires Home(g) !in e ==> Bare(f, Home(g))
    ensures Tidy(f, Touched(PathsOf(g)))
  {
    GuruEntries(g);
    GuruSameAt(e, f, g);
    forall r, q | r in Touched(PathsOf(g)) && q in f && Prefix(r, q)
      ensures r in f
    {
      if r == Home(g) {
        assert Home(g) in e;
      } else {
        assert r == HiddenHome(g) || r == ["runs", g.guru] || r == ["runs", Hidden(g.guru)];
        assert SameBelow(e, f, r);
        assert SameAt(e, f, q) && q in e;
        assert r in e && SameAt(e, f, r);
      }
    }
  }

  lemma {:induction false} SameSightHoused(s: State, s': State, t: Tracked, g: Journal)
    requires Housed(s, t, g) && ViewSame(s.entries, s'.entries, t.journal, g)
    requires s.gurus == s'.gurus && s.chats == s'.chats && SameAt(s.entries, s'.entries, Home(g))
    ensures Housed(s', t, g)
    ensures NoTombstones(View(s.entries, g), t.journal) == NoTombstones(View(s'.entries, g), t.journal)
  {
    SameForSafe(View(s.entries, g), View(s'.entries, g), t, HasTarget(s, t.journal));
  }

  /** What a turn on another record does not change. */
  ghost predicate Undisturbed(s: State, s': State, t: Tracked, g: Journal) {
    && InOrder(s', t, g)
    && HomeHidden(s.entries, g) == HomeHidden(s'.entries, g)
    && Pending(s, t.journal.id) == Pending(s', t.journal.id)
    && NoTombstones(View(s.entries, g), t.journal) == NoTombstones(View(s'.entries, g), t.journal)
  }

  lemma {:induction false} PendingSame(s: State, s': State, id: string)
    requires forall r: Record :: r.Id() == id ==> (r in s.records <==> r in s'.records)
    ensures Pending(s, id) == Pending(s', id)
  {
    if r :| r in s.records && r.Id() == id {
      assert r in s'.records;
    }
    if r :| r in s'.records && r.Id() == id {
      assert r in s.records;
    }
  }

  lemma {:induction false} ChatViewSame(e: Entries, f: Entries, j: Journal, t: Journal, g: Journal)
    requires ChatOf(t, g) && JournalsApart(j, t) && Outside(e, f, Touched(PathsOf(j))) && GuruSame(e, f, g)
    ensures ViewSame(e, f, t, g)
  {
    OthersSame(e, f, j, t);
    ChatPathsInHome(t, g);
    forall p | p in PathsOf(t)
      ensures SameFor(View(e, g), View(f, g), p)
    {
      SeatsSame(e, f, g, p.source);
      SeatsSame(e, f, g, p.tombstone);
    }
  }

  /** Another usable journal leaves the Guru's entries alone or belongs to a Chat of it. */
  lemma {:induction false} OtherLeaves(s: State, s': State, j: Journal, g: Journal)
    requires ValidJournal(j) && ValidJournal(g) && g.kind.Guru? && !SameDeletion(j, g) && Turn(Valid(j), s, s')
    requires Tidy(s.entries, Touched(PathsOf(g)))
    ensures GuruSame(s.entries, s'.entries, g) && Tidy(s'.entries, Touched(PathsOf(g)))
  {
    var e, f := s.entries, s'.entries;
    ConservesOutside(e, f, PathsOf(j));
    if ChatOf(j, g) {
      ChatLeavesGuru(e, f, j, g);
      if Home(g) !in e {
        HomeBare(e, g);
        forall x | x in Touched(PathsOf(j))
          ensures Prefix(Home(g), x)
        {
          ChatInHome(j, g, x);
        }
        BareStays(e, f, PathsOf(j), Home(g));
      }
    } else {
      ApartIff(j, g);
      ApartLeavesGuru(e, f, j, g);
      if Home(g) !in e {
        HomeBare(e, g);
        assert Bare(f, Home(g)) by {
          forall q | Prefix(Home(g), q)
            ensures q !in f
          {
            assert SameAt(e, f, q);
          }
        }
      }
    }
    TidyKept(e, f, g);
  }

  /** A turn on another record disturbs neither deletion. */
  lemma {:induction false} OtherTurnNested(record: Record, s: State, s': State, t: Tracked, g: Journal)
    requires InOrder(s, t, g) && Turn(record, s, s') && record.Id() != t.journal.id && record.Id() != g.id
    requires Unusable(record) || (!SameDeletion(record.journal, t.journal) && !SameDeletion(record.journal, g))
    ensures Undisturbed(s, s', t, g)
  {
    if !Unusable(record) {
      var j := record.journal;
      WithoutMember(s.records, record);
      PendingSame(s, s', t.journal.id);
      PendingSame(s, s', g.id);
      ApartIff(j, t.journal);
      OtherLeaves(s, s', j, g);
      ConservesOutside(s.entries, s'.entries, PathsOf(j));
      GuruStillReconcilable(s, s', g);
      ChatViewSame(s.entries, s'.entries, j, t.journal, g);
      SameSightHoused(s, s', t, g);
    }
  }

  /** The Guru's turn may put the home back, with the Chat's entries as they were in it. */
  lemma {:induction false} GuruTurnNested(record: Record, s: State, s': State, t: Tracked, g: Journal)
    requires InOrder(s, t, g) && Turn(record, s, s') && Ours(record, g)
    ensures InOrder(s', t, g)
    ensures HomeHidden(s'.entries, g) ==> HomeHidden(s.entries, g)
    ensures Pending(s, t.journal.id) == Pending(s', t.journal.id)
    ensures g.guru in s.gurus ==>
              NoTombstones(View(s.entries, g), t.journal) == NoTombstones(View(s'.entries, g), t.journal)
  {
    WithoutMember(s.records, record);
    PendingSame(s, s', t.journal.id);
    assert PathsOf(record.journal) == PathsOf(g) && HasTarget(s, record.journal) == HasTarget(s, g);
    GuruTurnReconcilable(s, s', g);
    GuruTurnHides(s, s', g);
    GuruTurnPending(record, s, s', g);
    assert PathsOf(g)[0] in PathsOf(g);
    if g.guru in s.gurus {
      HomeSame(s.entries, s'.entries, g);
      ViewFromHome(s.entries, s'.entries, t.journal, g);
      SameForSafe(View(s.entries, g), View(s'.entries, g), t, HasTarget(s, t.journal));
    }
  }

  lemma {:induction false} GuruTurnReconcilable(s: State, s': State, g: Journal)
    requires g.kind.Guru? && Reconcilable(s, g) && s.gurus == s'.gurus && s.chats == s'.chats
    requires if HasTarget(s, g) then Conserves(s.entries, s'.entries, PathsOf(g))
             else Cleans(s.entries, s'.entries, PathsOf(g))
    ensures Reconcilable(s', g)
  {
    forall p | p in PathsOf(g) && HasTarget(s, g)
      ensures Mendable(s'.entries, p)
    {
      assert SidesKept(s.entries, s'.entries, p);
      HeldRoot(s.entries, p);
      HeldRoot(s'.entries, p);
    }
  }

  lemma {:induction false} GuruTurnHides(s: State, s': State, g: Journal)
    requires ValidJournal(g) && g.kind.Guru? && Reconcilable(s, g)
    requires if HasTarget(s, g) then Conserves(s.entries, s'.entries, PathsOf(g))
             else Cleans(s.entries, s'.entries, PathsOf(g))
    requires forall p :: p in PathsOf(g) && p.tombstone in s'.entries ==> p.tombstone in s.entries
    ensures HomeHidden(s'.entries, g) ==> HomeHidden(s.entries, g)
  {
    var p := PathsOf(g)[0];
    assert p in PathsOf(g);
    if HomeHidden(s'.entries, g) {
      if HasTarget(s, g) {
        assert OneSide(s.entries, p);
      } else {
        PathsDistinct(g);
        SourceClear(PathsOf(g), p);
        assert SameAt(s.entries, s'.entries, p.source);
      }
    }
  }

  lemma {:induction false} GuruTurnPending(record: Record, s: State, s': State, g: Journal)
    requires g.kind.Guru? && Turn(record, s, s') && Ours(record, g) && ValidJournal(g)
    requires HomeHidden(s.entries, g) ==> Pending(s, g.id)
    requires HomeHidden(s'.entries, g) ==> HomeHidden(s.entries, g)
    ensures HomeHidden(s'.entries, g) ==> Pending(s', g.id)
  {
    assert PathsOf(g)[0] in PathsOf(g);
    if HomeHidden(s'.entries, g) {
      assert s'.records == s.records;
    }
  }

  function Place(e: Entries, g: Journal): Path {
    if Home(g) in e then Home(g) else HiddenHome(g)
  }

  /** While its row stands, the Guru's turn loses and changes nothing inside the home. */
  lemma {:induction false} HomeSame(e: Entries, f: Entries, g: Journal)
    requires g.kind.Guru? && AllMendable(e, PathsOf(g)) && Conserves(e, f, PathsOf(g))
    ensures SameTree(e, Place(e, g), f, Place(f, g))
  {
    var p := PathsOf(g)[0];
    assert p in PathsOf(g) && SidesKept(e, f, p) && Mendable(e, p);
    SubEqual(e, Place(e, g), f, Place(f, g));
  }

  lemma {:induction false} ViewFromHome(e: Entries, f: Entries, j: Journal, g: Journal)
    requires ChatOf(j, g) && SameTree(e, Place(e, g), f, Place(f, g))
    ensures ViewSame(e, f, j, g)
  {
    forall p | p in PathsOf(j)
      ensures SameFor(View(e, g), View(f, g), p)
    {
      ChatPathsInHome(j, g);
      forall q | Prefix(p.source, q) || Prefix(p.tombstone, q)
        ensures SameAt(View(e, g), View(f, g), q)
      {
        PrefixThrough(Home(g), if Prefix(p.source, q) then p.source else p.tombstone, q);
        ViewFromPlace(e, f, g, q);
      }
    }
  }

  lemma {:induction false} ViewFromPlace(e: Entries, f: Entries, g: Journal, q: Path)
    requires ValidJournal(g) && Prefix(Home(g), q) && SameTree(e, Place(e, g), f, Place(f, g))
    ensures SameAt(View(e, g), View(f, g), q)
  {
    ViewAt(e, g, q);
    ViewAt(f, g, q);
    var s := q[2..];
    assert Home(g) + s == q;
    assert Seat(e, g, q) == Place(e, g) + s && Seat(f, g, q) == Place(f, g) + s;
    assert Place(e, g) + s in e <==> Place(f, g) + s in f;
  }

  /** The Chat's own turn: only with the home in its place can it remove the tombstones. */
  lemma {:induction false} ChatTurnNested(record: Record, s: State, s': State, t: Tracked, g: Journal)
    requires InOrder(s, t, g) && Turn(record, s, s') && Ours(record, t.journal) && record in s.records
    ensures InOrder(s', t, g)
    ensures HomeHidden(s'.entries, g) == HomeHidden(s.entries, g)
    ensures !Pending(s', t.journal.id) ==> (Lost(s', t, g) <==> OutOfSight(s, t, g))
  {
    var j := record.journal;
    var e, f := s.entries, s'.entries;
    assert ChatOf(j, g) && PathsOf(j) == PathsOf(t.journal);
    WithoutMember(s.records, record);
    PendingSame(s, s', g.id);
    ConservesOutside(e, f, PathsOf(j));
    OtherLeaves(s, s', j, g);
    GuruStillReconcilable(s, s', g);
    assert Pending(s, t.journal.id);
    if g.guru in s.gurus {
      assert PathsOf(g)[0] in PathsOf(g) && Mendable(e, PathsOf(g)[0]);
      GuruSameAt(e, f, g);
      if Home(g) in e {
        ChatTurnInSight(record, s, s', t);
      } else {
        ChatTurnOutOfSight(s, s', t, g);
      }
    } else {
      GuruSameAt(e, f, g);
    }
  }

  lemma {:induction false} ChatTurnInSight(record: Record, s: State, s': State, t: Tracked)
    requires Standing(s, t) && Inside(s.entries, t, HasTarget(s, t.journal)) && Turn(record, s, s')
    requires Ours(record, t.journal) && record in s.records
    ensures Standing(s', t) && Inside(s'.entries, t, HasTarget(s', t.journal))
    ensures !Pending(s', t.journal.id) ==> NoTombstones(s'.entries, t.journal)
  {
    assert Pending(s, t.journal.id);
    assert Protected(s, t);
    OwnTurn(record, s, s', t);
  }

  lemma {:induction false} ChatTurnOutOfSight(s: State, s': State, t: Tracked, g: Journal)
    requires ChatOf(t.journal, g) && Housed(s, t, g) && g.guru in s.gurus && Home(g) !in s.entries
    requires s.gurus == s'.gurus && s.chats == s'.chats && GuruSame(s.entries, s'.entries, g)
    ensures Housed(s', t, g)
    ensures NoTombstones(View(s.entries, g), t.journal) == NoTombstones(View(s'.entries, g), t.journal)
  {
    ChatPathsInHome(t.journal, g);
    GuruSameAt(s.entries, s'.entries, g);
    forall p | p in PathsOf(t.journal)
      ensures SameFor(View(s.entries, g), View(s'.entries, g), p)
    {
      SeatsSame(s.entries, s'.entries, g, p.source);
      SeatsSame(s.entries, s'.entries, g, p.tombstone);
    }
    SameSightHoused(s, s', t, g);
  }

  // ------------------------------------------------- one recovery over both

  /** No journal of this ID is among the first k. */
  predicate NotYet(records: seq<Record>, k: nat, id: string) {
    forall m | 0 <= m < k && m < |records| :: records[m].Id() != id
  }

  /** The Chat's journal comes before any journal of the Guru. */
  ghost predicate ChatFirst(records: seq<Record>, k: nat, t: Tracked, g: Journal) {
    exists m: nat :: m < k && m < |records| && records[m].Id() == t.journal.id && NotYet(records, m, g.id)
  }

  /** The journals of the first k are processed and the two deletions' own ones gone. */
  ghost predicate Remaining(s: State, records: seq<Record>, k: nat, t: Tracked, g: Journal) {
    && (forall r :: r in s.records ==> r in records)
    && (forall m :: k <= m < |records| ==> records[m] in s.records)
    && (forall m :: 0 <= m < k && m < |records| && records[m].Id() in {t.journal.id, g.id} ==> records[m] !in s.records)
  }

  lemma {:induction false} RemainingNext(record: Record, s: State, s': State, records: seq<Record>, k: nat, t: Tracked,
                                         g: Journal)
    requires UniqueKeys(records) && k < |records| && record == records[k] && Remaining(s, records, k, t, g)
    requires s'.records == s.records || s'.records == Without(s.records, record)
    requires record.Id() in {t.journal.id, g.id} ==> record !in s'.records
    ensures Remaining(s', records, k + 1, t, g)
  {
    WithoutMember(s.records, record);
    forall m | k + 1 <= m < |records|
      ensures records[m] in s'.records
    {
      assert DifferentKeys(records[k], records[m]);
    }
  }

  lemma {:induction false} ProcessedGone(s: State, records: seq<Record>, k: nat, t: Tracked, g: Journal, id: string)
    requires Remaining(s, records, k, t, g) && UniqueKeys(records) && k <= |records|
    requires id in {t.journal.id, g.id} && !(NotYet(records, k, id))
    ensures !Pending(s, id)
  {
    var m :| 0 <= m < k && records[m].Id() == id;
    forall r | r in s.records
      ensures r.Id() != id
    {
      var n :| 0 <= n < |records| && records[n] == r;
      assert n < m ==> DifferentKeys(records[n], records[m]);
      assert m < n ==> DifferentKeys(records[m], records[n]);
    }
  }

  /** The Chat's journal can always be worked off, in sight or not. */
  lemma {:induction false} ChatReconcilable(s: State, t: Tracked, g: Journal, record: Record)
    requires InOrder(s, t, g) && Ours(record, t.journal) && record in s.records
    ensures !Unusable(record) && Reconcilable(s, record.journal)
  {
    var e := s.entries;
    assert PathsOf(record.journal) == PathsOf(t.journal);
    assert Pending(s, t.journal.id);
    if Home(g) in e {
      assert Protected(s, t);
      ProtectedReconcilable(s, t, record);
    } else {
      HomeBare(e, g);
      ChatAbsent(e, t.journal, g);
    }
  }

  lemma {:induction false} GuruOursReconcilable(s: State, t: Tracked, g: Journal, record: Record)
    requires InOrder(s, t, g) && Ours(record, g)
    ensures !Unusable(record) && Reconcilable(s, record.journal)
  {
    assert PathsOf(record.journal) == PathsOf(g);
    assert HasTarget(s, record.journal) == HasTarget(s, g);
  }

  /** What is known after the first k turns. */
  ghost predicate Underway(s0: State, s: State, records: seq<Record>, k: nat, t: Tracked, g: Journal) {
    && InOrder(s, t, g) && Remaining(s, records, k, t, g) && s.gurus == s0.gurus
    && (g.guru in s.gurus ==> (HomeHidden(s.entries, g) <==> HomeHidden(s0.entries, g) && NotYet(records, k, g.id)))
    && (if NotYet(records, k, t.journal.id) then g.guru in s.gurus ==> TombstoneSeen(s, t, g) == TombstoneSeen(s0, t, g)
        else Lost(s, t, g) <==> OutOfSight(s0, t, g) && ChatFirst(records, k, t, g))
  }

  ghost predicate TombstoneSeen(s: State, t: Tracked, g: Journal) {
    !NoTombstones(View(s.entries, g), t.journal)
  }

  lemma {:induction false} NotYetNext(records: seq<Record>, k: nat, id: string)
    requires k < |records|
    ensures NotYet(records, k + 1, id) <==> NotYet(records, k, id) && records[k].Id() != id
  {
  }

  lemma {:induction false} ChatFirstNext(records: seq<Record>, k: nat, t: Tracked, g: Journal)
    requires k < |records|
    ensures ChatFirst(records, k + 1, t, g) <==>
            ChatFirst(records, k, t, g) || (records[k].Id() == t.journal.id && NotYet(records, k, g.id))
  {
    if ChatFirst(records, k, t, g) {
      var m: nat :| m < k && m < |records| && records[m].Id() == t.journal.id && NotYet(records, m, g.id);
      assert m < k + 1;
    }
  }

  /** Every other usable journal deletes something else. */
  ghost predicate OthersDiffer(records: seq<Record>, t: Tracked, g: Journal) {
    forall r :: r in records ==> OtherDeletion(r, t, g)
  }

  predicate OtherDeletion(record: Record, t: Tracked, g: Journal) {
    || record.Id() == t.journal.id || record.Id() == g.id || Unusable(record)
    || (!SameDeletion(record.journal, t.journal) && !SameDeletion(record.journal, g))
  }

  /** The journal of this deletion is stored. */
  ghost predicate Listed(records: seq<Record>, j: Journal) {
    exists m :: 0 <= m < |records| && Ours(records[m], j)
  }

  /** The keys of the journal table see to that while both journals are stored. */
  lemma {:induction false} KeysDiffer(records: seq<Record>, t: Tracked, g: Journal)
    requires UniqueKeys(records) && Listed(records, t.journal) && Listed(records, g)
    ensures OthersDiffer(records, t, g)
  {
    var m :| 0 <= m < |records| && Ours(records[m], t.journal);
    var n :| 0 <= n < |records| && Ours(records[n], g);
    forall k | 0 <= k < |records|
      ensures OtherDeletion(records[k], t, g)
    {
      KeysDifferAt(records, m, k, t.journal);
      KeysDifferAt(records, n, k, g);
    }
  }

  lemma {:induction false} KeysDifferAt(records: seq<Record>, m: nat, k: nat, j: Journal)
    requires UniqueKeys(records) && m < |records| && k < |records| && Ours(records[m], j)
    ensures records[k].Id() == j.id || records[k].Invalid? || !SameDeletion(records[k].journal, j)
  {
    if m < k {
      assert DifferentKeys(records[m], records[k]);
    } else if k < m {
      assert DifferentKeys(records[k], records[m]);
    }
  }

  ghost predicate BothCalm(plan: Plan, t: Tracked, g: Journal) {
    CalmIn(plan, t.journal.id) && CalmIn(plan, g.id)
  }

  lemma {:induction false} OtherUnderway(s0: State, s: State, s': State, records: seq<Record>, k: nat, t: Tracked,
                                         g: Journal)
    requires k < |records| && UniqueKeys(records) && Underway(s0, s, records, k, t, g) && Turn(records[k], s, s')
    requires records[k].Id() != t.journal.id && records[k].Id() != g.id && OtherDeletion(records[k], t, g)
    ensures Underway(s0, s', records, k + 1, t, g)
  {
    RemainingNext(records[k], s, s', records, k, t, g);
    OtherTurnNested(records[k], s, s', t, g);
    NotYetNext(records, k, t.journal.id);
    NotYetNext(records, k, g.id);
    ChatFirstNext(records, k, t, g);
  }

  lemma {:induction false} GuruUnderway(s0: State, s: State, s': State, records: seq<Record>, k: nat, t: Tracked,
                                        g: Journal)
    requires k < |records| && UniqueKeys(records) && Underway(s0, s, records, k, t, g) && Turn(records[k], s, s')
    requires Ours(records[k], g) && records[k] !in s'.records
    ensures Underway(s0, s', records, k + 1, t, g)
  {
    RemainingNext(records[k], s, s', records, k, t, g);
    GuruTurnNested(records[k], s, s', t, g);
    NotYetNext(records, k, t.journal.id);
    NotYetNext(records, k, g.id);
    ChatFirstNext(records, k, t, g);
    ProcessedGone(s', records, k + 1, t, g, g.id);
  }

  lemma {:induction false} ChatUnderway(s0: State, s: State, s': State, records: seq<Record>, k: nat, t: Tracked,
                                        g: Journal)
    requires k < |records| && UniqueKeys(records) && Underway(s0, s, records, k, t, g) && Turn(records[k], s, s')
    requires Ours(records[k], t.journal) && records[k] in s.records && records[k] !in s'.records
    ensures Underway(s0, s', records, k + 1, t, g)
  {
    RemainingNext(records[k], s, s', records, k, t, g);
    ChatTurnNested(records[k], s, s', t, g);
    NotYetNext(records, k, t.journal.id);
    NotYetNext(records, k, g.id);
    ChatFirstNext(records, k, t, g);
    ProcessedGone(s', records, k + 1, t, g, t.journal.id);
    ChatOnce(s, records, k, t, g);
  }

  /** The Chat's journal is met once. */
  lemma {:induction false} ChatOnce(s: State, records: seq<Record>, k: nat, t: Tracked, g: Journal)
    requires k < |records| && UniqueKeys(records) && records[k].Id() == t.journal.id
    ensures NotYet(records, k, t.journal.id) && !ChatFirst(records, k, t, g)
  {
    forall m | 0 <= m < k
      ensures records[m].Id() != t.journal.id
    {
      assert DifferentKeys(records[m], records[k]);
    }
  }

  lemma {:induction false} TurnUnderway(plan: Plan, s0: State, s: State, s': State, records: seq<Record>, k: nat,
                                        t: Tracked, g: Journal)
    requires k < |records| && UniqueKeys(records) && Underway(s0, s, records, k, t, g) && OthersDiffer(records, t, g)
    requires Stepped(plan, records[k], s, s') && BothCalm(plan, t, g)
    ensures Underway(s0, s', records, k + 1, t, g)
  {
    var record := records[k];
    assert record in s.records;
    if record.Id() == t.journal.id {
      ChatReconcilable(s, t, g, record);
      ChatUnderway(s0, s, s', records, k, t, g);
    } else if record.Id() == g.id {
      GuruOursReconcilable(s, t, g, record);
      GuruUnderway(s0, s, s', records, k, t, g);
    } else {
      OtherUnderway(s0, s, s', records, k, t, g);
    }
  }

  lemma {:induction false} TraceUnderway(plan: Plan, records: seq<Record>, trace: seq<State>, s0: State, last: State,
                                         k: nat, t: Tracked, g: Journal)
    requires Traced(plan, records, trace, |records|, s0, last) && k <= |records|
    requires UniqueKeys(records) && OthersDiffer(records, t, g) && BothCalm(plan, t, g)
    requires InOrder(s0, t, g) && s0.records == records
    ensures Underway(s0, trace[k], records, k, t, g)
  {
    if k > 0 {
      TraceUnderway(plan, records, trace, s0, last, k - 1, t, g);
      TurnUnderway(plan, s0, trace[k - 1], trace[k], records, k - 1, t, g);
    }
  }

  /** With the home in its place and the journal gone, the Chat is settled unless it is lost. */
  lemma {:induction false} SettledUnlessLost(s: State, t: Tracked, g: Journal)
    requires InOrder(s, t, g) && !Pending(s, t.journal.id) && !HomeHidden(s.entries, g)
    ensures Settled(s, t) <==> !Lost(s, t, g)
  {
    var e, row := s.entries, HasTarget(s, t.journal);
    ResolvedDone(s, t);
    if g.guru in s.gurus {
      assert PathsOf(g)[0] in PathsOf(g) && Mendable(e, PathsOf(g)[0]);
      assert View(e, g) == e;
      if NoTombstones(e, t.journal) {
        SafeResolves(e, t, row);
      } else {
        var p :| p in PathsOf(t.journal) && p.tombstone in e;
        assert Prefix(p.tombstone, p.tombstone);
        assert !Resolved(e, t, p, row);
      }
    } else {
      HomeBare(e, g);
      ChatAbsent(e, t.journal, g);
    }
  }

  /**
   A recovery in which no call for the two journals fails settles the Chat
   unless it was lost before, or its tombstone stands inside the hidden home of
   a standing Guru and its journal comes first. No other journal matters.
   */
  lemma {:induction false} NestedSettled(plan: Plan, records: seq<Record>, trace: seq<State>, s0: State, last: State,
                                         t: Tracked, g: Journal)
    requires Traced(plan, records, trace, |records|, s0, last) && s0.records == records && UniqueKeys(records)
    requires OthersDiffer(records, t, g) && BothCalm(plan, t, g) && InOrder(s0, t, g)
    ensures Settled(last, t) <==> !Lost(s0, t, g) && !(OutOfSight(s0, t, g) && ChatFirst(records, |records|, t, g))
    ensures InOrder(last, t, g) && !HomeHidden(last.entries, g) && !Pending(last, t.journal.id)
    ensures Settled(last, t) || Lost(last, t, g)
  {
    TraceUnderway(plan, records, trace, s0, last, |records|, t, g);
    NotPendingAfter(last, records, t, g, t.journal.id);
    NotPendingAfter(last, records, t, g, g.id);
    SettledUnlessLost(last, t, g);
    if NotYet(records, |records|, t.journal.id) {
      assert !Pending(s0, t.journal.id) && !ChatFirst(records, |records|, t, g);
    } else {
      assert Pending(s0, t.journal.id);
    }
  }

  lemma {:induction false} NotPendingAfter(last: State, records: seq<Record>, t: Tracked, g: Journal, id: string)
    requires Remaining(last, records, |records|, t, g) && UniqueKeys(records) && id in {t.journal.id, g.id}
    ensures !Pending(last, id)
  {
    if !NotYet(records, |records|, id) {
      ProcessedGone(last, records, |records|, t, g, id);
    }
  }

  // ------------------------------------------- recoveries that fail anywhere

  /**
   One turn under any failures: it keeps both deletions in order, and the Chat
   is lost exactly by removing its journal while the tombstone is out of sight.
   */
  lemma {:induction false} TurnLoses(record: Record, s: State, s': State, t: Tracked, g: Journal)
    requires InOrder(s, t, g) && Turn(record, s, s') && OtherDeletion(record, t, g) && record in s.records
    ensures InOrder(s', t, g)
    ensures Lost(s', t, g) <==>
            Lost(s, t, g) || (OutOfSight(s, t, g) && Pending(s, t.journal.id) && !Pending(s', t.journal.id))
  {
    if record.Id() == t.journal.id {
      assert Pending(s, t.journal.id);
      ChatTurnNested(record, s, s', t, g);
    } else if record.Id() == g.id {
      GuruTurnNested(record, s, s', t, g);
    } else {
      OtherTurnNested(record, s, s', t, g);
    }
  }

  /** The journals from k on are still stored, and no new ones are. */
  ghost predicate Unprocessed(s: State, records: seq<Record>, k: nat) {
    (forall r :: r in s.records ==> r in records) && (forall m :: k <= m < |records| ==> records[m] in s.records)
  }

  lemma {:induction false} UnprocessedNext(s: State, s': State, records: seq<Record>, k: nat)
    requires UniqueKeys(records) && k < |records| && Unprocessed(s, records, k) && UniqueKeys(s.records)
    requires s'.records == s.records || s'.records == Without(s.records, records[k])
    ensures Unprocessed(s', records, k + 1) && UniqueKeys(s'.records)
  {
    WithoutMember(s.records, records[k]);
    KeysWithout(s.records, records[k]);
    forall m | k + 1 <= m < |records|
      ensures records[m] in s'.records
    {
      assert DifferentKeys(records[k], records[m]);
    }
  }

  /** A recovery that fails or crashes anywhere leaves both deletions in order. */
  lemma {:induction false} WalkNested(records: seq<Record>, trace: seq<State>, s0: State, last: State, k: nat,
                                      t: Tracked, g: Journal)
    requires Walked(records, trace, s0, last) && k < |trace|
    requires InOrder(s0, t, g) && s0.records == records && UniqueKeys(records) && OthersDiffer(records, t, g)
    ensures InOrder(trace[k], t, g) && Unprocessed(trace[k], records, k) && UniqueKeys(trace[k].records)
  {
    if k > 0 {
      WalkNested(records, trace, s0, last, k - 1, t, g);
      assert records[k - 1] in trace[k - 1].records && OtherDeletion(records[k - 1], t, g);
      TurnLoses(records[k - 1], trace[k - 1], trace[k], t, g);
      UnprocessedNext(trace[k - 1], trace[k], records, k - 1);
    }
  }

  // --------------------------------------- the Guru's deletion, Chat pending

  /** Deleting the Guru under any failures leaves a pending deletion of its Chat in order. */
  lemma {:induction false} GuruDeletionNests(s: State, s': State, t: Tracked, tg: Tracked, target: Target)
    requires ChatOf(t.journal, tg.journal) && t.journal.id != tg.journal.id && !SameDeletion(t.journal, tg.journal)
    requires Protected(s, t) && Protected(s', tg) && tg.origins == s.entries
    requires HasTarget(s, tg.journal) && Home(tg.journal) in s.entries
    requires Deletes(target, tg.journal) && Confined(s, s', tg.journal) && RowsKept(s, s', target)
    ensures InOrder(s', t, tg.journal)
  {
    var g := tg.journal;
    var p := PathsOf(g)[0];
    assert p in PathsOf(g);
    GuruReady(s', tg);
    if HasTarget(s', g) {
      HomeKept(s.entries, s'.entries, t.journal, tg);
      SameForSafe(View(s.entries, g), View(s'.entries, g), t, HasTarget(s, t.journal));
    } else {
      assert Dropped(s'.entries, tg, p);
    }
  }

  /** Wherever the Guru's deletion has put the home, the Chat's entries are in it. */
  lemma {:induction false} HomeKept(e: Entries, f: Entries, j: Journal, tg: Tracked)
    requires ChatOf(j, tg.journal) && tg.origins == e && Home(tg.journal) in e && EntriesSafe(f, tg, true)
    ensures ViewSame(e, f, j, tg.journal)
  {
    var g := tg.journal;
    var p := PathsOf(g)[0];
    assert p in PathsOf(g) && Kept(f, tg, p);
    SubEqual(e, Place(e, g), f, Place(f, g));
    ViewFromHome(e, f, j, g);
  }

  lemma {:induction false} GuruReady(s: State, tg: Tracked)
    requires Protected(s, tg) && tg.journal.kind.Guru?
    ensures Reconcilable(s, tg.journal) && Tidy(s.entries, Touched(PathsOf(tg.journal)))
    ensures HomeHidden(s.entries, tg.journal) ==> Pending(s, tg.journal.id)
  {
    var record := Valid(tg.journal);
    ProtectedReconcilable(s, tg, record);
    assert PathsOf(tg.journal)[0] in PathsOf(tg.journal);
  }
}
