/**
 What a deletion promises at every moment, crashes included: while the row
 stands every original entry is whole on exactly one side; once the row is gone
 no original is live; without a journal no tombstone is left.
 */
module Protection {
  import opened Journals
  import opened Storage
  import opened World
  import opened Wrappers

  /** The durable state, as one value. */
  datatype State = State(records: seq<Record>, gurus: map<string, string>, chats: map<string, ChatRow>,
                         entries: Entries)

  ghost function Now(w: World): State
    reads w`records, w`gurus, w`chats, w`entries
  {
    State(w.records, w.gurus, w.chats, w.entries)
  }

  /** A deletion and the entries as they stood when it began. */
  datatype Tracked = Tracked(journal: Journal, origins: Entries)

  predicate HasTarget(s: State, j: Journal) {
    match j.kind
    case Chat => j.target in s.chats && s.chats[j.target].guru == j.guru
    case Guru => j.guru in s.gurus
  }

  predicate Pending(s: State, id: string) {
    exists r :: r in s.records && r.Id() == id
  }

  /** Everything that stood at the path when the deletion began. */
  function Origin(t: Tracked, p: DeletionPath): Option<Entries> {
    if p.source in t.origins then Some(Sub(t.origins, p.source)) else None
  }

  predicate Fits(t: Tracked, p: DeletionPath) {
    && (p.required ==> p.source in t.origins)
    && (p.expected.Some? && p.source in t.origins ==> t.origins[p.source].identity == p.expected)
  }

  predicate Kept(e: Entries, t: Tracked, p: DeletionPath) {
    OneSide(e, p) && Held(e, p) == Origin(t, p)
  }

  predicate Dropped(e: Entries, t: Tracked, p: DeletionPath) {
    && p.source !in e
    && (p.tombstone in e ==> p.source in t.origins && e[p.tombstone].identity == t.origins[p.source].identity)
  }

  predicate Ours(r: Record, j: Journal) {
    r == Valid(j) || r == Valid(AsDetached(j))
  }

  /** The setting: a valid journal, matching identities, and no other row in its place. */
  ghost predicate Standing(s: State, t: Tracked) {
    && ValidJournal(t.journal)
    && (forall p :: p in PathsOf(t.journal) ==> Fits(t, p))
    && (forall r :: r in s.records && r.Id() == t.journal.id ==> Ours(r, t.journal))
    && (t.journal.kind.Chat? && t.journal.target in s.chats ==> s.chats[t.journal.target].guru == t.journal.guru)
  }

  ghost predicate EntriesSafe(e: Entries, t: Tracked, row: bool) {
    forall p :: p in PathsOf(t.journal) ==> if row then Kept(e, t, p) else Dropped(e, t, p)
  }

  predicate NoTombstones(e: Entries, j: Journal) {
    forall p | p in PathsOf(j) :: p.tombstone !in e
  }

  predicate NothingLive(e: Entries, j: Journal) {
    forall p | p in PathsOf(j) :: p.source !in e
  }

  ghost predicate Protected(s: State, t: Tracked) {
    && Standing(s, t) && Tidy(s.entries, Touched(PathsOf(t.journal)))
    && EntriesSafe(s.entries, t, HasTarget(s, t.journal))
    && (Pending(s, t.journal.id) || NoTombstones(s.entries, t.journal))
  }

  /** What stood at the path is back in full, or gone in full. */
  ghost predicate Resolved(e: Entries, t: Tracked, p: DeletionPath, row: bool) {
    && Bare(e, p.tombstone)
    && if row && p.source in t.origins then Sub(e, p.source) == Sub(t.origins, p.source) else Bare(e, p.source)
  }

  // ------------------------------------------- what is deleted, spelled out

  /** What stood here is back in full if the row stands, and gone in full otherwise. */
  ghost predicate EntryDone(e: Entries, origins: Entries, live: Path, hidden: Path, row: bool) {
    && Bare(e, hidden)
    && if row && live in origins then Sub(e, live) == Sub(origins, live) else Bare(e, live)
  }

  /** The three places where a Chat keeps its files. */
  ghost predicate ChatDone(e: Entries, origins: Entries, guru: string, id: string, row: bool) {
    var hidden := ".deleting-" + id;
    && EntryDone(e, origins, ["gurus", guru, "pi-sessions", id], ["gurus", guru, "pi-sessions", hidden], row)
    && EntryDone(e, origins, ["gurus", guru, "pi-runtime", id], ["gurus", guru, "pi-runtime", hidden], row)
    && EntryDone(e, origins, ["gurus", guru, "workbench", "attachments", id],
                 ["gurus", guru, "workbench", "attachments", hidden], row)
  }

  /** The two places where a Guru keeps its files. */
  ghost predicate GuruDone(e: Entries, origins: Entries, id: string, row: bool) {
    && EntryDone(e, origins, ["gurus", id], ["gurus", ".deleting-" + id], row)
    && EntryDone(e, origins, ["runs", id], ["runs", ".deleting-" + id], row)
  }

  ghost predicate Below(q: Path, parent: Path, id: string) {
    Prefix(parent + [id], q) || Prefix(parent + [".deleting-" + id], q)
  }

  ghost predicate ChatOwns(guru: string, id: string, q: Path) {
    || Below(q, ["gurus", guru, "pi-sessions"], id) || Below(q, ["gurus", guru, "pi-runtime"], id)
    || Below(q, ["gurus", guru, "workbench", "attachments"], id)
  }

  ghost predicate GuruOwns(id: string, q: Path) {
    Below(q, ["gurus"], id) || Below(q, ["runs"], id)
  }

  /** Every file of the target is restored or removed, as its row stands or not. */
  ghost predicate Done(s: State, t: Tracked) {
    var j := t.journal;
    match j.kind
    case Chat =>
      ChatDone(s.entries, t.origins, j.guru, j.target, j.target in s.chats && s.chats[j.target].guru == j.guru)
    case Guru => GuruDone(s.entries, t.origins, j.guru, j.guru in s.gurus)
  }

  lemma {:induction false} ChatPaths(j: Journal)
    requires j.kind.Chat?
    ensures var paths, hidden := PathsOf(j), ".deleting-" + j.target;
            && |paths| == 3 && paths[0] in paths && paths[1] in paths && paths[2] in paths
            && paths[0].source == ["gurus", j.guru, "pi-sessions", j.target]
            && paths[0].tombstone == ["gurus", j.guru, "pi-sessions", hidden]
            && paths[1].source == ["gurus", j.guru, "pi-runtime", j.target]
            && paths[1].tombstone == ["gurus", j.guru, "pi-runtime", hidden]
            && paths[2].source == ["gurus", j.guru, "workbench", "attachments", j.target]
            && paths[2].tombstone == ["gurus", j.guru, "workbench", "attachments", hidden]
  {
  }

  lemma {:induction false} ResolvedEntry(e: Entries, t: Tracked, p: DeletionPath, row: bool)
    ensures Resolved(e, t, p, row) <==> EntryDone(e, t.origins, p.source, p.tombstone, row)
  {
  }

  /** The entries a journal lists are the files of its target. */
  lemma {:induction false} ResolvedDone(s: State, t: Tracked)
    ensures Done(s, t) <==> forall p :: p in PathsOf(t.journal) ==> Resolved(s.entries, t, p, HasTarget(s, t.journal))
  {
    var paths, row := PathsOf(t.journal), HasTarget(s, t.journal);
    assert paths[0] in paths && paths[1] in paths;
    ResolvedEntry(s.entries, t, paths[0], row);
    ResolvedEntry(s.entries, t, paths[1], row);
    if t.journal.kind.Chat? {
      ChatPaths(t.journal);
      ResolvedEntry(s.entries, t, paths[2], row);
      assert forall p :: p in paths ==> p == paths[0] || p == paths[1] || p == paths[2];
    } else {
      assert forall p :: p in paths ==> p == paths[0] || p == paths[1];
    }
  }

  /** Restored in full or deleted in full, with no journal left. */
  ghost predicate Settled(s: State, t: Tracked) {
    !Pending(s, t.journal.id) && Done(s, t)
  }

  /** A deletion touches no file that is not its target's. */
  lemma {:induction false} OthersUntouched(e: Entries, f: Entries, j: Journal)
    requires Outside(e, f, Touched(PathsOf(j)))
    ensures forall q :: SameAt(e, f, q) || if j.kind.Chat? then ChatOwns(j.guru, j.target, q) else GuruOwns(j.guru, q)
  {
    forall q | !SameAt(e, f, q)
      ensures if j.kind.Chat? then ChatOwns(j.guru, j.target, q) else GuruOwns(j.guru, q)
    {
      assert !Clear(q, Touched(PathsOf(j)));
      var r :| r in Touched(PathsOf(j)) && Prefix(r, q);
      var p :| p in PathsOf(j) && (r == p.source || r == p.tombstone);
    }
  }

  /** Safe entries without tombstones are resolved. */
  lemma {:induction false} SafeResolves(e: Entries, t: Tracked, row: bool)
    requires EntriesSafe(e, t, row) && Tidy(e, Touched(PathsOf(t.journal))) && NoTombstones(e, t.journal)
    ensures forall p :: p in PathsOf(t.journal) ==> Resolved(e, t, p, row)
  {
    forall p | p in PathsOf(t.journal)
      ensures Resolved(e, t, p, row)
    {
      assert if row then Kept(e, t, p) else Dropped(e, t, p);
      assert p.source in Touched(PathsOf(t.journal)) && p.tombstone in Touched(PathsOf(t.journal));
      TidyBare(e, Touched(PathsOf(t.journal)), p.tombstone);
      if p.source !in e {
        TidyBare(e, Touched(PathsOf(t.journal)), p.source);
      }
    }
  }

  /** Once its journal is gone, a protected deletion is settled. */
  lemma {:induction false} ProtectedSettles(s: State, t: Tracked)
    requires Protected(s, t) && !Pending(s, t.journal.id)
    ensures Settled(s, t)
  {
    SafeResolves(s.entries, t, HasTarget(s, t.journal));
    ResolvedDone(s, t);
  }

  /** While the row stands all of it is on exactly one side; afterwards none of it is live. */
  ghost predicate EntrySafe(e: Entries, origins: Entries, live: Path, hidden: Path, row: bool) {
    if !row then Bare(e, live)
    else if live !in origins then Bare(e, live) && Bare(e, hidden)
    else
      || (Sub(e, live) == Sub(origins, live) && Bare(e, hidden))
      || (Bare(e, live) && Sub(e, hidden) == Sub(origins, live))
  }

  ghost predicate ChatSafe(e: Entries, origins: Entries, guru: string, id: string, row: bool) {
    var hidden := ".deleting-" + id;
    && EntrySafe(e, origins, ["gurus", guru, "pi-sessions", id], ["gurus", guru, "pi-sessions", hidden], row)
    && EntrySafe(e, origins, ["gurus", guru, "pi-runtime", id], ["gurus", guru, "pi-runtime", hidden], row)
    && EntrySafe(e, origins, ["gurus", guru, "workbench", "attachments", id],
                 ["gurus", guru, "workbench", "attachments", hidden], row)
  }

  ghost predicate GuruSafe(e: Entries, origins: Entries, id: string, row: bool) {
    && EntrySafe(e, origins, ["gurus", id], ["gurus", ".deleting-" + id], row)
    && EntrySafe(e, origins, ["runs", id], ["runs", ".deleting-" + id], row)
  }

  lemma {:induction false} PathSafe(s: State, t: Tracked, p: DeletionPath)
    requires Protected(s, t) && p in PathsOf(t.journal)
    ensures EntrySafe(s.entries, t.origins, p.source, p.tombstone, HasTarget(s, t.journal))
  {
    var e, touched := s.entries, Touched(PathsOf(t.journal));
    assert p.source in touched && p.tombstone in touched;
    assert if HasTarget(s, t.journal) then Kept(e, t, p) else Dropped(e, t, p);
    if p.source !in e {
      TidyBare(e, touched, p.source);
    }
    if p.tombstone !in e {
      TidyBare(e, touched, p.tombstone);
    }
  }

  /** The promise of a protected deletion, for every file of its target. */
  lemma {:induction false} ProtectedFiles(s: State, t: Tracked)
    requires Protected(s, t)
    ensures var j := t.journal;
            match j.kind
            case Chat =>
              ChatSafe(s.entries, t.origins, j.guru, j.target, j.target in s.chats && s.chats[j.target].guru == j.guru)
            case Guru => GuruSafe(s.entries, t.origins, j.guru, j.guru in s.gurus)
  {
    var paths := PathsOf(t.journal);
    assert paths[0] in paths && paths[1] in paths;
    PathSafe(s, t, paths[0]);
    PathSafe(s, t, paths[1]);
    if t.journal.kind.Chat? {
      ChatPaths(t.journal);
      PathSafe(s, t, paths[2]);
    }
  }

  // ------------------------------------------------ what keeps entries safe

  ghost predicate AllAbsent(e: Entries, j: Journal) {
    forall p :: p in PathsOf(j) ==> p.source !in e && p.tombstone !in e
  }

  lemma {:induction false} ConservingIsSafe(e: Entries, f: Entries, t: Tracked, row: bool)
    requires EntriesSafe(e, t, row) && Conserves(e, f, PathsOf(t.journal))
    requires row || AllAbsent(e, t.journal)
    ensures EntriesSafe(f, t, row)
    ensures !row ==> AllAbsent(f, t.journal)
  {
    forall p | p in PathsOf(t.journal)
      ensures if row then Kept(f, t, p) else p.source !in f && p.tombstone !in f
    {
      assert OneSide(e, p);
      assert OneSide(f, p) && Held(f, p) == Held(e, p);
    }
  }

  /** Losing the row is safe once nothing is live. */
  lemma {:induction false} RowMayGo(e: Entries, t: Tracked)
    requires EntriesSafe(e, t, true)
    requires NothingLive(e, t.journal)
    ensures EntriesSafe(e, t, false)
  {
    forall p | p in PathsOf(t.journal)
      ensures Dropped(e, t, p)
    {
      assert Kept(e, t, p);
      KeptEntry(e, t, p);
    }
  }

  lemma {:induction false} CleaningIsSafe(e: Entries, f: Entries, t: Tracked)
    requires ValidJournal(t.journal)
    requires EntriesSafe(e, t, false) && Cleans(e, f, PathsOf(t.journal))
    ensures EntriesSafe(f, t, false)
  {
    var paths := PathsOf(t.journal);
    PathsDistinct(t.journal);
    forall p | p in paths
      ensures Dropped(f, t, p)
    {
      assert Dropped(e, t, p);
      SourceClear(paths, p);
      assert SameAt(e, f, p.source);
    }
  }

  lemma {:induction false} SourceClear(paths: seq<DeletionPath>, p: DeletionPath)
    requires Distinct(paths) && p in paths
    ensures Clear(p.source, Tombstones(paths))
  {
    var i :| 0 <= i < |paths| && paths[i] == p;
    forall q | q in paths
      ensures !Prefix(q.tombstone, p.source)
    {
      var k :| 0 <= k < |paths| && paths[k] == q;
      assert k != i ==> Separate(paths[i], paths[k]);
    }
  }

  /** While the row stands, everything a rollback needs is there. */
  lemma {:induction false} KeptIsMendable(e: Entries, t: Tracked)
    requires EntriesSafe(e, t, true)
    requires forall p :: p in PathsOf(t.journal) ==> Fits(t, p)
    ensures forall p :: p in PathsOf(t.journal) ==>
              OneSide(e, p) && (p.required ==> Held(e, p).Some?) &&
              (p.expected.Some? && HeldEntry(e, p).Some? ==> HeldEntry(e, p).value.identity == p.expected)
  {
    forall p | p in PathsOf(t.journal)
      ensures OneSide(e, p) && Held(e, p) == Origin(t, p) && Fits(t, p)
      ensures HeldEntry(e, p) == if p.source in t.origins then Some(t.origins[p.source]) else None
    {
      assert Kept(e, t, p);
      KeptEntry(e, t, p);
    }
  }

  /** The entry that stands at the path is the one that stood there. */
  lemma {:induction false} KeptEntry(e: Entries, t: Tracked, p: DeletionPath)
    requires Kept(e, t, p)
    ensures HeldEntry(e, p) == if p.source in t.origins then Some(t.origins[p.source]) else None
  {
    HeldRoot(e, p);
    SubAt(t.origins, p.source, []);
    assert p.source + [] == p.source;
  }

  // --------------------------------------------------- other deletions' work

  lemma {:induction false} BelowClear(touched: set<Path>, root: Path)
    requires forall r :: r in touched ==> Apart(r, root)
    ensures forall q :: Prefix(root, q) ==> Clear(q, touched)
  {
    forall q, r | Prefix(root, q) && r in touched
      ensures !Prefix(r, q)
    {
      if Prefix(r, q) {
        CommonBelow(r, root, q);
      }
    }
  }

  /** Work on entries apart from these leaves all of them as they were. */
  lemma {:induction false} ApartStays(e: Entries, f: Entries, touched: set<Path>, p: DeletionPath)
    requires Outside(e, f, touched)
    requires forall r :: r in touched ==> Apart(r, p.source) && Apart(r, p.tombstone)
    ensures SameFor(e, f, p)
  {
    BelowClear(touched, p.source);
    BelowClear(touched, p.tombstone);
  }

  lemma {:induction false} OthersSame(e: Entries, f: Entries, j: Journal, k: Journal)
    requires Outside(e, f, Touched(PathsOf(j))) && JournalsApart(j, k)
    ensures forall p :: p in PathsOf(k) ==> SameFor(e, f, p)
  {
    forall p | p in PathsOf(k)
      ensures SameFor(e, f, p)
    {
      assert p.source in Touched(PathsOf(k)) && p.tombstone in Touched(PathsOf(k));
      ApartStays(e, f, Touched(PathsOf(j)), p);
    }
  }

  lemma {:induction false} SameForSafe(e: Entries, f: Entries, t: Tracked, row: bool)
    requires forall p :: p in PathsOf(t.journal) ==> SameFor(e, f, p)
    ensures EntriesSafe(e, t, row) ==> EntriesSafe(f, t, row)
    ensures NoTombstones(e, t.journal) == NoTombstones(f, t.journal)
    ensures Tidy(e, Touched(PathsOf(t.journal))) ==> Tidy(f, Touched(PathsOf(t.journal)))
  {
    forall p | p in PathsOf(t.journal)
      ensures SameAt(e, f, p.source) && SameAt(e, f, p.tombstone)
      ensures OneSide(e, p) == OneSide(f, p) && Held(e, p) == Held(f, p)
    {
      SameForAt(e, f, p);
      SameForSides(e, f, p);
    }
    forall r, q | Tidy(e, Touched(PathsOf(t.journal))) && r in Touched(PathsOf(t.journal)) && q in f && Prefix(r, q)
      ensures r in f
    {
      var p :| p in PathsOf(t.journal) && (r == p.source || r == p.tombstone);
      assert SameBelow(e, f, r);
      assert SameAt(e, f, q);
    }
  }

  /** Work confined to other entries, records and rows leaves a deletion as it was. */
  lemma {:induction false} ElsewhereProtects(s: State, s': State, j: Journal, t: Tracked)
    requires Protected(s, t) && JournalsApart(j, t.journal)
    requires Outside(s.entries, s'.entries, Touched(PathsOf(j)))
    requires forall r: Record :: r.Id() == t.journal.id ==> (r in s'.records <==> r in s.records)
    requires HasTarget(s, t.journal) == HasTarget(s', t.journal)
    requires t.journal.kind.Chat? && t.journal.target in s'.chats ==> s'.chats[t.journal.target].guru == t.journal.guru
    ensures Protected(s', t)
    ensures Pending(s', t.journal.id) == Pending(s, t.journal.id)
  {
    OthersSame(s.entries, s'.entries, j, t.journal);
    SameForSafe(s.entries, s'.entries, t, HasTarget(s, t.journal));
    if r :| r in s.records && r.Id() == t.journal.id {
      assert r in s'.records;
    }
    if r :| r in s'.records && r.Id() == t.journal.id {
      assert r in s.records;
    }
  }
}
