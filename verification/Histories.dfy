/**
 The entry points of deletion, and whole histories: a deletion, any number of
 restarts with arbitrary failures and crashes, and one restart without failures
 (apps/guruterminal/src-tauri/src/deletion.rs:27-81, 131-220).
 */
module Histories {
  import opened Journals
  import opened Protection
  import opened Recovery
  import opened Startup
  import opened Storage
  import opened World
  import opened Wrappers

  function ChatJournal(id: string, guru: string, at: int): Journal {
    Journal("delete-chat-" + id, Chat, guru, id, None, Prepared, at, at)
  }

  function GuruJournal(id: string, identity: Identity, at: int): Journal {
    Journal("delete-guru-" + id, Guru, id, id, Some(identity), Prepared, at, at)
  }

  lemma {:induction false} PrefixedIdentifier(prefix: string, id: string)
    requires IsIdentifier(prefix)
    ensures IsIdentifier(id) ==> IsIdentifier(prefix + id)
  {
  }

  /** A deletion can be journalled exactly for names of letters, digits, hyphens and underscores, from time 0 on. */
  lemma {:induction false} JournalsValid(id: string, guru: string, identity: Identity, at: int)
    ensures ValidJournal(ChatJournal(id, guru, at)) <==> at >= 0 && Plain(id) && Plain(guru)
    ensures ValidJournal(GuruJournal(id, identity, at)) <==> at >= 0 && Plain(id)
  {
    IdentifierMeaning(id);
    IdentifierMeaning(guru);
    IdentifierMeaning("delete-chat-");
    IdentifierMeaning("delete-guru-");
    PrefixedIdentifier("delete-chat-", id);
    PrefixedIdentifier("delete-guru-", id);
  }

  predicate Plain(name: string) {
    name != "" && forall c | c in name :: IdentifierCharacter(c)
  }

  /** No earlier deletion of this target left a journal or a tombstone. */
  ghost predicate Fresh(s: State, j: Journal) {
    !Pending(s, j.id) && NoTombstones(s.entries, j) && HasTarget(s, j) && Tidy(s.entries, Touched(PathsOf(j)))
  }

  lemma {:induction false} FreshProtected(s: State, t: Tracked)
    requires ValidJournal(t.journal) && Fresh(s, t.journal) && t.origins == s.entries
    requires t.journal.kind.Guru? ==> PathsOf(t.journal)[0].source in s.entries &&
                                      s.entries[PathsOf(t.journal)[0].source].identity == t.journal.expected
    ensures Protected(s, t)
  {
    forall p | p in PathsOf(t.journal)
      ensures Fits(t, p) && Kept(s.entries, t, p)
    {
    }
  }

  /** `delete_chat`. */
  method DeleteChat(w: World, id: string, guru: string, data: string, at: int)
    returns (r: Result<(), Error>, ghost t: Tracked)
    requires Fresh(Now(w), ChatJournal(id, guru, at))
    modifies w`records, w`gurus, w`chats, w`entries, w`scope, w`step, w`crashed
    ensures t == Tracked(Journal("delete-chat-" + id, Chat, guru, id, None, Prepared, at, at), old(w.entries))
    ensures ValidJournal(t.journal) ==> Protected(Now(w), t)
    ensures r.Ok? ==> id !in w.chats && Settled(Now(w), t)
    ensures r.Ok? ==> ChatDone(w.entries, old(w.entries), guru, id, false)
    ensures r.Ok? ==> old(w.chats)[id] == ChatRow(guru, data)
    ensures forall q :: SameAt(old(w.entries), w.entries, q) || ChatOwns(guru, id, q)
    ensures w.gurus == old(w.gurus)
    ensures forall chat :: chat != id ==>
              (chat in w.chats <==> chat in old(w.chats)) && (chat in w.chats ==> w.chats[chat] == old(w.chats)[chat])
    ensures !ValidJournal(t.journal) ==> Now(w) == old(Now(w))
  {
    var j := ChatJournal(id, guru, at);
    t := Tracked(j, w.entries);
    if ValidJournal(j) {
      FreshProtected(Now(w), t);
    }
    w.Enter(j.id);
    r := ExecuteDeletion(w, j, ChatTarget(id, guru, data), t);
    OthersUntouched(old(w.entries), w.entries, j);
  }

  /** The sealed identity is the one observed, and the entry is a directory. */
  predicate SealIntact(e: Entries, id: string, sealed: Option<Identity>) {
    && sealed.Some? && ["gurus", id] in e && ["gurus", id, "workspace"] in e
    && e[["gurus", id, "workspace"]].identity == sealed && e[["gurus", id]].identity.Some?
  }

  /** The checks of `delete_guru` before anything is renamed; the home's identity. */
  method CheckSeal(w: World, id: string, sealed: Option<Identity>) returns (r: Result<Identity, Error>)
    modifies w`step, w`crashed
    ensures r.Ok? ==> SealIntact(w.entries, id, sealed) && w.entries[["gurus", id]].identity == Some(r.value)
    ensures old(w.Quiet()) ==> w.Quiet() && (r.Ok? <==> SealIntact(w.entries, id, sealed))
  {
    if sealed.None? {
      return Err(NotSealed);
    }
    var observed := w.DirectoryIdentity(["gurus", id, "workspace"]);
    if observed.Err? {
      return Err(observed.error);
    }
    if observed.value.None? {
      return Err(WorkspaceMissing);
    }
    if observed.value != sealed {
      return Err(IdentityChanged);
    }
    var identity := w.DirectoryIdentity(["gurus", id]);
    if identity.Err? {
      return Err(identity.error);
    }
    r := if identity.value.None? then Err(SourceMissing) else Ok(identity.value.value);
  }

  /** `delete_guru`: refuses a replaced tree before anything is renamed. */
  method DeleteGuru(w: World, id: string, sealed: Option<Identity>, data: string, at: int)
    returns (r: Result<(), Error>, ghost t: Option<Tracked>)
    requires forall identity :: Fresh(Now(w), GuruJournal(id, identity, at))
    modifies w`records, w`gurus, w`chats, w`entries, w`scope, w`step, w`crashed
    ensures t.None? ==> r.Err? && Now(w) == old(Now(w))
    ensures t.Some? ==> SealIntact(old(w.entries), id, sealed) &&
                        t.value == Tracked(Journal("delete-guru-" + id, Guru, id, id,
                                                   old(w.entries)[["gurus", id]].identity, Prepared, at, at),
                                           old(w.entries))
    ensures t.Some? ==> Protected(Now(w), t.value)
    ensures r.Ok? ==> t.Some? && id !in w.gurus && Settled(Now(w), t.value)
    ensures r.Ok? ==> GuruDone(w.entries, old(w.entries), id, false) && old(w.gurus)[id] == data
    ensures r.Ok? ==> forall chat :: chat in w.chats <==> chat in old(w.chats) && old(w.chats)[chat].guru != id
    ensures forall q :: SameAt(old(w.entries), w.entries, q) || GuruOwns(id, q)
    ensures forall guru :: guru != id ==>
              (guru in w.gurus <==> guru in old(w.gurus)) && (guru in w.gurus ==> w.gurus[guru] == old(w.gurus)[guru])
    ensures forall chat :: chat in w.chats ==> chat in old(w.chats) && w.chats[chat] == old(w.chats)[chat]
  {
    t := None;
    w.Enter("delete-guru-" + id);
    var identity := CheckSeal(w, id, sealed);
    if identity.Err? {
      return Err(identity.error), t;
    }
    var j := GuruJournal(id, identity.value, at);
    assert Fresh(Now(w), j);
    ghost var tracked := Tracked(j, w.entries);
    if ValidJournal(j) {
      FreshProtected(Now(w), tracked);
      t := Some(tracked);
    }
    r := ExecuteDeletion(w, j, GuruTarget(id, data), tracked);
    OthersUntouched(old(w.entries), w.entries, j);
  }

  // -------------------------------------------------------------- histories

  ghost predicate Peer(t: Tracked, u: Tracked) {
    u.journal.id != t.journal.id && JournalsApart(t.journal, u.journal)
  }

  lemma {:induction false} OtherRowStays(s: State, s': State, t: Tracked, target: Target, u: Tracked)
    requires Protected(s, u) && Peer(t, u) && ValidJournal(t.journal)
    requires Deletes(target, t.journal) && RowsKept(s, s', target)
    ensures HasTarget(s', u.journal) == HasTarget(s, u.journal)
    ensures u.journal.kind.Chat? && u.journal.target in s'.chats ==> s'.chats[u.journal.target].guru == u.journal.guru
  {
    ApartIff(t.journal, u.journal);
  }

  /** Deleting one target leaves every other pending deletion protected. */
  lemma {:induction false} ExecutionSparesOthers(s: State, s': State, t: Tracked, target: Target, u: Tracked)
    requires Protected(s, u) && Peer(t, u) && ValidJournal(t.journal)
    requires Deletes(target, t.journal) && RowsKept(s, s', target) && Confined(s, s', t.journal)
    ensures Protected(s', u)
  {
    OtherRowStays(s, s', t, target, u);
    ElsewhereProtects(s, s', t.journal, u);
  }

  lemma {:induction false} SubsetSeparate(records: seq<Record>, fewer: seq<Record>, ts: seq<Tracked>)
    requires SeparateRecords(records, ts) && forall r :: r in fewer ==> r in records
    ensures SeparateRecords(fewer, ts)
  {
    forall r, t | r in fewer && t in ts
      ensures SeparateRecord(r, t)
    {
      assert r in records;
    }
  }

  lemma {:induction false} ExecutionSeparates(s: State, s': State, t: Tracked, others: seq<Tracked>)
    requires SeparateRecords(s.records, [t] + others) && Confined(s, s', t.journal) && Protected(s', t)
    requires ValidJournal(t.journal) && forall u :: u in others ==> Peer(t, u)
    ensures SeparateRecords(s'.records, [t] + others)
  {
    forall r, u | r in s'.records && u in [t] + others
      ensures SeparateRecord(r, u)
    {
      if r.Id() == t.journal.id {
        assert Ours(r, t.journal);
        if u in others && u != t {
          assert Peer(t, u) && PathsOf(r.journal) == PathsOf(t.journal);
        }
      } else {
        assert r in s.records;
      }
    }
  }

  /** Execution under any failures, beside other deletions still pending. */
  method ExecuteBeside(w: World, prepared: Journal, target: Target, ghost t: Tracked, ghost others: seq<Tracked>)
    returns (r: Result<(), Error>)
    requires ValidJournal(prepared) && t.journal == prepared && Deletes(target, prepared)
    requires AllProtected(Now(w), [t] + others) && SeparateRecords(w.records, [t] + others)
    requires forall u :: u in others ==> Peer(t, u)
    modifies w
    ensures AllProtected(Now(w), [t] + others) && SeparateRecords(w.records, [t] + others)
    ensures r.Ok? ==> !HasTarget(Now(w), prepared)
  {
    ghost var s := Now(w);
    assert Protected(s, t);
    w.Enter(prepared.id);
    r := ExecuteDeletion(w, prepared, target, t);
    ghost var s' := Now(w);
    forall u | u in [t] + others
      ensures Protected(s', u)
    {
      if u != t {
        ExecutionSparesOthers(s, s', t, target, u);
      }
    }
    ExecutionSeparates(s, s', t, others);
  }

  /**
   A deletion under any failures, cut off by a crash at any step, any number of
   startups that fail or crash anywhere, and one startup without failures:
   this deletion and every other pending one is then settled.
   */
  method DeleteAndRestart(w: World, prepared: Journal, target: Target, restarts: seq<Plan>, calm: Plan,
                          ghost t: Tracked, ghost others: seq<Tracked>)
    returns (r: Result<(), Error>)
    requires ValidJournal(prepared) && t.journal == prepared && Deletes(target, prepared)
    requires AllProtected(Now(w), [t] + others) && SeparateRecords(w.records, [t] + others)
    requires forall u :: u in others ==> Peer(t, u)
    requires CalmEverywhere(calm)
    modifies w
    ensures forall u :: u in [t] + others ==> Settled(Now(w), u)
    ensures r.Ok? ==> !HasTarget(Now(w), prepared)
  {
    ghost var ts := [t] + others;
    r := ExecuteBeside(w, prepared, target, t, others);
    for i := 0 to |restarts|
      invariant AllProtected(Now(w), ts) && SeparateRecords(w.records, ts)
      invariant r.Ok? ==> !HasTarget(Now(w), prepared)
    {
      ghost var records := w.records;
      w.Restart(restarts[i]);
      var _, _ := Recover(w, ts);
      SubsetSeparate(records, w.records, ts);
    }
    w.Restart(calm);
    var _, _ := Recover(w, ts);
    forall u | u in ts
      ensures Settled(Now(w), u)
    {
      assert CalmIn(calm, u.journal.id);
    }
  }

  // --------------------------------- where a failure does stop another journal

  /** Only the lookup for the broken record fails. */
  function BrokenLookup(): Plan {
    (id: string, n: nat) => if id == "broken" then Fault(false, Nothing) else Fine
  }

  /**
   An unusable record whose Guru lookup fails ends recovery with an error: a
   Chat's entry stays hidden although its row stands and its own calls work.
   */
  method LookupFailureStopsRecovery() returns (w: World, r: Result<set<string>, Error>, hidden: Path, live: Path)
    ensures r.Err?
    ensures CalmIn(w.plan, "delete-chat-c") && Valid(ChatJournal("c", "g", 1)) in w.records
    ensures HasTarget(Now(w), ChatJournal("c", "g", 1))
    ensures hidden in w.entries && live !in w.entries
  {
    var j := ChatJournal("c", "g", 1);
    live, hidden := ["gurus", "g", "pi-sessions", "c"], ["gurus", "g", "pi-sessions", Hidden("c")];
    var records := [Invalid("broken", "h", "x"), Valid(j)];
    var entries: Entries := map[hidden := Tree(None, "")];
    w := new World(records, map[], map["c" := ChatRow("g", "")], entries, BrokenLookup());
    assert !LookupsWork(w.plan, records) by {
      assert Invalid("broken", "h", "x") in records;
    }
    forall n | 1 <= n <= |records|
      ensures !LookupsWork(w.plan, records[..n])
    {
      assert records[..n][0] == Invalid("broken", "h", "x");
    }
    ghost var trace;
    r, trace := Recover(w, []);
    assert hidden[3][0] == '.' && live[3][0] == 'c';
  }
}
