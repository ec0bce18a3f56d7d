/**
 Startup recovery over every stored deletion journal, and whole histories of
 deletion, crashes and restarts
 (apps/guruterminal/src-tauri/src/deletion.rs:27-81, 131-220).
 */
module Startup {
  import opened Deletion
  import opened Journals
  import opened Protection
  import opened Recovery
  import opened Storage
  import opened World
  import opened Wrappers

  // ------------------------------------------------------ one journal's turn

  /** Recovery can only look up whether this record's Guru exists. */
  predicate Unusable(record: Record) {
    record.Invalid? || !ValidJournal(record.journal)
  }

  /** The row a pending deletion was to remove is still there. */
  predicate HasRow(s: State, record: Record) {
    if Unusable(record) then record.GuruId() in s.gurus
    else
      match record.journal.kind
      case Chat => record.journal.target in s.chats
      case Guru => record.journal.guru in s.gurus
  }

  /** What one turn of recovery may do to the durable state. */
  ghost predicate Turn(record: Record, s: State, s': State) {
    && s'.gurus == s.gurus && s'.chats == s.chats
    && (s'.records == s.records || s'.records == Without(s.records, record))
    && (Unusable(record) ==> s' == s)
    && (!Unusable(record) ==>
          && (if HasTarget(s, record.journal) then Conserves(s.entries, s'.entries, PathsOf(record.journal))
              else Cleans(s.entries, s'.entries, PathsOf(record.journal)))
          && (forall p :: p in PathsOf(record.journal) && p.tombstone in s'.entries ==> p.tombstone in s.entries)
          && (s'.records != s.records ==> NoTombstones(s'.entries, record.journal)))
  }

  /** The state allows this journal to be rolled back or forward. */
  ghost predicate Reconcilable(s: State, j: Journal) {
    if HasTarget(s, j) then AllMendable(s.entries, PathsOf(j))
    else !(j.kind.Chat? && j.target in s.chats) && AllCleanable(s.entries, PathsOf(j))
  }

  datatype Existence = Exists | Gone | Unknown

  /** Whether the target row stands; Unknown quarantines the Guru. */
  method TargetExistence(w: World, j: Journal) returns (existence: Existence)
    modifies w`step, w`crashed
    ensures existence.Exists? ==> HasTarget(Now(w), j) && !w.crashed
    ensures existence.Gone? ==> !HasTarget(Now(w), j) && (ValidJournal(j) ==> !HasRow(Now(w), Valid(j)))
    ensures !old(w.crashed) && ValidJournal(j) && !existence.Gone? ==>
              HasRow(Now(w), Valid(j)) || w.plan(w.scope, old(w.step)).Fault?
    ensures old(w.crashed) ==> w.crashed
    ensures old(w.Quiet()) ==> w.Quiet()
    ensures old(w.Quiet()) ==>
              (existence.Unknown? <==> j.kind.Chat? && j.target in w.chats && w.chats[j.target].guru != j.guru)
  {
    match j.kind {
      case Chat =>
        var chat := w.GetChat(j.target);
        existence := if chat.Err? then Unknown
                     else if chat.value.None? then Gone
                     else if chat.value.value.guru == j.guru then Exists
                     else Unknown;
      case Guru =>
        var guru := w.GetGuru(j.guru);
        existence := if guru.Err? then Unknown else if guru.value then Exists else Gone;
    }
  }

  /** Looks up whether the Guru of an unusable record exists; a failed lookup is an error. */
  method QuarantineUnusable(w: World, guru: string) returns (r: Result<bool, Error>)
    modifies w`step, w`crashed
    ensures r.Ok? ==> r.value == (guru in w.gurus) && w.plan(w.scope, old(w.step)).Fine?
    ensures !old(w.crashed) ==> (r.Ok? <==> w.plan(w.scope, old(w.step)).Fine?)
    ensures old(w.crashed) ==> w.crashed
    ensures old(w.Quiet()) ==> w.Quiet()
  {
    r := w.GetGuru(guru);
  }

  /** One turn of `recover`: Ok(true) quarantines the journal's Guru. */
  method ReconcileRecord(w: World, record: Record) returns (r: Result<bool, Error>)
    modifies w`records, w`entries, w`step, w`crashed
    ensures Turn(record, old(Now(w)), Now(w))
    ensures r == Ok(false) && !w.crashed ==> record !in w.records || !HasRow(Now(w), record)
    ensures r.Err? ==> Unusable(record)
    ensures r.Ok? && Unusable(record) ==> w.plan(w.scope, old(w.step)).Fine?
    ensures !old(w.crashed) ==> (r.Err? <==> Unusable(record) && w.plan(w.scope, old(w.step)).Fault?)
    ensures old(w.crashed) ==> w.crashed
    ensures old(w.Quiet()) ==> w.Quiet()
    ensures old(w.Quiet()) && !Unusable(record) && old(Reconcilable(Now(w), record.journal)) ==> record !in w.records
    ensures old(w.Quiet()) && !Unusable(record) && old(Reconcilable(Now(w), record.journal)) ==>
              old(record in w.records) ==> r == Ok(false)
    ensures !old(w.crashed) && r == Ok(true) ==> HasRow(Now(w), record) || w.plan(w.scope, old(w.step)).Fault?
  {
    if Unusable(record) {
      r := QuarantineUnusable(w, record.GuruId());
      return;
    }
    var quarantine := ReconcileJournal(w, record.journal);
    r := Ok(quarantine);
  }

  /** The turn of a valid journal. */
  method ReconcileJournal(w: World, j: Journal) returns (quarantine: bool)
    requires ValidJournal(j)
    modifies w`records, w`entries, w`step, w`crashed
    ensures Turn(Valid(j), old(Now(w)), Now(w))
    ensures !quarantine && !w.crashed ==> Valid(j) !in w.records || !HasRow(Now(w), Valid(j))
    ensures old(w.crashed) ==> w.crashed
    ensures old(w.Quiet()) ==> w.Quiet()
    ensures old(w.Quiet()) && old(Reconcilable(Now(w), j)) ==> Valid(j) !in w.records
    ensures old(w.Quiet()) && old(Reconcilable(Now(w), j)) && old(Valid(j) in w.records) ==> !quarantine
    ensures !old(w.crashed) && quarantine ==> HasRow(Now(w), Valid(j)) || w.plan(w.scope, old(w.step)).Fault?
  {
    var paths := PathsOf(j);
    PathsDistinct(j);
    var existence := TargetExistence(w, j);
    if existence.Unknown? {
      return true;
    }
    var reconciled: Result<(), Error>;
    if existence.Exists? {
      reconciled := RollbackPaths(w, paths);
    } else {
      reconciled := CleanupPaths(w, paths);
    }
    if reconciled.Err? {
      return existence.Exists?;
    }
    assert NoTombstones(w.entries, j);
    WithoutMember(w.records, Valid(j));
    var deleted := w.DeleteJournal(j);
    quarantine := deleted.Err? && existence.Exists?;
  }

  // ------------------------------------------------ a turn and a deletion

  lemma {:induction false} OwnTurnSafe(record: Record, s: State, s': State, t: Tracked)
    requires Protected(s, t) && Ours(record, t.journal) && Turn(record, s, s')
    ensures EntriesSafe(s'.entries, t, HasTarget(s', t.journal)) && Tidy(s'.entries, Touched(PathsOf(t.journal)))
    ensures NoTombstones(s.entries, t.journal) ==> NoTombstones(s'.entries, t.journal)
    ensures s'.records != s.records ==> NoTombstones(s'.entries, t.journal)
  {
    var row := HasTarget(s, t.journal);
    assert PathsOf(record.journal) == PathsOf(t.journal);
    if row {
      ConservingIsSafe(s.entries, s'.entries, t, row);
    } else {
      CleaningIsSafe(s.entries, s'.entries, t);
    }
  }

  /** A turn on our own journal, in either phase, keeps the deletion protected. */
  lemma {:induction false} OwnTurn(record: Record, s: State, s': State, t: Tracked)
    requires Protected(s, t) && Ours(record, t.journal) && Turn(record, s, s')
    ensures Protected(s', t)
  {
    WithoutMember(s.records, record);
    OwnTurnSafe(record, s, s', t);
  }

  /** A turn on a journal of other entries leaves the deletion as it was. */
  lemma {:induction false} OtherTurn(record: Record, s: State, s': State, t: Tracked)
    requires Protected(s, t) && Turn(record, s, s') && record.Id() != t.journal.id
    requires Unusable(record) || JournalsApart(record.journal, t.journal)
    ensures Protected(s', t) && Pending(s', t.journal.id) == Pending(s, t.journal.id)
  {
    WithoutMember(s.records, record);
    if Unusable(record) {
      assert s' == s;
    } else {
      ConservesOutside(s.entries, s'.entries, PathsOf(record.journal));
      ElsewhereProtects(s, s', record.journal, t);
    }
  }

  /** A turn changes nothing that another journal's turn looks at. */
  lemma {:induction false} TurnLeavesOthers(record: Record, s: State, s': State, k: Journal)
    requires Turn(record, s, s') && record != Valid(k)
    requires Unusable(record) || JournalsApart(record.journal, k)
    ensures forall p :: p in PathsOf(k) ==> SameFor(s.entries, s'.entries, p)
    ensures HasTarget(s', k) == HasTarget(s, k) && (Valid(k) in s'.records <==> Valid(k) in s.records)
  {
    WithoutMember(s.records, record);
    if !Unusable(record) {
      ConservesOutside(s.entries, s'.entries, PathsOf(record.journal));
      OthersSame(s.entries, s'.entries, record.journal, k);
    }
  }

  // --------------------------------------------------------------- recover

  /** The scope of the journal listing itself; no journal has this ID. */
  const LISTING: string := ""

  ghost predicate SeparateRecord(record: Record, t: Tracked) {
    if record.Id() == t.journal.id then Ours(record, t.journal)
    else Unusable(record) || JournalsApart(record.journal, t.journal)
  }

  ghost predicate SeparateRecords(records: seq<Record>, ts: seq<Tracked>) {
    forall r, t :: r in records && t in ts ==> SeparateRecord(r, t)
  }

  ghost predicate AllProtected(s: State, ts: seq<Tracked>) {
    forall t :: t in ts ==> Protected(s, t)
  }

  lemma {:induction false} TurnProtects(record: Record, s: State, s': State, ts: seq<Tracked>)
    requires AllProtected(s, ts) && Turn(record, s, s')
    requires forall t :: t in ts ==> SeparateRecord(record, t)
    ensures AllProtected(s', ts)
  {
    forall t | t in ts
      ensures Protected(s', t)
    {
      if record.Id() == t.journal.id {
        OwnTurn(record, s, s', t);
      } else {
        OtherTurn(record, s, s', t);
      }
    }
  }

  /** A protected deletion can always be reconciled. */
  lemma {:induction false} ProtectedReconcilable(s: State, t: Tracked, record: Record)
    requires Protected(s, t) && Ours(record, t.journal)
    ensures !Unusable(record) && Reconcilable(s, record.journal)
  {
    assert PathsOf(record.journal) == PathsOf(t.journal);
    if HasTarget(s, t.journal) {
      RollbackWorks(s, t);
    } else {
      CleanupWorks(s, t);
    }
  }

  ghost predicate Quarantined(s: State, record: Record, gurus: set<string>) {
    record in s.records && HasRow(s, record) ==> record.GuruId() in gurus
  }

  /** A record left behind although its row stands quarantines its Guru, whatever kind of record it is. */
  lemma {:induction false} QuarantineMeaning(s: State, record: Record, gurus: set<string>)
    requires Quarantined(s, record, gurus) && record in s.records
    ensures match record
            case Invalid(_, guru, _) => guru in s.gurus ==> guru in gurus
            case Valid(j) =>
              && (!ValidJournal(j) && j.guru in s.gurus ==> j.guru in gurus)
              && (ValidJournal(j) && j.kind.Chat? && j.target in s.chats ==> j.guru in gurus)
              && (ValidJournal(j) && j.kind.Guru? && j.guru in s.gurus ==> j.guru in gurus)
  {
  }

  /** Why a Guru is quarantined: a row that stands, or one that could not be looked up. */
  ghost predicate Cause(s: State, plan: Plan, record: Record, guru: string) {
    && record.GuruId() == guru
    && (plan(record.Id(), 0).Fault? ||
        (match record
         case Invalid(_, _, _) => guru in s.gurus
         case Valid(j) => if ValidJournal(j) && j.kind.Chat? then j.target in s.chats else guru in s.gurus))
  }

  ghost predicate Added(s: State, plan: Plan, record: Record, before: set<string>, after: set<string>) {
    forall guru :: guru in after ==> guru in before || Cause(s, plan, record, guru)
  }

  lemma {:induction false} CauseOfRow(s: State, plan: Plan, record: Record)
    requires HasRow(s, record) || plan(record.Id(), 0).Fault?
    ensures Cause(s, plan, record, record.GuruId())
  {
  }

  /** A turn that can succeed and whose calls do not fail removes its journal. */
  ghost predicate Retires(plan: Plan, record: Record, s: State, s': State) {
    CalmIn(plan, record.Id()) && !Unusable(record) && Reconcilable(s, record.journal) ==> record !in s'.records
  }

  /** One record's turn in `recover`, in its own failure scope. */
  method TakeTurn(w: World, record: Record, quarantined: set<string>, ghost ts: seq<Tracked>)
    returns (r: Result<set<string>, Error>)
    requires AllProtected(Now(w), ts) && forall t :: t in ts ==> SeparateRecord(record, t)
    modifies w`records, w`entries, w`scope, w`step, w`crashed
    ensures Turn(record, old(Now(w)), Now(w)) && AllProtected(Now(w), ts)
    ensures old(w.crashed) ==> w.crashed
    ensures r.Ok? ==> quarantined <= r.value && (!w.crashed ==> Quarantined(Now(w), record, r.value))
    ensures r.Err? ==> Unusable(record)
    ensures r.Ok? && Unusable(record) ==> w.plan(record.Id(), 0).Fine?
    ensures !old(w.crashed) ==> (r.Err? <==> Unusable(record) && w.plan(record.Id(), 0).Fault?)
    ensures !old(w.crashed) && CalmIn(w.plan, record.Id()) ==> !w.crashed
    ensures !old(w.crashed) ==> Retires(w.plan, record, old(Now(w)), Now(w))
    ensures !old(w.crashed) && r.Ok? ==> Added(Now(w), w.plan, record, quarantined, r.value)
    ensures forall t :: t in ts && t.journal.id == record.Id() ==>
              !Unusable(record) && old(Reconcilable(Now(w), record.journal))
  {
    ghost var s := Now(w);
    w.Enter(record.Id());
    if t :| t in ts && t.journal.id == record.Id() {
      ProtectedReconcilable(s, t, record);
    }
    var turn := ReconcileRecord(w, record);
    TurnProtects(record, s, Now(w), ts);
    match turn {
      case Err(error) => r := Err(error);
      case Ok(true) =>
        if !old(w.crashed) {
          CauseOfRow(Now(w), w.plan, record);
        }
        r := Ok(quarantined + {record.GuruId()});
      case Ok(false) => r := Ok(quarantined);
    }
  }

  /** Records only disappear, so what held of the earlier ones still holds. */
  lemma {:induction false} EarlierQuarantined(record: Record, s: State, s': State, earlier: Record, before: set<string>,
                                              after: set<string>)
    requires Turn(record, s, s') && Quarantined(s, earlier, before) && before <= after
    ensures Quarantined(s', earlier, after)
    ensures earlier !in s.records ==> earlier !in s'.records
  {
    WithoutMember(s.records, record);
  }

  lemma {:induction false} TurnShrinks(record: Record, s: State, s': State)
    requires Turn(record, s, s')
    ensures forall r :: r in s'.records ==> r in s.records
  {
    WithoutMember(s.records, record);
  }

  /** What holds after the first i records were processed without a crash. */
  ghost predicate Progress(s: State, plan: Plan, records: seq<Record>, i: nat, quarantined: set<string>,
                           ts: seq<Tracked>) {
    Handled(s, plan, records, i, quarantined, ts) && AllCaused(s, plan, records, i, quarantined)
  }

  ghost predicate Handled(s: State, plan: Plan, records: seq<Record>, i: nat, quarantined: set<string>,
                          ts: seq<Tracked>) {
    && i <= |records|
    && (forall k :: 0 <= k < i ==> Quarantined(s, records[k], quarantined))
    && (forall k :: 0 <= k < i ==> Retired(s, plan, records[k], ts))
  }

  /** No Guru is quarantined without a cause in one of the first i records. */
  ghost predicate AllCaused(s: State, plan: Plan, records: seq<Record>, i: nat, quarantined: set<string>) {
    forall guru :: guru in quarantined ==> exists k: nat :: k < i && k < |records| && Cause(s, plan, records[k], guru)
  }

  ghost predicate Retired(s: State, plan: Plan, record: Record, ts: seq<Tracked>) {
    CalmIn(plan, record.Id()) && (exists t :: t in ts && t.journal.id == record.Id()) ==> record !in s.records
  }

  lemma {:induction false} CausesStay(s: State, s': State, plan: Plan, records: seq<Record>, i: nat,
                                      before: set<string>, after: set<string>)
    requires i < |records| && Turn(records[i], s, s') && Added(s', plan, records[i], before, after)
    requires AllCaused(s, plan, records, i, before)
    ensures AllCaused(s', plan, records, i + 1, after)
  {
    forall guru | guru in after
      ensures exists k: nat :: k < i + 1 && k < |records| && Cause(s', plan, records[k], guru)
    {
      if guru in before {
        var k: nat :| k < i && Cause(s, plan, records[k], guru);
        assert Cause(s', plan, records[k], guru);
      } else {
        assert Cause(s', plan, records[i], guru);
      }
    }
  }

  lemma {:induction false} HandledNext(s: State, s': State, plan: Plan, records: seq<Record>, i: nat,
                                       before: set<string>, after: set<string>, ts: seq<Tracked>)
    requires i < |records| && Handled(s, plan, records, i, before, ts) && Turn(records[i], s, s') && before <= after
    requires Quarantined(s', records[i], after) && Retired(s', plan, records[i], ts)
    ensures Handled(s', plan, records, i + 1, after, ts)
  {
    forall k | 0 <= k < i
      ensures Quarantined(s', records[k], after) && Retired(s', plan, records[k], ts)
    {
      EarlierQuarantined(records[i], s, s', records[k], before, after);
    }
  }

  lemma {:induction false} ProgressNext(s: State, s': State, plan: Plan, records: seq<Record>, i: nat,
                                        before: set<string>, after: set<string>, ts: seq<Tracked>)
    requires i < |records| && Progress(s, plan, records, i, before, ts) && Turn(records[i], s, s') && before <= after
    requires Quarantined(s', records[i], after) && Retired(s', plan, records[i], ts)
    requires Added(s', plan, records[i], before, after)
    ensures Progress(s', plan, records, i + 1, after, ts)
  {
    CausesStay(s, s', plan, records, i, before, after);
    HandledNext(s, s', plan, records, i, before, after, ts);
  }

  method ProcessRecord(w: World, records: seq<Record>, i: nat, quarantined: set<string>, ghost ts: seq<Tracked>)
    returns (r: Result<set<string>, Error>)
    requires i < |records| && AllProtected(Now(w), ts) && SeparateRecords(records, ts)
    requires !w.crashed ==> Progress(Now(w), w.plan, records, i, quarantined, ts)
    modifies w`records, w`entries, w`scope, w`step, w`crashed
    ensures AllProtected(Now(w), ts) && (old(w.crashed) ==> w.crashed)
    ensures forall record :: record in w.records ==> record in old(w.records)
    ensures r.Ok? && !w.crashed ==> Progress(Now(w), w.plan, records, i + 1, r.value, ts)
    ensures r.Err? ==> Unusable(records[i])
    ensures r.Ok? && Unusable(records[i]) ==> w.plan(records[i].Id(), 0).Fine?
    ensures !w.crashed ==> (r.Err? <==> Unusable(records[i]) && w.plan(records[i].Id(), 0).Fault?)
    ensures Unusable(records[i]) ==> Now(w) == old(Now(w))
    ensures !old(w.crashed) && CalmIn(w.plan, records[i].Id()) ==> r.Ok? && !w.crashed
    ensures Turn(records[i], old(Now(w)), Now(w))
    ensures !old(w.crashed) ==> Retires(w.plan, records[i], old(Now(w)), Now(w))
  {
    ghost var s := Now(w);
    r := TakeTurn(w, records[i], quarantined, ts);
    TurnShrinks(records[i], s, Now(w));
    if r.Ok? && !w.crashed {
      ProgressNext(s, Now(w), w.plan, records, i, quarantined, r.value, ts);
    }
  }

  lemma {:induction false} ProgressSettles(s: State, plan: Plan, records: seq<Record>, quarantined: set<string>,
                                           ts: seq<Tracked>)
    requires Progress(s, plan, records, |records|, quarantined, ts) && AllProtected(s, ts)
    requires forall r :: r in s.records ==> r in records
    ensures forall record :: record in s.records ==> Quarantined(s, record, quarantined)
    ensures forall t :: t in ts && CalmIn(plan, t.journal.id) ==> Settled(s, t)
  {
    forall t | t in ts && CalmIn(plan, t.journal.id)
      ensures Settled(s, t)
    {
      NothingPending(s, t, records);
      ProtectedSettles(s, t);
    }
  }

  /** The states between the turns of the first records, from one state to another. */
  ghost predicate Walked(records: seq<Record>, trace: seq<State>, first: State, last: State) {
    && 1 <= |trace| <= |records| + 1 && trace[0] == first && trace[|trace| - 1] == last
    && forall k :: 0 <= k < |trace| - 1 ==> Turn(records[k], trace[k], trace[k + 1])
  }

  lemma {:induction false} WalkedNext(records: seq<Record>, trace: seq<State>, first: State, last: State, next: State)
    requires Walked(records, trace, first, last) && |trace| <= |records| && Turn(records[|trace| - 1], last, next)
    ensures Walked(records, trace + [next], first, next)
  {
  }

  ghost predicate Stepped(plan: Plan, record: Record, s: State, s': State) {
    Turn(record, s, s') && Retires(plan, record, s, s')
  }

  /** The states between the turns of the first i records of a recovery that did not crash. */
  ghost predicate Traced(plan: Plan, records: seq<Record>, trace: seq<State>, i: nat, first: State, last: State) {
    && i <= |records| && |trace| == i + 1 && trace[0] == first && trace[i] == last
    && forall k :: 0 <= k < i ==> Stepped(plan, records[k], trace[k], trace[k + 1])
  }

  lemma {:induction false} TracedNext(plan: Plan, records: seq<Record>, trace: seq<State>, i: nat, first: State,
                                      last: State, next: State)
    requires i < |records| && Traced(plan, records, trace, i, first, last)
    requires Stepped(plan, records[i], last, next)
    ensures Traced(plan, records, trace + [next], i + 1, first, next)
  {
  }

  ghost predicate Trail(plan: Plan, crashed: bool, records: seq<Record>, trace: seq<State>, i: nat, first: State,
                        last: State) {
    && |trace| == i + 1 && Walked(records, trace, first, last)
    && (!crashed ==> Traced(plan, records, trace, i, first, last))
  }

  lemma {:induction false} TrailNext(plan: Plan, before: bool, after: bool, records: seq<Record>, trace: seq<State>,
                                     i: nat, first: State, last: State, next: State)
    requires i < |records| && Trail(plan, before, records, trace, i, first, last) && (before ==> after)
    requires Turn(records[i], last, next) && (!before ==> Retires(plan, records[i], last, next))
    ensures Trail(plan, after, records, trace + [next], i + 1, first, next)
  {
    WalkedNext(records, trace, first, last, next);
    if !after {
      TracedNext(plan, records, trace, i, first, last, next);
    }
  }

  /**
   `recover` under any failures. Every tracked deletion stays protected; every
   record that remains although its row stands has its Guru quarantined; a
   deletion whose own calls do not fail is settled, whatever happens to others.
   It gives up exactly when the listing or the lookup for an unusable record fails.
   */
  method Recover(w: World, ghost ts: seq<Tracked>) returns (r: Result<set<string>, Error>, ghost trace: seq<State>)
    requires AllProtected(Now(w), ts) && SeparateRecords(w.records, ts)
    modifies w`records, w`entries, w`scope, w`step, w`crashed
    ensures AllProtected(Now(w), ts)
    ensures forall record :: record in w.records ==> record in old(w.records)
    ensures r.Ok? && !w.crashed ==> forall record :: record in w.records ==> Quarantined(Now(w), record, r.value)
    ensures r.Ok? && !w.crashed ==> AllCaused(Now(w), w.plan, old(w.records), |old(w.records)|, r.value)
    ensures r.Ok? ==> LookupsWork(w.plan, old(w.records))
    ensures !w.crashed && LookupsWork(w.plan, old(w.records)) ==> r.Ok?
    ensures r.Ok? && !w.crashed ==> forall t :: t in ts && CalmIn(w.plan, t.journal.id) ==> Settled(Now(w), t)
    ensures !old(w.crashed) && CalmEverywhere(w.plan) ==> r.Ok? && !w.crashed
    ensures Walked(old(w.records), trace, old(Now(w)), Now(w))
    ensures |trace| > 1 ==> LookupsWork(w.plan, old(w.records)[..|trace| - 1])
    ensures r.Ok? && !w.crashed ==>
              Traced(w.plan, old(w.records), trace, |old(w.records)|, old(Now(w)), Now(w))
  {
    trace := [Now(w)];
    assert CalmEverywhere(w.plan) ==> CalmIn(w.plan, LISTING);
    w.Enter(LISTING);
    var listed := w.ListJournals();
    if listed.Err? {
      return Err(listed.error), trace;
    }
    var records := listed.value;
    var quarantined: set<string> := {};
    for i := 0 to |records|
      invariant Midway(w.plan, w.crashed, ts, records, trace, i, quarantined, old(Now(w)), Now(w))
      invariant !old(w.crashed) && CalmEverywhere(w.plan) ==> !w.crashed
    {
      assert CalmEverywhere(w.plan) ==> CalmIn(w.plan, records[i].Id());
      ghost var before, crashed := Now(w), w.crashed;
      var turn := ProcessRecord(w, records, i, quarantined, ts);
      LookupNext(w.plan, records, i);
      if turn.Err? {
        return Err(turn.error), trace;
      }
      MidwayNext(w.plan, crashed, w.crashed, ts, records, trace, i, quarantined, turn.value, old(Now(w)), before,
                 Now(w));
      quarantined := turn.value;
      trace := trace + [Now(w)];
    }
    assert records[..|records|] == records;
    r := Ok(quarantined);
    if !w.crashed {
      ProgressSettles(Now(w), w.plan, records, quarantined, ts);
    }
  }

  /** What holds between the turns of a recovery. */
  ghost predicate Midway(plan: Plan, crashed: bool, ts: seq<Tracked>, records: seq<Record>, trace: seq<State>, i: nat,
                         quarantined: set<string>, first: State, s: State) {
    && i <= |records| && AllProtected(s, ts)
    && (forall record :: record in s.records ==> record in records)
    && LookupsWork(plan, records[..i])
    && (!crashed ==> Progress(s, plan, records, i, quarantined, ts))
    && Trail(plan, crashed, records, trace, i, first, s)
  }

  lemma {:induction false} MidwayNext(plan: Plan, before: bool, after: bool, ts: seq<Tracked>, records: seq<Record>,
                                      trace: seq<State>, i: nat, quarantined: set<string>, more: set<string>,
                                      first: State, s: State, s': State)
    requires i < |records| && Midway(plan, before, ts, records, trace, i, quarantined, first, s)
    requires AllProtected(s', ts) && (before ==> after)
    requires Turn(records[i], s, s') && (!before ==> Retires(plan, records[i], s, s'))
    requires Unusable(records[i]) ==> plan(records[i].Id(), 0).Fine?
    requires !after ==> Progress(s', plan, records, i + 1, more, ts)
    ensures Midway(plan, after, ts, records, trace + [s'], i + 1, more, first, s')
  {
    LookupNext(plan, records, i);
    TurnShrinks(records[i], s, s');
    TrailNext(plan, before, after, records, trace, i, first, s, s');
  }

  ghost predicate CalmEverywhere(plan: Plan) {
    forall id :: CalmIn(plan, id)
  }

  /** The journals can be listed and the Guru of every unusable record looked up. */
  ghost predicate LookupsWork(plan: Plan, records: seq<Record>) {
    && plan(LISTING, 0).Fine?
    && forall record :: record in records && Unusable(record) ==> plan(record.Id(), 0).Fine?
  }

  lemma {:induction false} LookupNext(plan: Plan, records: seq<Record>, i: nat)
    requires i < |records|
    ensures LookupsWork(plan, records[..i + 1]) <==>
            LookupsWork(plan, records[..i]) && (Unusable(records[i]) ==> plan(records[i].Id(), 0).Fine?)
    ensures LookupsWork(plan, records) ==> LookupsWork(plan, records[..i + 1])
  {
    assert records[..i + 1] == records[..i] + [records[i]];
    assert records[i] in records[..i + 1];
  }

  lemma {:induction false} NothingPending(s: State, t: Tracked, records: seq<Record>)
    requires forall r :: r in s.records ==> r in records
    requires forall k :: 0 <= k < |records| && records[k].Id() == t.journal.id ==> records[k] !in s.records
    ensures !Pending(s, t.journal.id)
  {
    forall r | r in s.records
      ensures r.Id() != t.journal.id
    {
      var k :| 0 <= k < |records| && records[k] == r;
    }
  }
}
