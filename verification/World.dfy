/**
 The durable store and the private-storage root a deletion works on. Every call
 may fail or be cut off by a crash, before or after it took effect.
 */
module World {
  import opened Journals
  import opened Storage
  import opened Wrappers

  datatype Effect = Nothing | Done | Partly(kept: set<Path>)

  /** What the environment does to one call; dies is a crash of the process. */
  datatype Fault = Fine | Fault(dies: bool, effect: Effect)

  /** The fault of the n-th call made while working on one journal. */
  type Plan = (string, nat) -> Fault

  datatype Error =
    | InvalidJournal | StoreConflict | StoreFailed | IoFailed | NotDirectory | IdentityChanged | TombstoneExists
    | SourceMissing | RollbackLost | BothExist | NotSealed | WorkspaceMissing

  datatype ChatRow = ChatRow(guru: string, data: string)

  /** A stored journal row; Invalid is one whose data does not parse or validate. */
  datatype Record = Valid(journal: Journal) | Invalid(id: string, guru: string, target: string) {
    function Id(): string {
      if Valid? then journal.id else id
    }

    function GuruId(): string {
      if Valid? then journal.guru else guru
    }

    function TargetId(): string {
      if Valid? then journal.target else target
    }
  }

  /** The row a deletion is to remove, as the caller last saw it. */
  datatype Target = ChatTarget(id: string, guru: string, data: string) | GuruTarget(id: string, data: string)

  function Without(records: seq<Record>, record: Record): seq<Record> {
    if |records| == 0 then []
    else
      var rest, last := records[..|records| - 1], records[|records| - 1];
      Without(rest, record) + if last == record then [] else [last]
  }

  lemma {:induction false} WithoutMember(records: seq<Record>, record: Record)
    ensures forall r :: r in Without(records, record) <==> r in records && r != record
  {
    if |records| > 0 {
      WithoutMember(records[..|records| - 1], record);
      assert records == records[..|records| - 1] + [records[|records| - 1]];
    }
  }

  /** The journal table's primary key and its unique pair of Guru and target. */
  ghost predicate UniqueKeys(records: seq<Record>) {
    forall m, n :: 0 <= m < n < |records| ==> DifferentKeys(records[m], records[n])
  }

  predicate DifferentKeys(r: Record, other: Record) {
    r.Id() != other.Id() && (r.GuruId(), r.TargetId()) != (other.GuruId(), other.TargetId())
  }

  lemma {:induction false} KeysAppended(records: seq<Record>, record: Record)
    requires UniqueKeys(records) && forall r :: r in records ==> DifferentKeys(r, record)
    ensures UniqueKeys(records + [record])
  {
  }

  lemma {:induction false} KeysWithout(records: seq<Record>, record: Record)
    requires UniqueKeys(records)
    ensures UniqueKeys(Without(records, record))
  {
    if |records| > 0 {
      var rest, last := records[..|records| - 1], records[|records| - 1];
      KeysWithout(rest, record);
      if last != record {
        WithoutMember(rest, record);
        KeysAppended(Without(rest, record), last);
      }
    }
  }

  lemma {:induction false} KeysReplaced(records: seq<Record>, record: Record, next: Record)
    requires UniqueKeys(records) && record in records
    requires next.Id() == record.Id() && next.GuruId() == record.GuruId() && next.TargetId() == record.TargetId()
    ensures UniqueKeys(Without(records, record) + [next])
  {
    KeysWithout(records, record);
    WithoutMember(records, record);
    var n :| 0 <= n < |records| && records[n] == record;
    forall r | r in Without(records, record)
      ensures DifferentKeys(r, next)
    {
      var m :| 0 <= m < |records| && records[m] == r;
      assert if m < n then DifferentKeys(records[m], records[n]) else DifferentKeys(records[n], records[m]);
    }
    KeysAppended(Without(records, record), next);
  }

  /** No call fails while working on this journal. */
  ghost predicate CalmIn(plan: Plan, id: string) {
    forall n: nat :: plan(id, n).Fine?
  }

  class World {
    var records: seq<Record>
    var gurus: map<string, string>
    var chats: map<string, ChatRow>
    var entries: Entries
    var plan: Plan
    var scope: string
    var step: nat
    var crashed: bool

    constructor (records: seq<Record>, gurus: map<string, string>, chats: map<string, ChatRow>, entries: Entries,
                 plan: Plan)
      ensures this.records == records && this.gurus == gurus && this.chats == chats && this.entries == entries
      ensures this.plan == plan && !crashed
    {
      this.records, this.gurus, this.chats, this.entries := records, gurus, chats, entries;
      this.plan, this.scope, this.step, this.crashed := plan, "", 0, false;
    }

    /** The next call in this scope is neither cut off nor failed. */
    ghost predicate Quiet()
      reads this`plan, this`scope, this`crashed
    {
      CalmIn(plan, scope) && !crashed
    }

    method Enter(id: string)
      modifies this`scope, this`step
      ensures scope == id && step == 0
    {
      scope, step := id, 0;
    }

    method Restart(next: Plan)
      modifies this`plan, this`crashed
      ensures plan == next && !crashed
    {
      plan, crashed := next, false;
    }

    /** From here on the calls meet these faults; the process goes on. */
    method Face(next: Plan)
      modifies this`plan
      ensures plan == next
    {
      plan := next;
    }

    method Strike() returns (fault: Fault)
      modifies this`step, this`crashed
      ensures old(crashed) ==> crashed && fault == Fault(true, Nothing)
      ensures !old(crashed) ==> fault == plan(scope, old(step)) && crashed == (fault.Fault? && fault.dies)
      ensures old(Quiet()) ==> Quiet() && fault == Fine
    {
      if crashed {
        return Fault(true, Nothing);
      }
      fault := plan(scope, step);
      step := step + 1;
      crashed := fault.Fault? && fault.dies;
    }

    // ---------------------------------------------------- private storage

    method EntryExists(q: Path) returns (r: Result<bool, Error>)
      modifies this`step, this`crashed
      ensures r.Ok? ==> r.value == (q in entries) && !crashed
      ensures old(crashed) ==> crashed
      ensures old(Quiet()) ==> Quiet() && r.Ok?
    {
      var fault := Strike();
      r := if fault.Fine? then Ok(q in entries) else Err(IoFailed);
    }

    method DirectoryIdentity(q: Path) returns (r: Result<Option<Identity>, Error>)
      modifies this`step, this`crashed
      ensures r.Ok? ==> r.value == (if q in entries then entries[q].identity else None) && !crashed
      ensures r.Ok? && q in entries ==> r.value.Some?
      ensures old(crashed) ==> crashed
      ensures old(Quiet()) ==> Quiet() && (r.Ok? <==> (q in entries ==> entries[q].identity.Some?))
    {
      var fault := Strike();
      if fault.Fault? {
        r := Err(IoFailed);
      } else if q !in entries {
        r := Ok(None);
      } else if entries[q].identity.None? {
        r := Err(NotDirectory);
      } else {
        r := Ok(entries[q].identity);
      }
    }

    /** Never replaces an existing entry; may report a failure after moving. */
    method RenameExpected(from: Path, to: Path, expected: Option<Identity>) returns (r: Result<bool, Error>)
      modifies this`entries, this`step, this`crashed
      ensures entries == old(entries) || (Movable(old(entries), from, to, expected) &&
                                          entries == Move(old(entries), from, to))
      ensures r == Ok(true) ==> Movable(old(entries), from, to, expected) && !crashed
      ensures r == Ok(true) ==> entries == Move(old(entries), from, to)
      ensures r == Ok(false) ==> from !in entries && entries == old(entries) && !crashed
      ensures old(crashed) ==> crashed && entries == old(entries)
      ensures old(Quiet()) ==> Quiet()
      ensures old(Quiet()) ==> (r == Ok(true) <==> Movable(old(entries), from, to, expected))
      ensures old(Quiet()) ==> (r == Ok(false) <==> from !in old(entries))
    {
      var fault := Strike();
      if fault.Fault? && fault.effect != Done {
        r := Err(IoFailed);
      } else if from !in entries {
        r := if fault.Fine? then Ok(false) else Err(IoFailed);
      } else if expected.Some? && entries[from].identity != expected {
        r := Err(IdentityChanged);
      } else if to in entries {
        r := Err(IoFailed);
      } else {
        entries := Move(entries, from, to);
        r := if fault.Fine? then Ok(true) else Err(IoFailed);
      }
    }

    /** Removing a missing entry succeeds; a failure may leave the root and some entries below it. */
    method RemoveTreeExpected(q: Path, expected: Option<Identity>) returns (r: Result<(), Error>)
      modifies this`entries, this`step, this`crashed
      ensures Shrinks(old(entries), entries, q)
      ensures r.Ok? ==> q !in entries && !crashed
      ensures !old(crashed) && plan(scope, old(step)) == Fault(false, Nothing) ==>
              r.Err? && entries == old(entries) && !crashed
      ensures old(crashed) ==> crashed && entries == old(entries)
      ensures old(Quiet()) ==> Quiet()
      ensures old(Quiet()) ==>
                (r.Ok? <==> (q in old(entries) && expected.Some? ==> old(entries)[q].identity == expected))
    {
      var fault := Strike();
      r := if fault.Fine? then Ok(()) else Err(IoFailed);
      if q !in entries {
        return;
      }
      if expected.Some? && entries[q].identity != expected {
        return Err(IdentityChanged);
      }
      if fault.Fine? || fault.effect == Done {
        entries := map p | p in entries && !Prefix(q, p) :: entries[p];
      } else if fault.effect.Partly? {
        entries := map p | p in entries && (Prefix(q, p) ==> p == q || p in fault.effect.kept) :: entries[p];
      }
    }

    // -------------------------------------------------------------- store

    method CreateJournal(j: Journal) returns (r: Result<(), Error>)
      modifies this`records, this`step, this`crashed
      ensures records == old(records) || (records == old(records) + [Valid(j)] && Insertable(old(records), j))
      ensures r.Ok? ==> records == old(records) + [Valid(j)] && Insertable(old(records), j) && !crashed
      ensures old(crashed) ==> crashed && records == old(records)
      ensures old(Quiet()) ==> Quiet() && (r.Ok? <==> Insertable(old(records), j))
    {
      if !ValidJournal(j) {
        return Err(InvalidJournal);
      }
      var fault := Strike();
      if fault.Fault? && fault.effect != Done {
        return Err(StoreFailed);
      }
      if !Insertable(records, j) {
        return Err(StoreConflict);
      }
      records := records + [Valid(j)];
      r := if fault.Fine? then Ok(()) else Err(StoreFailed);
    }

    method ReplaceJournal(expected: Journal, j: Journal) returns (r: Result<(), Error>)
      modifies this`records, this`step, this`crashed
      ensures records == old(records) ||
              (Valid(expected) in old(records) && records == Without(old(records), Valid(expected)) + [Valid(j)])
      ensures r.Ok? ==> !crashed && Valid(expected) in old(records) &&
                        records == Without(old(records), Valid(expected)) + [Valid(j)]
      ensures old(crashed) ==> crashed && records == old(records)
      ensures old(Quiet()) ==> Quiet()
      ensures old(Quiet()) && Replaceable(expected, j) ==> (r.Ok? <==> Valid(expected) in old(records))
      ensures r.Ok? || records != old(records) ==>
                && Valid(expected) in old(records) && ValidJournal(expected) && ValidJournal(j)
                && expected.id == j.id && expected.guru == j.guru && expected.target == j.target
                && !(j.updated < expected.updated)
    {
      if !Replaceable(expected, j) {
        return Err(InvalidJournal);
      }
      var fault := Strike();
      if fault.Fault? && fault.effect != Done {
        return Err(StoreFailed);
      }
      if Valid(expected) !in records {
        return Err(StoreConflict);
      }
      records := Without(records, Valid(expected)) + [Valid(j)];
      r := if fault.Fine? then Ok(()) else Err(StoreFailed);
    }

    method DeleteJournal(j: Journal) returns (r: Result<(), Error>)
      modifies this`records, this`step, this`crashed
      ensures records == old(records) || (Valid(j) in old(records) && records == Without(old(records), Valid(j)))
      ensures r.Ok? ==> !crashed && Valid(j) in old(records) && records == Without(old(records), Valid(j))
      ensures old(crashed) ==> crashed && records == old(records)
      ensures old(Quiet()) ==> Quiet()
      ensures old(Quiet()) && ValidJournal(j) ==> (r.Ok? <==> Valid(j) in old(records))
    {
      if !ValidJournal(j) {
        return Err(InvalidJournal);
      }
      var fault := Strike();
      if fault.Fault? && fault.effect != Done {
        return Err(StoreFailed);
      }
      if Valid(j) !in records {
        return Err(StoreConflict);
      }
      records := Without(records, Valid(j));
      r := if fault.Fine? then Ok(()) else Err(StoreFailed);
    }

    method ListJournals() returns (r: Result<seq<Record>, Error>)
      modifies this`step, this`crashed
      ensures r.Ok? ==> r.value == records && !crashed
      ensures old(crashed) ==> crashed
      ensures r.Ok? ==> plan(scope, old(step)).Fine?
      ensures !old(crashed) ==> (r.Ok? <==> plan(scope, old(step)).Fine?)
      ensures old(Quiet()) ==> Quiet()
    {
      var fault := Strike();
      r := if fault.Fine? then Ok(records) else Err(StoreFailed);
    }

    method GetGuru(id: string) returns (r: Result<bool, Error>)
      modifies this`step, this`crashed
      ensures r.Ok? ==> r.value == (id in gurus) && !crashed && plan(scope, old(step)).Fine?
      ensures !old(crashed) ==> (r.Ok? <==> plan(scope, old(step)).Fine?)
      ensures old(crashed) ==> crashed
      ensures old(Quiet()) ==> Quiet() && r.Ok?
    {
      var fault := Strike();
      r := if fault.Fine? then Ok(id in gurus) else Err(StoreFailed);
    }

    method GetChat(id: string) returns (r: Result<Option<ChatRow>, Error>)
      modifies this`step, this`crashed
      ensures r.Ok? ==> r.value == (if id in chats then Some(chats[id]) else None) && !crashed
      ensures !old(crashed) ==> (r.Ok? <==> plan(scope, old(step)).Fine?)
      ensures old(crashed) ==> crashed
      ensures old(Quiet()) ==> Quiet() && r.Ok?
    {
      var fault := Strike();
      r := if fault.Fine? then Ok(if id in chats then Some(chats[id]) else None) else Err(StoreFailed);
    }

    /**
     Removes the row if it is still the one the caller saw. A reported failure
     means the transaction did not commit; a crash may come after the commit.
     */
    method DeleteTarget(target: Target) returns (r: Result<(), Error>)
      modifies this`gurus, this`chats, this`step, this`crashed
      ensures (gurus, chats) == (old(gurus), old(chats)) ||
              (Current(old(gurus), old(chats), target) && (gurus, chats) == RowsWithout(old(gurus), old(chats), target))
      ensures r.Ok? ==> !crashed && Current(old(gurus), old(chats), target) &&
                        (gurus, chats) == RowsWithout(old(gurus), old(chats), target)
      ensures r.Err? && !crashed ==> gurus == old(gurus) && chats == old(chats)
      ensures old(crashed) ==> crashed && gurus == old(gurus) && chats == old(chats)
      ensures old(Quiet()) ==> Quiet() && (r.Ok? <==> Current(old(gurus), old(chats), target))
    {
      var fault := Strike();
      if fault.Fault? && !(fault.dies && fault.effect == Done) {
        return Err(StoreFailed);
      }
      if !Current(gurus, chats, target) {
        return Err(StoreConflict);
      }
      var rest := RowsWithout(gurus, chats, target);
      gurus, chats := rest.0, rest.1;
      r := if fault.Fine? then Ok(()) else Err(StoreFailed);
    }
  }

  /** The unique keys of the journal table allow this row. */
  predicate Insertable(records: seq<Record>, j: Journal) {
    ValidJournal(j) && forall r | r in records :: r.Id() != j.id && (r.GuruId(), r.TargetId()) != (j.guru, j.target)
  }

  predicate Replaceable(expected: Journal, j: Journal) {
    && ValidJournal(expected) && ValidJournal(j)
    && expected.id == j.id && expected.guru == j.guru && expected.target == j.target && j.updated >= expected.updated
  }

  predicate Current(gurus: map<string, string>, chats: map<string, ChatRow>, target: Target) {
    match target
    case ChatTarget(id, guru, data) => id in chats && chats[id] == ChatRow(guru, data)
    case GuruTarget(id, data) => id in gurus && gurus[id] == data
  }

  /** Deleting a Guru also deletes its Chats. */
  function RowsWithout(gurus: map<string, string>, chats: map<string, ChatRow>,
                       target: Target): (map<string, string>, map<string, ChatRow>) {
    match target
    case ChatTarget(id, _, _) => (gurus, chats - {id})
    case GuruTarget(id, _) => (gurus - {id}, map c | c in chats && chats[c].guru != id :: chats[c])
  }
}
