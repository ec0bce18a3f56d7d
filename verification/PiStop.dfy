/**
 The durable marker that quarantines a Chat's cache until a Pi process group is
 confirmed stopped
 (apps/guruterminal/src-tauri/src/chat_execution_session.rs:33-45, 122-245, 247-371).
 */
module PiStop {
  import opened Strings
  import opened Wrappers

  const I32_MAX: int := 0x7fff_ffff
  const MAX_MARKER_BYTES: nat := 64

  // ------------------------------------------------------------ the contents

  /** What record writes. */
  function MarkerText(group: nat): string {
    Decimal(group) + "\n"
  }

  /** `parse_unconfirmed_pi_stop`: digits and one newline, above 1, within i32. */
  function ParseMarker(contents: string): Option<nat> {
    if |contents| == 0 || contents[|contents| - 1] != '\n' then None
    else
      var value := contents[..|contents| - 1];
      if value == "" || exists c | c in value :: !IsDigit(c) then None
      else if Value(value) > I32_MAX || Value(value) <= 1 then None
      else Some(Value(value))
  }

  /** A process group that can be recorded. */
  predicate IsGroup(group: int) {
    1 < group <= I32_MAX
  }

  /** A complete marker reads back as the group it records. */
  lemma {:induction false} MarkerRoundTrip(group: nat)
    requires IsGroup(group)
    ensures ParseMarker(MarkerText(group)) == Some(group)
  {
    ValueDecimal(group);
    assert MarkerText(group)[..|MarkerText(group)| - 1] == Decimal(group);
  }

  /** A torn marker, cut off anywhere before its end, is never readable. */
  lemma {:induction false} TornMarkerRejected(group: nat, n: nat)
    requires n < |MarkerText(group)|
    ensures ParseMarker(MarkerText(group)[..n]) == None
  {
    ValueDecimal(group);
    var torn := MarkerText(group)[..n];
    if n > 0 {
      assert torn[n - 1] == Decimal(group)[n - 1] && Decimal(group)[n - 1] in Decimal(group);
    }
  }

  lemma {:induction false} DecimalLength(n: nat, digits: nat)
    requires digits > 0 && n < Power10(digits)
    ensures |Decimal(n)| <= digits
  {
    if n >= 10 {
      DecimalLength(n / 10, digits - 1);
    }
  }

  /** Every marker fits the size the reader accepts. */
  lemma {:induction false} MarkerFits(group: nat)
    requires IsGroup(group)
    ensures |MarkerText(group)| <= 11 <= MAX_MARKER_BYTES
  {
    assert Power10(5) == 100000 && Power10(10) == 100000 * Power10(5) by {
      assert Power10(10) == 10 * (10 * (10 * (10 * (10 * Power10(5)))));
      assert Power10(5) == 10 * (10 * (10 * (10 * (10 * Power10(0)))));
    }
    DecimalLength(group, 10);
  }

  // -------------------------------------------------------------- the session

  /** The marker file; trusted is what require_private_regular_marker asks for. */
  datatype Marker = Marker(contents: string, inode: nat, trusted: bool)

  /** A marker that was read: its group and the file it came from. */
  datatype Stop = Stop(group: nat, inode: nat)

  function ReadMarker(marker: Option<Marker>): Result<Option<Stop>, ()> {
    match marker
    case None => Ok(None)
    case Some(file) =>
      if !file.trusted || |file.contents| > MAX_MARKER_BYTES then Err(())
      else
        match ParseMarker(file.contents)
        case None => Err(())
        case Some(group) => Ok(Some(Stop(group, file.inode)))
  }

  /** Decimal digits and a line feed, naming a process group that can exist. */
  ghost predicate Spells(contents: string, group: int) {
    2 <= group <= 2147483647 && exists digits: seq<nat> :: |digits| > 0 && SpelledBy(contents, digits, group)
  }

  ghost predicate SpelledBy(contents: string, digits: seq<nat>, group: int) {
    && |contents| == |digits| + 1 && contents[|digits|] == '\n'
    && Digits(contents[..|digits|], digits) && Weighed(digits) == group
  }

  lemma {:induction false} ParseMeaning(contents: string, group: nat)
    ensures ParseMarker(contents) == Some(group) <==> Spells(contents, group)
  {
    if ParseMarker(contents) == Some(group) {
      var value := contents[..|contents| - 1];
      forall i | 0 <= i < |value|
        ensures IsDigit(value[i])
      {
        assert value[i] in value;
      }
      var digits: seq<nat> := seq(|value|, i requires 0 <= i < |value| => value[i] as int - 0x30);
      ValueMeaning(value, digits);
      assert SpelledBy(contents, digits, group);
    }
    if Spells(contents, group) {
      var digits: seq<nat> :| |digits| > 0 && SpelledBy(contents, digits, group);
      ValueMeaning(contents[..|digits|], digits);
    }
  }

  /** A marker is read if it is a small private file that spells a group, and not otherwise. */
  lemma {:induction false} ReadMeaning(marker: Option<Marker>, stop: Stop)
    ensures ReadMarker(marker) == Ok(Some(stop)) <==>
            && marker.Some? && marker.value.trusted && |marker.value.contents| <= 64
            && marker.value.inode == stop.inode && Spells(marker.value.contents, stop.group)
    ensures ReadMarker(marker) == Ok(None) <==> marker == None
  {
    if marker.Some? {
      ParseMeaning(marker.value.contents, stop.group);
    }
  }

  /** The marker keeps the cache closed for this group: it names it or is unreadable. */
  predicate Guards(marker: Option<Marker>, group: int) {
    marker.Some? && (ReadMarker(marker).Err? || ReadMarker(marker).value.value.group == group)
  }

  /** How a record ends: written and synced, or cut off after some characters. */
  datatype Writing = Complete | CutOff(written: nat)

  // --------------------------------------------- what each call does, by value

  /** The fields of a session; the marker and the cache are on disk. */
  datatype Session = Session(marker: Option<Marker>, nextInode: nat, pinned: bool, cache: string)

  /** A marker that names this group can be read. */
  predicate Names(marker: Option<Marker>, group: int) {
    var read := ReadMarker(marker);
    read.Ok? && read.value.Some? && read.value.value.group == group
  }

  function Written(group: nat, writing: Writing): string {
    if writing.CutOff? && writing.written < |MarkerText(group)| then MarkerText(group)[..writing.written]
    else MarkerText(group)
  }

  function AfterRecord(s: Session, group: int, writing: Writing): (Session, bool) {
    if !s.pinned || !IsGroup(group) then (s, false)
    else if s.marker.Some? then (s, Names(s.marker, group))
    else
      (s.(marker := Some(Marker(Written(group, writing), s.nextInode, true)), nextInode := s.nextInode + 1),
       writing.Complete?)
  }

  function AfterResolve(s: Session, read: Stop, confirmed: bool, unlinked: bool): (Session, bool) {
    if !confirmed || ReadMarker(s.marker).Err? then (s, false)
    else if s.marker.None? then (s, true)
    else if ReadMarker(s.marker) == Ok(Some(read)) && unlinked then (s.(marker := None), true)
    else (s, false)
  }

  function AfterWipe(s: Session, removed: bool, recreated: bool): (Session, bool) {
    if !s.pinned || s.marker.Some? then (s, false)
    else if !removed then (s.(pinned := false), false)
    else if !recreated then (s.(pinned := false, cache := ""), false)
    else (s.(cache := ""), true)
  }

  class ChatExecutionSession {
    var marker: Option<Marker>
    var nextInode: nat
    var pinned: bool
    var cache: string

    /** Groups whose record took effect and that were not confirmed stopped since. */
    ghost var owed: set<int>

    ghost predicate Safe()
      reads this
    {
      && (forall group :: group in owed ==> Guards(marker, group))
      && (marker.Some? ==> marker.value.inode < nextInode)
    }

    ghost function Now(): Session
      reads this
    {
      Session(marker, nextInode, pinned, cache)
    }

    constructor (cache: string)
      ensures Now() == Session(None, 0, true, cache)
      ensures Safe() && owed == {} && marker == None && pinned && this.cache == cache
    {
      marker, nextInode, pinned, this.cache, owed := None, 0, true, cache, {};
    }

    /** `prepare` pins the directories again; the marker is durable. */
    method Prepare()
      requires Safe()
      modifies this`pinned
      ensures Safe() && pinned
    {
      pinned := true;
    }

    /** `record_unconfirmed_pi_stop`; a cut-off write leaves a torn marker behind. */
    method Record(group: int, writing: Writing) returns (ok: bool)
      requires Safe()
      modifies this`marker, this`nextInode, this`owed
      ensures Safe() && owed == if ok || marker != old(marker) then old(owed) + {group} else old(owed)
      ensures (Now(), ok) == AfterRecord(old(Now()), group, writing)
      ensures ok ==> pinned && IsGroup(group) && group in owed && ReadMarker(marker).Ok? &&
                     ReadMarker(marker).value.Some? && ReadMarker(marker).value.value.group == group
      ensures old(marker).Some? ==> marker == old(marker)
      ensures marker != old(marker) ==>
                && 2 <= group <= 2147483647 && group in owed
                && marker.value.contents <= Decimal(group) + "\n" && marker.value.inode == old(nextInode)
      ensures ok ==> Spells(marker.value.contents, group)
      ensures writing.Complete? ==>
                (ok <==> pinned && IsGroup(group) &&
                         (old(marker).None? || (ReadMarker(old(marker)).Ok? &&
                                                ReadMarker(old(marker)).value.value.group == group)))
    {
      if !pinned {
        return false;
      }
      if group <= 1 || group > I32_MAX {
        return false;
      }
      if marker.Some? {
        var existing := ReadMarker(marker);
        if existing.Err? {
          return false;
        }
        ok := existing.value.value.group == group;
        if ok {
          owed := owed + {group};
          ReadMeaning(marker, existing.value.value);
        }
        return;
      }
      MarkerRoundTrip(group);
      MarkerFits(group);
      var text := MarkerText(group);
      if writing.CutOff? && writing.written < |text| {
        TornMarkerRejected(group, writing.written);
        marker := Some(Marker(text[..writing.written], nextInode, true));
        ok := false;
      } else {
        marker := Some(Marker(text, nextInode, true));
        ReadMeaning(marker, Stop(group, nextInode));
        ok := writing.Complete?;
      }
      nextInode := nextInode + 1;
      owed := owed + {group};
    }

    /** The start of a resolve, up to the wait for the process group. */
    method BeginResolve() returns (read: Result<Option<Stop>, ()>)
      requires Safe()
      ensures read == if !pinned then Err(()) else ReadMarker(marker)
      ensures read.Ok? && read.value.None? ==> owed == {}
      ensures read.Ok? && read.value.Some? ==>
                && pinned && marker.Some? && marker.value.trusted && |marker.value.contents| <= 64
                && marker.value.inode == read.value.value.inode
                && Spells(marker.value.contents, read.value.value.group)
    {
      if !pinned {
        return Err(());
      }
      read := ReadMarker(marker);
      if read.Ok? && read.value.None? {
        assert forall group :: group !in owed;
      } else if read.Ok? {
        ReadMeaning(marker, read.value.value);
      }
    }

    /**
     The end of a resolve: the group was confirmed stopped or not. Whatever happened
     during the wait, only the marker that was read may be removed.
     */
    method FinishResolve(read: Stop, confirmed: bool, unlinked: bool) returns (ok: bool)
      requires Safe()
      modifies this`marker, this`owed
      ensures Safe()
      ensures (Now(), ok) == AfterResolve(old(Now()), read, confirmed, unlinked)
      ensures owed == if confirmed then old(owed) - {read.group as int} else old(owed)
      ensures marker != old(marker) ==>
                marker.None? && confirmed && ReadMarker(old(marker)) == Ok(Some(read))
      ensures ok ==> confirmed && marker.None?
    {
      if !confirmed {
        return false;
      }
      owed := owed - {read.group as int};
      ok := ClearUnconfirmedPiStop(read, unlinked);
    }

    method ClearUnconfirmedPiStop(read: Stop, unlinked: bool) returns (ok: bool)
      requires Safe() && read.group as int !in owed
      modifies this`marker
      ensures Safe()
      ensures (Now(), ok) == AfterResolve(old(Now()), read, true, unlinked)
      ensures marker == old(marker) || (marker.None? && ReadMarker(old(marker)) == Ok(Some(read)))
      ensures ok ==> marker.None?
    {
      var current := ReadMarker(marker);
      if current.Err? {
        return false;
      }
      if current.value.None? {
        return true;
      }
      if current.value.value.group != read.group || current.value.value.inode != read.inode {
        return false;
      }
      if !unlinked {
        return false;
      }
      assert forall group :: group in owed ==> group == read.group as int;
      marker := None;
      ok := true;
    }

    /** `wipe`: the cache is emptied only when no marker stands. */
    method Wipe(removed: bool, recreated: bool) returns (ok: bool)
      requires Safe()
      modifies this`pinned, this`cache
      ensures Safe()
      ensures (Now(), ok) == AfterWipe(old(Now()), removed, recreated)
      ensures ok ==> owed == {} && marker == None && cache == "" && pinned
      ensures owed != {} ==> !ok && cache == old(cache) && pinned == old(pinned)
      ensures cache != old(cache) ==> owed == {}
      ensures ok <==> old(pinned) && marker.None? && removed && recreated
    {
      if !pinned {
        return false;
      }
      var read := ReadMarker(marker);
      if read.Err? || read.value.Some? {
        return false;
      }
      assert forall group :: group !in owed;
      pinned := false;
      if !removed {
        return false;
      }
      cache := "";
      if !recreated {
        return false;
      }
      pinned := true;
      ok := true;
    }
  }

  // --------------------------------------------------------------------- runs

  /** One thing that happens to the Chat; resolves overlap with everything else. */
  datatype Action =
    | Record(group: int, writing: Writing)
    | Prepare
    | BeginResolve
    | FinishResolve(index: nat, confirmed: bool, unlinked: bool)
    | Wipe(removed: bool, recreated: bool)

  /** What a run shows: a record that took effect, a confirmed stop, a wipe that succeeded. */
  datatype Event = Recorded(group: int) | Confirmed(group: int) | Wiped

  /** Every record before i was followed, before i, by a confirmed stop of its group. */
  ghost predicate AllConfirmed(log: seq<Event>, i: nat)
    requires i <= |log|
  {
    forall k: nat :: k < i && log[k].Recorded? ==> exists j :: k < j < i && log[j] == Confirmed(log[k].group)
  }

  /** No wipe in the run came before the confirmed stop of a recorded group. */
  ghost predicate WipesConfirmed(log: seq<Event>) {
    forall i: nat :: i < |log| && log[i] == Wiped ==> AllConfirmed(log, i)
  }

  /** A record of this group that no confirmed stop follows. */
  ghost predicate Unconfirmed(log: seq<Event>, k: nat) {
    k < |log| && log[k].Recorded? && forall j :: k < j < |log| ==> log[j] != Confirmed(log[k].group)
  }

  /** The owed groups are those recorded and not confirmed since. */
  ghost predicate Accounts(owed: set<int>, log: seq<Event>) {
    forall k: nat :: Unconfirmed(log, k) ==> log[k].group in owed
  }

  /** The owed groups after an event. */
  function Owes(owed: set<int>, event: Event): set<int> {
    match event
    case Recorded(group) => owed + {group}
    case Confirmed(group) => owed - {group}
    case Wiped => owed
  }

  lemma {:induction false} AccountsNext(owed: set<int>, log: seq<Event>, event: Event)
    requires Accounts(owed, log)
    ensures Accounts(Owes(owed, event), log + [event])
  {
    var more := log + [event];
    forall k: nat | Unconfirmed(more, k)
      ensures more[k].group in Owes(owed, event)
    {
      assert more[|log|] == event;
      if k < |log| {
        assert more[k] == log[k] && forall j :: k < j < |log| ==> more[j] == log[j];
        assert Unconfirmed(log, k);
      }
    }
  }

  lemma {:induction false} ConfirmedPrefix(log: seq<Event>, event: Event, i: nat)
    requires i <= |log| && AllConfirmed(log, i)
    ensures AllConfirmed(log + [event], i)
  {
    var more := log + [event];
    forall k: nat | k < i && more[k].Recorded?
      ensures exists j :: k < j < i && more[j] == Confirmed(more[k].group)
    {
      var j :| k < j < i && log[j] == Confirmed(log[k].group);
      assert more[j] == log[j];
    }
  }

  lemma {:induction false} NothingOwed(log: seq<Event>)
    requires Accounts({}, log)
    ensures AllConfirmed(log, |log|)
  {
    forall k: nat | k < |log| && log[k].Recorded?
      ensures exists j :: k < j < |log| && log[j] == Confirmed(log[k].group)
    {
      assert !Unconfirmed(log, k);
    }
  }

  /** A wipe is only logged when nothing is owed. */
  lemma {:induction false} WipesNext(owed: set<int>, log: seq<Event>, event: Event)
    requires Accounts(owed, log) && WipesConfirmed(log) && (event == Wiped ==> owed == {})
    ensures WipesConfirmed(log + [event])
  {
    var more := log + [event];
    forall i: nat | i < |more| && more[i] == Wiped
      ensures AllConfirmed(more, i)
    {
      if i < |log| {
        assert log[i] == Wiped;
      } else {
        NothingOwed(log);
      }
      ConfirmedPrefix(log, event, i);
    }
  }

  /** The groups owed after a whole log. */
  function Owed(log: seq<Event>): set<int> {
    if |log| == 0 then {} else Owes(Owed(log[..|log| - 1]), log[|log| - 1])
  }

  lemma {:induction false} OwedAccounts(log: seq<Event>)
    ensures Accounts(Owed(log), log)
  {
    if |log| > 0 {
      OwedAccounts(log[..|log| - 1]);
      AccountsNext(Owed(log[..|log| - 1]), log[..|log| - 1], log[|log| - 1]);
      assert log == log[..|log| - 1] + [log[|log| - 1]];
    }
  }

  /** A run so far: the session, the resolves that wait, and what was shown. */
  datatype History = History(session: Session, waiting: seq<Stop>, log: seq<Event>)

  /** One action, with the event it shows: a record that took effect, a confirmed stop, a wipe. */
  function Does(h: History, action: Action): History {
    match action
    case Record(group, writing) =>
      var (after, ok) := AfterRecord(h.session, group, writing);
      History(after, h.waiting, h.log + if ok || after.marker != h.session.marker then [Recorded(group)] else [])
    case Prepare => h.(session := h.session.(pinned := true))
    case BeginResolve =>
      var read := ReadMarker(h.session.marker);
      if h.session.pinned && read.Ok? && read.value.Some? then h.(waiting := h.waiting + [read.value.value]) else h
    case FinishResolve(index, confirmed, unlinked) =>
      if index >= |h.waiting| then h
      else
        var read := h.waiting[index];
        History(AfterResolve(h.session, read, confirmed, unlinked).0, h.waiting[..index] + h.waiting[index + 1..],
                h.log + if confirmed then [Confirmed(read.group)] else [])
    case Wipe(removed, recreated) =>
      var (after, ok) := AfterWipe(h.session, removed, recreated);
      History(after, h.waiting, h.log + if ok then [Wiped] else [])
  }

  function Play(cache: string, actions: seq<Action>): History {
    if |actions| == 0 then History(Session(None, 0, true, cache), [], [])
    else Does(Play(cache, actions[..|actions| - 1]), actions[|actions| - 1])
  }

  /** Every owed group is guarded by the marker, and no wipe came too early. */
  ghost predicate Guarded(h: History) {
    && (forall group :: group in Owed(h.log) ==> Guards(h.session.marker, group))
    && WipesConfirmed(h.log)
  }

  lemma {:induction false} OwedNext(log: seq<Event>, event: Event)
    ensures Owed(log + [event]) == Owes(Owed(log), event)
    ensures log + [] == log
  {
    assert (log + [event])[..|log|] == log;
  }

  /** A new marker, torn or not, guards the group it was written for. */
  lemma {:induction false} WrittenGuards(group: nat, writing: Writing, inode: nat)
    requires IsGroup(group)
    ensures Guards(Some(Marker(Written(group, writing), inode, true)), group)
  {
    MarkerRoundTrip(group);
    MarkerFits(group);
    if writing.CutOff? && writing.written < |MarkerText(group)| {
      TornMarkerRejected(group, writing.written);
    }
  }

  lemma {:induction false} RecordGuarded(h: History, group: int, writing: Writing)
    requires Guarded(h)
    ensures Guarded(Does(h, Record(group, writing)))
  {
    var (after, ok) := AfterRecord(h.session, group, writing);
    if ok || after.marker != h.session.marker {
      OwedNext(h.log, Recorded(group));
      OwedAccounts(h.log);
      WipesNext(Owed(h.log), h.log, Recorded(group));
      if h.session.marker.None? {
        WrittenGuards(group, writing, h.session.nextInode);
      }
    } else {
      assert h.log + [] == h.log;
    }
  }

  lemma {:induction false} ResolveGuarded(h: History, index: nat, confirmed: bool, unlinked: bool)
    requires Guarded(h)
    ensures Guarded(Does(h, FinishResolve(index, confirmed, unlinked)))
  {
    if index < |h.waiting| && confirmed {
      var event := Confirmed(h.waiting[index].group);
      OwedNext(h.log, event);
      OwedAccounts(h.log);
      WipesNext(Owed(h.log), h.log, event);
    } else {
      assert h.log + [] == h.log;
    }
  }

  lemma {:induction false} WipeGuarded(h: History, removed: bool, recreated: bool)
    requires Guarded(h)
    ensures Guarded(Does(h, Wipe(removed, recreated)))
  {
    if AfterWipe(h.session, removed, recreated).1 {
      assert h.session.marker.None?;
      forall group
        ensures group !in Owed(h.log)
      {
        assert !Guards(h.session.marker, group);
      }
      assert Owed(h.log) == {};
      OwedNext(h.log, Wiped);
      OwedAccounts(h.log);
      WipesNext(Owed(h.log), h.log, Wiped);
    } else {
      assert h.log + [] == h.log;
    }
  }

  /**
   In every run, resolves overlapping with everything else, each recorded group was
   confirmed stopped, after its record, before any wipe succeeded.
   */
  lemma {:induction false} RunGuarded(cache: string, actions: seq<Action>)
    ensures Guarded(Play(cache, actions))
  {
    if |actions| > 0 {
      var h := Play(cache, actions[..|actions| - 1]);
      RunGuarded(cache, actions[..|actions| - 1]);
      match actions[|actions| - 1] {
        case Record(group, writing) => RecordGuarded(h, group, writing);
        case FinishResolve(index, confirmed, unlinked) => ResolveGuarded(h, index, confirmed, unlinked);
        case Wipe(removed, recreated) => WipeGuarded(h, removed, recreated);
        case _ =>
      }
    }
  }

  /** After any run, a wipe that succeeds or empties the cache finds every record confirmed and says so. */
  lemma {:induction false} WipeNeedsStops(cache: string, actions: seq<Action>, removed: bool, recreated: bool)
    ensures var h := Play(cache, actions);
            var after, ok := AfterWipe(h.session, removed, recreated).0, AfterWipe(h.session, removed, recreated).1;
            && (ok || after.cache != h.session.cache ==> AllConfirmed(h.log, |h.log|))
            && Does(h, Wipe(removed, recreated)).log == (if ok then h.log + [Wiped] else h.log)
            && (ok ==> after.cache == "" && after.marker == None && after.pinned)
  {
    var h := Play(cache, actions);
    RunGuarded(cache, actions);
    if h.session.marker.None? {
      forall group
        ensures group !in Owed(h.log)
      {
        assert !Guards(h.session.marker, group);
      }
      assert Owed(h.log) == {};
      OwedAccounts(h.log);
      NothingOwed(h.log);
    }
    assert h.log + [] == h.log;
  }

  /** The object is in the state the history says. */
  ghost predicate Matches(session: ChatExecutionSession, h: History)
    reads session
  {
    session.Safe() && session.Now() == h.session && session.owed == Owed(h.log)
  }

  method PerformRecord(session: ChatExecutionSession, group: int, writing: Writing, ghost h: History)
    requires Matches(session, h)
    modifies session
    ensures Matches(session, Does(h, Record(group, writing)))
  {
    OwedNext(h.log, Recorded(group));
    var _ := session.Record(group, writing);
  }

  method PerformResolve(session: ChatExecutionSession, index: nat, confirmed: bool, unlinked: bool, h: History)
    requires Matches(session, h)
    modifies session
    ensures Matches(session, Does(h, FinishResolve(index, confirmed, unlinked)))
  {
    if index < |h.waiting| {
      OwedNext(h.log, Confirmed(h.waiting[index].group));
      var _ := session.FinishResolve(h.waiting[index], confirmed, unlinked);
    }
  }

  method PerformWipe(session: ChatExecutionSession, removed: bool, recreated: bool, ghost h: History)
    requires Matches(session, h)
    modifies session
    ensures Matches(session, Does(h, Wipe(removed, recreated)))
  {
    OwedNext(h.log, Wiped);
    var _ := session.Wipe(removed, recreated);
  }

  /** Does one action on the object; what is owed changes exactly as the event says. */
  method Perform(session: ChatExecutionSession, action: Action, h: History) returns (next: History)
    requires Matches(session, h)
    modifies session
    ensures next == Does(h, action) && Matches(session, next)
  {
    next := Does(h, action);
    match action {
      case Record(group, writing) => PerformRecord(session, group, writing, h);
      case Prepare => session.Prepare();
      case BeginResolve => var _ := session.BeginResolve();
      case FinishResolve(index, confirmed, unlinked) => PerformResolve(session, index, confirmed, unlinked, h);
      case Wipe(removed, recreated) => PerformWipe(session, removed, recreated, h);
    }
  }

  /** An object put through any actions is the session of that run. */
  method Run(cache: string, actions: seq<Action>) returns (session: ChatExecutionSession, history: History)
    ensures fresh(session) && history == Play(cache, actions) && Matches(session, history)
  {
    session := new ChatExecutionSession(cache);
    history := History(Session(None, 0, true, cache), [], []);
    for i := 0 to |actions|
      invariant fresh(session) && history == Play(cache, actions[..i]) && Matches(session, history)
    {
      assert actions[..i + 1][..i] == actions[..i];
      history := Perform(session, actions[i], history);
    }
    assert actions[..|actions|] == actions;
  }
}
