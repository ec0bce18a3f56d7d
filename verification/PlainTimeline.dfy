/**
 The chat timeline without any bookkeeping: a list of items found by ID. The
 projection with its index map shows exactly this timeline
 (apps/guruterminal/src-tauri/src/chat_progress.rs:346-486, 522-596).
 */
module PlainTimeline {
  import opened Lists
  import opened Progress
  import opened Projection
  import opened Timeline
  import opened Watching
  import opened Wrappers

  datatype Plain = Plain(
    items: seq<Item>, next: nat, open: Option<ItemId>, tools: map<string, ItemId>, systems: map<string, ItemId>,
    startedAt: int, finishedAt: Option<int>)

  function Edit(id: ItemId, f: Item -> Item): Item -> Item {
    (item: Item) => if item.id == id then f(item) else item
  }

  /** The items with one of them, found by its ID, changed. */
  function Edited(items: seq<Item>, id: ItemId, f: Item -> Item): seq<Item> {
    Map(Edit(id, f), items)
  }

  function Extend(delta: string): Item -> Item {
    (item: Item) => if item.Commentary? then item.(text := item.text + delta) else item
  }

  function EndTool(failed: bool, at: int): Item -> Item {
    (item: Item) =>
      match item
      case Tool(id, presentation, _, started, _) =>
        Tool(id, presentation, if failed then Failed else Succeeded, started,
             Some(if at < started then started else at))
      case _ => item
  }

  function EndSystem(failed: bool, at: int): Item -> Item {
    (item: Item) =>
      match item
      case System(id, presentation, _, started, _) =>
        System(id, presentation, if failed then Failed else Succeeded, started,
               Some(if at < started then started else at))
      case _ => item
  }

  /** Running items stop or fail, and items without an end get one. */
  function Shut(at: int, stopped: bool): Item -> Item {
    (item: Item) =>
      if item.Commentary? || (item.status != Running && item.finished.Some?) then item
      else
        item.(status := if item.status == Running then (if stopped then Stopped else Failed) else item.status,
              finished := if item.finished.Some? then item.finished
                          else Some(if at < item.started then item.started else at))
  }

  /** What each call means for the timeline. */
  function Does(p: Plain, call: Call): Plain {
    match call
    case StartTurn => p.(open := None)
    case Append(delta) =>
      if delta == "" then p
      else if p.open.Some? then p.(items := Edited(p.items, p.open.value, Extend(delta)))
      else
        var id := ItemId(ForCommentary, p.next);
        p.(items := p.items + [Commentary(id, delta)], next := p.next + 1, open := Some(id))
    case FinishTurn(isFinal) =>
      if isFinal && p.open.Some? then p.(items := Filter(Other(p.open.value), p.items), open := None)
         else p.(open := None)
    case StartTool(callId, presentation, at) =>
      var id := ItemId(ForTool, p.next);
      p.(items := p.items + [Tool(id, presentation, Running, if at < 0 then 0 else at, None)], next := p.next + 1,
         open := None,
         tools := p.tools[callId := id])
    case FinishTool(callId, failed, at) =>
      if callId !in p.tools then p
      else p.(items := Edited(p.items, p.tools[callId], EndTool(failed, at)), tools := p.tools - {callId})
    case StartSystem(key, presentation, at) =>
      var id := ItemId(ForSystem, p.next);
      p.(items := p.items + [System(id, presentation, Running, if at < 0 then 0 else at, None)], next := p.next + 1,
         open := None,
         systems := p.systems[key := id])
    case FinishSystem(key, failed, at) =>
      if key !in p.systems then p
      else p.(items := Edited(p.items, p.systems[key], EndSystem(failed, at)), systems := p.systems - {key})
    case Finish(at, stopped) =>
      var closedAt := if at < p.startedAt then p.startedAt else at;
      p.(items := Map(Shut(closedAt, stopped), p.items), open := None, finishedAt := Some(closedAt))
    case TakePatch => p
  }

  function Play(startedAt: int, calls: seq<Call>): Plain {
    if |calls| == 0 then Plain([], 1, None, map[], map[], startedAt, None)
    else Does(Play(startedAt, calls[..|calls| - 1]), calls[|calls| - 1])
  }

  /** The projection without its bookkeeping. */
  function PlainOf(b: Book): Plain {
    Plain(b.items, b.nextItem, b.active, b.toolItems, b.systemItems, b.startedAt, b.finishedAt)
  }

  lemma {:induction false} EditedAt(items: seq<Item>, i: nat, f: Item -> Item)
    requires UniqueIds(items) && i < |items|
    ensures Edited(items, items[i].id, f) == items[i := f(items[i])]
  {
    forall k | 0 <= k < |items| && k != i
      ensures items[k].id != items[i].id
    {
    }
  }

  lemma {:induction false} EditedNowhere(items: seq<Item>, id: ItemId, f: Item -> Item)
    requires IndexOf(items, id).None?
    ensures Edited(items, id, f) == items
  {
  }

  /** Editing by ID is editing at the indexed place. */
  lemma {:induction false} EditedPlace(b: Book, shown: seq<Item>, id: ItemId, f: Item -> Item)
    requires Sound(b, shown)
    ensures Edited(b.items, id, f) ==
            match PlaceOf(b, id) case None => b.items case Some(i) => b.items[i := f(b.items[i])]
  {
    PlaceIsIndex(b.items, b.indices, id);
    match PlaceOf(b, id) {
      case None => EditedNowhere(b.items, id, f);
      case Some(i) => EditedAt(b.items, i, f);
    }
  }

  lemma {:induction false} RemovedAt(items: seq<Item>, i: nat)
    requires UniqueIds(items) && i < |items|
    ensures Filter(Other(items[i].id), items) == Cut(items, i)
  {
    OthersDiffer(items, i);
    assert items == items[..i] + [items[i]] + items[i + 1..];
    FilterMiddle(Other(items[i].id), items[..i], items[i], items[i + 1..]);
  }

  lemma {:induction false} RemovedNowhere(items: seq<Item>, id: ItemId)
    requires IndexOf(items, id).None?
    ensures Filter(Other(id), items) == items
  {
    AbsentIndex(items, id);
    FilterAll(Other(id), items);
  }

  lemma {:induction false} RemovedPlace(b: Book, shown: seq<Item>, id: ItemId)
    requires Sound(b, shown)
    ensures Filter(Other(id), b.items) == match PlaceOf(b, id) case None => b.items case Some(i) => Cut(b.items, i)
  {
    PlaceIsIndex(b.items, b.indices, id);
    match PlaceOf(b, id) {
      case None => RemovedNowhere(b.items, id);
      case Some(i) => RemovedAt(b.items, i);
    }
  }

  lemma {:induction false} AppendIsPlain(b: Book, shown: seq<Item>, delta: string)
    requires Sound(b, shown)
    ensures PlainOf(Appended(b, delta)) == Does(PlainOf(b), Append(delta))
  {
    if b.active.Some? {
      EditedPlace(b, shown, b.active.value, Extend(delta));
    }
  }

  lemma {:induction false} TurnIsPlain(b: Book, shown: seq<Item>, isFinal: bool)
    requires Sound(b, shown)
    ensures PlainOf(TurnFinished(b, isFinal)) == Does(PlainOf(b), FinishTurn(isFinal))
  {
    if isFinal && b.active.Some? {
      RemovedPlace(b, shown, b.active.value);
    }
  }

  lemma {:induction false} SameItem(items: seq<Item>, i: nat)
    requires i < |items|
    ensures items[i := items[i]] == items
  {
  }

  lemma {:induction false} EndedTool(item: Item, failed: bool, at: int)
    ensures EndTool(failed, at)(item) == if item.Tool? then Ended(item, failed, at) else item
  {
  }

  lemma {:induction false} EndedSystem(item: Item, failed: bool, at: int)
    ensures EndSystem(failed, at)(item) == if item.System? then Ended(item, failed, at) else item
  {
  }

  lemma {:induction false} ToolIsPlain(b: Book, shown: seq<Item>, callId: string, failed: bool, at: int)
    requires Sound(b, shown)
    ensures PlainOf(ToolFinished(b, callId, failed, at)) == Does(PlainOf(b), FinishTool(callId, failed, at))
  {
    if callId in b.toolItems {
      var id := b.toolItems[callId];
      EditedPlace(b, shown, id, EndTool(failed, at));
      if PlaceOf(b, id).Some? {
        EndedTool(b.items[PlaceOf(b, id).value], failed, at);
        SameItem(b.items, PlaceOf(b, id).value);
      }
    }
  }

  lemma {:induction false} SystemIsPlain(b: Book, shown: seq<Item>, key: string, failed: bool, at: int)
    requires Sound(b, shown)
    ensures PlainOf(SystemFinished(b, key, failed, at)) == Does(PlainOf(b), FinishSystem(key, failed, at))
  {
    if key in b.systemItems {
      var id := b.systemItems[key];
      EditedPlace(b, shown, id, EndSystem(failed, at));
      if PlaceOf(b, id).Some? {
        EndedSystem(b.items[PlaceOf(b, id).value], failed, at);
        SameItem(b.items, PlaceOf(b, id).value);
      }
    }
  }

  lemma {:induction false} FinishIsPlain(b: Book, at: int, stopped: bool)
    ensures PlainOf(Finished(b, at, stopped)) == Does(PlainOf(b), Finish(at, stopped))
  {
    var closedAt := Later(at, b.startedAt);
    assert Close(b.items, closedAt, stopped) == Map(Shut(closedAt, stopped), b.items);
  }

  /** Every call of the projection does to the timeline what it means. */
  lemma {:induction false} PerformIsPlain(b: Book, shown: seq<Item>, call: Call)
    requires Sound(b, shown)
    ensures PlainOf(Perform(b, call)) == Does(PlainOf(b), call)
  {
    match call {
      case Append(delta) => AppendIsPlain(b, shown, delta);
      case FinishTurn(isFinal) => TurnIsPlain(b, shown, isFinal);
      case FinishTool(callId, failed, at) => ToolIsPlain(b, shown, callId, failed, at);
      case FinishSystem(key, failed, at) => SystemIsPlain(b, shown, key, failed, at);
      case Finish(at, stopped) => FinishIsPlain(b, at, stopped);
      case _ => RestIsPlain(b, call);
    }
  }

  lemma {:induction false} RestIsPlain(b: Book, call: Call)
    requires call.StartTurn? || call.StartTool? || call.StartSystem? || call.TakePatch?
    ensures PlainOf(Perform(b, call)) == Does(PlainOf(b), call)
  {
  }

  /** In every run the projection shows the plain timeline of its calls. */
  lemma {:induction false} RunIsPlain(startedAt: int, calls: seq<Call>)
    requires |Patches(startedAt, calls)| < U64_MAX
    ensures PlainOf(Run(startedAt, calls)) == Play(startedAt, calls)
  {
    if |calls| > 0 {
      var front, call := calls[..|calls| - 1], calls[|calls| - 1];
      RunInStep(startedAt, front);
      RunIsPlain(startedAt, front);
      PerformIsPlain(Run(startedAt, front), Watched(Patches(startedAt, front)).items, call);
    }
  }

  // ------------------------------------------------------------ order of items

  /** Items stand in the order in which they were started. */
  ghost predicate InOrder(items: seq<Item>, next: nat) {
    && (forall i, j :: 0 <= i < j < |items| ==> items[i].id.number < items[j].id.number)
    && (forall item :: item in items ==> item.id.number < next)
  }

  lemma {:induction false} PushInOrder(items: seq<Item>, next: nat, item: Item)
    requires InOrder(items, next) && item.id.number == next
    ensures InOrder(items + [item], next + 1)
  {
    forall i | 0 <= i < |items|
      ensures items[i].id.number < next
    {
      assert items[i] in items;
    }
  }

  lemma {:induction false} FilterInOrder(items: seq<Item>, next: nat, keep: Item -> bool)
    requires InOrder(items, next)
    ensures InOrder(Filter(keep, items), next)
  {
    if |items| > 0 {
      var front, last := items[..|items| - 1], items[|items| - 1];
      assert InOrder(front, next);
      FilterInOrder(front, next, keep);
      forall x | x in Filter(keep, front)
        ensures x.id.number < last.id.number
      {
        var i :| 0 <= i < |front| && front[i] == x;
        assert items[i] == x;
      }
    }
  }

  lemma {:induction false} MapInOrder(items: seq<Item>, next: nat, f: Item -> Item)
    requires InOrder(items, next) && forall item :: f(item).id == item.id
    ensures InOrder(Map(f, items), next)
  {
    var mapped := Map(f, items);
    forall i | 0 <= i < |mapped|
      ensures mapped[i].id == items[i].id && items[i].id.number < next
    {
      assert items[i] in items;
    }
  }

  lemma {:induction false} EditInOrder(items: seq<Item>, next: nat, id: ItemId, f: Item -> Item)
    requires InOrder(items, next) && forall item :: f(item).id == item.id
    ensures InOrder(Edited(items, id, f), next)
  {
    MapInOrder(items, next, Edit(id, f));
  }

  lemma {:induction false} StartInOrder(p: Plain, call: Call)
    requires call.StartTool? || call.StartSystem?
    requires InOrder(p.items, p.next)
    ensures InOrder(Does(p, call).items, Does(p, call).next)
  {
    match call {
      case StartTool(callId, presentation, at) =>
        PushInOrder(p.items, p.next, Tool(ItemId(ForTool, p.next), presentation, Running, Later(at, 0), None));
      case StartSystem(key, presentation, at) =>
        PushInOrder(p.items, p.next, System(ItemId(ForSystem, p.next), presentation, Running, Later(at, 0), None));
    }
  }

  lemma {:induction false} AppendInOrder(p: Plain, delta: string)
    requires InOrder(p.items, p.next)
    ensures InOrder(Does(p, Append(delta)).items, Does(p, Append(delta)).next)
  {
    if p.open.Some? {
      EditInOrder(p.items, p.next, p.open.value, Extend(delta));
    } else {
      PushInOrder(p.items, p.next, Commentary(ItemId(ForCommentary, p.next), delta));
    }
  }

  lemma {:induction false} EndInOrder(p: Plain, call: Call)
    requires call.FinishTool? || call.FinishSystem? || call.Finish?
    requires InOrder(p.items, p.next)
    ensures InOrder(Does(p, call).items, Does(p, call).next)
  {
    match call {
      case FinishTool(callId, failed, at) =>
        if callId in p.tools {
          EditInOrder(p.items, p.next, p.tools[callId], EndTool(failed, at));
        }
      case FinishSystem(key, failed, at) =>
        if key in p.systems {
          EditInOrder(p.items, p.next, p.systems[key], EndSystem(failed, at));
        }
      case Finish(at, stopped) => MapInOrder(p.items, p.next, Shut(Later(at, p.startedAt), stopped));
    }
  }

  lemma {:induction false} CallInOrder(p: Plain, call: Call)
    requires InOrder(p.items, p.next)
    ensures InOrder(Does(p, call).items, Does(p, call).next)
  {
    if call.Append? {
      AppendInOrder(p, call.delta);
    } else if call.StartTool? || call.StartSystem? {
      StartInOrder(p, call);
    } else if call.FinishTool? || call.FinishSystem? || call.Finish? {
      EndInOrder(p, call);
    } else if call.FinishTurn? && p.open.Some? {
      FilterInOrder(p.items, p.next, Other(p.open.value));
    }
  }

  /** Parallel tools keep the order in which they were started. */
  lemma {:induction false} PlayInOrder(startedAt: int, calls: seq<Call>)
    ensures InOrder(Play(startedAt, calls).items, Play(startedAt, calls).next)
  {
    if |calls| > 0 {
      PlayInOrder(startedAt, calls[..|calls| - 1]);
      CallInOrder(Play(startedAt, calls[..|calls| - 1]), calls[|calls| - 1]);
    }
  }
}
