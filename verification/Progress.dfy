/**
 The mutable chat progress projection and the patches it emits
 (apps/guruterminal/src-tauri/src/chat_progress.rs:237-287, 310-596).
 */
module Progress {
  import opened Lists
  import opened Strings
  import opened Timeline
  import opened Wrappers

  const U64_MAX: nat := 0xffff_ffff_ffff_ffff

  function Later(a: int, b: int): int {
    if a >= b then a else b
  }

  // ----------------------------------------------- validation of progress

  /** The timestamp and status rules of one item. */
  predicate ItemTimesValid(durable: bool, item: Item) {
    item.Commentary? ||
    (item.started >= 0 && (item.finished.Some? ==> item.finished.value >= item.started) &&
     (durable ==> item.status != Running && item.finished.Some?))
  }

  /** The timestamp, status and ID rules of `ChatProgress::validate`. */
  ghost predicate TimesValid(durable: bool, started: int, finished: Option<int>, items: seq<Item>) {
    && started >= 0
    && (finished.Some? ==> finished.value >= started)
    && (durable ==> finished.Some?)
    && (forall item :: item in items && !item.Commentary? ==>
          && item.started >= 0 && !(item.finished.Some? && item.finished.value < item.started)
          && (durable ==> item.status in {Succeeded, Failed, Stopped} && item.finished.Some?))
    && (forall i, j :: 0 <= i < j < |items| ==> items[i].id != items[j].id)
  }

  method ValidateTimes(durable: bool, started: int, finished: Option<int>, items: seq<Item>) returns (ok: bool)
    ensures ok <==> TimesValid(durable, started, finished, items)
  {
    if started < 0 || (finished.Some? && finished.value < started) || (durable && finished.None?) {
      return false;
    }
    var ids: set<ItemId> := {};
    for i := 0 to |items|
      invariant forall id :: id in ids <==> exists k :: 0 <= k < i && items[k].id == id
      invariant forall k :: 0 <= k < i ==> ItemTimesValid(durable, items[k])
      invariant forall j, k :: 0 <= j < k < i ==> items[j].id != items[k].id
    {
      if !ItemTimesValid(durable, items[i]) {
        return false;
      }
      if items[i].id in ids {
        return false;
      }
      ids := ids + {items[i].id};
    }
    ok := true;
  }

  // ---------------------------------------------------- closing the timeline

  predicate Open(item: Item) {
    !item.Commentary? && (item.status == Running || item.finished.None?)
  }

  /** What `finish` makes of one item. */
  function Closed(item: Item, at: int, stopped: bool): Item {
    if !Open(item) then item
    else
      item.(status := if item.status != Running then item.status else if stopped then Stopped else Failed,
            finished := if item.finished.Some? then item.finished else Some(Later(at, item.started)))
  }

  function Close(items: seq<Item>, at: int, stopped: bool): seq<Item> {
    seq(|items|, i requires 0 <= i < |items| => Closed(items[i], at, stopped))
  }

  function OpenIds(items: seq<Item>): seq<ItemId> {
    if |items| == 0 then []
    else OpenIds(items[..|items| - 1]) + if Open(items[|items| - 1]) then [items[|items| - 1].id] else []
  }

  lemma {:induction false} OpenIdsMembers(items: seq<Item>)
    ensures forall id :: id in OpenIds(items) ==> id in Ids(items)
    ensures forall i :: 0 <= i < |items| && Open(items[i]) ==> items[i].id in OpenIds(items)
  {
    if |items| > 0 {
      var front := items[..|items| - 1];
      OpenIdsMembers(front);
      assert items == front + [items[|items| - 1]];
      IdsSnoc(front, items[|items| - 1]);
    }
  }

  // ------------------------------------------------------------ the class

  /** An item as the projection keeps it: a text or sensible times. */
  predicate Sane(item: Item) {
    if item.Commentary? then item.text != "" else ItemTimesValid(false, item)
  }

  // --------------------------------------------------- the projection's state

  /** The fields of the projection. */
  datatype Book = Book(
    startedAt: int, finishedAt: Option<int>, items: seq<Item>, nextItem: nat, nextSequence: nat,
    active: Option<ItemId>, toolItems: map<string, ItemId>, systemItems: map<string, ItemId>,
    indices: map<ItemId, nat>, dirtyIds: seq<ItemId>, dirtySet: set<ItemId>, published: set<ItemId>,
    removes: seq<ItemId>, pendingFinished: Option<int>)

  function NewBook(startedAt: int): Book {
    Book(startedAt, None, [], 1, 1, None, map[], map[], map[], [], {}, {}, [], None)
  }

  function Marked(b: Book, id: ItemId): Book {
    b.(dirtyIds := MarkDirty(b.dirtyIds, id), dirtySet := b.dirtySet + {id})
  }

  function Pushed(b: Book, item: Item): Book {
    Marked(b.(items := b.items + [item], indices := b.indices[item.id := |b.items|], nextItem := b.nextItem + 1),
           item.id)
  }

  function Changed(b: Book, i: nat, item: Item, id: ItemId): Book
    requires i < |b.items|
  {
    Marked(b.(items := b.items[i := item]), id)
  }

  /** The item an issued ID refers to. */
  function Place(items: seq<Item>, indices: map<ItemId, nat>, id: ItemId): (place: Option<nat>)
    ensures place.Some? ==> place.value < |items|
  {
    if id in indices && indices[id] < |items| then Some(indices[id]) else None
  }

  function PlaceOf(b: Book, id: ItemId): (place: Option<nat>)
    ensures place.Some? ==> place.value < |b.items|
  {
    Place(b.items, b.indices, id)
  }

  function Appended(b: Book, delta: string): Book {
    if delta == "" then b
    else
      match b.active
      case Some(id) =>
        (match PlaceOf(b, id)
         case None => b
         case Some(i) =>
           if b.items[i].Commentary? then Changed(b, i, b.items[i].(text := b.items[i].text + delta), id)
              else Marked(b, id))
      case None =>
        var id := ItemId(ForCommentary, b.nextItem);
        Pushed(b, Commentary(id, delta)).(active := Some(id))
  }

  /** The places of the items from one index on, written over the old ones. */
  function Reindexed(indices: map<ItemId, nat>, items: seq<Item>, from: nat, to: nat): map<ItemId, nat>
    requires from <= to <= |items|
  {
    if from == to then indices else Reindexed(indices, items, from, to - 1)[items[to - 1].id := to - 1]
  }

  function Removed(b: Book, id: ItemId): Book {
    match PlaceOf(b, id)
    case None => b
    case Some(i) =>
      var rest := Cut(b.items, i);
      b.(items := rest, indices := Reindexed(b.indices - {id}, rest, i, |rest|),
         dirtySet := b.dirtySet - {id}, dirtyIds := Filter(Except(id), b.dirtyIds),
         published := b.published - {id}, removes := if id in b.published then b.removes + [id] else b.removes)
  }

  function TurnFinished(b: Book, isFinal: bool): Book {
    if isFinal && b.active.Some? then Removed(b.(active := None), b.active.value) else b.(active := None)
  }

  function ToolStarted(b: Book, callId: string, presentation: Presentation, at: int): Book {
    var id := ItemId(ForTool, b.nextItem);
    Pushed(b.(active := None, toolItems := b.toolItems[callId := id]),
           Tool(id, presentation, Running, Later(at, 0), None))
  }

  function SystemStarted(b: Book, key: string, presentation: Presentation, at: int): Book {
    var id := ItemId(ForSystem, b.nextItem);
    Pushed(b.(active := None, systemItems := b.systemItems[key := id]),
           System(id, presentation, Running, Later(at, 0), None))
  }

  function Ended(item: Item, failed: bool, at: int): Item
    requires !item.Commentary?
  {
    item.(status := if failed then Failed else Succeeded, finished := Some(Later(at, item.started)))
  }

  /** The item has succeeded or failed, no earlier than it started. */
  predicate EndedAs(before: Item, after: Item, failed: bool, at: int) {
    && !before.Commentary?
    && after == before.(status := if failed then Failed else Succeeded,
                        finished := Some(if at < before.started then before.started else at))
  }

  function ToolFinished(b: Book, callId: string, failed: bool, at: int): Book {
    if callId !in b.toolItems then b
    else
      var id, rest := b.toolItems[callId], b.(toolItems := b.toolItems - {callId});
      match PlaceOf(b, id)
      case None => rest
      case Some(i) => if b.items[i].Tool? then Changed(rest, i, Ended(b.items[i], failed, at), id) else Marked(rest, id)
  }

  function SystemFinished(b: Book, key: string, failed: bool, at: int): Book {
    if key !in b.systemItems then b
    else
      var id, rest := b.systemItems[key], b.(systemItems := b.systemItems - {key});
      match PlaceOf(b, id)
      case None => rest
      case Some(i) => if b.items[i].System? then Changed(rest, i, Ended(b.items[i], failed, at), id)
                      else Marked(rest, id)
  }

  function Finished(b: Book, at: int, stopped: bool): Book {
    var closedAt := Later(at, b.startedAt);
    b.(active := None, finishedAt := Some(closedAt), pendingFinished := Some(closedAt),
       items := Close(b.items, closedAt, stopped), dirtyIds := MarkAll(b.dirtyIds, OpenIds(b.items)),
       dirtySet := b.dirtySet + (set id | id in OpenIds(b.items)))
  }

  /** The items of these IDs that are still in the timeline. */
  function ItemsAt(items: seq<Item>, indices: map<ItemId, nat>, ids: seq<ItemId>): seq<Item> {
    if |ids| == 0 then []
    else
      var place := Place(items, indices, ids[|ids| - 1]);
      ItemsAt(items, indices, ids[..|ids| - 1]) + if place.Some? then [items[place.value]] else []
  }

  function PatchOf(b: Book): Option<Patch> {
    var upserts := ItemsAt(b.items, b.indices, b.dirtyIds);
    if upserts == [] && b.removes == [] && b.pendingFinished.None? then None
    else Some(Patch(b.nextSequence, upserts, b.removes, b.pendingFinished))
  }

  function PatchTaken(b: Book): Book {
    b.(dirtyIds := [], dirtySet := b.dirtySet - (set id | id in b.dirtyIds),
       published := b.published + (set id | id in b.dirtyIds && Place(b.items, b.indices, id).Some?),
       removes := [], pendingFinished := None,
       nextSequence := if PatchOf(b).None? then b.nextSequence
                       else if b.nextSequence < U64_MAX then b.nextSequence + 1 else U64_MAX)
  }

  // ------------------------------------------------------------ the class

  // What the code relies on without checking.

  ghost predicate SameMembers(list: seq<ItemId>, members: set<ItemId>) {
    forall id :: id in list <==> id in members
  }

  ghost predicate InRange(items: seq<Item>, indices: map<ItemId, nat>) {
    forall id :: id in indices ==> indices[id] < |items|
  }

  class ChatProgressProjection {
    const startedAt: int
    var finishedAt: Option<int>
    var items: seq<Item>
    var nextItem: nat
    var nextSequence: nat
    var active: Option<ItemId>
    var toolItems: map<string, ItemId>
    var systemItems: map<string, ItemId>
    var indices: map<ItemId, nat>
    var dirtyIds: seq<ItemId>
    var dirtySet: set<ItemId>
    var published: set<ItemId>
    var removes: seq<ItemId>
    var pendingFinished: Option<int>

    ghost function Now(): Book
      reads this
    {
      Book(startedAt, finishedAt, items, nextItem, nextSequence, active, toolItems, systemItems, indices,
           dirtyIds, dirtySet, published, removes, pendingFinished)
    }

    constructor (startedAt: int)
      ensures Now() == NewBook(startedAt)
    {
      this.startedAt := startedAt;
      finishedAt, items, nextItem, nextSequence, active := None, [], 1, 1, None;
      toolItems, systemItems, indices, dirtyIds, dirtySet := map[], map[], map[], [], {};
      published, removes, pendingFinished := {}, [], None;
    }

    method MarkItemDirty(id: ItemId)
      requires SameMembers(dirtyIds, dirtySet)
      modifies this`dirtyIds, this`dirtySet
      ensures Now() == Marked(old(Now()), id)
      ensures SameMembers(dirtyIds, dirtySet)
    {
      if id !in dirtySet {
        dirtySet := dirtySet + {id};
        dirtyIds := dirtyIds + [id];
      }
      assert dirtySet == old(dirtySet) + {id};
    }

    method NextId(prefix: Prefix) returns (id: ItemId)
      modifies this`nextItem
      ensures nextItem == old(nextItem) + 1 && id == ItemId(prefix, old(nextItem))
    {
      id := ItemId(prefix, nextItem);
      nextItem := nextItem + 1;
    }

    method StartAssistantTurn()
      modifies this`active
      ensures Now() == old(Now()).(active := None)
    {
      active := None;
    }

    /** Pushes an empty commentary item, to be filled at once. */
    method OpenCommentary(id: ItemId)
      modifies this`items, this`indices, this`active, this`nextItem
      ensures items == old(items) + [Commentary(id, "")] && indices == old(indices)[id := |old(items)|]
      ensures active == Some(id) && nextItem == old(nextItem) + 1
    {
      indices := indices[id := |items|];
      items := items + [Commentary(id, "")];
      active := Some(id);
      nextItem := nextItem + 1;
    }

    method AppendCommentary(delta: string)
      requires SameMembers(dirtyIds, dirtySet)
      requires InRange(items, indices)
      requires active.Some? ==> active.value in indices
      modifies this`items, this`indices, this`active, this`nextItem, this`dirtyIds, this`dirtySet
      ensures Now() == Appended(old(Now()), delta)
    {
      if delta == "" {
        return;
      }
      var id := if active.Some? then active.value else ItemId(ForCommentary, nextItem);
      if active.None? {
        OpenCommentary(id);
      }
      var index := indices[id];
      if items[index].Commentary? {
        items := items[index := items[index].(text := items[index].text + delta)];
      }
      assert "" + delta == delta;
      assert old(active).None? ==> items == old(items) + [Commentary(id, delta)];
      MarkItemDirty(id);
    }

    method RemoveItem(id: ItemId)
      requires InRange(items, indices)
      modifies this`items, this`indices, this`dirtyIds, this`dirtySet, this`published, this`removes
      ensures Now() == Removed(old(Now()), id)
    {
      if id !in indices {
        return;
      }
      var index := indices[id];
      items := Cut(items, index);
      indices := Reindex(indices - {id}, items, index);
      ForgetItem(id);
    }

    /** Withdraws an item from the next patch, or announces its removal. */
    method ForgetItem(id: ItemId)
      modifies this`dirtyIds, this`dirtySet, this`published, this`removes
      ensures dirtySet == old(dirtySet) - {id} && dirtyIds == Filter(Except(id), old(dirtyIds))
      ensures published == old(published) - {id}
      ensures removes == if id in old(published) then old(removes) + [id] else old(removes)
    {
      dirtySet := dirtySet - {id};
      dirtyIds := Filter(Except(id), dirtyIds);
      if id in published {
        removes := removes + [id];
      }
      published := published - {id};
    }

    /** The items behind a removed one move up. */
    static method Reindex(indices: map<ItemId, nat>, items: seq<Item>, from: nat) returns (updated: map<ItemId, nat>)
      requires from <= |items|
      ensures updated == Reindexed(indices, items, from, |items|)
    {
      updated := indices;
      for i := from to |items|
        invariant updated == Reindexed(indices, items, from, i)
      {
        updated := updated[items[i].id := i];
      }
    }

    method FinishAssistantTurn(isFinal: bool)
      requires InRange(items, indices)
      modifies this`active, this`items, this`indices, this`dirtyIds, this`dirtySet, this`published, this`removes
      ensures Now() == TurnFinished(old(Now()), isFinal)
    {
      var id := active;
      active := None;
      if isFinal && id.Some? {
        RemoveItem(id.value);
      }
    }

    method StartTool(callId: string, presentation: Presentation, at: int)
      requires SameMembers(dirtyIds, dirtySet)
      modifies this`active, this`items, this`indices, this`nextItem, this`toolItems, this`dirtyIds, this`dirtySet
      ensures Now() == ToolStarted(old(Now()), callId, presentation, at)
      ensures items == old(items) +
                       [Tool(ItemId(ForTool, old(nextItem)), presentation, Running, if at < 0 then 0 else at, None)]
    {
      active := None;
      var id := NextId(ForTool);
      var index := |items|;
      items := items + [Tool(id, presentation, Running, Later(at, 0), None)];
      indices := indices[id := index];
      toolItems := toolItems[callId := id];
      MarkItemDirty(id);
    }

    method FinishTool(callId: string, failed: bool, at: int)
      requires SameMembers(dirtyIds, dirtySet)
      requires InRange(items, indices)
      modifies this`items, this`toolItems, this`dirtyIds, this`dirtySet
      ensures Now() == ToolFinished(old(Now()), callId, failed, at)
      ensures |items| == |old(items)| && forall i :: 0 <= i < |items| ==>
                items[i] == old(items)[i] || EndedAs(old(items)[i], items[i], failed, at)
    {
      if callId !in toolItems {
        return;
      }
      var id := toolItems[callId];
      toolItems := toolItems - {callId};
      if id !in indices {
        return;
      }
      var index := indices[id];
      if items[index].Tool? {
        items := items[index := Ended(items[index], failed, at)];
      }
      MarkItemDirty(id);
    }

    method StartSystem(key: string, presentation: Presentation, at: int)
      requires SameMembers(dirtyIds, dirtySet)
      modifies this`active, this`items, this`indices, this`nextItem, this`systemItems, this`dirtyIds, this`dirtySet
      ensures Now() == SystemStarted(old(Now()), key, presentation, at)
      ensures items == old(items) +
                       [System(ItemId(ForSystem, old(nextItem)), presentation, Running, if at < 0 then 0 else at, None)]
    {
      active := None;
      var id := NextId(ForSystem);
      var index := |items|;
      items := items + [System(id, presentation, Running, Later(at, 0), None)];
      indices := indices[id := index];
      systemItems := systemItems[key := id];
      MarkItemDirty(id);
    }

    method FinishSystem(key: string, failed: bool, at: int)
      requires SameMembers(dirtyIds, dirtySet)
      requires InRange(items, indices)
      modifies this`items, this`systemItems, this`dirtyIds, this`dirtySet
      ensures Now() == SystemFinished(old(Now()), key, failed, at)
      ensures |items| == |old(items)| && forall i :: 0 <= i < |items| ==>
                items[i] == old(items)[i] || EndedAs(old(items)[i], items[i], failed, at)
    {
      if key !in systemItems {
        return;
      }
      var id := systemItems[key];
      systemItems := systemItems - {key};
      if id !in indices {
        return;
      }
      var index := indices[id];
      if items[index].System? {
        items := items[index := Ended(items[index], failed, at)];
      }
      MarkItemDirty(id);
    }

    method TakePatch() returns (patch: Option<Patch>)
      requires InRange(items, indices)
      modifies this`dirtyIds, this`dirtySet, this`published, this`removes, this`pendingFinished, this`nextSequence
      ensures patch == PatchOf(old(Now()))
      ensures Now() == PatchTaken(old(Now()))
    {
      ghost var before := Now();
      var ids := dirtyIds;
      dirtyIds := [];
      var upserts, left, known := TakeDirty(ids);
      dirtySet := left;
      published := known;
      var removed := removes;
      removes := [];
      var finished := pendingFinished;
      pendingFinished := None;
      if upserts == [] && removed == [] && finished.None? {
        return None;
      }
      var sequence := nextSequence;
      nextSequence := if nextSequence < U64_MAX then nextSequence + 1 else U64_MAX;
      patch := Some(Patch(sequence, upserts, removed, finished));
    }

    /** The items to send, the IDs still dirty and the IDs now published. */
    method TakeDirty(ids: seq<ItemId>) returns (upserts: seq<Item>, left: set<ItemId>, known: set<ItemId>)
      requires InRange(items, indices)
      ensures upserts == ItemsAt(items, indices, ids)
      ensures left == dirtySet - (set id | id in ids)
      ensures known == published + (set id | id in ids && Place(items, indices, id).Some?)
    {
      upserts, left, known := [], dirtySet, published;
      for i := 0 to |ids|
        invariant upserts == ItemsAt(items, indices, ids[..i])
        invariant left == dirtySet - (set id | id in ids[..i])
        invariant known == published + (set id | id in ids[..i] && Place(items, indices, id).Some?)
      {
        var id := ids[i];
        assert ids[..i + 1] == ids[..i] + [id];
        assert ids[..i + 1][..i] == ids[..i];
        left := left - {id};
        if id in indices {
          known := known + {id};
          upserts := upserts + [items[indices[id]]];
        }
      }
      assert ids[..|ids|] == ids;
    }

    /** Closes every open item; reports the timeline unless it is empty. */
    method Finish(at: int, stopped: bool) returns (snapshot: Option<(Option<int>, seq<Item>)>)
      requires SameMembers(dirtyIds, dirtySet)
      modifies this`active, this`items, this`finishedAt, this`pendingFinished, this`dirtyIds, this`dirtySet
      ensures Now() == Finished(old(Now()), at, stopped)
      ensures finishedAt == Some(if at < startedAt then startedAt else at) && pendingFinished == finishedAt
      ensures snapshot == if items == [] then None else Some((finishedAt, items))
    {
      active := None;
      var closedAt := Later(at, startedAt);
      finishedAt := Some(closedAt);
      var closed, changed := CloseItems(items, closedAt, stopped);
      items := closed;
      MarkChanged(changed);
      pendingFinished := Some(closedAt);
      snapshot := if items == [] then None else Some((finishedAt, items));
    }

    static method CloseItems(items: seq<Item>, at: int, stopped: bool) returns (closed: seq<Item>, changed: seq<ItemId>)
      ensures closed == Close(items, at, stopped) && changed == OpenIds(items)
    {
      closed, changed := [], [];
      for i := 0 to |items|
        invariant closed == Close(items[..i], at, stopped)
        invariant changed == OpenIds(items[..i])
      {
        assert items[..i + 1][..i] == items[..i];
        if Open(items[i]) {
          changed := changed + [items[i].id];
        }
        closed := closed + [Closed(items[i], at, stopped)];
      }
      assert items[..|items|] == items;
    }

    method MarkChanged(ids: seq<ItemId>)
      requires SameMembers(dirtyIds, dirtySet)
      modifies this`dirtyIds, this`dirtySet
      ensures dirtyIds == MarkAll(old(dirtyIds), ids) && dirtySet == old(dirtySet) + (set id | id in ids)
    {
      for i := 0 to |ids|
        invariant SameMembers(dirtyIds, dirtySet)
        invariant dirtyIds == MarkAll(old(dirtyIds), ids[..i])
        invariant dirtySet == old(dirtySet) + (set id | id in ids[..i])
      {
        assert ids[..i + 1] == ids[..i] + [ids[i]];
        assert ids[..i + 1][..i] == ids[..i];
        MarkItemDirty(ids[i]);
      }
      assert ids[..|ids|] == ids;
    }
  }
}
