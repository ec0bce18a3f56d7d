/**
 What every run of the chat progress projection keeps, and what its viewers see
 (apps/guruterminal/src-tauri/src/chat_progress.rs:346-596;
 apps/guruterminal/src-tauri/src/commands/chat_runtime.rs:728-758).
 */
module Projection {
  import opened Lists
  import opened Progress
  import opened Timeline
  import opened Wrappers

  // ------------------------------------------------------- sound bookkeeping

  ghost predicate Indexed(items: seq<Item>, indices: map<ItemId, nat>) {
    && UniqueIds(items)
    && (forall i :: 0 <= i < |items| ==> items[i].id in indices && indices[items[i].id] == i)
    && (forall id :: id in indices ==> indices[id] < |items| && items[indices[id]].id == id)
  }

  ghost predicate Tracked(items: seq<Item>, dirtyIds: seq<ItemId>, removes: seq<ItemId>, shown: seq<Item>) {
    && (forall id :: id in dirtyIds ==> id in Ids(items))
    && (forall id :: id in removes ==> id !in Ids(items))
    && Follows(shown, items, dirtyIds, removes)
  }

  ghost predicate Issued(items: seq<Item>, removes: seq<ItemId>, nextItem: nat) {
    && (forall item :: item in items ==> item.id.number < nextItem && Sane(item))
    && (forall id :: id in removes ==> id.number < nextItem)
  }

  ghost predicate ActiveIsText(b: Book) {
    b.active.Some? ==> PlaceOf(b, b.active.value).Some? && b.items[PlaceOf(b, b.active.value).value].Commentary?
  }

  predicate Finishing(b: Book) {
    && (b.finishedAt.Some? ==> b.finishedAt.value >= b.startedAt)
    && (b.pendingFinished.Some? ==> b.pendingFinished == b.finishedAt)
  }

  /** The bookkeeping is right, for a viewer showing these items so far. */
  ghost predicate Sound(b: Book, shown: seq<Item>) {
    && Indexed(b.items, b.indices)
    && SameMembers(b.dirtyIds, b.dirtySet)
    && Tracked(b.items, b.dirtyIds, b.removes, shown)
    && Issued(b.items, b.removes, b.nextItem)
    && SameMembers(Ids(Drop(shown, b.removes)), b.published)
    && ActiveIsText(b) && Finishing(b)
  }

  /** Sound bookkeeping is all the methods of the projection rely on. */
  lemma {:induction false} SoundIsUsable(b: Book, shown: seq<Item>)
    requires Sound(b, shown)
    ensures SameMembers(b.dirtyIds, b.dirtySet) && InRange(b.items, b.indices)
    ensures b.active.Some? ==> b.active.value in b.indices
  {
  }

  // ------------------------------------------------------------ new items

  lemma {:induction false} FreshId(b: Book, id: ItemId)
    requires Issued(b.items, b.removes, b.nextItem) && id.number == b.nextItem
    ensures id !in Ids(b.items) && id !in b.removes
  {
    forall i | 0 <= i < |b.items|
      ensures b.items[i].id != id
    {
      assert b.items[i] in b.items;
    }
    IdsMember(b.items, id);
  }

  lemma {:induction false} PushIndexed(items: seq<Item>, indices: map<ItemId, nat>, item: Item)
    requires Indexed(items, indices) && item.id !in Ids(items)
    ensures Indexed(items + [item], indices[item.id := |items|])
  {
    IdsMember(items, item.id);
  }

  lemma {:induction false} PushTracked(items: seq<Item>, dirtyIds: seq<ItemId>, removes: seq<ItemId>, shown: seq<Item>,
                                       item: Item)
    requires Tracked(items, dirtyIds, removes, shown) && item.id !in Ids(items) && item.id !in removes
    ensures Tracked(items + [item], MarkDirty(dirtyIds, item.id), removes, shown)
  {
    AppendAgrees(Drop(shown, removes), items, dirtyIds, item);
    IdsSnoc(items, item);
  }

  lemma {:induction false} MarkedMembers(dirtyIds: seq<ItemId>, dirtySet: set<ItemId>, id: ItemId)
    requires SameMembers(dirtyIds, dirtySet)
    ensures SameMembers(MarkDirty(dirtyIds, id), dirtySet + {id})
  {
  }

  lemma {:induction false} PushIssued(items: seq<Item>, removes: seq<ItemId>, nextItem: nat, item: Item)
    requires Issued(items, removes, nextItem) && item.id.number == nextItem && Sane(item)
    ensures Issued(items + [item], removes, nextItem + 1)
  {
  }

  lemma {:induction false} PushSound(b: Book, shown: seq<Item>, item: Item)
    requires Sound(b, shown) && item.id.number == b.nextItem && Sane(item)
    ensures Sound(Pushed(b, item), shown)
    ensures PlaceOf(Pushed(b, item), item.id) == Some(|b.items|)
  {
    FreshId(b, item.id);
    PushIndexed(b.items, b.indices, item);
    PushTracked(b.items, b.dirtyIds, b.removes, shown, item);
    PushIssued(b.items, b.removes, b.nextItem, item);
    MarkedMembers(b.dirtyIds, b.dirtySet, item.id);
    PushActive(b, item);
  }

  lemma {:induction false} PushActive(b: Book, item: Item)
    requires ActiveIsText(b) && Indexed(b.items, b.indices) && item.id !in Ids(b.items)
    ensures ActiveIsText(Pushed(b, item))
  {
    IdsMember(b.items, item.id);
  }

  // --------------------------------------------------------- changed items

  lemma {:induction false} ChangeIndexed(items: seq<Item>, indices: map<ItemId, nat>, i: nat, item: Item)
    requires Indexed(items, indices) && i < |items| && items[i].id == item.id
    ensures Indexed(items[i := item], indices)
  {
  }

  lemma {:induction false} ChangeTracked(items: seq<Item>, dirtyIds: seq<ItemId>, removes: seq<ItemId>,
                                         shown: seq<Item>, i: nat, item: Item)
    requires Tracked(items, dirtyIds, removes, shown) && i < |items| && items[i].id == item.id
    ensures Tracked(items[i := item], MarkDirty(dirtyIds, item.id), removes, shown)
  {
    ChangeAgrees(Drop(shown, removes), items, dirtyIds, i, item);
    assert Ids(items[i := item]) == Ids(items);
    assert Ids(items)[i] == item.id;
  }

  lemma {:induction false} ChangeIssued(items: seq<Item>, removes: seq<ItemId>, nextItem: nat, i: nat, item: Item)
    requires Issued(items, removes, nextItem) && i < |items| && items[i].id == item.id && Sane(item)
    ensures Issued(items[i := item], removes, nextItem)
  {
    assert items[i] in items;
  }

  lemma {:induction false} ChangeSound(b: Book, shown: seq<Item>, i: nat, item: Item)
    requires Sound(b, shown) && i < |b.items| && b.items[i].id == item.id && Sane(item)
    requires item.Commentary? == b.items[i].Commentary?
    ensures Sound(Changed(b, i, item, item.id), shown)
  {
    ChangeIndexed(b.items, b.indices, i, item);
    ChangeTracked(b.items, b.dirtyIds, b.removes, shown, i, item);
    ChangeIssued(b.items, b.removes, b.nextItem, i, item);
    MarkedMembers(b.dirtyIds, b.dirtySet, item.id);
  }

  lemma {:induction false} PlaceSound(b: Book, shown: seq<Item>, id: ItemId)
    requires Sound(b, shown) && PlaceOf(b, id).Some?
    ensures b.items[PlaceOf(b, id).value].id == id && Sane(b.items[PlaceOf(b, id).value])
  {
    assert b.items[PlaceOf(b, id).value] in b.items;
  }

  lemma {:induction false} MarkSound(b: Book, shown: seq<Item>, id: ItemId)
    requires Sound(b, shown) && PlaceOf(b, id).Some?
    ensures Sound(Marked(b, id), shown)
  {
    var i := PlaceOf(b, id).value;
    PlaceSound(b, shown, id);
    ChangeSound(b, shown, i, b.items[i]);
    assert b.items[i := b.items[i]] == b.items;
  }

  lemma {:induction false} AppendSound(b: Book, shown: seq<Item>, delta: string)
    requires Sound(b, shown)
    ensures Sound(Appended(b, delta), shown)
  {
    if delta != "" {
      match b.active {
        case Some(id) =>
          var i := PlaceOf(b, id).value;
          PlaceSound(b, shown, id);
          ChangeSound(b, shown, i, b.items[i].(text := b.items[i].text + delta));
        case None =>
          PushSound(b, shown, Commentary(ItemId(ForCommentary, b.nextItem), delta));
      }
    }
  }

  lemma {:induction false} StartSound(b: Book, shown: seq<Item>, item: Item, tools: map<string, ItemId>,
                                      systems: map<string, ItemId>)
    requires Sound(b, shown) && item.id.number == b.nextItem && Sane(item)
    ensures Sound(Pushed(b.(active := None, toolItems := tools, systemItems := systems), item), shown)
  {
    PushSound(b.(active := None, toolItems := tools, systemItems := systems), shown, item);
  }

  lemma {:induction false} EndSound(b: Book, shown: seq<Item>, id: ItemId, failed: bool, at: int)
    requires Sound(b, shown) && PlaceOf(b, id).Some? && !b.items[PlaceOf(b, id).value].Commentary?
    ensures Sound(Changed(b, PlaceOf(b, id).value, Ended(b.items[PlaceOf(b, id).value], failed, at), id), shown)
  {
    PlaceSound(b, shown, id);
    ChangeSound(b, shown, PlaceOf(b, id).value, Ended(b.items[PlaceOf(b, id).value], failed, at));
  }

  lemma {:induction false} ToolFinishedSound(b: Book, shown: seq<Item>, callId: string, failed: bool, at: int)
    requires Sound(b, shown)
    ensures Sound(ToolFinished(b, callId, failed, at), shown)
  {
    if callId in b.toolItems {
      var id, rest := b.toolItems[callId], b.(toolItems := b.toolItems - {callId});
      if PlaceOf(b, id).Some? {
        if b.items[PlaceOf(b, id).value].Tool? {
          EndSound(rest, shown, id, failed, at);
        } else {
          MarkSound(rest, shown, id);
        }
      }
    }
  }

  lemma {:induction false} SystemFinishedSound(b: Book, shown: seq<Item>, key: string, failed: bool, at: int)
    requires Sound(b, shown)
    ensures Sound(SystemFinished(b, key, failed, at), shown)
  {
    if key in b.systemItems {
      var id, rest := b.systemItems[key], b.(systemItems := b.systemItems - {key});
      if PlaceOf(b, id).Some? {
        if b.items[PlaceOf(b, id).value].System? {
          EndSound(rest, shown, id, failed, at);
        } else {
          MarkSound(rest, shown, id);
        }
      }
    }
  }

  // -------------------------------------------------------------- removal

  /** Every rewritten item is indexed at its place. */
  lemma {:induction false} ReindexedNew(indices: map<ItemId, nat>, items: seq<Item>, from: nat, to: nat, i: nat)
    requires from <= i < to <= |items| && UniqueIds(items)
    ensures items[i].id in Reindexed(indices, items, from, to) && Reindexed(indices, items, from, to)[items[i].id] == i
  {
    if i < to - 1 {
      ReindexedNew(indices, items, from, to - 1, i);
      assert items[i].id != items[to - 1].id;
    }
  }

  /** Every other entry is as it was. */
  lemma {:induction false} ReindexedOld(indices: map<ItemId, nat>, items: seq<Item>, from: nat, to: nat, id: ItemId)
    requires from <= to <= |items| && forall i :: from <= i < to ==> items[i].id != id
    ensures id in Reindexed(indices, items, from, to) <==> id in indices
    ensures id in indices ==> Reindexed(indices, items, from, to)[id] == indices[id]
  {
    if from < to {
      ReindexedOld(indices, items, from, to - 1, id);
    }
  }

  lemma {:induction false} CutUnique(items: seq<Item>, i: nat)
    requires UniqueIds(items) && i < |items|
    ensures UniqueIds(Cut(items, i))
    ensures items[i].id !in Ids(Cut(items, i))
  {
    IdsCut(items, i);
    OthersDiffer(items, i);
  }

  lemma {:induction false} CutIndexed(items: seq<Item>, indices: map<ItemId, nat>, i: nat)
    requires Indexed(items, indices) && i < |items|
    ensures Indexed(Cut(items, i), Reindexed(indices - {items[i].id}, Cut(items, i), i, |items| - 1))
  {
    var rest, less := Cut(items, i), indices - {items[i].id};
    CutUnique(items, i);
    forall k | 0 <= k < |rest|
      ensures rest[k].id in Reindexed(less, rest, i, |rest|) && Reindexed(less, rest, i, |rest|)[rest[k].id] == k
    {
      CutPlace(items, indices, i, k);
    }
    forall id | id in Reindexed(less, rest, i, |rest|)
      ensures Reindexed(less, rest, i, |rest|)[id] < |rest| && rest[Reindexed(less, rest, i, |rest|)[id]].id == id
    {
      CutEntry(items, indices, i, id);
    }
  }

  lemma {:induction false} CutPlace(items: seq<Item>, indices: map<ItemId, nat>, i: nat, k: nat)
    requires Indexed(items, indices) && i < |items| && k < |items| - 1 && UniqueIds(Cut(items, i))
    ensures var rest, updated := Cut(items, i), Reindexed(indices - {items[i].id}, Cut(items, i), i, |items| - 1);
            rest[k].id in updated && updated[rest[k].id] == k
  {
    var rest, less := Cut(items, i), indices - {items[i].id};
    if k < i {
      assert rest[k] == items[k] && items[k].id in less;
      ReindexedOld(less, rest, i, |rest|, rest[k].id);
    } else {
      ReindexedNew(less, rest, i, |rest|, k);
    }
  }

  lemma {:induction false} CutEntry(items: seq<Item>, indices: map<ItemId, nat>, i: nat, id: ItemId)
    requires Indexed(items, indices) && i < |items| && UniqueIds(Cut(items, i))
    requires id in Reindexed(indices - {items[i].id}, Cut(items, i), i, |items| - 1)
    ensures var rest, updated := Cut(items, i), Reindexed(indices - {items[i].id}, Cut(items, i), i, |items| - 1);
            updated[id] < |rest| && rest[updated[id]].id == id
  {
    var rest, less := Cut(items, i), indices - {items[i].id};
    if k :| i <= k < |rest| && rest[k].id == id {
      ReindexedNew(less, rest, i, |rest|, k);
    } else {
      ReindexedOld(less, rest, i, |rest|, id);
      EarlierPlace(items, i, indices[id]);
    }
  }

  lemma {:induction false} EarlierPlace(items: seq<Item>, i: nat, k: nat)
    requires i < |items| && k < |items| && k != i
    requires forall j :: i <= j < |items| - 1 ==> Cut(items, i)[j].id != items[k].id
    ensures k < i && Cut(items, i)[k] == items[k]
  {
    CutAt(items, i, k);
  }

  lemma {:induction false} CutAt(items: seq<Item>, i: nat, k: nat)
    requires i < |items| && k < |items|
    ensures k > i ==> Cut(items, i)[k - 1] == items[k]
    ensures k < i ==> Cut(items, i)[k] == items[k]
  {
  }

  lemma {:induction false} CutIssued(items: seq<Item>, removes: seq<ItemId>, nextItem: nat, i: nat)
    requires Issued(items, removes, nextItem) && i < |items|
    ensures Issued(Cut(items, i), removes, nextItem)
    ensures Issued(Cut(items, i), removes + [items[i].id], nextItem)
  {
    assert items[i] in items;
    forall item | item in Cut(items, i)
      ensures item in items
    {
    }
  }

  lemma {:induction false} CutDirty(items: seq<Item>, dirtyIds: seq<ItemId>, i: nat)
    requires i < |items| && forall id :: id in dirtyIds ==> id in Ids(items)
    ensures forall id :: id in Filter(Except(items[i].id), dirtyIds) ==> id in Ids(Cut(items, i))
  {
    forall id | id in Filter(Except(items[i].id), dirtyIds)
      ensures id in Ids(Cut(items, i))
    {
      CutMember(items, i, id);
    }
  }

  lemma {:induction false} CutRemoves(items: seq<Item>, removes: seq<ItemId>, i: nat)
    requires i < |items| && forall id :: id in removes ==> id !in Ids(items)
    ensures forall id :: id in removes ==> id !in Ids(Cut(items, i))
  {
    forall id | id in removes
      ensures id !in Ids(Cut(items, i))
    {
      CutMember(items, i, id);
    }
  }

  lemma {:induction false} CutLackingTracked(items: seq<Item>, dirtyIds: seq<ItemId>, removes: seq<ItemId>,
                                             shown: seq<Item>, i: nat)
    requires Tracked(items, dirtyIds, removes, shown) && UniqueIds(items) && |Drop(shown, removes)| <= i < |items|
    ensures Tracked(Cut(items, i), Filter(Except(items[i].id), dirtyIds), removes, shown)
  {
    CutLacking(Drop(shown, removes), items, dirtyIds, i);
    CutDirty(items, dirtyIds, i);
    CutRemoves(items, removes, i);
  }

  lemma {:induction false} KeptUnique(kept: seq<Item>, items: seq<Item>, dirtyIds: seq<ItemId>)
    requires AllSameOrDirty(kept, items, dirtyIds) && UniqueIds(items)
    ensures UniqueIds(kept)
  {
    forall i, j | 0 <= i < j < |kept|
      ensures kept[i].id != kept[j].id
    {
      assert SameOrDirty(kept[i], items[i], dirtyIds) && SameOrDirty(kept[j], items[j], dirtyIds);
    }
  }

  lemma {:induction false} CutShownTracked(items: seq<Item>, dirtyIds: seq<ItemId>, removes: seq<ItemId>,
                                           shown: seq<Item>, i: nat)
    requires Tracked(items, dirtyIds, removes, shown) && UniqueIds(items) && i < |Drop(shown, removes)|
    ensures i < |items| && Drop(shown, removes + [items[i].id]) == Cut(Drop(shown, removes), i)
    ensures Tracked(Cut(items, i), Filter(Except(items[i].id), dirtyIds), removes + [items[i].id], shown)
  {
    var kept := Drop(shown, removes);
    KeptUnique(kept, items, dirtyIds);
    assert SameOrDirty(kept[i], items[i], dirtyIds);
    DropOneMore(shown, removes, i);
    CutShown(kept, items, dirtyIds, i);
    CutDirty(items, dirtyIds, i);
    CutRemoves(items, removes, i);
    CutUnique(items, i);
  }

  /** An item is published exactly when it is among those the viewer keeps. */
  lemma {:induction false} PublishedPlace(b: Book, shown: seq<Item>, i: nat)
    requires Sound(b, shown) && i < |b.items|
    ensures b.items[i].id in b.published <==> i < |Drop(shown, b.removes)|
  {
    var kept := Drop(shown, b.removes);
    if i < |kept| {
      assert SameOrDirty(kept[i], b.items[i], b.dirtyIds);
      assert Ids(kept)[i] == b.items[i].id;
    } else {
      forall k | 0 <= k < |kept|
        ensures kept[k].id != b.items[i].id
      {
        assert SameOrDirty(kept[k], b.items[k], b.dirtyIds);
      }
      IdsMember(kept, b.items[i].id);
    }
  }

  lemma {:induction false} CutPublished(kept: seq<Item>, published: set<ItemId>, i: nat)
    requires SameMembers(Ids(kept), published) && UniqueIds(kept) && i < |kept|
    ensures SameMembers(Ids(Cut(kept, i)), published - {kept[i].id})
  {
    CutUnique(kept, i);
    forall id
      ensures id in Ids(Cut(kept, i)) <==> id in published - {kept[i].id}
    {
      CutMember(kept, i, id);
    }
  }

  function RemovesAfter(b: Book, id: ItemId): seq<ItemId> {
    if id in b.published then b.removes + [id] else b.removes
  }

  lemma {:induction false} RemovedFields(b: Book, i: nat)
    requires i < |b.items| && PlaceOf(b, b.items[i].id) == Some(i)
    ensures var id, r := b.items[i].id, Removed(b, b.items[i].id);
            && r.items == Cut(b.items, i)
            && r.indices == Reindexed(b.indices - {id}, Cut(b.items, i), i, |b.items| - 1)
            && r.dirtyIds == Filter(Except(id), b.dirtyIds) && r.dirtySet == b.dirtySet - {id}
            && r.published == b.published - {id} && r.removes == RemovesAfter(b, id)
            && r.nextItem == b.nextItem && r.active == b.active && r.startedAt == b.startedAt
            && r.finishedAt == b.finishedAt && r.pendingFinished == b.pendingFinished
  {
    assert |Cut(b.items, i)| == |b.items| - 1;
  }

  lemma {:induction false} RemoveIndexed(b: Book, r: Book, shown: seq<Item>, i: nat)
    requires Sound(b, shown) && i < |b.items| && r.items == Cut(b.items, i)
    requires r.indices == Reindexed(b.indices - {b.items[i].id}, Cut(b.items, i), i, |b.items| - 1)
    ensures Indexed(r.items, r.indices)
  {
    CutIndexed(b.items, b.indices, i);
  }

  lemma {:induction false} RemoveIssued(b: Book, r: Book, shown: seq<Item>, i: nat)
    requires Sound(b, shown) && i < |b.items| && r.items == Cut(b.items, i)
    requires r.removes == RemovesAfter(b, b.items[i].id) && r.nextItem == b.nextItem
    ensures Issued(r.items, r.removes, r.nextItem)
  {
    CutIssued(b.items, b.removes, b.nextItem, i);
  }

  lemma {:induction false} RemoveTracked(b: Book, r: Book, shown: seq<Item>, i: nat)
    requires Sound(b, shown) && i < |b.items| && r.items == Cut(b.items, i)
    requires r.dirtyIds == Filter(Except(b.items[i].id), b.dirtyIds) && r.dirtySet == b.dirtySet - {b.items[i].id}
    requires r.removes == RemovesAfter(b, b.items[i].id) && r.published == b.published - {b.items[i].id}
    ensures Tracked(r.items, r.dirtyIds, r.removes, shown)
    ensures SameMembers(Ids(Drop(shown, r.removes)), r.published)
    ensures SameMembers(r.dirtyIds, r.dirtySet)
  {
    PublishedPlace(b, shown, i);
    RemovePublished(b, shown, i);
  }

  lemma {:induction false} AssembleSound(r: Book, shown: seq<Item>)
    requires Indexed(r.items, r.indices) && Issued(r.items, r.removes, r.nextItem)
    requires Tracked(r.items, r.dirtyIds, r.removes, shown)
    requires SameMembers(Ids(Drop(shown, r.removes)), r.published) && SameMembers(r.dirtyIds, r.dirtySet)
    requires ActiveIsText(r) && Finishing(r)
    ensures Sound(r, shown)
  {
  }

  lemma {:induction false} RemoveSound(b: Book, shown: seq<Item>, id: ItemId)
    requires Sound(b, shown) && b.active.None?
    ensures Sound(Removed(b, id), shown)
  {
    if PlaceOf(b, id).Some? {
      var i, r := PlaceOf(b, id).value, Removed(b, id);
      PlaceSound(b, shown, id);
      RemovedFields(b, i);
      RemoveIndexed(b, r, shown, i);
      RemoveIssued(b, r, shown, i);
      RemoveTracked(b, r, shown, i);
      AssembleSound(r, shown);
    }
  }

  lemma {:induction false} RemovePublished(b: Book, shown: seq<Item>, i: nat)
    requires Sound(b, shown) && i < |b.items|
    requires b.items[i].id in b.published <==> i < |Drop(shown, b.removes)|
    ensures Tracked(Cut(b.items, i), Filter(Except(b.items[i].id), b.dirtyIds), RemovesAfter(b, b.items[i].id), shown)
    ensures SameMembers(Ids(Drop(shown, RemovesAfter(b, b.items[i].id))), b.published - {b.items[i].id})
    ensures SameMembers(Filter(Except(b.items[i].id), b.dirtyIds), b.dirtySet - {b.items[i].id})
  {
    var kept := Drop(shown, b.removes);
    if i < |kept| {
      CutShownTracked(b.items, b.dirtyIds, b.removes, shown, i);
      KeptUnique(kept, b.items, b.dirtyIds);
      assert SameOrDirty(kept[i], b.items[i], b.dirtyIds);
      CutPublished(kept, b.published, i);
    } else {
      CutLackingTracked(b.items, b.dirtyIds, b.removes, shown, i);
    }
  }

  // --------------------------------------------------------------- finish

  lemma {:induction false} CloseFacts(items: seq<Item>, at: int, stopped: bool)
    ensures |Close(items, at, stopped)| == |items| && Ids(Close(items, at, stopped)) == Ids(items)
    ensures forall i :: 0 <= i < |items| ==> Close(items, at, stopped)[i] == Closed(items[i], at, stopped)
  {
  }

  lemma {:induction false} CloseIndexed(items: seq<Item>, indices: map<ItemId, nat>, at: int, stopped: bool)
    requires Indexed(items, indices)
    ensures Indexed(Close(items, at, stopped), indices)
  {
    CloseFacts(items, at, stopped);
  }

  lemma {:induction false} CloseIssued(items: seq<Item>, removes: seq<ItemId>, nextItem: nat, at: int, stopped: bool)
    requires Issued(items, removes, nextItem)
    ensures Issued(Close(items, at, stopped), removes, nextItem)
  {
    forall item | item in Close(items, at, stopped)
      ensures item.id.number < nextItem && Sane(item)
    {
      var i :| 0 <= i < |items| && Close(items, at, stopped)[i] == item;
      assert items[i] in items;
    }
  }

  lemma {:induction false} CloseTracked(items: seq<Item>, dirtyIds: seq<ItemId>, removes: seq<ItemId>, shown: seq<Item>,
                                        at: int, stopped: bool)
    requires Tracked(items, dirtyIds, removes, shown)
    ensures Tracked(Close(items, at, stopped), MarkAll(dirtyIds, OpenIds(items)), removes, shown)
  {
    var kept, dirty := Drop(shown, removes), MarkAll(dirtyIds, OpenIds(items));
    OpenIdsMembers(items);
    MarkAllMembers(dirtyIds, OpenIds(items));
    MarkAllAgrees(kept, items, dirtyIds, OpenIds(items));
    CloseFacts(items, at, stopped);
    ChangesAgree(kept, items, Close(items, at, stopped), dirty);
  }

  lemma {:induction false} MarkAllSame(dirtyIds: seq<ItemId>, dirtySet: set<ItemId>, ids: seq<ItemId>)
    requires SameMembers(dirtyIds, dirtySet)
    ensures SameMembers(MarkAll(dirtyIds, ids), dirtySet + (set id | id in ids))
  {
    MarkAllMembers(dirtyIds, ids);
  }

  lemma {:induction false} FinishSound(b: Book, shown: seq<Item>, at: int, stopped: bool)
    requires Sound(b, shown)
    ensures Sound(Finished(b, at, stopped), shown)
  {
    var closedAt := Later(at, b.startedAt);
    var r := Finished(b, at, stopped);
    CloseIndexed(b.items, b.indices, closedAt, stopped);
    CloseIssued(b.items, b.removes, b.nextItem, closedAt, stopped);
    CloseTracked(b.items, b.dirtyIds, b.removes, shown, closedAt, stopped);
    MarkAllSame(b.dirtyIds, b.dirtySet, OpenIds(b.items));
    AssembleSound(r, shown);
  }

  // ------------------------------------------------------------- the patch

  lemma {:induction false} PlaceIsIndex(items: seq<Item>, indices: map<ItemId, nat>, id: ItemId)
    requires Indexed(items, indices)
    ensures Place(items, indices, id) == IndexOf(items, id)
  {
    if Place(items, indices, id).Some? {
      IndexUnique(items, indices[id]);
    } else {
      AbsentIndex(items, id);
      forall x | x in items
        ensures x.id != id
      {
        var i :| 0 <= i < |items| && items[i] == x;
      }
    }
  }

  lemma {:induction false} ItemsAtListed(items: seq<Item>, indices: map<ItemId, nat>, ids: seq<ItemId>)
    requires Indexed(items, indices)
    ensures ItemsAt(items, indices, ids) == ItemsOf(items, ids)
  {
    if |ids| > 0 {
      ItemsAtListed(items, indices, ids[..|ids| - 1]);
      PlaceIsIndex(items, indices, ids[|ids| - 1]);
    }
  }

  /** Sending the dirty items and the removals makes the viewer exact. */
  lemma {:induction false} PatchIsExact(b: Book, shown: seq<Item>)
    requires Sound(b, shown)
    ensures UpsertAll(Drop(shown, b.removes), ItemsAt(b.items, b.indices, b.dirtyIds)) == b.items
  {
    ItemsAtListed(b.items, b.indices, b.dirtyIds);
    PatchCompletes(shown, b.items, b.dirtyIds, b.removes);
  }

  lemma {:induction false} ListedWithin(items: seq<Item>, ids: seq<ItemId>)
    ensures forall x :: x in ItemsOf(items, ids) ==> x.id in ids
  {
    if |ids| > 0 {
      ListedWithin(items, ids[..|ids| - 1]);
      assert ids == ids[..|ids| - 1] + [ids[|ids| - 1]];
    }
  }

  /** A patch removes nothing that it also sends, so the order does not matter. */
  lemma {:induction false} PatchOrdersAgree(b: Book, shown: seq<Item>)
    requires Sound(b, shown)
    ensures var upserts := ItemsAt(b.items, b.indices, b.dirtyIds);
            Drop(UpsertAll(shown, upserts), b.removes) == b.items
  {
    ItemsAtListed(b.items, b.indices, b.dirtyIds);
    ListedWithin(b.items, b.dirtyIds);
    OrdersAgree(shown, ItemsOf(b.items, b.dirtyIds), b.removes);
    PatchIsExact(b, shown);
  }

  lemma {:induction false} DropNothing(items: seq<Item>)
    ensures Drop(items, []) == items
  {
    FilterAll(KeptBy([]), items);
  }

  lemma {:induction false} ExactTracked(items: seq<Item>)
    ensures Tracked(items, [], [], items)
  {
    DropNothing(items);
    assert items[|items|..] == [];
  }

  /** After a patch everything in the timeline is published. */
  lemma {:induction false} AllPublished(b: Book, shown: seq<Item>)
    requires Sound(b, shown)
    ensures SameMembers(Ids(b.items), PatchTaken(b).published)
  {
    var kept := Drop(shown, b.removes);
    forall id
      ensures id in Ids(b.items) <==> id in PatchTaken(b).published
    {
      IdsMember(b.items, id);
      PlaceIsIndex(b.items, b.indices, id);
      AbsentIndex(b.items, id);
      if i :| 0 <= i < |b.items| && b.items[i].id == id {
        PublishedPlace(b, shown, i);
        if i >= |kept| {
          LackingIsDirty(kept, b.items, b.dirtyIds, i);
        }
      }
      PublishedListed(b, shown, id);
    }
  }

  lemma {:induction false} PublishedListed(b: Book, shown: seq<Item>, id: ItemId)
    requires Sound(b, shown)
    ensures id in b.published ==> id in Ids(b.items)
  {
    var kept := Drop(shown, b.removes);
    IdsMember(kept, id);
    IdsMember(b.items, id);
    if i :| 0 <= i < |kept| && kept[i].id == id {
      assert SameOrDirty(kept[i], b.items[i], b.dirtyIds);
    }
  }
}
