/**
 Chat progress items, the patches sent to a viewer, and what it means for a
 viewer to follow the timeline (apps/guruterminal/src-tauri/src/chat_progress.rs
 48-111, 237-287; apps/guruterminal/src/chat/ai-sdk.ts:85-127).
 */
module Timeline {
  import opened Lists
  import opened Strings
  import opened Wrappers

  datatype Prefix = ForCommentary | ForTool | ForSystem

  /** An item ID before it is written out; see Text. */
  datatype ItemId = ItemId(prefix: Prefix, number: nat)

  function PrefixText(prefix: Prefix): string {
    match prefix
    case ForCommentary => "commentary"
    case ForTool => "tool"
    case ForSystem => "system"
  }

  /** The ID as it is written: the prefix, a dash and the number. */
  function Text(id: ItemId): string {
    PrefixText(id.prefix) + ['-'] + Decimal(id.number)
  }

  lemma {:induction false} TextMeaning(number: nat)
    ensures Text(ItemId(ForCommentary, number)) == "commentary-" + Decimal(number)
    ensures Text(ItemId(ForTool, number)) == "tool-" + Decimal(number)
    ensures Text(ItemId(ForSystem, number)) == "system-" + Decimal(number)
  {
    assert "commentary" + ['-'] == "commentary-" && "tool" + ['-'] == "tool-" && "system" + ['-'] == "system-";
  }

  /** Different IDs are written differently. */
  lemma {:induction false} TextInjective(id: ItemId, other: ItemId)
    requires Text(id) == Text(other)
    ensures id == other
  {
    SplitOnceAt(PrefixText(id.prefix), '-', Decimal(id.number));
    SplitOnceAt(PrefixText(other.prefix), '-', Decimal(other.number));
    ValueDecimal(id.number);
    ValueDecimal(other.number);
    assert PrefixText(id.prefix)[0] == PrefixText(other.prefix)[0];
  }

  datatype Status = Running | Succeeded | Failed | Stopped

  /** Category, operation, action, target and link of a tool or system item. */
  datatype Presentation = Presentation(
    category: string, operation: string, action: string, target: Option<string>, href: Option<string>)

  datatype Item =
    | Commentary(id: ItemId, text: string)
    | Tool(id: ItemId, presentation: Presentation, status: Status, started: int, finished: Option<int>)
    | System(id: ItemId, presentation: Presentation, status: Status, started: int, finished: Option<int>)

  datatype Patch = Patch(sequence: nat, upserts: seq<Item>, removes: seq<ItemId>, finishedAt: Option<int>)

  /** What a viewer shows, and the sequence number it stands at. */
  datatype View = View(items: seq<Item>, finishedAt: Option<int>, sequence: nat)

  function IdOf(): Item -> ItemId {
    (item: Item) => item.id
  }

  function Ids(items: seq<Item>): seq<ItemId> {
    Map(IdOf(), items)
  }

  ghost predicate UniqueIds(items: seq<Item>) {
    forall i, j :: 0 <= i < j < |items| ==> items[i].id != items[j].id
  }

  // ----------------------------------------------------------- the viewer

  function KeptBy(removes: seq<ItemId>): Item -> bool {
    (item: Item) => item.id !in removes
  }

  function Drop(items: seq<Item>, removes: seq<ItemId>): seq<Item> {
    Filter(KeptBy(removes), items)
  }

  /** The last item with this ID, as a map from IDs to indices would say. */
  function IndexOf(items: seq<Item>, id: ItemId): (index: Option<nat>)
    ensures index.Some? ==> index.value < |items| && items[index.value].id == id
    ensures index.None? ==> forall i :: 0 <= i < |items| ==> items[i].id != id
  {
    if |items| == 0 then None
    else if items[|items| - 1].id == id then Some(|items| - 1)
    else IndexOf(items[..|items| - 1], id)
  }

  function Upsert(items: seq<Item>, item: Item): seq<Item> {
    match IndexOf(items, item.id)
    case None => items + [item]
    case Some(i) => items[i := item]
  }

  function UpsertAll(items: seq<Item>, upserts: seq<Item>): seq<Item> {
    if |upserts| == 0 then items
    else Upsert(UpsertAll(items, upserts[..|upserts| - 1]), upserts[|upserts| - 1])
  }

  /** `applyChatProgressPatch`: only the next patch is applied, removals first. */
  function Apply(view: View, patch: Patch): View {
    if patch.sequence != view.sequence + 1 then view
    else View(UpsertAll(Drop(view.items, patch.removes), patch.upserts),
              if patch.finishedAt.Some? then patch.finishedAt else view.finishedAt,
              patch.sequence)
  }

  /** `applyChatProgressSnapshot`: a snapshot that is not newer is ignored. */
  function Resync(view: View, snapshot: View): View {
    if snapshot.sequence <= view.sequence then view else snapshot
  }

  lemma {:induction false} DropSnoc(items: seq<Item>, item: Item, removes: seq<ItemId>)
    ensures Drop(items + [item], removes) == Drop(items, removes) + if item.id in removes then [] else [item]
  {
    assert (items + [item])[..|items|] == items;
  }

  lemma {:induction false} AbsentIndex(items: seq<Item>, id: ItemId)
    ensures IndexOf(items, id).None? <==> forall x :: x in items ==> x.id != id
  {
    if IndexOf(items, id).Some? {
      assert items[IndexOf(items, id).value] in items;
    }
  }

  lemma {:induction false} DropIndex(items: seq<Item>, id: ItemId, removes: seq<ItemId>)
    requires id !in removes
    ensures IndexOf(Drop(items, removes), id).None? <==> IndexOf(items, id).None?
  {
    AbsentIndex(items, id);
    AbsentIndex(Drop(items, removes), id);
    assert forall x :: x in items && x.id == id ==> x in Drop(items, removes);
  }

  /** Upserting past a different last item. */
  lemma {:induction false} UpsertPast(items: seq<Item>, last: Item, item: Item)
    requires last.id != item.id && IndexOf(items, item.id).Some?
    ensures Upsert(items + [last], item) == Upsert(items, item) + [last]
  {
    assert (items + [last])[..|items|] == items;
  }

  lemma {:induction false} UpsertLast(items: seq<Item>, last: Item, item: Item)
    requires last.id == item.id
    ensures Upsert(items + [last], item) == items + [item]
  {
  }

  /** An upsert and the removal of other IDs commute. */
  lemma {:induction false} UpsertDrop(items: seq<Item>, item: Item, removes: seq<ItemId>)
    requires item.id !in removes
    ensures Drop(Upsert(items, item), removes) == Upsert(Drop(items, removes), item)
    decreases |items|, 0
  {
    DropIndex(items, item.id, removes);
    if IndexOf(items, item.id).None? {
      DropSnoc(items, item, removes);
    } else {
      var front, last := items[..|items| - 1], items[|items| - 1];
      assert items == front + [last];
      DropSnoc(front, last, removes);
      if last.id == item.id {
        UpsertLast(front, last, item);
        DropSnoc(front, item, removes);
        UpsertLast(Drop(front, removes), last, item);
      } else {
        UpsertPastDrop(front, last, item, removes);
      }
    }
  }

  lemma {:induction false} UpsertPastDrop(front: seq<Item>, last: Item, item: Item, removes: seq<ItemId>)
    requires item.id !in removes && last.id != item.id && IndexOf(front + [last], item.id).Some?
    ensures Drop(Upsert(front + [last], item), removes) == Upsert(Drop(front + [last], removes), item)
    decreases |front|, 1
  {
    assert (front + [last])[..|front|] == front;
    UpsertDrop(front, item, removes);
    DropIndex(front, item.id, removes);
    UpsertPast(front, last, item);
    DropSnoc(Upsert(front, item), last, removes);
    DropSnoc(front, last, removes);
    if last.id !in removes {
      UpsertPast(Drop(front, removes), last, item);
    } else {
      assert Drop(front, removes) + [] == Drop(front, removes);
      assert Drop(Upsert(front, item), removes) + [] == Drop(Upsert(front, item), removes);
    }
  }

  /** For patches that do not upsert what they remove, removing last gives the same. */
  lemma {:induction false} OrdersAgree(items: seq<Item>, upserts: seq<Item>, removes: seq<ItemId>)
    requires forall x :: x in upserts ==> x.id !in removes
    ensures Drop(UpsertAll(items, upserts), removes) == UpsertAll(Drop(items, removes), upserts)
  {
    if |upserts| > 0 {
      var front, last := upserts[..|upserts| - 1], upserts[|upserts| - 1];
      OrdersAgree(items, front, removes);
      UpsertDrop(UpsertAll(items, front), last, removes);
    }
  }

  // --------------------------------------------- following the timeline

  function NotAmong(items: seq<Item>): ItemId -> bool {
    (id: ItemId) => id !in Ids(items)
  }

  /**
   The viewer, after the pending removals, shows the first items of the
   timeline; those it shows differently are dirty, and the items it lacks are
   dirty in timeline order.
   */
  ghost predicate Follows(shown: seq<Item>, items: seq<Item>, dirty: seq<ItemId>, removes: seq<ItemId>) {
    Agrees(Drop(shown, removes), items, dirty)
  }

  predicate SameOrDirty(shown: Item, item: Item, dirty: seq<ItemId>) {
    shown.id == item.id && (item.id in dirty || shown == item)
  }

  ghost predicate AllSameOrDirty(shown: seq<Item>, items: seq<Item>, dirty: seq<ItemId>) {
    |shown| <= |items| && forall i :: 0 <= i < |shown| ==> SameOrDirty(shown[i], items[i], dirty)
  }

  ghost predicate Agrees(kept: seq<Item>, items: seq<Item>, dirty: seq<ItemId>) {
    && AllSameOrDirty(kept, items, dirty)
    && Filter(NotAmong(kept), dirty) == Ids(items[|kept|..])
  }

  function MarkDirty(dirty: seq<ItemId>, id: ItemId): seq<ItemId> {
    if id in dirty then dirty else dirty + [id]
  }

  lemma {:induction false} IdsSnoc(items: seq<Item>, item: Item)
    ensures Ids(items + [item]) == Ids(items) + [item.id]
  {
  }

  lemma {:induction false} IdsMember(items: seq<Item>, id: ItemId)
    ensures id in Ids(items) <==> exists i :: 0 <= i < |items| && items[i].id == id
  {
    if i :| 0 <= i < |items| && items[i].id == id {
      assert Ids(items)[i] == id;
    }
  }

  /** A new item, marked dirty. */
  lemma {:induction false} AppendAgrees(kept: seq<Item>, items: seq<Item>, dirty: seq<ItemId>, item: Item)
    requires Agrees(kept, items, dirty) && item.id !in Ids(items)
    ensures Agrees(kept, items + [item], dirty + [item.id])
  {
    FilterSnoc(NotAmong(kept), dirty, item.id);
    IdsMember(kept, item.id);
    IdsMember(items, item.id);
    assert (items + [item])[|kept|..] == items[|kept|..] + [item];
    IdsSnoc(items[|kept|..], item);
  }

  /** One item changed in place and marked dirty. */
  lemma {:induction false} ChangeAgrees(kept: seq<Item>, items: seq<Item>, dirty: seq<ItemId>, i: nat, item: Item)
    requires Agrees(kept, items, dirty) && i < |items| && items[i].id == item.id
    ensures Agrees(kept, items[i := item], MarkDirty(dirty, item.id))
  {
    DirtyAgrees(kept, items, dirty, i);
    var changed := items[i := item];
    assert Ids(changed[|kept|..]) == Ids(items[|kept|..]);
  }

  /** Marking an item dirty; one the viewer lacks is dirty already. */
  lemma {:induction false} DirtyAgrees(kept: seq<Item>, items: seq<Item>, dirty: seq<ItemId>, i: nat)
    requires Agrees(kept, items, dirty) && i < |items|
    ensures Agrees(kept, items, MarkDirty(dirty, items[i].id))
  {
    var id := items[i].id;
    if i >= |kept| {
      LackingIsDirty(kept, items, dirty, i);
    } else if id !in dirty {
      FilterSnoc(NotAmong(kept), dirty, id);
      assert Ids(kept)[i] == id;
    }
  }

  lemma {:induction false} LackingIsDirty(kept: seq<Item>, items: seq<Item>, dirty: seq<ItemId>, i: nat)
    requires Agrees(kept, items, dirty) && |kept| <= i < |items|
    ensures items[i].id in dirty
  {
    assert Ids(items[|kept|..])[i - |kept|] == items[i].id;
    assert items[i].id in Filter(NotAmong(kept), dirty);
  }

  // ---------------------------------------------------------------- removal

  function Except(id: ItemId): ItemId -> bool {
    (other: ItemId) => other != id
  }

  function Cut(items: seq<Item>, i: nat): seq<Item>
    requires i < |items|
  {
    items[..i] + items[i + 1..]
  }

  /** Removing an item the viewer never saw. */
  lemma {:induction false} CutLacking(kept: seq<Item>, items: seq<Item>, dirty: seq<ItemId>, i: nat)
    requires Agrees(kept, items, dirty) && UniqueIds(items) && |kept| <= i < |items|
    ensures Agrees(kept, Cut(items, i), Filter(Except(items[i].id), dirty))
  {
    FiltersSwap(NotAmong(kept), Except(items[i].id), dirty);
    var lacking := items[|kept|..];
    assert UniqueIds(lacking) by {
      SuffixUnique(items, |kept|);
    }
    FilterUniqueId(lacking, i - |kept|);
    CutSuffix(items, i, |kept|);
    CutKeeps(kept, items, dirty, i);
  }

  lemma {:induction false} SuffixUnique(items: seq<Item>, n: nat)
    requires UniqueIds(items) && n <= |items|
    ensures UniqueIds(items[n..])
  {
    assert forall i :: 0 <= i < |items| - n ==> items[n..][i] == items[n + i];
  }

  lemma {:induction false} CutSuffix(items: seq<Item>, i: nat, n: nat)
    requires n <= i < |items|
    ensures Cut(items, i)[n..] == Cut(items[n..], i - n)
  {
  }

  lemma {:induction false} CutKeeps(kept: seq<Item>, items: seq<Item>, dirty: seq<ItemId>, i: nat)
    requires Agrees(kept, items, dirty) && UniqueIds(items) && |kept| <= i < |items|
    ensures AllSameOrDirty(kept, Cut(items, i), Filter(Except(items[i].id), dirty))
  {
    forall k | 0 <= k < |kept|
      ensures Cut(items, i)[k] == items[k] && items[k].id != items[i].id
    {
    }
  }

  lemma {:induction false} IdsCut(items: seq<Item>, i: nat)
    requires i < |items|
    ensures Ids(items) == Ids(items[..i]) + [items[i].id] + Ids(items[i + 1..])
    ensures Ids(Cut(items, i)) == Ids(items[..i]) + Ids(items[i + 1..])
  {
  }

  lemma {:induction false} OthersDiffer(items: seq<Item>, i: nat)
    requires UniqueIds(items) && i < |items|
    ensures forall x :: x in items[..i] ==> x.id != items[i].id
    ensures forall x :: x in items[i + 1..] ==> x.id != items[i].id
    ensures forall id :: id in Ids(items[..i]) ==> id != items[i].id
    ensures var after := Ids(items[i + 1..]); forall id :: id in after ==> id != items[i].id
  {
  }

  lemma {:induction false} FilterUniqueId(items: seq<Item>, i: nat)
    requires UniqueIds(items) && i < |items|
    ensures Filter(Except(items[i].id), Ids(items)) == Ids(Cut(items, i))
  {
    IdsCut(items, i);
    OthersDiffer(items, i);
    FilterMiddle(Except(items[i].id), Ids(items[..i]), items[i].id, Ids(items[i + 1..]));
  }

  /** Removing an item the viewer shows, once it is told. */
  lemma {:induction false} CutShown(kept: seq<Item>, items: seq<Item>, dirty: seq<ItemId>, i: nat)
    requires Agrees(kept, items, dirty) && UniqueIds(items) && i < |kept|
    ensures Agrees(Cut(kept, i), Cut(items, i), Filter(Except(items[i].id), dirty))
  {
    var id, less, rest := items[i].id, Cut(kept, i), Cut(items, i);
    assert rest[|less|..] == items[|kept|..];
    forall k | 0 <= k < |less|
      ensures SameOrDirty(less[k], rest[k], Filter(Except(id), dirty))
    {
      var was := if k < i then k else k + 1;
      assert less[k] == kept[was] && rest[k] == items[was] && items[was].id != id;
    }
    FilterTwice(Except(id), NotAmong(less), NotAmong(kept), dirty) by {
      forall other | other in dirty
        ensures NotAmong(kept)(other) == (Except(id)(other) && NotAmong(less)(other))
      {
        CutMember(kept, i, other);
      }
    }
  }

  lemma {:induction false} CutMember(items: seq<Item>, i: nat, id: ItemId)
    requires i < |items|
    ensures id in Ids(items) <==> id == items[i].id || id in Ids(Cut(items, i))
  {
    IdsCut(items, i);
  }

  /** One more pending removal drops exactly that item from what the viewer keeps. */
  lemma {:induction false} DropOneMore(shown: seq<Item>, removes: seq<ItemId>, i: nat)
    requires UniqueIds(Drop(shown, removes)) && i < |Drop(shown, removes)|
    ensures Drop(shown, removes + [Drop(shown, removes)[i].id]) == Cut(Drop(shown, removes), i)
  {
    var kept := Drop(shown, removes);
    var id := kept[i].id;
    OneMoreRemoved(shown, removes, id);
    assert kept == kept[..i] + [kept[i]] + kept[i + 1..];
    OthersDiffer(kept, i);
    FilterMiddle(Other(id), kept[..i], kept[i], kept[i + 1..]);
  }

  lemma {:induction false} OneMoreRemoved(shown: seq<Item>, removes: seq<ItemId>, id: ItemId)
    ensures Drop(shown, removes + [id]) == Filter(Other(id), Drop(shown, removes))
  {
    if |shown| > 0 {
      var front, last := shown[..|shown| - 1], shown[|shown| - 1];
      OneMoreRemoved(front, removes, id);
      assert shown == front + [last];
      OneMoreSnoc(front, last, removes, id);
    }
  }

  lemma {:induction false} OneMoreSnoc(front: seq<Item>, last: Item, removes: seq<ItemId>, id: ItemId)
    requires Drop(front, removes + [id]) == Filter(Other(id), Drop(front, removes))
    ensures Drop(front + [last], removes + [id]) == Filter(Other(id), Drop(front + [last], removes))
  {
    if last.id in removes {
      FilterSkip(KeptBy(removes), front, last);
      FilterSkip(KeptBy(removes + [id]), front, last);
    } else if last.id == id {
      FilterNext(KeptBy(removes), front, last);
      FilterSkip(KeptBy(removes + [id]), front, last);
      FilterSkip(Other(id), Drop(front, removes), last);
    } else {
      FilterNext(KeptBy(removes), front, last);
      FilterNext(KeptBy(removes + [id]), front, last);
      FilterNext(Other(id), Drop(front, removes), last);
    }
  }

  function Other(id: ItemId): Item -> bool {
    (item: Item) => item.id != id
  }

  // ------------------------------------------------------------- the patch

  /** The items of these IDs, as the patch lists them. */
  function ItemsOf(items: seq<Item>, ids: seq<ItemId>): seq<Item> {
    if |ids| == 0 then []
    else
      var index := IndexOf(items, ids[|ids| - 1]);
      ItemsOf(items, ids[..|ids| - 1]) + if index.Some? then [items[index.value]] else []
  }

  lemma {:induction false} IndexUnique(items: seq<Item>, i: nat)
    requires UniqueIds(items) && i < |items|
    ensures IndexOf(items, items[i].id) == Some(i)
  {
    assert forall k :: 0 <= k < |items| && items[k].id == items[i].id ==> k == i;
  }

  /** What the viewer shows after the first m dirty items were upserted. */
  ghost predicate Partly(shown: seq<Item>, kept: seq<Item>, items: seq<Item>, dirty: seq<ItemId>, m: nat) {
    && m <= |dirty|
    && |shown| == |kept| + |Filter(NotAmong(kept), dirty[..m])|
    && AllSameOrDirty(shown, items, dirty[m..])
  }

  lemma {:induction false} FilterPrefix(keep: ItemId -> bool, dirty: seq<ItemId>, m: nat)
    requires m < |dirty|
    ensures Filter(keep, dirty[..m + 1]) == Filter(keep, dirty[..m]) + if keep(dirty[m]) then [dirty[m]] else []
    ensures Filter(keep, dirty[..m + 1]) <= Filter(keep, dirty)
  {
    assert dirty[..m + 1] == dirty[..m] + [dirty[m]];
    FilterSnoc(keep, dirty[..m], dirty[m]);
    assert dirty == dirty[..m + 1] + dirty[m + 1..];
    FilterConcat(keep, dirty[..m + 1], dirty[m + 1..]);
  }

  /** The place of the m-th dirty item: known to the viewer, or next in line. */
  lemma {:induction false} DirtyPlace(shown: seq<Item>, kept: seq<Item>, items: seq<Item>, dirty: seq<ItemId>, m: nat)
    returns (i: nat)
    requires UniqueIds(items) && Agrees(kept, items, dirty) && m < |dirty| && Partly(shown, kept, items, dirty, m)
    requires dirty[m] in Ids(items)
    ensures i < |items| && items[i].id == dirty[m]
    ensures if NotAmong(kept)(dirty[m]) then i == |shown| else i < |kept|
  {
    FilterPrefix(NotAmong(kept), dirty, m);
    if NotAmong(kept)(dirty[m]) {
      i := |shown|;
      var before := Filter(NotAmong(kept), dirty[..m]);
      assert Filter(NotAmong(kept), dirty)[|before|] == dirty[m];
      assert Ids(items[|kept|..])[|before|] == items[i].id;
    } else {
      IdsMember(kept, dirty[m]);
      i :| 0 <= i < |kept| && kept[i].id == dirty[m];
    }
  }

  lemma {:induction false} UpsertNext(shown: seq<Item>, kept: seq<Item>, items: seq<Item>, dirty: seq<ItemId>, m: nat)
    requires UniqueIds(items) && Agrees(kept, items, dirty) && m < |dirty| && Partly(shown, kept, items, dirty, m)
    requires dirty[m] in Ids(items)
    ensures IndexOf(items, dirty[m]).Some?
    ensures Partly(Upsert(shown, items[IndexOf(items, dirty[m]).value]), kept, items, dirty, m + 1)
  {
    var i := DirtyPlace(shown, kept, items, dirty, m);
    FilterPrefix(NotAmong(kept), dirty, m);
    IndexUnique(items, i);
    if i < |kept| {
      SameIdsIndex(shown, items, i);
    } else {
      AbsentFromPrefix(shown, items);
    }
    UpsertedAt(shown, items, dirty, m, i);
  }

  lemma {:induction false} UpsertedAt(shown: seq<Item>, items: seq<Item>, dirty: seq<ItemId>, m: nat, i: nat)
    requires UniqueIds(items) && m < |dirty| && i < |items| && items[i].id == dirty[m] && i <= |shown|
    requires AllSameOrDirty(shown, items, dirty[m..])
    requires IndexOf(shown, items[i].id) == if i < |shown| then Some(i) else None
    ensures var next := Upsert(shown, items[i]);
            |next| == |shown| + (if i < |shown| then 0 else 1) && AllSameOrDirty(next, items, dirty[m + 1..])
  {
    var next := Upsert(shown, items[i]);
    assert dirty[m..] == [dirty[m]] + dirty[m + 1..];
    forall k | 0 <= k < |next|
      ensures SameOrDirty(next[k], items[k], dirty[m + 1..])
    {
      if k != i {
        assert items[k].id != items[i].id;
      }
    }
  }

  lemma {:induction false} SameIdsIndex(shown: seq<Item>, items: seq<Item>, i: nat)
    requires UniqueIds(items) && i < |shown| <= |items|
    requires forall k :: 0 <= k < |shown| ==> shown[k].id == items[k].id
    ensures IndexOf(shown, items[i].id) == Some(i)
  {
    assert UniqueIds(shown);
    IndexUnique(shown, i);
  }

  lemma {:induction false} AbsentFromPrefix(shown: seq<Item>, items: seq<Item>)
    requires UniqueIds(items) && |shown| < |items|
    requires forall k :: 0 <= k < |shown| ==> shown[k].id == items[k].id
    ensures IndexOf(shown, items[|shown|].id).None?
  {
  }

  lemma {:induction false} UpsertPrefix(kept: seq<Item>, items: seq<Item>, dirty: seq<ItemId>, m: nat)
    requires UniqueIds(items) && Agrees(kept, items, dirty) && m <= |dirty|
    requires forall id :: id in dirty ==> id in Ids(items)
    ensures Partly(UpsertAll(kept, ItemsOf(items, dirty[..m])), kept, items, dirty, m)
  {
    if m > 0 {
      UpsertPrefix(kept, items, dirty, m - 1);
      assert dirty[..m][..m - 1] == dirty[..m - 1];
      var shown := UpsertAll(kept, ItemsOf(items, dirty[..m - 1]));
      UpsertNext(shown, kept, items, dirty, m - 1);
      var item := items[IndexOf(items, dirty[m - 1]).value];
      assert (ItemsOf(items, dirty[..m - 1]) + [item])[..|ItemsOf(items, dirty[..m - 1])|] ==
             ItemsOf(items, dirty[..m - 1]);
    }
  }

  /** A viewer that follows the timeline shows exactly it after the next patch. */
  lemma {:induction false} PatchCompletes(shown: seq<Item>, items: seq<Item>, dirty: seq<ItemId>, removes: seq<ItemId>)
    requires UniqueIds(items) && Follows(shown, items, dirty, removes)
    requires forall id :: id in dirty ==> id in Ids(items)
    ensures UpsertAll(Drop(shown, removes), ItemsOf(items, dirty)) == items
  {
    var kept := Drop(shown, removes);
    UpsertPrefix(kept, items, dirty, |dirty|);
    assert dirty[..|dirty|] == dirty;
    assert |Ids(items[|kept|..])| == |items| - |kept|;
  }

  /** Several items changed, and every changed one marked dirty. */
  function MarkAll(dirty: seq<ItemId>, ids: seq<ItemId>): seq<ItemId> {
    if |ids| == 0 then dirty else MarkDirty(MarkAll(dirty, ids[..|ids| - 1]), ids[|ids| - 1])
  }

  lemma {:induction false} MarkAllMembers(dirty: seq<ItemId>, ids: seq<ItemId>)
    ensures forall id :: id in MarkAll(dirty, ids) <==> id in dirty || id in ids
  {
    if |ids| > 0 {
      MarkAllMembers(dirty, ids[..|ids| - 1]);
      assert ids == ids[..|ids| - 1] + [ids[|ids| - 1]];
    }
  }

  lemma {:induction false} MarkAllAgrees(kept: seq<Item>, items: seq<Item>, dirty: seq<ItemId>, ids: seq<ItemId>)
    requires Agrees(kept, items, dirty) && forall id :: id in ids ==> id in Ids(items)
    ensures Agrees(kept, items, MarkAll(dirty, ids))
  {
    if |ids| > 0 {
      MarkAllAgrees(kept, items, dirty, ids[..|ids| - 1]);
      IdsMember(items, ids[|ids| - 1]);
      var i :| 0 <= i < |items| && items[i].id == ids[|ids| - 1];
      DirtyAgrees(kept, items, MarkAll(dirty, ids[..|ids| - 1]), i);
    }
  }

  lemma {:induction false} ChangesAgree(kept: seq<Item>, items: seq<Item>, changed: seq<Item>, dirty: seq<ItemId>)
    requires Agrees(kept, items, dirty) && |changed| == |items|
    requires forall i :: 0 <= i < |items| ==>
               changed[i].id == items[i].id && (changed[i] == items[i] || items[i].id in dirty)
    ensures Agrees(kept, changed, dirty)
  {
    assert Ids(changed[|kept|..]) == Ids(items[|kept|..]);
    forall i | 0 <= i < |kept|
      ensures SameOrDirty(kept[i], changed[i], dirty)
    {
      assert SameOrDirty(kept[i], items[i], dirty);
    }
  }
}
