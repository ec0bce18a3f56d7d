/**
 Whole runs of the projection: every interleaving of its calls with take_patch,
 and the viewers that receive all, some or none of the patches
 (apps/guruterminal/src-tauri/src/chat_progress.rs:346-596;
 apps/guruterminal/src/chat/ai-sdk.ts:90-127;
 apps/guruterminal/src-tauri/src/commands/chat_runtime.rs:715-758).
 */
module Watching {
  import opened Progress
  import opened Projection
  import opened Timeline
  import opened Wrappers

  datatype Call =
    | StartTurn
    | Append(delta: string)
    | FinishTurn(isFinal: bool)
    | StartTool(callId: string, presentation: Presentation, at: int)
    | FinishTool(callId: string, failed: bool, at: int)
    | StartSystem(key: string, presentation: Presentation, at: int)
    | FinishSystem(key: string, failed: bool, at: int)
    | Finish(at: int, stopped: bool)
    | TakePatch

  function Perform(b: Book, call: Call): Book {
    match call
    case StartTurn => b.(active := None)
    case Append(delta) => Appended(b, delta)
    case FinishTurn(isFinal) => TurnFinished(b, isFinal)
    case StartTool(callId, presentation, at) => ToolStarted(b, callId, presentation, at)
    case FinishTool(callId, failed, at) => ToolFinished(b, callId, failed, at)
    case StartSystem(key, presentation, at) => SystemStarted(b, key, presentation, at)
    case FinishSystem(key, failed, at) => SystemFinished(b, key, failed, at)
    case Finish(at, stopped) => Finished(b, at, stopped)
    case TakePatch => PatchTaken(b)
  }

  /** The projection after these calls, made in order. */
  function Run(startedAt: int, calls: seq<Call>): Book {
    if |calls| == 0 then NewBook(startedAt) else Perform(Run(startedAt, calls[..|calls| - 1]), calls[|calls| - 1])
  }

  function Emitted(b: Book, call: Call): seq<Patch> {
    if call.TakePatch? && PatchOf(b).Some? then [PatchOf(b).value] else []
  }

  /** The patches the run emitted, in order. */
  function Patches(startedAt: int, calls: seq<Call>): seq<Patch> {
    if |calls| == 0 then []
    else
      var front := calls[..|calls| - 1];
      Patches(startedAt, front) + Emitted(Run(startedAt, front), calls[|calls| - 1])
  }

  const NOTHING_SHOWN: View := View([], None, 0)

  /** What a viewer shows that was sent these patches. */
  function Watched(patches: seq<Patch>): View {
    if |patches| == 0 then NOTHING_SHOWN else Apply(Watched(patches[..|patches| - 1]), patches[|patches| - 1])
  }

  lemma {:induction false} WatchedSnoc(patches: seq<Patch>, patch: Patch)
    ensures Watched(patches + [patch]) == Apply(Watched(patches), patch)
    ensures patches + [] == patches
  {
    assert (patches + [patch])[..|patches|] == patches;
  }

  /** A viewer that got every patch is in step with the projection. */
  ghost predicate InStep(b: Book, v: View, emitted: nat) {
    && Sound(b, v.items)
    && v.sequence == emitted && b.nextSequence == emitted + 1
    && (b.pendingFinished.None? ==> v.finishedAt == b.finishedAt)
  }

  lemma {:induction false} NewInStep(startedAt: int)
    ensures InStep(NewBook(startedAt), NOTHING_SHOWN, 0)
  {
    ExactTracked([]);
  }

  lemma {:induction false} TurnSound(b: Book, shown: seq<Item>, isFinal: bool)
    requires Sound(b, shown)
    ensures Sound(TurnFinished(b, isFinal), shown)
  {
    if isFinal && b.active.Some? {
      RemoveSound(b.(active := None), shown, b.active.value);
    }
  }

  /** Every call but take_patch keeps the book sound for the same viewer. */
  lemma {:induction false} CallSound(b: Book, shown: seq<Item>, call: Call)
    requires Sound(b, shown) && !call.TakePatch?
    ensures Sound(Perform(b, call), shown)
  {
    match call {
      case StartTurn =>
      case Append(delta) => AppendSound(b, shown, delta);
      case FinishTurn(isFinal) => TurnSound(b, shown, isFinal);
      case StartTool(callId, presentation, at) =>
        var id := ItemId(ForTool, b.nextItem);
        StartSound(b, shown, Tool(id, presentation, Running, Later(at, 0), None), b.toolItems[callId := id],
                   b.systemItems);
      case FinishTool(callId, failed, at) => ToolFinishedSound(b, shown, callId, failed, at);
      case StartSystem(key, presentation, at) =>
        var id := ItemId(ForSystem, b.nextItem);
        StartSound(b, shown, System(id, presentation, Running, Later(at, 0), None), b.toolItems,
                   b.systemItems[key := id]);
      case FinishSystem(key, failed, at) => SystemFinishedSound(b, shown, key, failed, at);
      case Finish(at, stopped) => FinishSound(b, shown, at, stopped);
    }
  }

  lemma {:induction false} RemoveKeepsSequence(b: Book, id: ItemId)
    ensures Removed(b, id).nextSequence == b.nextSequence && Removed(b, id).pendingFinished == b.pendingFinished
    ensures Removed(b, id).finishedAt == b.finishedAt && Removed(b, id).startedAt == b.startedAt
  {
  }

  lemma {:induction false} CallKeepsSequence(b: Book, call: Call)
    requires !call.TakePatch?
    ensures Perform(b, call).nextSequence == b.nextSequence
    ensures Perform(b, call).pendingFinished.None? ==>
            b.pendingFinished.None? && Perform(b, call).finishedAt == b.finishedAt
  {
    if call.FinishTurn? && b.active.Some? {
      RemoveKeepsSequence(b.(active := None), b.active.value);
    }
  }

  lemma {:induction false} TakenSound(b: Book, shown: seq<Item>)
    requires Sound(b, shown)
    ensures Sound(PatchTaken(b), b.items)
  {
    var r := PatchTaken(b);
    ExactTracked(b.items);
    DropNothing(b.items);
    AllPublished(b, shown);
    TakenIssued(b.items, b.removes, b.nextItem);
    NothingDirty(b.dirtyIds, b.dirtySet);
    AssembleSound(r, b.items);
  }

  lemma {:induction false} TakenIssued(items: seq<Item>, removes: seq<ItemId>, nextItem: nat)
    requires Issued(items, removes, nextItem)
    ensures Issued(items, [], nextItem)
  {
  }

  lemma {:induction false} NothingDirty(dirtyIds: seq<ItemId>, dirtySet: set<ItemId>)
    requires SameMembers(dirtyIds, dirtySet)
    ensures SameMembers([], dirtySet - (set id | id in dirtyIds))
  {
  }

  /** Without a patch the viewer already shows the timeline. */
  lemma {:induction false} NoPatchNothingNew(b: Book, shown: seq<Item>)
    requires Sound(b, shown) && PatchOf(b).None?
    ensures shown == b.items
  {
    PatchIsExact(b, shown);
    DropNothing(shown);
  }

  /** One take_patch: the viewer then shows exactly the timeline. */
  lemma {:induction false} TakeInStep(b: Book, v: View, emitted: nat)
    requires InStep(b, v, emitted) && emitted < U64_MAX - 1
    ensures PatchOf(b).Some? ==>
              && PatchOf(b).value.sequence == emitted + 1
              && Apply(v, PatchOf(b).value) == View(b.items, b.finishedAt, emitted + 1)
              && InStep(PatchTaken(b), Apply(v, PatchOf(b).value), emitted + 1)
    ensures PatchOf(b).None? ==> v == View(b.items, b.finishedAt, emitted) && InStep(PatchTaken(b), v, emitted)
  {
    TakenSound(b, v.items);
    if PatchOf(b).Some? {
      PatchIsExact(b, v.items);
    } else {
      NoPatchNothingNew(b, v.items);
    }
  }

  lemma {:induction false} SnocCalls(calls: seq<Call>, call: Call)
    ensures (calls + [call])[..|calls|] == calls
  {
  }

  /**
   In every interleaving a viewer that applies every patch is in step, and the
   k-th patch carries sequence number k.
   */
  lemma {:induction false} RunInStep(startedAt: int, calls: seq<Call>)
    requires |Patches(startedAt, calls)| < U64_MAX
    ensures InStep(Run(startedAt, calls), Watched(Patches(startedAt, calls)), |Patches(startedAt, calls)|)
    ensures forall k :: 0 <= k < |Patches(startedAt, calls)| ==> Patches(startedAt, calls)[k].sequence == k + 1
  {
    if |calls| == 0 {
      NewInStep(startedAt);
    } else {
      var front, call := calls[..|calls| - 1], calls[|calls| - 1];
      var b, patches := Run(startedAt, front), Patches(startedAt, front);
      RunInStep(startedAt, front);
      StepInStep(b, patches, call);
    }
  }

  lemma {:induction false} StepInStep(b: Book, patches: seq<Patch>, call: Call)
    requires InStep(b, Watched(patches), |patches|) && |patches + Emitted(b, call)| < U64_MAX
    ensures InStep(Perform(b, call), Watched(patches + Emitted(b, call)), |patches + Emitted(b, call)|)
    ensures Emitted(b, call) != [] ==> Emitted(b, call)[0].sequence == |patches| + 1
  {
    if call.TakePatch? {
      if PatchOf(b).Some? {
        TakeInStep(b, Watched(patches), |patches|);
        WatchedSnoc(patches, PatchOf(b).value);
      } else {
        TakeWithoutPatch(b, Watched(patches), |patches|);
        assert patches + [] == patches;
      }
    } else {
      CallSound(b, Watched(patches).items, call);
      CallKeepsSequence(b, call);
      assert patches + [] == patches;
    }
  }

  lemma {:induction false} TakeWithoutPatch(b: Book, v: View, emitted: nat)
    requires InStep(b, v, emitted) && PatchOf(b).None?
    ensures v == View(b.items, b.finishedAt, emitted) && InStep(PatchTaken(b), v, emitted)
  {
    TakenSound(b, v.items);
    NoPatchNothingNew(b, v.items);
  }

  /** `snapshot` with `latest_patch_sequence`. */
  function Snapshot(b: Book): View {
    View(b.items, b.finishedAt, if b.nextSequence == 0 then 0 else b.nextSequence - 1)
  }

  lemma {:induction false} TakeShows(b: Book, patches: seq<Patch>)
    requires InStep(b, Watched(patches), |patches|) && |patches + Emitted(b, TakePatch)| < U64_MAX
    ensures Watched(patches + Emitted(b, TakePatch)) == Snapshot(PatchTaken(b))
  {
    if PatchOf(b).Some? {
      TakeInStep(b, Watched(patches), |patches|);
      WatchedSnoc(patches, PatchOf(b).value);
    } else {
      TakeWithoutPatch(b, Watched(patches), |patches|);
      assert patches + [] == patches;
    }
  }

  lemma {:induction false} LastTake(startedAt: int, calls: seq<Call>)
    ensures Run(startedAt, calls + [TakePatch]) == PatchTaken(Run(startedAt, calls))
    ensures Patches(startedAt, calls + [TakePatch]) ==
            Patches(startedAt, calls) + Emitted(Run(startedAt, calls), TakePatch)
  {
    SnocCalls(calls, TakePatch);
  }

  /** Right after a take_patch the viewer shows exactly the snapshot. */
  lemma {:induction false} PatchShowsSnapshot(startedAt: int, calls: seq<Call>)
    requires |Patches(startedAt, calls + [TakePatch])| < U64_MAX
    ensures Watched(Patches(startedAt, calls + [TakePatch])) == Snapshot(Run(startedAt, calls + [TakePatch]))
  {
    LastTake(startedAt, calls);
    RunInStep(startedAt, calls);
    TakeShows(Run(startedAt, calls), Patches(startedAt, calls));
  }

  /** take_patch gives nothing only when the viewer already shows the snapshot. */
  lemma {:induction false} NoneMeansNoChange(startedAt: int, calls: seq<Call>)
    requires |Patches(startedAt, calls)| < U64_MAX && PatchOf(Run(startedAt, calls)).None?
    ensures Watched(Patches(startedAt, calls)) == Snapshot(Run(startedAt, calls))
  {
    RunInStep(startedAt, calls);
    TakeWithoutPatch(Run(startedAt, calls), Watched(Patches(startedAt, calls)), |Patches(startedAt, calls)|);
  }

  // --------------------------------------------- a viewer that misses patches

  /** What a viewer shows that received only the patches marked as delivered. */
  function Received(patches: seq<Patch>, delivered: seq<bool>): View
    requires |delivered| == |patches|
  {
    if |patches| == 0 then NOTHING_SHOWN
    else
      var n := |patches| - 1;
      var before := Received(patches[..n], delivered[..n]);
      if delivered[n] then Apply(before, patches[n]) else before
  }

  /** It is either behind or shows what a viewer shows that missed nothing. */
  lemma {:induction false} LossyBehind(patches: seq<Patch>, delivered: seq<bool>)
    requires |delivered| == |patches|
    requires forall k :: 0 <= k < |patches| ==> patches[k].sequence == k + 1
    ensures Watched(patches).sequence == |patches|
    ensures Received(patches, delivered) == Watched(patches) || Received(patches, delivered).sequence < |patches|
  {
    if |patches| > 0 {
      var n := |patches| - 1;
      LossyBehind(patches[..n], delivered[..n]);
    }
  }

  lemma {:induction false} ResyncExact(patches: seq<Patch>, delivered: seq<bool>, snapshot: View)
    requires |delivered| == |patches| && Watched(patches) == snapshot
    requires forall k :: 0 <= k < |patches| ==> patches[k].sequence == k + 1
    ensures Resync(Received(patches, delivered), snapshot) == snapshot
  {
    LossyBehind(patches, delivered);
  }

  /** The terminal snapshot brings every viewer up to date, whatever it missed. */
  lemma {:induction false} SnapshotResyncs(startedAt: int, calls: seq<Call>, delivered: seq<bool>)
    requires |delivered| == |Patches(startedAt, calls + [TakePatch])| < U64_MAX
    ensures var snapshot := Snapshot(Run(startedAt, calls + [TakePatch]));
            Resync(Received(Patches(startedAt, calls + [TakePatch]), delivered), snapshot) == snapshot
  {
    PatchShowsSnapshot(startedAt, calls);
    RunInStep(startedAt, calls + [TakePatch]);
    ResyncExact(Patches(startedAt, calls + [TakePatch]), delivered, Snapshot(Run(startedAt, calls + [TakePatch])));
  }

  // ------------------------------------------------- valid and durable progress

  /** What `ChatProgress::validate` asks of times, states and IDs. */
  ghost predicate ValidTimes(durable: bool, b: Book) {
    TimesValid(durable, b.startedAt, b.finishedAt, b.items)
  }

  lemma {:induction false} SoundTimes(b: Book, shown: seq<Item>)
    requires Sound(b, shown)
    ensures ValidTimes(false, b) <==> b.startedAt >= 0
  {
  }

  lemma {:induction false} RunStart(startedAt: int, calls: seq<Call>)
    ensures Run(startedAt, calls).startedAt == startedAt
  {
    if |calls| > 0 {
      RunStart(startedAt, calls[..|calls| - 1]);
      StartKept(Run(startedAt, calls[..|calls| - 1]), calls[|calls| - 1]);
    }
  }

  lemma {:induction false} StartKept(b: Book, call: Call)
    ensures Perform(b, call).startedAt == b.startedAt
  {
    if call.FinishTurn? && b.active.Some? {
      RemoveKeepsSequence(b.(active := None), b.active.value);
    }
  }

  lemma {:induction false} LastFinish(startedAt: int, calls: seq<Call>, at: int, stopped: bool)
    ensures Run(startedAt, calls + [Finish(at, stopped)]) == Finished(Run(startedAt, calls), at, stopped)
  {
    SnocCalls(calls, Finish(at, stopped));
  }

  /** Every snapshot has valid times, states and IDs, if the start time is valid. */
  lemma {:induction false} SnapshotsValid(startedAt: int, calls: seq<Call>)
    requires |Patches(startedAt, calls)| < U64_MAX
    ensures ValidTimes(false, Run(startedAt, calls)) <==> startedAt >= 0
  {
    RunStart(startedAt, calls);
    RunInStep(startedAt, calls);
    SoundTimes(Run(startedAt, calls), Watched(Patches(startedAt, calls)).items);
  }

  lemma {:induction false} ClosedEnded(items: seq<Item>, at: int, stopped: bool)
    ensures forall item :: item in Close(items, at, stopped) ==>
              item.Commentary? || (item.status != Running && item.finished.Some?)
  {
  }

  lemma {:induction false} EndedIsDurable(started: int, finished: Option<int>, items: seq<Item>)
    requires finished.Some?
    requires forall item :: item in items ==> item.Commentary? || (item.status != Running && item.finished.Some?)
    ensures TimesValid(true, started, finished, items) <==> TimesValid(false, started, finished, items)
  {
  }

  lemma {:induction false} FinishedDurable(b: Book, shown: seq<Item>, at: int, stopped: bool)
    requires Sound(b, shown)
    ensures ValidTimes(true, Finished(b, at, stopped)) <==> b.startedAt >= 0
  {
    var ended := Finished(b, at, stopped);
    FinishSound(b, shown, at, stopped);
    SoundTimes(ended, shown);
    ClosedEnded(b.items, Later(at, b.startedAt), stopped);
    assert ended.items == Close(b.items, Later(at, b.startedAt), stopped) && ended.finishedAt.Some?;
    EndedIsDurable(ended.startedAt, ended.finishedAt, ended.items);
  }

  /** Finishing makes the progress durable: nothing runs and every item has ended. */
  lemma {:induction false} FinishIsDurable(startedAt: int, calls: seq<Call>, at: int, stopped: bool)
    requires |Patches(startedAt, calls)| < U64_MAX
    ensures ValidTimes(true, Run(startedAt, calls + [Finish(at, stopped)])) <==> startedAt >= 0
  {
    RunStart(startedAt, calls);
    LastFinish(startedAt, calls, at, stopped);
    RunInStep(startedAt, calls);
    FinishedDurable(Run(startedAt, calls), Watched(Patches(startedAt, calls)).items, at, stopped);
  }

  // ------------------------------------------------------ the class in a run

  /** One call on the object is one step of the run. */
  method PerformOn(projection: ChatProgressProjection, call: Call, ghost shown: seq<Item>)
    returns (patch: Option<Patch>)
    requires Sound(projection.Now(), shown)
    modifies projection
    ensures projection.Now() == Perform(old(projection.Now()), call)
    ensures patch == if call.TakePatch? then PatchOf(old(projection.Now())) else None
  {
    SoundIsUsable(projection.Now(), shown);
    patch := None;
    match call {
      case StartTurn => projection.StartAssistantTurn();
      case Append(delta) => projection.AppendCommentary(delta);
      case FinishTurn(isFinal) => projection.FinishAssistantTurn(isFinal);
      case StartTool(callId, presentation, at) => projection.StartTool(callId, presentation, at);
      case FinishTool(callId, failed, at) => projection.FinishTool(callId, failed, at);
      case StartSystem(key, presentation, at) => projection.StartSystem(key, presentation, at);
      case FinishSystem(key, failed, at) => projection.FinishSystem(key, failed, at);
      case Finish(at, stopped) => var _ := projection.Finish(at, stopped);
      case TakePatch => patch := projection.TakePatch();
    }
  }

  ghost predicate Agree(projection: ChatProgressProjection, patches: seq<Patch>, startedAt: int, calls: seq<Call>)
    reads projection
  {
    projection.Now() == Run(startedAt, calls) && patches == Patches(startedAt, calls)
  }

  method NextOn(projection: ChatProgressProjection, patches: seq<Patch>, startedAt: int, calls: seq<Call>, i: nat)
    returns (grown: seq<Patch>)
    requires i < |calls| && |Patches(startedAt, calls)| < U64_MAX && Agree(projection, patches, startedAt, calls[..i])
    modifies projection
    ensures Agree(projection, grown, startedAt, calls[..i + 1])
  {
    PatchesGrow(startedAt, calls, i);
    RunInStep(startedAt, calls[..i]);
    assert calls[..i + 1][..i] == calls[..i];
    var patch := PerformOn(projection, calls[i], Watched(patches).items);
    grown := patches + if patch.Some? then [patch.value] else [];
  }

  /** A projection object put through any calls is the run of those calls. */
  method RunOn(startedAt: int, calls: seq<Call>) returns (projection: ChatProgressProjection, patches: seq<Patch>)
    requires |Patches(startedAt, calls)| < U64_MAX
    ensures fresh(projection) && Agree(projection, patches, startedAt, calls)
  {
    projection := new ChatProgressProjection(startedAt);
    patches := [];
    for i := 0 to |calls|
      invariant fresh(projection) && Agree(projection, patches, startedAt, calls[..i])
    {
      patches := NextOn(projection, patches, startedAt, calls, i);
    }
    assert calls[..|calls|] == calls;
  }

  lemma {:induction false} PatchesGrow(startedAt: int, calls: seq<Call>, i: nat)
    requires i <= |calls|
    ensures |Patches(startedAt, calls[..i])| <= |Patches(startedAt, calls)|
    decreases |calls| - i
  {
    if i < |calls| {
      assert calls[..i + 1][..i] == calls[..i];
      PatchesGrow(startedAt, calls, i + 1);
    } else {
      assert calls[..i] == calls;
    }
  }
}
