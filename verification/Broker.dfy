/**
 Tool broker connections as interleaved steps between the awaits of
 handle_connection; each may be dropped at an await
 (apps/guruterminal/src-tauri/src/broker.rs:844-1047, 1057-1111).
 */
module Broker {
  import opened Cardinality
  import Strings
  import opened Wrappers

  const PROTOCOL: string := "guruterminal-tool/1"

  datatype Request = Request(protocol: string, id: string, token: string, name: string)

  datatype Ack = Ack(protocol: string, id: string, delivered: bool)

  /** Where a connection waits. */
  datatype Phase =
    | Reading | Executing | Disconnected | Refused | EncodeFailed | Undelivered | Writing | WriteFailed
    | Acknowledging | AckFailed | Delivering | Finalizing | Closing | Ended

  /**
   held is the uncommitted reservation, kept the committed one. sent says that
   the frame being written is the success response, wrote that it was written.
   request and ack are what the client sent.
   */
  datatype Connection = Connection(
    phase: Phase, id: string, ok: bool, held: Option<ToolMethod>, kept: Option<ToolMethod>,
    sent: bool, wrote: bool, acked: bool, barrier: bool,
    began: bool, aborted: bool, commits: nat, discards: nat, request: Option<Request>, ack: Option<Ack>)

  const ACCEPTED: Connection :=
    Connection(Reading, "", false, None, None, false, false, false, false, false, false, 0, 0, None, None)

  /** How the response encodes: as it is, as a bounded error, or not at all. */
  datatype Encoding = Fits | TooLarge(errorFits: bool) | Unencodable

  /** What an await resumes with; Dropped is the connection being dropped there. */
  datatype Event =
    | ReadFailed
    | ReadRequest(request: Request)
    | Finished(succeeded: bool, encoding: Encoding)
    | PeerGone
    | DiscardDone(encoding: Encoding)
    | WriteDone(written: bool)
    | AckRead(ack: Option<Ack>, barrierEncodes: bool)
    | DeliveryCommitted(barrierEncodes: bool)
    | BarrierWritten(written: bool)
    | ShutdownDone
    | Dropped

  datatype State = State(counters: Counters, connections: seq<Connection>)

  // ------------------------------------------------------------ one request

  predicate BadId(id: string) {
    id == "" || Strings.ByteLen(id) > 256 || '\n' in id || '\r' in id || '\0' in id
  }

  /** The method a request may run, if every check before the reservation passes. */
  function Admitted(policy: Policy, token: string, request: Request): Option<ToolMethod> {
    if BadId(request.id) || request.protocol != PROTOCOL || request.token != token then None
    else
      match ParseMethod(request.name)
      case None => None
      case Some(m) => if PolicyAllows(policy, m) then Some(m) else None
  }

  /** What a client must have sent for this method to run, apart from the budgets. */
  predicate Authorised(policy: Policy, token: string, request: Request, m: ToolMethod) {
    && 1 <= Strings.ByteLen(request.id) <= 256
    && !('\n' in request.id) && !('\r' in request.id) && !('\0' in request.id)
    && request.protocol == "guruterminal-tool/1"
    && request.token == token
    && request.name == MethodName(m)
    && (m == GuruSearch || m == GuruRead || m == GuruReadPrevious ==> policy.useMemory)
    && (m == MemoryPatchPropose ==> policy.proposeMemoryUpdates)
  }

  lemma {:induction false} AdmittedMeaning(policy: Policy, token: string, request: Request)
    ensures forall m :: Admitted(policy, token, request) == Some(m) <==> Authorised(policy, token, request, m)
  {
    ParsedName(request.name);
  }

  function ResponseId(request: Request): string {
    if BadId(request.id) then "invalid-request-id" else request.id
  }

  /** The delivery is discarded and the connection waits for that. */
  function Discard(c: Connection, phase: Phase): Connection {
    c.(phase := phase, discards := c.discards + 1)
  }

  /** From the response to the await that follows it. */
  function Encode(c: Connection, encoding: Encoding): Connection {
    match encoding
    case Unencodable => Discard(c, EncodeFailed)
    case TooLarge(errorFits) => Discard(c, if errorFits then Undelivered else EncodeFailed)
    case Fits => if c.ok then c.(phase := Writing, sent := true) else Discard(c, Undelivered)
  }

  /** The reservation is dropped: its unit goes back. */
  function Release(counters: Counters, c: Connection): (Counters, Connection) {
    match c.held
    case None => (counters, c)
    case Some(m) => (RolledBack(counters, m), c.(held := None))
  }

  function EndWith(counters: Counters, c: Connection): (Counters, Connection) {
    Release(counters, c.(phase := Ended))
  }

  function Begin(policy: Policy, token: string, counters: Counters, c: Connection,
                 request: Request): (Counters, Connection) {
    var started := c.(began := true, id := ResponseId(request), request := Some(request));
    match Admitted(policy, token, request)
    case None => (counters, Discard(started, Refused))
    case Some(m) =>
      if HasRoom(counters, m, policy)
      then (Consumed(counters, m), started.(phase := Executing, held := Some(m)))
      else (counters, Discard(started, Refused))
  }

  function Barrier(c: Connection, encodes: bool): Connection {
    if encodes then c.(phase := Finalizing, barrier := true) else c.(phase := Ended)
  }

  predicate Matches(ack: Option<Ack>, id: string) {
    ack.Some? && ack.value.protocol == PROTOCOL && ack.value.id == id && ack.value.delivered
  }

  /** One connection resumes from its await; an event it does not wait for is ignored. */
  function Resume(policy: Policy, token: string, counters: Counters, c: Connection,
                  event: Event): (Counters, Connection) {
    if event.Dropped? then
      if c.phase.Ended? || c.phase.Delivering? then (counters, c) else EndWith(counters, c.(aborted := true))
    else
      match (c.phase, event)
      case (Reading, ReadFailed) => (counters, c.(phase := Ended))
      case (Reading, ReadRequest(request)) => Begin(policy, token, counters, c, request)
      case (Executing, Finished(true, encoding)) => (counters, Encode(c.(ok := true), encoding))
      case (Executing, Finished(false, _)) =>
        var dropped := Release(counters, c);
        (dropped.0, Discard(dropped.1, Refused))
      case (Executing, PeerGone) =>
        var dropped := Release(counters, c);
        (dropped.0, Discard(dropped.1, Disconnected))
      case (Disconnected, DiscardDone(_)) => EndWith(counters, c)
      case (Refused, DiscardDone(encoding)) => (counters, Encode(c, encoding))
      case (EncodeFailed, DiscardDone(_)) => EndWith(counters, c)
      case (Undelivered, DiscardDone(_)) => Release(counters, c.(phase := Writing))
      case (Writing, WriteDone(written)) =>
        (counters, if written then c.(phase := Acknowledging, wrote := c.sent) else Discard(c, WriteFailed))
      case (WriteFailed, DiscardDone(_)) => EndWith(counters, c)
      case (Acknowledging, AckRead(ack, encodes)) =>
        var heard := c.(ack := ack);
        if !Matches(ack, c.id) then (counters, Discard(heard, AckFailed))
        else if c.held.Some? then (counters, heard.(phase := Delivering, acked := true, commits := c.commits + 1))
        else (counters, Barrier(heard.(acked := true), encodes))
      case (AckFailed, DiscardDone(_)) => EndWith(counters, c)
      case (Finalizing, BarrierWritten(written)) => (counters, c.(phase := if written then Closing else Ended))
      case (Closing, ShutdownDone) => (counters, c.(phase := Ended))
      case (Delivering, DeliveryCommitted(encodes)) => (counters, Barrier(c.(kept := c.held, held := None), encodes))
      case (_, _) => (counters, c)
  }

  // ------------------------------------------------------------------- runs

  datatype Action = Accept | Act(index: nat, event: Event)

  function Next(policy: Policy, token: string, s: State, action: Action): State {
    match action
    case Accept => s.(connections := s.connections + [ACCEPTED])
    case Act(i, event) =>
      if i >= |s.connections| then s
      else
        var resumed := Resume(policy, token, s.counters, s.connections[i], event);
        State(resumed.0, s.connections[i := resumed.1])
  }

  /** The broker after these actions, in this interleaving. */
  function Run(policy: Policy, token: string, actions: seq<Action>): State {
    if |actions| == 0 then State(EMPTY, [])
    else Next(policy, token, Run(policy, token, actions[..|actions| - 1]), actions[|actions| - 1])
  }

  // ------------------------------------------------------ one connection's log

  /** Nothing was delivered, written or acknowledged so far. */
  predicate Quiet(c: Connection) {
    c.kept.None? && !c.wrote && !c.acked && !c.barrier && c.commits == 0
  }

  /** A success holds its reservation and was not discarded; anything else was. */
  predicate Pending(c: Connection) {
    && c.kept.None? && !c.acked && !c.barrier && c.commits == 0
    && (c.sent <==> c.held.Some?) && (c.sent <==> c.discards == 0)
  }

  predicate Settled(c: Connection) {
    && c.held.None? && c.acked && c.wrote == c.sent
    && (if c.sent then c.kept.Some? && c.commits == 1 && c.discards == 0
        else c.kept.None? && c.commits == 0 && c.discards > 0)
  }

  /** What holds of every connection that has ended. */
  predicate Closed(c: Connection) {
    && c.held.None? && c.commits <= 1
    && (c.commits == 1 <==> c.wrote && c.acked)
    && (c.commits == 1 <==> c.kept.Some?)
    && (c.commits == 1 ==> c.discards == 0)
    && (c.began && !c.aborted && c.commits == 0 ==> c.discards > 0)
    && (c.barrier && c.sent ==> c.kept.Some?)
  }

  /** What the log of a connection says at each of its awaits. */
  predicate LogOk(c: Connection) {
    if c.phase.Ended? then Closed(c)
    else
      && !c.aborted && (c.began <==> !c.phase.Reading?)
      && match c.phase
         case Reading => Quiet(c) && c.held.None? && !c.sent && c.discards == 0
         case Executing => Quiet(c) && c.held.Some? && !c.sent && c.discards == 0
         case Disconnected => Quiet(c) && c.held.None? && !c.sent && c.discards > 0
         case Refused => Quiet(c) && c.held.None? && !c.sent && c.discards > 0 && !c.ok
         case EncodeFailed => Quiet(c) && !c.sent && c.discards > 0
         case Undelivered => Quiet(c) && !c.sent && c.discards > 0
         case Writing => Pending(c) && !c.wrote
         case WriteFailed => Quiet(c) && c.discards > 0
         case Acknowledging => Pending(c) && c.wrote == c.sent
         case AckFailed => c.kept.None? && !c.acked && !c.barrier && c.commits == 0 && c.discards > 0
         case Delivering => c.held.Some? && c.kept.None? && c.sent && c.wrote && c.acked && !c.barrier &&
                            c.commits == 1 && c.discards == 0
         case Finalizing => Settled(c)
         case Closing => Settled(c)
  }

  lemma {:induction false} EncodeLog(c: Connection, encoding: Encoding)
    requires Quiet(c) && !c.sent && !c.aborted && c.began
    requires if c.ok then c.held.Some? && c.discards == 0 else c.held.None? && c.discards > 0
    ensures LogOk(Encode(c, encoding))
  {
  }

  lemma {:induction false} BeginLog(policy: Policy, token: string, counters: Counters, c: Connection, request: Request)
    requires LogOk(c) && c.phase.Reading? && !c.ok
    ensures LogOk(Begin(policy, token, counters, c, request).1)
  {
  }

  lemma {:induction false} DroppedLog(counters: Counters, c: Connection)
    requires LogOk(c) && !c.phase.Ended? && !c.phase.Delivering?
    ensures LogOk(EndWith(counters, c.(aborted := true)).1)
  {
  }

  /** ok is only set when the execution succeeded. */
  predicate OkLate(c: Connection) {
    c.phase in {Reading, Executing, Refused} ==> !c.ok
  }

  lemma {:induction false} StartLog(policy: Policy, token: string, counters: Counters, c: Connection, event: Event)
    requires LogOk(c) && OkLate(c) && !event.Dropped? && c.phase in {Reading, Executing}
    ensures LogOk(Resume(policy, token, counters, c, event).1) && OkLate(Resume(policy, token, counters, c, event).1)
  {
    if c.phase.Reading? && event.ReadRequest? {
      BeginLog(policy, token, counters, c, event.request);
    } else if c.phase.Executing? && event.Finished? && event.succeeded {
      EncodeLog(c.(ok := true), event.encoding);
    }
  }

  lemma {:induction false} DiscardLog(policy: Policy, token: string, counters: Counters, c: Connection, event: Event)
    requires LogOk(c) && OkLate(c) && !event.Dropped? && c.phase in {Disconnected, Refused, EncodeFailed}
    ensures LogOk(Resume(policy, token, counters, c, event).1) && OkLate(Resume(policy, token, counters, c, event).1)
  {
    if c.phase.Refused? && event.DiscardDone? {
      EncodeLog(c, event.encoding);
    }
  }

  lemma {:induction false} UndeliveredLog(policy: Policy, token: string, counters: Counters, c: Connection,
                                          event: Event)
    requires LogOk(c) && OkLate(c) && !event.Dropped? && c.phase in {Undelivered, WriteFailed, AckFailed}
    ensures LogOk(Resume(policy, token, counters, c, event).1) && OkLate(Resume(policy, token, counters, c, event).1)
  {
  }

  lemma {:induction false} SendLog(policy: Policy, token: string, counters: Counters, c: Connection, event: Event)
    requires LogOk(c) && OkLate(c) && !event.Dropped? && c.phase in {Writing, Acknowledging}
    ensures LogOk(Resume(policy, token, counters, c, event).1) && OkLate(Resume(policy, token, counters, c, event).1)
  {
  }

  lemma {:induction false} EndLog(policy: Policy, token: string, counters: Counters, c: Connection, event: Event)
    requires LogOk(c) && OkLate(c) && !event.Dropped? && c.phase in {Delivering, Finalizing, Closing, Ended}
    ensures LogOk(Resume(policy, token, counters, c, event).1) && OkLate(Resume(policy, token, counters, c, event).1)
  {
  }

  /** Every step of a connection keeps its log in order. */
  lemma {:induction false} ResumeLog(policy: Policy, token: string, counters: Counters, c: Connection, event: Event)
    requires LogOk(c) && OkLate(c)
    ensures LogOk(Resume(policy, token, counters, c, event).1) && OkLate(Resume(policy, token, counters, c, event).1)
  {
    if event.Dropped? {
      if !c.phase.Ended? && !c.phase.Delivering? {
        DroppedLog(counters, c);
      }
    } else if c.phase in {Reading, Executing} {
      StartLog(policy, token, counters, c, event);
    } else if c.phase in {Disconnected, Refused, EncodeFailed} {
      DiscardLog(policy, token, counters, c, event);
    } else if c.phase in {Undelivered, WriteFailed, AckFailed} {
      UndeliveredLog(policy, token, counters, c, event);
    } else if c.phase in {Writing, Acknowledging} {
      SendLog(policy, token, counters, c, event);
    } else {
      EndLog(policy, token, counters, c, event);
    }
  }

  // ------------------------------------------------------------- the budgets

  /** The units a connection holds or has committed in one budget. */
  function Units(c: Connection, budget: Budget): nat {
    (if c.held.Some? && BudgetOf(c.held.value) == Some(budget) then 1 else 0) + CommittedUnits(c, budget)
  }

  function CommittedUnits(c: Connection, budget: Budget): nat {
    if c.kept.Some? && BudgetOf(c.kept.value) == Some(budget) then 1 else 0
  }

  function Total(connections: seq<Connection>, budget: Budget): nat {
    if |connections| == 0 then 0
    else Total(connections[..|connections| - 1], budget) + Units(connections[|connections| - 1], budget)
  }

  function Committed(connections: seq<Connection>, budget: Budget): nat {
    if |connections| == 0 then 0
    else Committed(connections[..|connections| - 1], budget) + CommittedUnits(connections[|connections| - 1], budget)
  }

  lemma {:induction false} TotalUpdate(connections: seq<Connection>, i: nat, c: Connection, budget: Budget)
    requires i < |connections|
    ensures Total(connections[i := c], budget) == Total(connections, budget) - Units(connections[i], budget) +
            Units(c, budget)
    ensures Total(connections, budget) >= Units(connections[i], budget)
  {
    var n := |connections| - 1;
    if i < n {
      TotalUpdate(connections[..n], i, c, budget);
      assert connections[i := c][..n] == connections[..n][i := c];
    } else {
      assert connections[i := c][..n] == connections[..n];
    }
  }

  lemma {:induction false} TotalAccept(connections: seq<Connection>, c: Connection, budget: Budget)
    ensures Total(connections + [c], budget) == Total(connections, budget) + Units(c, budget)
  {
    assert (connections + [c])[..|connections|] == connections;
  }

  /** Counters say exactly what live and committed reservations add up to. */
  ghost predicate Balanced(policy: Policy, s: State) {
    forall budget :: s.counters.Of(budget) == Total(s.connections, budget) <= Limit(policy, budget)
  }

  /** Counters before a step, without this connection's units, plus its units after. */
  predicate Moves(policy: Policy, before: Counters, c: Connection, after: Counters, d: Connection, budget: Budget) {
    && after.Of(budget) + Units(c, budget) == before.Of(budget) + Units(d, budget)
    && (before.Of(budget) <= Limit(policy, budget) ==> after.Of(budget) <= Limit(policy, budget))
  }

  function Unit(m: ToolMethod, budget: Budget): nat {
    if BudgetOf(m) == Some(budget) then 1 else 0
  }

  lemma {:induction false} ConsumedOf(counters: Counters, m: ToolMethod, budget: Budget)
    ensures Consumed(counters, m).Of(budget) == counters.Of(budget) + Unit(m, budget)
  {
  }

  /** Giving back a unit that was counted never meets a zero counter. */
  lemma {:induction false} RolledBackOf(counters: Counters, m: ToolMethod, budget: Budget)
    requires BudgetOf(m).Some? ==> counters.Of(BudgetOf(m).value) > 0
    ensures RolledBack(counters, m).Of(budget) == counters.Of(budget) - Unit(m, budget)
  {
  }

  lemma {:induction false} ReleaseMoves(policy: Policy, counters: Counters, c: Connection, budget: Budget)
    requires forall b :: counters.Of(b) >= Units(c, b)
    ensures Moves(policy, counters, c, Release(counters, c).0, Release(counters, c).1, budget)
  {
    if c.held.Some? {
      assert BudgetOf(c.held.value).Some? ==>
               counters.Of(BudgetOf(c.held.value).value) >= Units(c, BudgetOf(c.held.value).value);
      RolledBackOf(counters, c.held.value, budget);
    }
  }

  lemma {:induction false} ReserveMoves(policy: Policy, counters: Counters, c: Connection, m: ToolMethod, d: Connection,
                                        budget: Budget)
    requires c.held.None? && HasRoom(counters, m, policy) && d.held == Some(m) && d.kept == c.kept
    ensures Moves(policy, counters, c, Consumed(counters, m), d, budget)
  {
    ConsumedOf(counters, m, budget);
  }

  lemma {:induction false} BeginMoves(policy: Policy, token: string, counters: Counters, c: Connection,
                                      request: Request, budget: Budget)
    requires c.held.None?
    ensures var r := Begin(policy, token, counters, c, request); Moves(policy, counters, c, r.0, r.1, budget)
  {
    var r := Begin(policy, token, counters, c, request);
    var admitted := Admitted(policy, token, request);
    if admitted.Some? && HasRoom(counters, admitted.value, policy) {
      ReserveMoves(policy, counters, c, admitted.value, r.1, budget);
    } else {
      SameUnits(policy, counters, c, r.1, budget);
    }
  }

  lemma {:induction false} SameUnits(policy: Policy, counters: Counters, c: Connection, d: Connection, budget: Budget)
    requires (c.held, c.kept) == (d.held, d.kept) || (c.kept.None? && d.held.None? && d.kept == c.held)
    ensures Moves(policy, counters, c, counters, d, budget)
  {
  }

  /** The steps that drop the reservation. */
  predicate Releases(c: Connection, event: Event) {
    || (event.Dropped? && !c.phase.Ended? && !c.phase.Delivering?)
    || (c.phase.Executing? && ((event.Finished? && !event.succeeded) || event.PeerGone?))
    || (c.phase in {Disconnected, EncodeFailed, Undelivered, WriteFailed, AckFailed} && event.DiscardDone?)
  }

  /** The released counters, and a connection with the released units. */
  predicate AsReleased(r: (Counters, Connection), counters: Counters, c: Connection) {
    r.0 == Release(counters, c).0 && r.1.held == None && r.1.kept == c.kept
  }

  lemma {:induction false} DroppedReleases(policy: Policy, token: string, counters: Counters, c: Connection)
    requires !c.phase.Ended? && !c.phase.Delivering?
    ensures AsReleased(Resume(policy, token, counters, c, Dropped), counters, c)
  {
  }

  lemma {:induction false} ExecutingReleases(policy: Policy, token: string, counters: Counters, c: Connection,
                                             event: Event)
    requires c.phase.Executing? && ((event.Finished? && !event.succeeded) || event.PeerGone?)
    ensures AsReleased(Resume(policy, token, counters, c, event), counters, c)
  {
  }

  lemma {:induction false} DiscardedReleases(policy: Policy, token: string, counters: Counters, c: Connection,
                                             event: Event)
    requires c.phase in {Disconnected, EncodeFailed, Undelivered, WriteFailed, AckFailed} && event.DiscardDone?
    ensures AsReleased(Resume(policy, token, counters, c, event), counters, c)
  {
  }

  lemma {:induction false} ReleasingStep(policy: Policy, token: string, counters: Counters, c: Connection, event: Event)
    requires Releases(c, event)
    ensures AsReleased(Resume(policy, token, counters, c, event), counters, c)
  {
    if event.Dropped? {
      DroppedReleases(policy, token, counters, c);
    } else if c.phase.Executing? {
      ExecutingReleases(policy, token, counters, c, event);
    } else {
      DiscardedReleases(policy, token, counters, c, event);
    }
  }

  lemma {:induction false} OtherStep(policy: Policy, token: string, counters: Counters, c: Connection, event: Event)
    requires !Releases(c, event) && !(c.phase.Reading? && event.ReadRequest?) && LogOk(c)
    ensures var r := Resume(policy, token, counters, c, event);
            r.0 == counters &&
            ((c.held, c.kept) == (r.1.held, r.1.kept) || (c.kept.None? && r.1.held.None? && r.1.kept == c.held))
  {
  }

  /** Every step moves the counters by what it does to the connection's units. */
  lemma {:induction false} ResumeMoves(policy: Policy, token: string, counters: Counters, c: Connection, event: Event,
                                       budget: Budget)
    requires LogOk(c) && forall b :: counters.Of(b) >= Units(c, b)
    ensures var r := Resume(policy, token, counters, c, event); Moves(policy, counters, c, r.0, r.1, budget)
  {
    var r := Resume(policy, token, counters, c, event);
    if Releases(c, event) {
      ReleasingStep(policy, token, counters, c, event);
      ReleaseMoves(policy, counters, c, budget);
    } else if c.phase.Reading? && event.ReadRequest? {
      BeginMoves(policy, token, counters, c, event.request, budget);
    } else {
      OtherStep(policy, token, counters, c, event);
      SameUnits(policy, counters, c, r.1, budget);
    }
  }

  // ------------------------------------------------------ every interleaving

  ghost predicate Ordered(s: State) {
    forall c :: c in s.connections ==> LogOk(c) && OkLate(c)
  }

  lemma {:induction false} StepBalanced(policy: Policy, token: string, s: State, i: nat, event: Event)
    requires i < |s.connections| && Balanced(policy, s) && Ordered(s)
    ensures Balanced(policy, Next(policy, token, s, Act(i, event)))
  {
    var c := s.connections[i];
    var r := Resume(policy, token, s.counters, c, event);
    assert c in s.connections;
    forall b
      ensures s.counters.Of(b) >= Units(c, b)
    {
      TotalUpdate(s.connections, i, r.1, b);
    }
    forall budget
      ensures r.0.Of(budget) == Total(s.connections[i := r.1], budget) <= Limit(policy, budget)
    {
      ResumeMoves(policy, token, s.counters, c, event, budget);
      TotalUpdate(s.connections, i, r.1, budget);
    }
  }

  lemma {:induction false} AcceptBalanced(policy: Policy, s: State)
    requires Balanced(policy, s)
    ensures Balanced(policy, s.(connections := s.connections + [ACCEPTED]))
  {
    forall budget
      ensures Total(s.connections + [ACCEPTED], budget) == Total(s.connections, budget)
    {
      TotalAccept(s.connections, ACCEPTED, budget);
    }
  }

  lemma {:induction false} StepOrdered(policy: Policy, token: string, s: State, i: nat, event: Event)
    requires i < |s.connections| && Ordered(s)
    ensures Ordered(Next(policy, token, s, Act(i, event)))
  {
    assert s.connections[i] in s.connections;
    ResumeLog(policy, token, s.counters, s.connections[i], event);
  }

  /** In every interleaving each counter is live plus committed and within its limit. */
  lemma {:induction false} RunBalanced(policy: Policy, token: string, actions: seq<Action>)
    ensures Balanced(policy, Run(policy, token, actions)) && Ordered(Run(policy, token, actions))
  {
    if |actions| > 0 {
      var s, action := Run(policy, token, actions[..|actions| - 1]), actions[|actions| - 1];
      RunBalanced(policy, token, actions[..|actions| - 1]);
      match action {
        case Accept => AcceptBalanced(policy, s);
        case Act(i, event) =>
          if i < |s.connections| {
            StepBalanced(policy, token, s, i, event);
            StepOrdered(policy, token, s, i, event);
          }
      }
    } else {
      assert forall budget :: EMPTY.Of(budget) == 0;
    }
  }

  /** A reservation is never given back to a counter already at zero. */
  lemma {:induction false} NeverSaturates(policy: Policy, token: string, actions: seq<Action>, i: nat)
    requires i < |Run(policy, token, actions).connections|
    ensures var s := Run(policy, token, actions);
            s.connections[i].held.Some? && BudgetOf(s.connections[i].held.value).Some? ==>
              s.counters.Of(BudgetOf(s.connections[i].held.value).value) > 0
  {
    var s := Run(policy, token, actions);
    RunBalanced(policy, token, actions);
    if s.connections[i].held.Some? && BudgetOf(s.connections[i].held.value).Some? {
      TotalUpdate(s.connections, i, s.connections[i], BudgetOf(s.connections[i].held.value).value);
    }
  }

  /** The limits, for the policies a broker starts with. */
  lemma {:induction false} BudgetLimits(policy: Policy, token: string, actions: seq<Action>)
    requires Startable(policy)
    ensures var k := Run(policy, token, actions).counters;
            k.decisions <= 1 && k.evidence <= 3 && k.proposals <= policy.memoryProposalBudget <= 8 && k.artifacts <= 4
  {
    var k := Run(policy, token, actions).counters;
    RunBalanced(policy, token, actions);
    assert k.Of(Decisions) <= 1 && k.Of(Evidence) <= 3 && k.Of(Artifacts) <= 4;
    assert k.Of(Proposals) <= policy.memoryProposalBudget;
  }

  lemma {:induction false} AllCommitted(connections: seq<Connection>, budget: Budget)
    requires forall c :: c in connections ==> c.held.None?
    ensures Total(connections, budget) == Committed(connections, budget)
  {
    if |connections| > 0 {
      var n := |connections| - 1;
      assert connections[n] in connections;
      AllCommitted(connections[..n], budget);
    }
  }

  /** Once every connection has ended the counters are the commits. */
  lemma {:induction false} DrainedIsCommitted(policy: Policy, token: string, actions: seq<Action>, budget: Budget)
    requires forall c :: c in Run(policy, token, actions).connections ==> c.phase.Ended?
    ensures Run(policy, token, actions).counters.Of(budget) ==
            Committed(Run(policy, token, actions).connections, budget)
  {
    RunBalanced(policy, token, actions);
    AllCommitted(Run(policy, token, actions).connections, budget);
  }

  // ------------------------------------------------- delivery and its endings

  /**
   A connection that ran to its end was committed exactly when its success frame
   was written and acknowledged; otherwise, once it had a request, it was
   discarded, and never both.
   */
  lemma {:induction false} CommittedOrDiscarded(policy: Policy, token: string, actions: seq<Action>, i: nat)
    requires i < |Run(policy, token, actions).connections|
    ensures var c := Run(policy, token, actions).connections[i];
            && (c.commits > 0 ==> c.commits == 1 && c.discards == 0)
            && (c.phase.Ended? ==> (c.commits == 1 <==> c.wrote && c.acked))
            && (c.phase.Ended? && c.began && !c.aborted ==> (c.commits == 1 <==> c.discards == 0))
            && (c.phase.Ended? ==> c.held.None? && (c.kept.Some? <==> c.commits == 1))
  {
    RunBalanced(policy, token, actions);
    var c := Run(policy, token, actions).connections[i];
    assert c in Run(policy, token, actions).connections;
  }

  /** A client that saw a success frame and a commit barrier has a committed delivery. */
  lemma {:induction false} BarrierMeansCommitted(policy: Policy, token: string, actions: seq<Action>, i: nat)
    requires i < |Run(policy, token, actions).connections|
    ensures var c := Run(policy, token, actions).connections[i];
            c.sent && c.barrier ==> c.commits == 1 && c.kept.Some?
  {
    RunBalanced(policy, token, actions);
    var c := Run(policy, token, actions).connections[i];
    assert c in Run(policy, token, actions).connections;
  }

  // ------------------------------------------------- who asked, who answered

  /** What is held or kept was asked for properly, and what is committed was acknowledged. */
  predicate Vouched(policy: Policy, token: string, c: Connection) {
    && (c.held.Some? ==> c.request.Some? && c.id == c.request.value.id &&
                         Authorised(policy, token, c.request.value, c.held.value))
    && (c.kept.Some? ==> c.request.Some? && Authorised(policy, token, c.request.value, c.kept.value))
    && (c.commits > 0 ==> c.request.Some? && c.ack == Some(Ack("guruterminal-tool/1", c.request.value.id, true)))
  }

  lemma {:induction false} DropVouched(policy: Policy, token: string, counters: Counters, c: Connection)
    requires Vouched(policy, token, c) && LogOk(c)
    ensures Vouched(policy, token, Resume(policy, token, counters, c, Dropped).1)
  {
  }

  lemma {:induction false} StartVouched(policy: Policy, token: string, counters: Counters, c: Connection, event: Event)
    requires Vouched(policy, token, c) && LogOk(c) && !event.Dropped? && !event.ReadRequest? &&
             (c.phase.Reading? || c.phase.Executing? || c.phase.Disconnected? || c.phase.Refused?)
    ensures Vouched(policy, token, Resume(policy, token, counters, c, event).1)
  {
  }

  lemma {:induction false} SendVouched(policy: Policy, token: string, counters: Counters, c: Connection, event: Event)
    requires Vouched(policy, token, c) && LogOk(c) && !event.Dropped? &&
             (c.phase.EncodeFailed? || c.phase.Undelivered? || c.phase.Writing? || c.phase.WriteFailed? ||
              c.phase.AckFailed?)
    ensures Vouched(policy, token, Resume(policy, token, counters, c, event).1)
  {
  }

  lemma {:induction false} EndVouched(policy: Policy, token: string, counters: Counters, c: Connection, event: Event)
    requires Vouched(policy, token, c) && LogOk(c) && !event.Dropped? &&
             (c.phase.Delivering? || c.phase.Finalizing? || c.phase.Closing? || c.phase.Ended?)
    ensures Vouched(policy, token, Resume(policy, token, counters, c, event).1)
  {
  }

  lemma {:induction false} StrayVouched(policy: Policy, token: string, counters: Counters, c: Connection, event: Event)
    requires Vouched(policy, token, c) && LogOk(c) && !event.Dropped?
    requires (c.phase.Acknowledging? && !event.AckRead?) || (!c.phase.Reading? && event.ReadRequest?)
    ensures Vouched(policy, token, Resume(policy, token, counters, c, event).1)
  {
  }

  lemma {:induction false} ElsewhereVouched(policy: Policy, token: string, counters: Counters, c: Connection,
                                            event: Event)
    requires Vouched(policy, token, c) && LogOk(c) && !(c.phase.Reading? && event.ReadRequest?) &&
             !(c.phase.Acknowledging? && event.AckRead?)
    ensures Vouched(policy, token, Resume(policy, token, counters, c, event).1)
  {
    if event.Dropped? {
      DropVouched(policy, token, counters, c);
    } else if c.phase.Acknowledging? || event.ReadRequest? {
      StrayVouched(policy, token, counters, c, event);
    } else if c.phase.Reading? || c.phase.Executing? || c.phase.Disconnected? || c.phase.Refused? {
      StartVouched(policy, token, counters, c, event);
    } else if c.phase.EncodeFailed? || c.phase.Undelivered? || c.phase.Writing? || c.phase.WriteFailed? ||
        c.phase.AckFailed? {
      SendVouched(policy, token, counters, c, event);
    } else {
      EndVouched(policy, token, counters, c, event);
    }
  }

  lemma {:induction false} RequestVouched(policy: Policy, token: string, counters: Counters, c: Connection,
                                          request: Request)
    requires c.held.None? && c.kept.None? && c.commits == 0
    ensures Vouched(policy, token, Begin(policy, token, counters, c, request).1)
  {
    AdmittedMeaning(policy, token, request);
    var d := Begin(policy, token, counters, c, request).1;
    assert d.kept.None? && d.commits == 0 && d.request == Some(request) && d.id == ResponseId(request);
    assert d.held.Some? ==> Admitted(policy, token, request) == d.held;
  }

  lemma {:induction false} MatchesMeaning(ack: Option<Ack>, id: string)
    ensures Matches(ack, id) <==> ack == Some(Ack("guruterminal-tool/1", id, true))
  {
  }

  lemma {:induction false} AckVouched(policy: Policy, token: string, counters: Counters, c: Connection, event: Event)
    requires Vouched(policy, token, c) && LogOk(c) && c.phase.Acknowledging? && event.AckRead? && c.commits == 0
    ensures Vouched(policy, token, Resume(policy, token, counters, c, event).1)
  {
    MatchesMeaning(event.ack, c.id);
  }

  lemma {:induction false} ResumeVouched(policy: Policy, token: string, counters: Counters, c: Connection, event: Event)
    requires Vouched(policy, token, c) && LogOk(c)
    ensures Vouched(policy, token, Resume(policy, token, counters, c, event).1)
  {
    if c.phase.Reading? && event.ReadRequest? {
      RequestVouched(policy, token, counters, c, event.request);
    } else if c.phase.Acknowledging? && event.AckRead? {
      AckVouched(policy, token, counters, c, event);
    } else {
      ElsewhereVouched(policy, token, counters, c, event);
    }
  }

  /**
   In every interleaving a reservation is held or kept only for a request with
   the broker's token, the protocol and an allowed method, and a delivery is
   committed only after an acknowledgement for that request.
   */
  lemma {:induction false} RunVouched(policy: Policy, token: string, actions: seq<Action>)
    ensures forall c :: c in Run(policy, token, actions).connections ==> Vouched(policy, token, c)
  {
    if |actions| > 0 {
      var before, action := actions[..|actions| - 1], actions[|actions| - 1];
      var s := Run(policy, token, before);
      RunVouched(policy, token, before);
      RunBalanced(policy, token, before);
      if action.Act? && action.index < |s.connections| {
        assert s.connections[action.index] in s.connections;
        ResumeVouched(policy, token, s.counters, s.connections[action.index], action.event);
      }
    }
  }
}
