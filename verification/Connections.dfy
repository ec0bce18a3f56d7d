/**
 One tool-broker connection from its request to its end, with the reservation and
 the executor's delivery as objects
 (apps/guruterminal/src-tauri/src/broker.rs:869-981, 1057-1111).
 */
module Connections {
  import opened Broker
  import opened Cardinality
  import opened Wrappers

  /** The executor's view of one delivery. */
  class Delivery {
    var commits: nat
    var discards: nat

    constructor ()
      ensures commits == 0 && discards == 0
    {
      commits, discards := 0, 0;
    }

    method Commit()
      modifies this
      ensures commits == old(commits) + 1 && discards == old(discards)
    {
      commits := commits + 1;
    }

    method Discard()
      modifies this
      ensures discards == old(discards) + 1 && commits == old(commits)
    {
      discards := discards + 1;
    }
  }

  /** Everything the peer and the executor decide; a request of None is a bad frame. */
  datatype Script = Script(
    request: Option<Request>, peerGone: bool, succeeds: bool, encoding: Encoding, writes: bool,
    ack: Option<Ack>, barrierEncodes: bool, barrierWrites: bool)

  /** What the client may have been sent. */
  datatype Sent = Sent(success: bool, barrier: bool)

  predicate Runs(policy: Policy, token: string, counters: Counters, script: Script) {
    && script.request.Some?
    && Admitted(policy, token, script.request.value).Some?
    && HasRoom(counters, Admitted(policy, token, script.request.value).value, policy)
  }

  /** The success frame goes out and its acknowledgement comes back. */
  predicate Delivers(policy: Policy, token: string, counters: Counters, script: Script) {
    && Runs(policy, token, counters, script)
    && !script.peerGone && script.succeeds && script.encoding.Fits? && script.writes
    && Matches(script.ack, script.request.value.id)
  }

  // ----------------------------------------------- the script as events

  /** What the script makes an await resume with. */
  function NextEvent(script: Script, phase: Phase): Event {
    match phase
    case Reading => if script.request.None? then ReadFailed else ReadRequest(script.request.value)
    case Executing => if script.peerGone then PeerGone else Finished(script.succeeds, script.encoding)
    case Writing => WriteDone(script.writes)
    case Acknowledging => AckRead(script.ack, script.barrierEncodes)
    case Delivering => DeliveryCommitted(script.barrierEncodes)
    case Finalizing => BarrierWritten(script.barrierWrites)
    case Closing => ShutdownDone
    case _ => DiscardDone(script.encoding)
  }

  function Rank(phase: Phase): nat {
    match phase
    case Reading => 9
    case Executing => 8
    case Refused => 7
    case Undelivered => 6
    case Writing => 5
    case Acknowledging => 4
    case Delivering => 3
    case Finalizing => 2
    case Ended => 0
    case _ => 1
  }

  /** One connection of the interleaved model, alone, resumed with the script's events. */
  function Drive(policy: Policy, token: string, script: Script, counters: Counters,
                 c: Connection): (Counters, Connection)
    decreases Rank(c.phase)
  {
    var r := Resume(policy, token, counters, c, NextEvent(script, c.phase));
    if Rank(r.1.phase) < Rank(c.phase) then Drive(policy, token, script, r.0, r.1) else (counters, c)
  }

  /** How a connection ends: counters, commits, discards and what was sent. */
  datatype Ending = Ending(counters: Counters, commits: nat, discards: nat, sent: Sent)

  /** From the moment the response is written, given the discards so far. */
  function WrittenEnding(before: Counters, kept: Counters, script: Script, id: string, success: bool,
                         discards: nat): Ending {
    if !script.writes || !Matches(script.ack, id) then Ending(before, 0, discards + 1, Sent(success, false))
    else if success then Ending(kept, 1, discards, Sent(true, script.barrierEncodes))
    else Ending(before, 0, discards, Sent(false, script.barrierEncodes))
  }

  function EncodedEnding(before: Counters, kept: Counters, script: Script, id: string, ok: bool,
                         discards: nat): Ending {
    match script.encoding
    case Unencodable => Ending(before, 0, discards + 1, Sent(false, false))
    case TooLarge(errorFits) =>
      if errorFits then WrittenEnding(before, kept, script, id, false, discards + 1)
      else Ending(before, 0, discards + 1, Sent(false, false))
    case Fits => WrittenEnding(before, kept, script, id, ok, if ok then discards else discards + 1)
  }

  function EndingOf(policy: Policy, token: string, before: Counters, script: Script): Ending {
    if script.request.None? then Ending(before, 0, 0, Sent(false, false))
    else
      var id := ResponseId(script.request.value);
      if !Runs(policy, token, before, script) then EncodedEnding(before, before, script, id, false, 1)
      else if script.peerGone then Ending(before, 0, 1, Sent(false, false))
      else
        var kept := Consumed(before, Admitted(policy, token, script.request.value).value);
        EncodedEnding(before, kept, script, id, script.succeeds, if script.succeeds then 0 else 1)
  }

  /** A connection of the interleaved model has ended this way. */
  predicate EndsAs(r: (Counters, Connection), ending: Ending) {
    && r.1.phase.Ended? && r.0 == ending.counters && r.1.commits == ending.commits && r.1.discards == ending.discards
    && Sent(r.1.sent, r.1.barrier) == ending.sent
  }

  /** A connection whose reservation, if any, was taken from before. */
  predicate Holds(before: Counters, counters: Counters, c: Connection) {
    match c.held
    case None => counters == before
    case Some(m) => counters == Consumed(before, m) && RolledBack(counters, m) == before
  }

  lemma {:induction false} DriveLast(policy: Policy, token: string, script: Script, before: Counters,
                                     counters: Counters, c: Connection)
    requires c.phase in {Disconnected, EncodeFailed, WriteFailed, AckFailed} && Holds(before, counters, c)
    ensures EndsAs(Drive(policy, token, script, counters, c),
                   Ending(before, c.commits, c.discards, Sent(c.sent, c.barrier)))
  {
  }

  lemma {:induction false} DriveEnded(policy: Policy, token: string, script: Script, counters: Counters, c: Connection)
    requires c.phase.Ended?
    ensures Drive(policy, token, script, counters, c) == (counters, c)
  {
  }

  lemma {:induction false} DriveClosing(policy: Policy, token: string, script: Script, counters: Counters,
                                        c: Connection)
    requires c.phase.Closing?
    ensures Drive(policy, token, script, counters, c) == (counters, c.(phase := Ended))
  {
    DriveEnded(policy, token, script, counters, c.(phase := Ended));
  }

  lemma {:induction false} DriveBarrier(policy: Policy, token: string, script: Script, counters: Counters,
                                        c: Connection)
    requires c.phase.Finalizing?
    ensures Drive(policy, token, script, counters, c) == (counters, c.(phase := Ended))
  {
    if script.barrierWrites {
      DriveClosing(policy, token, script, counters, c.(phase := Closing));
    } else {
      DriveEnded(policy, token, script, counters, c.(phase := Ended));
    }
  }

  lemma {:induction false} DriveDelivering(policy: Policy, token: string, script: Script, counters: Counters,
                                           c: Connection)
    requires c.phase.Delivering? && !c.barrier
    ensures EndsAs(Drive(policy, token, script, counters, c),
                   Ending(counters, c.commits, c.discards, Sent(c.sent, script.barrierEncodes)))
  {
    var kept := c.(kept := c.held, held := None);
    if script.barrierEncodes {
      DriveBarrier(policy, token, script, counters, kept.(phase := Finalizing, barrier := true));
    } else {
      DriveEnded(policy, token, script, counters, kept.(phase := Ended));
    }
  }

  lemma {:induction false} DriveMismatch(policy: Policy, token: string, script: Script, before: Counters,
                                         counters: Counters, c: Connection)
    requires c.phase.Acknowledging? && Holds(before, counters, c) && c.commits == 0 && !c.barrier
    requires !Matches(script.ack, c.id)
    ensures EndsAs(Drive(policy, token, script, counters, c), Ending(before, 0, c.discards + 1, Sent(c.sent, false)))
  {
    DriveLast(policy, token, script, before, counters, Discard(c.(ack := script.ack), AckFailed));
  }

  lemma {:induction false} DriveCommit(policy: Policy, token: string, script: Script, counters: Counters, c: Connection)
    requires c.phase.Acknowledging? && c.commits == 0 && !c.barrier && c.held.Some? && Matches(script.ack, c.id)
    ensures EndsAs(Drive(policy, token, script, counters, c),
                   Ending(counters, 1, c.discards, Sent(c.sent, script.barrierEncodes)))
  {
    var heard := c.(ack := script.ack);
    DriveDelivering(policy, token, script, counters, heard.(phase := Delivering, acked := true, commits := 1));
  }

  lemma {:induction false} DriveErrorAcknowledged(policy: Policy, token: string, script: Script, counters: Counters,
                                                  c: Connection)
    requires c.phase.Acknowledging? && c.commits == 0 && !c.barrier && c.held.None? && Matches(script.ack, c.id)
    ensures EndsAs(Drive(policy, token, script, counters, c),
                   Ending(counters, 0, c.discards, Sent(c.sent, script.barrierEncodes)))
  {
    var acked := c.(ack := script.ack, acked := true);
    if script.barrierEncodes {
      DriveBarrier(policy, token, script, counters, acked.(phase := Finalizing, barrier := true));
    } else {
      DriveEnded(policy, token, script, counters, acked.(phase := Ended));
    }
  }

  lemma {:induction false} DriveAcknowledged(policy: Policy, token: string, script: Script, before: Counters,
                                             counters: Counters, c: Connection)
    requires c.phase.Acknowledging? && Holds(before, counters, c) && c.commits == 0 && !c.barrier
    requires c.sent <==> c.held.Some?
    ensures EndsAs(Drive(policy, token, script, counters, c),
                   WrittenEnding(before, counters, script.(writes := true), c.id, c.sent, c.discards))
  {
    if !Matches(script.ack, c.id) {
      DriveMismatch(policy, token, script, before, counters, c);
    } else if c.held.Some? {
      DriveCommit(policy, token, script, counters, c);
    } else {
      DriveErrorAcknowledged(policy, token, script, counters, c);
    }
  }

  lemma {:induction false} DriveWriting(policy: Policy, token: string, script: Script, before: Counters,
                                        counters: Counters, c: Connection)
    requires c.phase.Writing? && Holds(before, counters, c) && c.commits == 0 && !c.barrier
    requires c.sent <==> c.held.Some?
    ensures EndsAs(Drive(policy, token, script, counters, c),
                   WrittenEnding(before, counters, script, c.id, c.sent, c.discards))
  {
    var r := Resume(policy, token, counters, c, NextEvent(script, c.phase));
    if script.writes {
      DriveAcknowledged(policy, token, script, before, r.0, r.1);
    } else {
      DriveLast(policy, token, script, before, r.0, r.1);
    }
  }

  lemma {:induction false} DriveUndelivered(policy: Policy, token: string, script: Script, before: Counters,
                                            counters: Counters, c: Connection)
    requires c.phase.Undelivered? && Holds(before, counters, c) && c.commits == 0 && !c.barrier && !c.sent
    ensures EndsAs(Drive(policy, token, script, counters, c),
                   WrittenEnding(before, counters, script, c.id, false, c.discards))
  {
    var r := Resume(policy, token, counters, c, NextEvent(script, c.phase));
    DriveWriting(policy, token, script, before, r.0, r.1);
  }

  /** From the response on; c is the connection before it is encoded. */
  lemma {:induction false} DriveEncoded(policy: Policy, token: string, script: Script, before: Counters,
                                        counters: Counters, c: Connection)
    requires Holds(before, counters, c) && c.commits == 0 && !c.barrier && !c.sent && (c.ok <==> c.held.Some?)
    ensures EndsAs(Drive(policy, token, script, counters, Encode(c, script.encoding)),
                   EncodedEnding(before, counters, script, c.id, c.ok, c.discards))
  {
    if script.encoding.Fits? && c.ok {
      DriveWriting(policy, token, script, before, counters, c.(phase := Writing, sent := true));
    } else if script.encoding.Unencodable? || (script.encoding.TooLarge? && !script.encoding.errorFits) {
      DriveUnencoded(policy, token, script, before, counters, c);
    } else {
      DriveUnsent(policy, token, script, before, counters, c);
    }
  }

  lemma {:induction false} DriveUnencoded(policy: Policy, token: string, script: Script, before: Counters,
                                          counters: Counters, c: Connection)
    requires Holds(before, counters, c) && c.commits == 0 && !c.barrier && !c.sent
    requires script.encoding.Unencodable? || (script.encoding.TooLarge? && !script.encoding.errorFits)
    ensures EndsAs(Drive(policy, token, script, counters, Encode(c, script.encoding)),
                   EncodedEnding(before, counters, script, c.id, c.ok, c.discards))
  {
    assert Encode(c, script.encoding) == Discard(c, EncodeFailed);
    DriveLast(policy, token, script, before, counters, Discard(c, EncodeFailed));
  }

  lemma {:induction false} DriveUnsent(policy: Policy, token: string, script: Script, before: Counters,
                                       counters: Counters, c: Connection)
    requires Holds(before, counters, c) && c.commits == 0 && !c.barrier && !c.sent
    requires (script.encoding.Fits? && !c.ok) || (script.encoding.TooLarge? && script.encoding.errorFits)
    ensures EndsAs(Drive(policy, token, script, counters, Encode(c, script.encoding)),
                   EncodedEnding(before, counters, script, c.id, c.ok, c.discards))
  {
    assert Encode(c, script.encoding) == Discard(c, Undelivered);
    DriveUndelivered(policy, token, script, before, counters, Discard(c, Undelivered));
    UnsentEnding(before, counters, script, c.id, c.discards + 1);
  }

  lemma {:induction false} UnsentEnding(before: Counters, kept: Counters, script: Script, id: string, discards: nat)
    ensures WrittenEnding(before, kept, script, id, false, discards) ==
            WrittenEnding(before, before, script, id, false, discards)
  {
  }

  lemma {:induction false} DriveRefused(policy: Policy, token: string, script: Script, counters: Counters,
                                        c: Connection)
    requires c.phase.Refused? && c.held.None? && c.commits == 0 && !c.barrier && !c.sent && !c.ok
    ensures EndsAs(Drive(policy, token, script, counters, c),
                   EncodedEnding(counters, counters, script, c.id, false, c.discards))
  {
    DriveEncoded(policy, token, script, counters, counters, c);
  }

  lemma {:induction false} DriveGone(policy: Policy, token: string, script: Script, before: Counters,
                                     counters: Counters, c: Connection)
    requires c.phase.Executing? && c.held.Some? && Holds(before, counters, c) && c.commits == 0 && c.discards == 0
    requires !c.barrier && !c.sent && !c.ok && script.peerGone
    ensures EndsAs(Drive(policy, token, script, counters, c), Ending(before, 0, 1, Sent(false, false)))
  {
    DriveLast(policy, token, script, before, before, c.(held := None, phase := Disconnected, discards := 1));
  }

  lemma {:induction false} DriveSucceeded(policy: Policy, token: string, script: Script, before: Counters,
                                          counters: Counters, c: Connection)
    requires c.phase.Executing? && c.held.Some? && Holds(before, counters, c) && c.commits == 0 && c.discards == 0
    requires !c.barrier && !c.sent && !c.ok && !script.peerGone && script.succeeds
    ensures EndsAs(Drive(policy, token, script, counters, c), EncodedEnding(before, counters, script, c.id, true, 0))
  {
    DriveEncoded(policy, token, script, before, counters, c.(ok := true));
  }

  lemma {:induction false} DriveFailed(policy: Policy, token: string, script: Script, before: Counters,
                                       counters: Counters, c: Connection)
    requires c.phase.Executing? && c.held.Some? && Holds(before, counters, c) && c.commits == 0 && c.discards == 0
    requires !c.barrier && !c.sent && !c.ok && !script.peerGone && !script.succeeds
    ensures EndsAs(Drive(policy, token, script, counters, c), EncodedEnding(before, before, script, c.id, false, 1))
  {
    DriveRefused(policy, token, script, before, c.(held := None, phase := Refused, discards := 1));
  }

  lemma {:induction false} DriveExecuting(policy: Policy, token: string, script: Script, before: Counters,
                                          counters: Counters, c: Connection)
    requires c.phase.Executing? && c.held.Some? && Holds(before, counters, c) && c.commits == 0 && c.discards == 0
    requires !c.barrier && !c.sent && !c.ok
    ensures EndsAs(Drive(policy, token, script, counters, c),
                   if script.peerGone then Ending(before, 0, 1, Sent(false, false))
                   else EncodedEnding(before, counters, script, c.id, script.succeeds,
                                      if script.succeeds then 0 else 1))
  {
    if script.peerGone {
      DriveGone(policy, token, script, before, counters, c);
    } else if script.succeeds {
      DriveSucceeded(policy, token, script, before, counters, c);
    } else {
      DriveFailed(policy, token, script, before, counters, c);
      SameEnding(before, counters, script, c.id);
    }
  }

  /** Without success it does not matter what a commit would have kept. */
  lemma {:induction false} SameEnding(before: Counters, kept: Counters, script: Script, id: string)
    ensures EncodedEnding(before, kept, script, id, false, 1) == EncodedEnding(before, before, script, id, false, 1)
  {
  }

  /** Alone, a connection of the interleaved model ends as its script says. */
  lemma {:induction false} DriveEnds(policy: Policy, token: string, script: Script, before: Counters)
    ensures EndsAs(Drive(policy, token, script, before, ACCEPTED), EndingOf(policy, token, before, script))
  {
    var r := Resume(policy, token, before, ACCEPTED, NextEvent(script, Reading));
    if script.request.Some? {
      if Runs(policy, token, before, script) {
        ReserveThenDrop(before, Admitted(policy, token, script.request.value).value, policy);
        DriveExecuting(policy, token, script, before, r.0, r.1);
      } else {
        DriveRefused(policy, token, script, r.0, r.1);
      }
    }
  }

  method GiveBack(reservation: Option<TransactionReservation>)
    modifies if reservation.Some? then {reservation.value.cardinality} else {}
    ensures reservation.Some? ==>
              reservation.value.cardinality.Now() ==
              if reservation.value.committed then old(reservation.value.cardinality.Now())
              else RolledBack(old(reservation.value.cardinality.Now()), reservation.value.toolMethod)
  {
    if reservation.Some? {
      reservation.value.Drop();
    }
  }

  /** `execute_request` up to its result; no reservation means that it failed. */
  method Execute(cardinality: TransactionCardinality, policy: Policy, token: string, request: Request, script: Script)
    returns (reservation: Option<TransactionReservation>, gone: bool)
    modifies cardinality
    ensures reservation.Some? ==>
              Runs(policy, token, old(cardinality.Now()), script.(request := Some(request))) && !gone &&
              !script.peerGone && script.succeeds && fresh(reservation.value) &&
              reservation.value.cardinality == cardinality && !reservation.value.committed &&
              reservation.value.toolMethod == Admitted(policy, token, request).value &&
              cardinality.Now() == Consumed(old(cardinality.Now()), reservation.value.toolMethod)
    ensures reservation.None? ==> cardinality.Now() == old(cardinality.Now())
    ensures Runs(policy, token, old(cardinality.Now()), script.(request := Some(request))) && !script.peerGone &&
            script.succeeds ==>
              reservation.Some?
    ensures gone <==> Runs(policy, token, old(cardinality.Now()), script.(request := Some(request))) && script.peerGone
  {
    reservation, gone := None, false;
    var admitted := Admitted(policy, token, request);
    if admitted.None? {
      return;
    }
    ghost var before := cardinality.Now();
    reservation := TransactionReservation.Reserve(cardinality, admitted.value, policy);
    if reservation.None? {
      return;
    }
    if script.peerGone || !script.succeeds {
      ReserveThenDrop(before, admitted.value, policy);
      reservation.value.Drop();
      reservation, gone := None, script.peerGone;
    }
  }

  /** From the written response on: `transaction` is held exactly for a success. */
  method Deliver(cardinality: TransactionCardinality, delivery: Delivery, script: Script, id: string,
                 transaction: Option<TransactionReservation>, ghost before: Counters)
    requires transaction.Some? ==>
               transaction.value.cardinality == cardinality && !transaction.value.committed &&
               RolledBack(cardinality.Now(), transaction.value.toolMethod) == before
    requires transaction.None? ==> cardinality.Now() == before
    modifies cardinality, delivery, if transaction.Some? then {transaction.value} else {}
    ensures var ending := WrittenEnding(before, old(cardinality.Now()), script, id, transaction.Some?, 0);
            && cardinality.Now() == ending.counters
            && delivery.commits == old(delivery.commits) + ending.commits
            && delivery.discards == old(delivery.discards) + ending.discards
  {
    if !script.writes {
      delivery.Discard();
      GiveBack(transaction);
      return;
    }
    if !Matches(script.ack, id) {
      delivery.Discard();
      GiveBack(transaction);
      return;
    }
    if transaction.Some? {
      delivery.Commit();
      transaction.value.Commit();
      GiveBack(transaction);
    }
  }

  /** The barrier follows an acknowledged response. */
  function SentOf(script: Script, id: string, success: bool): Sent {
    Sent(success, script.writes && Matches(script.ack, id) && script.barrierEncodes)
  }

  /** From the response on: encode it, and deliver it or give it up. */
  method Respond(cardinality: TransactionCardinality, delivery: Delivery, script: Script, id: string,
                 transaction: Option<TransactionReservation>, ghost before: Counters) returns (sent: Sent)
    requires transaction.Some? ==>
               transaction.value.cardinality == cardinality && !transaction.value.committed &&
               RolledBack(cardinality.Now(), transaction.value.toolMethod) == before
    requires transaction.None? ==> cardinality.Now() == before
    modifies cardinality, delivery, if transaction.Some? then {transaction.value} else {}
    ensures var ending := EncodedEnding(before, old(cardinality.Now()), script, id, transaction.Some?, 0);
            && cardinality.Now() == ending.counters && sent == ending.sent
            && delivery.commits == old(delivery.commits) + ending.commits
            && delivery.discards == old(delivery.discards) + ending.discards
  {
    if script.encoding.Unencodable? || (script.encoding.TooLarge? && !script.encoding.errorFits) {
      delivery.Discard();
      GiveBack(transaction);
      return Sent(false, false);
    }
    var deliveredSuccess := script.encoding.Fits? && transaction.Some?;
    var held := transaction;
    if !deliveredSuccess {
      delivery.Discard();
      GiveBack(transaction);
      held := None;
    }
    Deliver(cardinality, delivery, script, id, held, before);
    sent := SentOf(script, id, deliveredSuccess);
  }

  /** An error response starts with one discard more. */
  lemma {:induction false} ShiftDiscards(before: Counters, script: Script, id: string)
    ensures var less := EncodedEnding(before, before, script, id, false, 0);
            var more := EncodedEnding(before, before, script, id, false, 1);
            more == less.(discards := less.discards + 1)
  {
  }

  /** The calls of `handle_connection` in order. */
  method Handle(cardinality: TransactionCardinality, delivery: Delivery, policy: Policy, token: string, script: Script)
    returns (sent: Sent)
    modifies cardinality, delivery
    ensures var ending := EndingOf(policy, token, old(cardinality.Now()), script);
            && cardinality.Now() == ending.counters && sent == ending.sent
            && delivery.commits == old(delivery.commits) + ending.commits
            && delivery.discards == old(delivery.discards) + ending.discards
  {
    if script.request.None? {
      return Sent(false, false);
    }
    var request := script.request.value;
    ghost var before := cardinality.Now();
    var transaction, gone := Execute(cardinality, policy, token, request, script);
    if gone {
      delivery.Discard();
      return Sent(false, false);
    }
    if transaction.None? {
      delivery.Discard();
    } else {
      ReserveThenDrop(before, transaction.value.toolMethod, policy);
    }
    sent := Respond(cardinality, delivery, script, ResponseId(request), transaction, before);
    ShiftDiscards(before, script, ResponseId(request));
  }

  /** What the ending means. */
  lemma {:induction false} EndingMeans(policy: Policy, token: string, before: Counters, script: Script)
    ensures var ending, committed := EndingOf(policy, token, before, script), Delivers(policy, token, before, script);
            && ending.commits == (if committed then 1 else 0)
            && (committed ==> ending.discards == 0)
            && (!committed && script.request.Some? ==> ending.discards > 0)
            && (script.request.None? ==> ending.discards == 0)
            && ending.counters == (if committed
                                   then Consumed(before, Admitted(policy, token, script.request.value).value)
                                   else before)
            && (ending.sent.success && ending.sent.barrier ==> committed)
            && (ending.sent.success ==> Runs(policy, token, before, script) && script.succeeds)
  {
  }

  /** The request may run: authorised, and its budget not used up. */
  ghost predicate MayRun(policy: Policy, token: string, counters: Counters, request: Option<Request>, m: ToolMethod) {
    request.Some? && Authorised(policy, token, request.value, m) && InBudget(counters, m, policy)
  }

  /** The client stays, the executor succeeds, and the success frame is written and acknowledged. */
  ghost predicate Acknowledged(script: Script) {
    && script.request.Some? && !script.peerGone && script.succeeds && script.encoding == Fits && script.writes
    && script.ack == Some(Ack("guruterminal-tool/1", script.request.value.id, true))
  }

  lemma {:induction false} RunsMeaning(policy: Policy, token: string, counters: Counters, script: Script)
    ensures Runs(policy, token, counters, script) <==> exists m :: MayRun(policy, token, counters, script.request, m)
    ensures forall m :: MayRun(policy, token, counters, script.request, m) ==>
              Admitted(policy, token, script.request.value) == Some(m)
  {
    if script.request.Some? {
      var admitted := Admitted(policy, token, script.request.value);
      AdmittedMeaning(policy, token, script.request.value);
      if admitted.Some? {
        BudgetsSpelledOut(counters, admitted.value, policy);
        assert MayRun(policy, token, counters, script.request, admitted.value) <==>
               HasRoom(counters, admitted.value, policy);
      }
    }
  }

  /**
   `handle_connection` without an abort: the delivery is committed, once, exactly
   when the request may run, its success frame was written and its
   acknowledgement read; otherwise it is discarded; a budget unit is kept exactly
   when it is committed. It ends as the interleaved model does when it runs alone
   on the same script.
   */
  method HandleConnection(cardinality: TransactionCardinality, delivery: Delivery, policy: Policy, token: string,
                          script: Script)
    returns (sent: Sent)
    modifies cardinality, delivery
    ensures forall m :: MayRun(policy, token, old(cardinality.Now()), script.request, m) && Acknowledged(script) ==>
              && delivery.commits == old(delivery.commits) + 1 && delivery.discards == old(delivery.discards)
              && cardinality.Now() == Spent(old(cardinality.Now()), m)
    ensures !Acknowledged(script) || !(exists m :: MayRun(policy, token, old(cardinality.Now()), script.request, m)) ==>
              && delivery.commits == old(delivery.commits) && cardinality.Now() == old(cardinality.Now())
              && (script.request.Some? ==> delivery.discards > old(delivery.discards))
              && !(sent.success && sent.barrier)
    ensures !(exists m :: MayRun(policy, token, old(cardinality.Now()), script.request, m)) ==> !sent.success
    ensures script.request.Some? && script.request.value.token != token ==>
              && delivery.commits == old(delivery.commits) && cardinality.Now() == old(cardinality.Now())
              && delivery.discards > old(delivery.discards) && !sent.success
    ensures script.request.None? ==> delivery.discards == old(delivery.discards)
    ensures var (counters, c) := Drive(policy, token, script, old(cardinality.Now()), ACCEPTED);
            && c.phase.Ended? && cardinality.Now() == counters && sent == Sent(c.sent, c.barrier)
            && delivery.commits == old(delivery.commits) + c.commits
            && delivery.discards == old(delivery.discards) + c.discards
  {
    ghost var before := cardinality.Now();
    EndingMeans(policy, token, before, script);
    DriveEnds(policy, token, script, before);
    RunsMeaning(policy, token, before, script);
    forall m
      ensures Consumed(before, m) == Spent(before, m)
    {
      BudgetsSpelledOut(before, m, policy);
    }
    assert PROTOCOL == "guruterminal-tool/1";
    sent := Handle(cardinality, delivery, policy, token, script);
  }
}
