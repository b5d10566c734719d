/**
 Timed delivery of outbox messages: the agent's own bounded send
 (src/agent/index.ts) racing the pollers that claim rows and send them
 (src/runtime/AppRuntime.ts).

 A flight is one attempt to send one row. It waits to start, sends, has been
 delivered, and is then written back to the table. Time passes freely but not
 beyond the deadline of a flight: a send is aborted at its time-out, and the code
 around it runs within the slack given. Nobody crashes, and a send that throws or
 is aborted delivers nothing.
 */
module Delivery {
  import opened Prelude
  import opened Strings
  import opened Outbox
  import OutboxRuns

  const DIRECT_SEND_TIMEOUT_MS: nat := Max(1_000, DIRECT_SEND_GRACE_MS - 5_000)
  const POLLER_SEND_TIMEOUT_MS: nat := 15_000

  /** Bounds on the code around a send: from the enqueue or the claim to the
      start of the send, and from its delivery to the write-back. */
  datatype Timing = Timing(directStart: nat, directSettle: nat, pollerStart: nat, pollerSettle: nat)

  datatype Kind = Direct | Poller(owner: string)

  datatype Phase = Waiting | Sending(since: int) | Delivered(at: int, providerId: Option<string>) | Done

  datatype Flight = Flight(kind: Kind, id: Id, platform: string, room: string, key: string, begun: int, phase: Phase)

  datatype MessageKey = MessageKey(platform: string, key: string)

  /** `log` lists the messages delivered, in order; a message streamed to its reader
      is logged when it is recorded. */
  datatype World = World(now: int, rows: Table, used: set<Id>, flights: seq<Flight>, log: seq<MessageKey>)

  datatype Event =
    | Tick(to: int)
    | EnqueueDirect(id: Id, platform: string, room: string, text: string, key: string, row: Id)
    | EnqueueText(id: Id, platform: string, room: string, text: string, key: string, availableAt: int)
    | RecordDelivered(id: Id, platform: string, room: string, text: string, key: string, availableAt: int)
    | Claim(owner: string, platforms: seq<string>, limit: int, ids: seq<Id>)
    | Start(flight: nat)
    | Deliver(flight: nat, providerId: Option<string>)
    | Abandon(flight: nat, message: string)
    | Settle(flight: nat)
    | Prune(cutoff: int)
    | Retry(id: Id)

  function StartSlack(timing: Timing, kind: Kind): nat {
    if kind.Direct? then timing.directStart else timing.pollerStart
  }

  function SettleSlack(timing: Timing, kind: Kind): nat {
    if kind.Direct? then timing.directSettle else timing.pollerSettle
  }

  function SendTimeout(kind: Kind): nat {
    if kind.Direct? then DIRECT_SEND_TIMEOUT_MS else POLLER_SEND_TIMEOUT_MS
  }

  /** The time by which a live flight moves on. */
  function Deadline(timing: Timing, f: Flight): int
    requires !f.phase.Done?
  {
    match f.phase
    case Waiting => f.begun + StartSlack(timing, f.kind)
    case Sending(since) => since + SendTimeout(f.kind)
    case Delivered(at, _) => at + SettleSlack(timing, f.kind)
  }

  function ClaimedFlights(owner: string, now: int, ms: seq<ClaimedMessage>, t: Table): seq<Flight>
    requires forall i :: 0 <= i < |ms| ==> ms[i].id in t
  {
    seq(|ms|, i requires 0 <= i < |ms| =>
      Flight(Poller(owner), ms[i].id, ms[i].platform, ms[i].room, t[ms[i].id].key, now, Waiting))
  }

  ghost predicate Enabled(timing: Timing, w: World, e: Event) {
    match e
    case Tick(to) =>
      w.now <= to && forall i :: 0 <= i < |w.flights| && !w.flights[i].phase.Done? ==> to <= Deadline(timing, w.flights[i])
    case EnqueueDirect(id, platform, room, text, key, row) =>
      id !in w.used &&
      HasKey(Inserted(w.rows, id, PendingRow(platform, room, text, key, w.now + DIRECT_SEND_GRACE_MS, w.now)), row, platform, key)
    case EnqueueText(id, _, _, _, _, _) => id !in w.used
    case RecordDelivered(id, _, _, _, _, _) => id !in w.used
    case Claim(_, platforms, limit, ids) => IsSelection(w.rows, platforms, w.now, limit, ids)
    case Start(i) => i < |w.flights| && w.flights[i].phase.Waiting?
    case Deliver(i, _) => i < |w.flights| && w.flights[i].phase.Sending?
    case Abandon(i, _) => i < |w.flights| && (w.flights[i].phase.Waiting? || w.flights[i].phase.Sending?)
    case Settle(i) => i < |w.flights| && w.flights[i].phase.Delivered?
    case _ => true
  }

  function InPhase(fs: seq<Flight>, i: nat, phase: Phase): seq<Flight>
    requires i < |fs|
  {
    fs[i := fs[i].(phase := phase)]
  }

  /** Writing a delivered flight back. A poller whose write raises a constraint
      error records a failure instead; the agent only logs it. */
  ghost function Settled(t: Table, f: Flight, now: int): Table
    requires f.phase.Delivered?
  {
    match f.kind
    case Direct => MarkedEnqueued(t, f.id, f.phase.providerId, now)
    case Poller(owner) =>
      if Owned(t, f.id, owner) && ProviderClash(t, f.id, f.phase.providerId)
      then FailedTable(t, f.id, owner, "constraint failed", now)
      else MarkedOwned(t, f.id, owner, f.phase.providerId, now)
  }

  ghost function Step(timing: Timing, w: World, e: Event): World
    requires Enabled(timing, w, e)
  {
    match e
    case Tick(to) => w.(now := to)
    case EnqueueDirect(id, platform, room, text, key, row) =>
      w.(rows := Inserted(w.rows, id, PendingRow(platform, room, text, key, w.now + DIRECT_SEND_GRACE_MS, w.now)),
         used := w.used + {id},
         flights := w.flights + [Flight(Direct, row, platform, room, key, w.now, Waiting)])
    case EnqueueText(id, platform, room, text, key, at) =>
      w.(rows := Inserted(w.rows, id, PendingRow(platform, room, text, key, at, w.now)), used := w.used + {id})
    case RecordDelivered(id, platform, room, text, key, at) =>
      w.(rows := Inserted(w.rows, id, DeliveredRow(platform, room, text, key, at, w.now)), used := w.used + {id},
         log := w.log + [MessageKey(platform, key)])
    case Claim(owner, platforms, limit, ids) =>
      ClaimedMessagesInTable(w.rows, ids);
      w.(rows := ClaimedTable(w.rows, owner, w.now, ids),
         flights := w.flights + ClaimedFlights(owner, w.now, ClaimedMessages(w.rows, ids), w.rows))
    case Start(i) => w.(flights := InPhase(w.flights, i, Sending(w.now)))
    case Deliver(i, providerId) =>
      w.(flights := InPhase(w.flights, i, Delivered(w.now, providerId)),
         log := w.log + [MessageKey(w.flights[i].platform, w.flights[i].key)])
    case Abandon(i, message) =>
      var f := w.flights[i];
      w.(rows := if f.kind.Poller? then FailedTable(w.rows, f.id, f.kind.owner, message, w.now) else w.rows,
         flights := InPhase(w.flights, i, Done))
    case Settle(i) =>
      w.(rows := Settled(w.rows, w.flights[i], w.now), flights := InPhase(w.flights, i, Done))
    case Prune(cutoff) => w.(rows := Pruned(w.rows, cutoff))
    case Retry(id) => w.(rows := Requeued(w.rows, id, w.now))
  }

  lemma {:induction false} ClaimedMessagesInTable(t: Table, ids: seq<Id>)
    requires forall i :: 0 <= i < |ids| ==> ids[i] in t
    ensures forall i :: 0 <= i < |ClaimedMessages(t, ids)| ==>
              var m := ClaimedMessages(t, ids)[i];
              && m.id in ids && m.id in t && m.platform == t[m.id].platform && m.room == t[m.id].room
              && Deliverable(t[m.id])
    ensures (forall i, j :: 0 <= i < j < |ids| ==> ids[i] != ids[j]) ==>
              forall i, j :: 0 <= i < j < |ClaimedMessages(t, ids)| ==>
                ClaimedMessages(t, ids)[i].id != ClaimedMessages(t, ids)[j].id
  {
    if ids != [] {
      var n := |ids| - 1;
      ClaimedMessagesInTable(t, ids[..n]);
      assert ids == ids[..n] + [ids[n]];
    }
  }

  // ------------------------------------------------------------ hypotheses

  /** A direct send is for a row it has just inserted, a streamed message is recorded
      under a key that is not stored yet, and a provider never returns an id that a row or an unsettled send of the room already has. */
  ghost predicate Fresh(w: World, e: Event) {
    match e
    case EnqueueDirect(id, _, _, _, _, row) => row == id
    case RecordDelivered(_, platform, _, _, key, _) => !KeyTaken(w.rows, platform, key)
    case Deliver(i, providerId) =>
      i < |w.flights| && providerId.Some? && Significant(providerId.value) ==>
        && (forall id :: id in w.rows ==> !Carries(w.rows[id], w.flights[i], providerId))
        && (forall j :: 0 <= j < |w.flights| && w.flights[j].phase.Delivered? && SameRoom(w.flights[j], w.flights[i]) ==>
              w.flights[j].phase.providerId != providerId)
    case _ => true
  }

  predicate Carries(row: Row, f: Flight, providerId: Option<string>) {
    row.platform == f.platform && row.room == f.room && row.providerId == providerId
  }

  predicate SameRoom(f: Flight, g: Flight) {
    f.platform == g.platform && f.room == g.room
  }

  ghost predicate Valid(timing: Timing, w: World, es: seq<Event>)
    decreases |es|
  {
    es != [] ==> Enabled(timing, w, es[0]) && Valid(timing, Step(timing, w, es[0]), es[1..])
  }

  ghost predicate AllFresh(timing: Timing, w: World, es: seq<Event>)
    requires Valid(timing, w, es)
    decreases |es|
  {
    es != [] ==> Fresh(w, es[0]) && AllFresh(timing, Step(timing, w, es[0]), es[1..])
  }

  ghost function Run(timing: Timing, w: World, es: seq<Event>): World
    requires Valid(timing, w, es)
    decreases |es|
  {
    if es == [] then w else Run(timing, Step(timing, w, es[0]), es[1..])
  }

  const Initially := World(0, map[], {}, [], [])

  ghost predicate NoMessageTwice(w: World) {
    forall i, j :: 0 <= i < j < |w.log| ==> w.log[i] != w.log[j]
  }

  /** The slack the constants leave. */
  predicate DirectInTime(timing: Timing) {
    timing.directStart + DIRECT_SEND_TIMEOUT_MS + timing.directSettle < DIRECT_SEND_GRACE_MS
  }

  predicate PollerInTime(timing: Timing) {
    timing.pollerStart + POLLER_SEND_TIMEOUT_MS + timing.pollerSettle < LEASE_MS
  }

  // ------------------------------------------------------------ the invariant

  /** The row of a live flight is its own, is in time, and is out of reach of
      every claim until the flight is over. */
  ghost predicate FlightInv(timing: Timing, now: int, t: Table, f: Flight)
    requires !f.phase.Done?
  {
    && f.id in t && t[f.id].platform == f.platform && t[f.id].room == f.room && t[f.id].key == f.key
    && f.begun <= now <= Deadline(timing, f)
    && (f.phase.Sending? ==> f.phase.since <= f.begun + StartSlack(timing, f.kind))
    && (f.phase.Delivered? ==> f.phase.at <= f.begun + StartSlack(timing, f.kind) + SendTimeout(f.kind))
    && match f.kind
       case Direct => t[f.id].state == Pending && t[f.id].availableAt == f.begun + DIRECT_SEND_GRACE_MS
       case Poller(owner) => Owned(t, f.id, owner) && t[f.id].leaseExpiresAt == Some(f.begun + LEASE_MS)
  }

  /** The provider id a delivered flight is about to write is free. */
  ghost predicate ProviderInv(t: Table, fs: seq<Flight>, i: nat)
    requires i < |fs| && fs[i].phase.Delivered?
  {
    var f := fs[i];
    f.phase.providerId.Some? && Significant(f.phase.providerId.value) ==>
      && (forall id :: id in t && id != f.id ==> !Carries(t[id], f, f.phase.providerId))
      && (forall j :: 0 <= j < |fs| && j != i && fs[j].phase.Delivered? && SameRoom(fs[j], f) ==>
            fs[j].phase.providerId != f.phase.providerId)
  }

  /** The row of a delivered message: sent, or about to be marked so. */
  ghost predicate Accounted(t: Table, fs: seq<Flight>, m: MessageKey, id: Id) {
    && HasKey(t, id, m.platform, m.key)
    && (t[id].state == Sent || exists i :: 0 <= i < |fs| && fs[i].phase.Delivered? && fs[i].id == id)
  }

  ghost predicate Inv(timing: Timing, w: World) {
    && UniqueKeys(w.rows)
    && (forall id :: id in w.rows ==> id in w.used)
    && (forall i :: 0 <= i < |w.flights| && !w.flights[i].phase.Done? ==> FlightInv(timing, w.now, w.rows, w.flights[i]))
    && (forall i, j :: 0 <= i < j < |w.flights| && !w.flights[i].phase.Done? && !w.flights[j].phase.Done? ==>
          w.flights[i].id != w.flights[j].id)
    && (forall i :: 0 <= i < |w.flights| && w.flights[i].phase.Delivered? ==> ProviderInv(w.rows, w.flights, i))
    && (forall m :: m in w.log ==> exists id :: Accounted(w.rows, w.flights, m, id))
    && NoMessageTwice(w)
  }

  ghost predicate UniqueKeys(t: Table) {
    OutboxRuns.UniqueKeys(t)
  }
}
