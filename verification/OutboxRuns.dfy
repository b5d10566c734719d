/**
 What every outbox statement keeps, and what follows over whole runs: any
 sequence of statements by any callers, the dashboard's retry included.
 */
module OutboxRuns {
  import opened Prelude
  import opened Strings
  import opened Outbox

  datatype Op =
    | Enqueue(id: Id, platform: string, room: string, text: string, key: string, availableAt: int, now: int)
    | RecordDelivered(id: Id, platform: string, room: string, text: string, key: string, availableAt: int, now: int)
    | Claim(owner: string, platforms: seq<string>, limit: int, ids: seq<Id>, now: int)
    | MarkEnqueuedSent(id: Id, providerId: Option<string>, now: int)
    | MarkSent(id: Id, owner: string, providerId: Option<string>, now: int)
    | Fail(id: Id, owner: string, message: string, now: int)
    | Prune(cutoff: int)
    | Retry(id: Id, now: int)

  /** The table and the ids ever given out. */
  datatype World = World(rows: Table, used: set<Id>)

  const EmptyWorld := World(map[], {})

  ghost predicate Enabled(w: World, op: Op) {
    match op
    case Enqueue(id, _, _, _, _, _, _) => id !in w.used
    case RecordDelivered(id, _, _, _, _, _, _) => id !in w.used
    case Claim(_, platforms, limit, ids, now) => IsSelection(w.rows, platforms, now, limit, ids)
    case _ => true
  }

  ghost function Apply(t: Table, op: Op): Table {
    match op
    case Enqueue(id, platform, room, text, key, at, now) => Inserted(t, id, PendingRow(platform, room, text, key, at, now))
    case RecordDelivered(id, platform, room, text, key, at, now) =>
      Inserted(t, id, DeliveredRow(platform, room, text, key, at, now))
    case Claim(owner, _, _, ids, now) => ClaimedTable(t, owner, now, ids)
    case MarkEnqueuedSent(id, providerId, now) => MarkedEnqueued(t, id, providerId, now)
    case MarkSent(id, owner, providerId, now) => MarkedOwned(t, id, owner, providerId, now)
    case Fail(id, owner, message, now) => FailedTable(t, id, owner, message, now)
    case Prune(cutoff) => Pruned(t, cutoff)
    case Retry(id, now) => Requeued(t, id, now)
  }

  ghost function Step(w: World, op: Op): World {
    World(Apply(w.rows, op),
          if op.Enqueue? || op.RecordDelivered? then w.used + {op.id} else w.used)
  }

  ghost predicate Valid(w: World, ops: seq<Op>)
    decreases |ops|
  {
    ops != [] ==> Enabled(w, ops[0]) && Valid(Step(w, ops[0]), ops[1..])
  }

  ghost function Run(w: World, ops: seq<Op>): World
    decreases |ops|
  {
    if ops == [] then w else Run(Step(w, ops[0]), ops[1..])
  }

  // ------------------------------------------------------------ the invariant

  predicate RowInv(row: Row) {
    && (row.state == Leased <==> row.leaseOwner.Some?)
    && (row.state == Leased <==> row.leaseExpiresAt.Some?)
    && (row.state == Pending ==> row.attempts == 0)
    && (row.state == Failed ==> 1 <= row.attempts < MAX_ATTEMPTS)
    && (row.state in {Leased, DeadLetter} ==> row.attempts >= 1)
    && (row.state == Leased ==> Deliverable(row))
    && (row.state == Sent <==> row.sentAt.Some?)
    && (row.providerId.Some? ==> row.state == Sent)
  }

  ghost predicate UniqueKeys(t: Table) {
    forall a, b, platform, key :: HasKey(t, a, platform, key) && HasKey(t, b, platform, key) ==> a == b
  }

  ghost predicate UniqueProviderIds(t: Table) {
    forall a, b :: a in t && b in t && a != b && t[a].providerId.Some? && Significant(t[a].providerId.value) ==>
      !SameDelivery(t[a], t[b])
  }

  ghost predicate Inv(w: World) {
    && (forall id :: id in w.rows ==> id in w.used && RowInv(w.rows[id]))
    && UniqueKeys(w.rows)
    && UniqueProviderIds(w.rows)
  }

  /** An update of one row that keeps its key and its provider id keeps both
      unique indexes. */
  lemma UpdateKeepsIndexes(t: Table, id: Id, row: Row)
    requires id in t && UniqueKeys(t) && UniqueProviderIds(t)
    requires row.platform == t[id].platform && row.room == t[id].room && row.key == t[id].key
    requires row.providerId == t[id].providerId || row.providerId == None ||
             !ProviderClash(t, id, row.providerId)
    ensures UniqueKeys(t[id := row]) && UniqueProviderIds(t[id := row])
  {
    var u := t[id := row];
    forall a, b, platform, key | HasKey(u, a, platform, key) && HasKey(u, b, platform, key)
      ensures a == b
    {
      assert HasKey(t, a, platform, key) && HasKey(t, b, platform, key);
    }
    forall a, b | a in u && b in u && a != b && u[a].providerId.Some? && Significant(u[a].providerId.value)
      ensures !SameDelivery(u[a], u[b])
    {
      var written := t[id].(providerId := row.providerId);
      assert a == id ==> SameDelivery(t[b], written) == SameDelivery(u[b], u[a]);
      assert b == id ==> SameDelivery(t[a], written) == SameDelivery(u[a], u[b]);
      assert a != id && b != id ==> !SameDelivery(t[a], t[b]);
    }
  }

  lemma OneRowKeepsInv(w: World, id: Id, row: Row)
    requires Inv(w) && id in w.rows && RowInv(row)
    requires row.platform == w.rows[id].platform && row.room == w.rows[id].room && row.key == w.rows[id].key
    requires row.providerId == w.rows[id].providerId || row.providerId == None || !ProviderClash(w.rows, id, row.providerId)
    ensures Inv(World(w.rows[id := row], w.used))
  {
    UpdateKeepsIndexes(w.rows, id, row);
  }

  lemma InsertKeepsInv(w: World, id: Id, row: Row)
    requires Inv(w) && id !in w.used && RowInv(row) && row.providerId.None?
    ensures Inv(World(Inserted(w.rows, id, row), w.used + {id}))
  {
    var t := w.rows;
    var u := Inserted(t, id, row);
    if !KeyTaken(t, row.platform, row.key) {
      forall a, b, platform, key | HasKey(u, a, platform, key) && HasKey(u, b, platform, key)
        ensures a == b
      {
        assert a != id ==> HasKey(t, a, platform, key);
        assert b != id ==> HasKey(t, b, platform, key);
      }
      forall a, b | a in u && b in u && a != b && u[a].providerId.Some? && Significant(u[a].providerId.value)
        ensures !SameDelivery(u[a], u[b])
      {
        assert a in t && (b in t ==> !SameDelivery(t[a], t[b]));
      }
    }
  }

  predicate SameIdentity(a: Row, b: Row) {
    a.platform == b.platform && a.room == b.room && a.key == b.key && a.providerId == b.providerId
  }

  /** Claiming and pruning touch many rows but no key and no provider id. */
  lemma SameKeysSameIndexes(t: Table, u: Table)
    requires UniqueKeys(t) && UniqueProviderIds(t)
    requires forall id :: id in u ==> id in t && SameIdentity(t[id], u[id])
    ensures UniqueKeys(u) && UniqueProviderIds(u)
  {
    forall a, b, platform, key | HasKey(u, a, platform, key) && HasKey(u, b, platform, key)
      ensures a == b
    {
      assert HasKey(t, a, platform, key) && HasKey(t, b, platform, key);
    }
    forall a, b | a in u && b in u && a != b && u[a].providerId.Some? && Significant(u[a].providerId.value)
      ensures !SameDelivery(u[a], u[b])
    {
      assert !SameDelivery(t[a], t[b]);
    }
  }

  lemma ClaimKeepsInv(w: World, owner: string, platforms: seq<string>, limit: int, ids: seq<Id>, now: int)
    requires Inv(w) && IsSelection(w.rows, platforms, now, limit, ids)
    ensures Inv(World(ClaimedTable(w.rows, owner, now, ids), w.used))
  {
    var u := ClaimedTable(w.rows, owner, now, ids);
    forall id | id in u
      ensures RowInv(u[id]) && SameIdentity(w.rows[id], u[id])
    {
      assert id in ids ==> Claimable(w.rows[id], now);
    }
    SameKeysSameIndexes(w.rows, u);
  }

  /** Every statement keeps the table invariant. */
  lemma StepKeepsInv(w: World, op: Op)
    requires Inv(w) && Enabled(w, op)
    ensures Inv(Step(w, op))
  {
    match op {
      case Enqueue(id, platform, room, text, key, at, now) =>
        InsertKeepsInv(w, id, PendingRow(platform, room, text, key, at, now));
      case RecordDelivered(id, platform, room, text, key, at, now) =>
        InsertKeepsInv(w, id, DeliveredRow(platform, room, text, key, at, now));
      case Claim(owner, platforms, limit, ids, now) =>
        ClaimKeepsInv(w, owner, platforms, limit, ids, now);
      case Prune(cutoff) =>
        SameKeysSameIndexes(w.rows, Pruned(w.rows, cutoff));
      case MarkEnqueuedSent(id, providerId, now) =>
        if OpenForDirect(w.rows, id) && !ProviderClash(w.rows, id, providerId) {
          OneRowKeepsInv(w, id, SentRow(w.rows[id], providerId, now));
        }
      case MarkSent(id, owner, providerId, now) =>
        if Owned(w.rows, id, owner) && !ProviderClash(w.rows, id, providerId) {
          OneRowKeepsInv(w, id, SentRow(w.rows[id], providerId, now));
        }
      case Fail(id, owner, message, now) =>
        if Owned(w.rows, id, owner) {
          OneRowKeepsInv(w, id, FailedRow(w.rows[id], message, now));
        }
      case Retry(id, now) =>
        if id in w.rows && w.rows[id].state in {Failed, DeadLetter} {
          OneRowKeepsInv(w, id, RequeuedRow(w.rows[id], now));
        }
    }
  }

  lemma EmptyHolds()
    ensures Inv(EmptyWorld)
  {
  }

  lemma {:induction false} RunKeepsInv(w: World, ops: seq<Op>)
    requires Inv(w) && Valid(w, ops)
    ensures Inv(Run(w, ops))
    decreases |ops|
  {
    if ops != [] {
      StepKeepsInv(w, ops[0]);
      RunKeepsInv(Step(w, ops[0]), ops[1..]);
    }
  }

  // ------------------------------------------------------------ absorbing states

  /** A sent row is never touched again: no statement changes any of its fields. */
  lemma {:induction false} SentIsForever(w: World, ops: seq<Op>, id: Id)
    requires Inv(w) && Valid(w, ops)
    requires id in w.rows && w.rows[id].state == Sent
    ensures id in Run(w, ops).rows && Run(w, ops).rows[id] == w.rows[id]
    decreases |ops|
  {
    if ops != [] {
      StepKeepsInv(w, ops[0]);
      SentIsForever(Step(w, ops[0]), ops[1..], id);
    }
  }

  /** A dead-lettered row stays as it is until it is pruned or retried by hand. */
  lemma {:induction false} DeadLetterStays(w: World, ops: seq<Op>, id: Id)
    requires Inv(w) && Valid(w, ops)
    requires id in w.rows && w.rows[id].state == DeadLetter
    requires forall i :: 0 <= i < |ops| && ops[i].Retry? ==> ops[i].id != id
    ensures id in Run(w, ops).rows ==> Run(w, ops).rows[id] == w.rows[id]
    decreases |ops|
  {
    if ops != [] {
      StepKeepsInv(w, ops[0]);
      if id in Step(w, ops[0]).rows {
        DeadLetterStays(Step(w, ops[0]), ops[1..], id);
      } else {
        GoneStaysGone(Step(w, ops[0]), ops[1..], id);
      }
    }
  }

  lemma {:induction false} GoneStaysGone(w: World, ops: seq<Op>, id: Id)
    requires id in w.used && id !in w.rows && Valid(w, ops)
    ensures id !in Run(w, ops).rows
    decreases |ops|
  {
    if ops != [] {
      GoneStaysGone(Step(w, ops[0]), ops[1..], id);
    }
  }

  // ------------------------------------------------------------ bounded attempts

  /** How often `id` was claimed. */
  function ClaimsOf(ops: seq<Op>, id: Id): nat {
    if ops == [] then 0
    else (if ops[0].Claim? && id in ops[0].ids then 1 else 0) + ClaimsOf(ops[1..], id)
  }

  /** No lease on `id` runs out before its holder reports, and nobody requeues
      the row by hand. */
  ghost predicate NoExpiryNorRetry(w: World, ops: seq<Op>, id: Id)
    decreases |ops|
  {
    ops != [] ==>
      && (ops[0].Claim? && id in ops[0].ids && id in w.rows ==> w.rows[id].state != Leased)
      && (ops[0].Retry? ==> ops[0].id != id)
      && NoExpiryNorRetry(Step(w, ops[0]), ops[1..], id)
  }

  /** Claims the row still has before it is sent or dead-lettered. */
  function Remaining(w: World, id: Id): int {
    if id !in w.used then MAX_ATTEMPTS
    else if id !in w.rows || w.rows[id].state in {Sent, DeadLetter} then 0
    else MAX_ATTEMPTS - w.rows[id].attempts
  }

  lemma ClaimSpendsOne(w: World, op: Op, id: Id)
    requires Inv(w) && Enabled(w, op) && 0 <= Remaining(w, id)
    requires op.Claim? && id in op.ids && id in w.rows ==> w.rows[id].state != Leased
    requires op.Retry? ==> op.id != id
    ensures 0 <= Remaining(Step(w, op), id)
    ensures Remaining(Step(w, op), id) + (if op.Claim? && id in op.ids then 1 else 0) <= Remaining(w, id) <= MAX_ATTEMPTS
  {
  }

  /** Without expiry or manual retry a row is claimed at most five times in all,
      and no more often than it has attempts left. */
  lemma {:induction false} ClaimsAreBounded(w: World, ops: seq<Op>, id: Id)
    requires Inv(w) && Valid(w, ops) && NoExpiryNorRetry(w, ops, id)
    requires 0 <= Remaining(w, id)
    ensures ClaimsOf(ops, id) + Max(0, Remaining(Run(w, ops), id)) <= Remaining(w, id) <= MAX_ATTEMPTS
    decreases |ops|
  {
    if ops != [] {
      StepKeepsInv(w, ops[0]);
      ClaimSpendsOne(w, ops[0], id);
      ClaimsAreBounded(Step(w, ops[0]), ops[1..], id);
    }
  }

  /** When leases expire there is no such bound: for every `n` some run claims
      the row `n` more times. */
  lemma {:induction false} ExpiryAllowsAnyNumberOfClaims(w: World, id: Id, n: nat) returns (ops: seq<Op>)
    requires w.rows.Keys == {id} && RowInv(w.rows[id]) && w.rows[id].state == Leased
    ensures Valid(w, ops) && ClaimsOf(ops, id) == n
    decreases n
  {
    ops := [];
    if n > 0 {
      var row := w.rows[id];
      var op := Claim("", [row.platform], 1, [id], Max(row.availableAt, row.leaseExpiresAt.value));
      assert row.platform in op.platforms;
      var rest := ExpiryAllowsAnyNumberOfClaims(Step(w, op), id, n - 1);
      ops := [op] + rest;
      assert ops[1..] == rest;
    }
  }

  /** A failed row that is pruned after more than the back-off was still to be sent:
      it was due for the next claim. */
  lemma PrunedFailureWasDue(row: Row, message: string, at: int, now: int, olderThanMs: int)
    requires row.attempts < MAX_ATTEMPTS && olderThanMs >= BACKOFF_MS && row.sentAt.None?
    ensures var failed := FailedRow(row, message, at);
            Prunable(failed, now - olderThanMs) ==> failed.state == Failed && Claimable(failed, now)
  {
  }
}
