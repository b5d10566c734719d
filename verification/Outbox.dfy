/**
 The durable outbox (src/messaging/OutboxService.ts and the admin retry in
 src/admin/data.ts): rows that carry a state, a lease, an attempt counter and the
 time from which they may be claimed.

 One SQL statement, or one immediate transaction, is one atomic step on a map of
 rows. Hashes of idempotency keys are taken to be injective, so a row stores the
 key itself; row ids are fresh.
 */
module Outbox {
  import opened Prelude
  import opened Utf8
  import opened Strings

  const LEASE_MS := 120_000
  const MAX_ATTEMPTS := 5
  const MAX_TEXT_BYTES := 100_000
  const MAX_ERROR_LENGTH := 2_000
  const BACKOFF_MS := 5_000
  const DIRECT_SEND_GRACE_MS := 20_000

  type Id = nat

  datatype State = Pending | Leased | Sent | Failed | DeadLetter

  /** The stored JSON: a text (empty when the field is missing), or not JSON. */
  datatype Payload = Text(text: string) | Undecodable(reason: string)

  datatype Row = Row(
    platform: string,
    room: string,
    key: string,
    payload: Payload,
    state: State,
    availableAt: int,
    leaseOwner: Option<string>,
    leaseExpiresAt: Option<int>,
    attempts: nat,
    lastError: Option<string>,
    providerId: Option<string>,
    sentAt: Option<int>,
    createdAt: int,
    updatedAt: int)

  type Table = map<Id, Row>

  // ------------------------------------------------------------ message text

  const TRUNCATED_SUFFIX := "\n[Message truncated]"

  function NormalizeText(text: string): string {
    var value := Trim(text);
    if ByteLength(value) <= MAX_TEXT_BYTES then value
    else StripReplacement(Decode(Encode(value)[..MAX_TEXT_BYTES])) + TRUNCATED_SUFFIX
  }

  /** The stored text is the trimmed text, or a prefix of it in whole characters
      that fits, with the suffix; it is empty only for blank text. */
  lemma NormalizedText(text: string)
    ensures var value := Trim(text);
            var stored := NormalizeText(text);
            if ByteLength(value) <= 100_000 then stored == value
            else exists k: nat :: k <= |value| && ByteLength(value[..k]) <= 100_000 &&
                                  (k + 1 < |value| ==> ByteLength(value[..k + 2]) > 100_000) &&
                                  stored == value[..k] + "\n[Message truncated]"
    ensures NormalizeText(text) == "" <==> Trim(text) == ""
  {
    var value := Trim(text);
    if ByteLength(value) > MAX_TEXT_BYTES {
      TruncationKeepsPrefix(value, MAX_TEXT_BYTES);
      KeptPrefixIsLongest(value, MAX_TEXT_BYTES);
      var k := KeptCount(value, MAX_TEXT_BYTES);
      assert NormalizeText(text) == value[..k] + TRUNCATED_SUFFIX;
      assert k + 1 < |value| ==> ByteLength(value[..k + 2]) > MAX_TEXT_BYTES;
    }
  }

  function ErrorText(message: string): string {
    message[..Min(MAX_ERROR_LENGTH, |message|)]
  }

  // ------------------------------------------------------------ statements

  ghost predicate HasKey(t: Table, id: Id, platform: string, key: string) {
    id in t && t[id].platform == platform && t[id].key == key
  }

  ghost predicate KeyTaken(t: Table, platform: string, key: string) {
    exists id :: HasKey(t, id, platform, key)
  }

  function PendingRow(platform: string, room: string, text: string, key: string, availableAt: int, now: int): Row {
    Row(platform, room, key, Text(NormalizeText(text)), Pending, availableAt, None, None, 0, None, None, None, now, now)
  }

  function DeliveredRow(platform: string, room: string, text: string, key: string, availableAt: int, now: int): Row {
    PendingRow(platform, room, text, key, availableAt, now).(state := Sent, sentAt := Some(now))
  }

  /** INSERT ... ON CONFLICT (platform, idempotency_key) DO NOTHING. */
  ghost function Inserted(t: Table, id: Id, row: Row): Table {
    if KeyTaken(t, row.platform, row.key) then t else t[id := row]
  }

  predicate Claimable(row: Row, now: int) {
    && row.availableAt <= now
    && (row.state in {Pending, Failed} || (row.state == Leased && row.leaseExpiresAt.Some? && row.leaseExpiresAt.value <= now))
  }

  predicate Eligible(row: Row, platforms: seq<string>, now: int) {
    row.platform in platforms && Claimable(row, now)
  }

  /** ORDER BY available_at, created_at; ties come in any order. */
  predicate InOrder(a: Row, b: Row) {
    a.availableAt < b.availableAt || (a.availableAt == b.availableAt && a.createdAt <= b.createdAt)
  }

  function BatchSize(limit: int): nat {
    Max(1, Min(50, limit))
  }

  /** `ids` is a result the candidate SELECT may return: the first rows in order
      among the eligible ones, as many as there are up to the batch size. */
  ghost predicate IsSelection(t: Table, platforms: seq<string>, now: int, limit: int, ids: seq<Id>) {
    && |ids| <= BatchSize(limit)
    && (forall i :: 0 <= i < |ids| ==> ids[i] in t && Eligible(t[ids[i]], platforms, now))
    && (forall i, j :: 0 <= i < j < |ids| ==> ids[i] != ids[j] && InOrder(t[ids[i]], t[ids[j]]))
    && (forall id :: id in t && id !in ids && Eligible(t[id], platforms, now) ==>
          |ids| == BatchSize(limit) && forall i :: 0 <= i < |ids| ==> InOrder(t[ids[i]], t[id]))
  }

  function LeasedRow(row: Row, owner: string, now: int): Row {
    row.(state := Leased, leaseOwner := Some(owner), leaseExpiresAt := Some(now + LEASE_MS),
         attempts := row.attempts + 1, updatedAt := now)
  }

  function RetiredRow(row: Row, reason: string, now: int): Row {
    row.(state := DeadLetter, lastError := Some(ErrorText(reason)), availableAt := now, updatedAt := now,
         leaseOwner := None, leaseExpiresAt := None)
  }

  predicate Deliverable(row: Row) {
    row.payload.Text? && row.payload.text != ""
  }

  /** A candidate is leased; one without a text to send is retired at once. */
  function ClaimedRow(row: Row, owner: string, now: int): Row {
    var leased := LeasedRow(row, owner, now);
    if Deliverable(row) then leased
    else if row.payload.Undecodable? then RetiredRow(leased, "Undecodable outbox payload: " + row.payload.reason, now)
    else RetiredRow(leased, "Outbox payload contained no text", now)
  }

  function ClaimedTable(t: Table, owner: string, now: int, ids: seq<Id>): Table {
    map id | id in t :: if id in ids then ClaimedRow(t[id], owner, now) else t[id]
  }

  datatype ClaimedMessage = ClaimedMessage(id: Id, platform: string, room: string, text: string, attempts: nat)

  function ClaimedMessageOf(id: Id, row: Row): Option<ClaimedMessage> {
    if Deliverable(row)
    then Some(ClaimedMessage(id, row.platform, row.room, row.payload.text, row.attempts + 1))
    else None
  }

  /** The deliverable candidates, in the order of the selection. */
  function ClaimedMessages(t: Table, ids: seq<Id>): seq<ClaimedMessage>
    requires forall i :: 0 <= i < |ids| ==> ids[i] in t
  {
    if ids == [] then []
    else
      var n := |ids| - 1;
      var message := ClaimedMessageOf(ids[n], t[ids[n]]);
      ClaimedMessages(t, ids[..n]) + if message.Some? then [message.value] else []
  }

  lemma ClaimSnoc(t: Table, owner: string, now: int, ids: seq<Id>, id: Id)
    requires id in t && id !in ids && forall i :: 0 <= i < |ids| ==> ids[i] in t
    ensures ClaimedTable(t, owner, now, ids)[id] == t[id]
    ensures ClaimedTable(t, owner, now, ids + [id]) == ClaimedTable(t, owner, now, ids)[id := ClaimedRow(t[id], owner, now)]
    ensures var message := ClaimedMessageOf(id, t[id]);
            ClaimedMessages(t, ids + [id]) == ClaimedMessages(t, ids) + if message.Some? then [message.value] else []
  {
  }

  /** Another row of the room already carries this provider id, so writing it
      raises a constraint error. */
  ghost predicate ProviderClash(t: Table, id: Id, providerId: Option<string>) {
    && providerId.Some? && Significant(providerId.value) && id in t
    && exists other :: other in t && other != id && SameDelivery(t[other], t[id].(providerId := providerId))
  }

  predicate SameDelivery(a: Row, b: Row) {
    a.platform == b.platform && a.room == b.room && a.providerId.Some? && a.providerId == b.providerId
  }

  function SentRow(row: Row, providerId: Option<string>, now: int): Row {
    row.(state := Sent, providerId := providerId, sentAt := Some(now), updatedAt := now,
         leaseOwner := None, leaseExpiresAt := None, lastError := None)
  }

  predicate OpenForDirect(t: Table, id: Id) {
    id in t && t[id].state in {Pending, Failed}
  }

  predicate Owned(t: Table, id: Id, owner: string) {
    id in t && t[id].state == Leased && t[id].leaseOwner == Some(owner)
  }

  ghost function MarkedEnqueued(t: Table, id: Id, providerId: Option<string>, now: int): Table {
    if OpenForDirect(t, id) && !ProviderClash(t, id, providerId) then t[id := SentRow(t[id], providerId, now)] else t
  }

  ghost function MarkedOwned(t: Table, id: Id, owner: string, providerId: Option<string>, now: int): Table {
    if Owned(t, id, owner) && !ProviderClash(t, id, providerId) then t[id := SentRow(t[id], providerId, now)] else t
  }

  /** Both branches of the back-off expression give the same time. */
  function FailedRow(row: Row, message: string, now: int): Row {
    row.(state := if row.attempts >= MAX_ATTEMPTS then DeadLetter else Failed,
         lastError := Some(ErrorText(message)), availableAt := now + BACKOFF_MS,
         leaseOwner := None, leaseExpiresAt := None, updatedAt := now)
  }

  function FailedTable(t: Table, id: Id, owner: string, message: string, now: int): Table {
    if Owned(t, id, owner) then t[id := FailedRow(t[id], message, now)] else t
  }

  predicate Prunable(row: Row, cutoff: int) {
    row.state in {Failed, DeadLetter} && (if row.sentAt.Some? then row.sentAt.value else row.updatedAt) < cutoff
  }

  function Pruned(t: Table, cutoff: int): Table {
    map id | id in t && !Prunable(t[id], cutoff) :: t[id]
  }

  function RequeuedRow(row: Row, now: int): Row {
    row.(state := Pending, attempts := 0, lastError := None, availableAt := now, leaseOwner := None, leaseExpiresAt := None)
  }

  function Requeued(t: Table, id: Id, now: int): Table {
    if id in t && t[id].state in {Failed, DeadLetter} then t[id := RequeuedRow(t[id], now)] else t
  }

  // ------------------------------------------------------------ what a claim comes to

  /** The rows taken are due and of a listed platform, between 1 and 50 at most; a due
      row is left only when as many as that come before it. */
  ghost predicate PicksDue(t: Table, platforms: seq<string>, limit: int, now: int, ids: seq<Id>) {
    var most := if limit < 1 then 1 else if limit > 50 then 50 else limit;
    && |ids| <= most && (forall i, j :: 0 <= i < j < |ids| ==> ids[i] != ids[j])
    && (forall id :: id in ids ==> id in t)
    && (forall id :: id in t ==>
          var row := t[id];
          var due := row.platform in platforms && row.availableAt <= now && row.state != Sent && row.state != DeadLetter &&
                     (row.state == Leased ==> row.leaseExpiresAt.Some? && row.leaseExpiresAt.value <= now);
          && (id in ids ==> due)
          && (due && id !in ids ==>
                |ids| == most && forall k :: k in ids ==>
                  t[k].availableAt < row.availableAt || (t[k].availableAt == row.availableAt && t[k].createdAt <= row.createdAt)))
  }

  /** Every row taken has one attempt more; one with a text is under a lease of two
      minutes, another is dead. No other row changes. */
  ghost predicate LeasesPicked(before: Table, after: Table, owner: string, now: int, ids: seq<Id>) {
    && after.Keys == before.Keys
    && forall id :: id in before ==>
         var row := before[id];
         var taken := row.(attempts := row.attempts + 1, updatedAt := now);
         if id !in ids then after[id] == row
         else if row.payload.Text? && row.payload.text != ""
         then after[id] == taken.(state := Leased, leaseOwner := Some(owner), leaseExpiresAt := Some(now + 120_000))
         else
           && after[id].lastError.Some? && |after[id].lastError.value| <= 2_000
           && after[id] == taken.(state := DeadLetter, leaseOwner := None, leaseExpiresAt := None, availableAt := now,
                                  lastError := after[id].lastError)
  }

  /** The texts taken are handed over, each once, the earlier rows first. */
  ghost predicate HandsOver(before: Table, ids: seq<Id>, claimed: seq<ClaimedMessage>)
  {
    && (forall j :: 0 <= j < |claimed| ==>
          var m := claimed[j];
          && m.id in ids && m.id in before
          && before[m.id].payload == Text(m.text) && m.text != ""
          && m.platform == before[m.id].platform && m.room == before[m.id].room && m.attempts == before[m.id].attempts + 1)
    && (forall id :: id in ids && id in before && before[id].payload.Text? && before[id].payload.text != "" ==>
          exists j :: 0 <= j < |claimed| && claimed[j].id == id)
    && (forall j, k :: 0 <= j < k < |claimed| ==>
          var a, b := before[claimed[j].id], before[claimed[k].id];
          claimed[j].id != claimed[k].id &&
          (a.availableAt < b.availableAt || (a.availableAt == b.availableAt && a.createdAt <= b.createdAt)))
  }

  lemma SelectionPicksDue(t: Table, platforms: seq<string>, limit: int, now: int, ids: seq<Id>)
    requires IsSelection(t, platforms, now, limit, ids)
    ensures PicksDue(t, platforms, limit, now, ids)
  {
  }

  lemma ClaimedTableLeases(t: Table, owner: string, now: int, ids: seq<Id>)
    ensures LeasesPicked(t, ClaimedTable(t, owner, now, ids), owner, now, ids)
  {
  }

  lemma {:induction false} MessagesHandOver(t: Table, ids: seq<Id>)
    requires forall i :: 0 <= i < |ids| ==> ids[i] in t
    requires forall i, j :: 0 <= i < j < |ids| ==> ids[i] != ids[j] && InOrder(t[ids[i]], t[ids[j]])
    ensures HandsOver(t, ids, ClaimedMessages(t, ids))
  {
    if ids != [] {
      var n := |ids| - 1;
      MessagesHandOver(t, ids[..n]);
      OneMoreHandedOver(t, ids[..n], ids[n], ClaimedMessages(t, ids[..n]));
      assert ids == ids[..n] + [ids[n]];
    }
  }

  lemma OneMoreHandedOver(t: Table, ids: seq<Id>, id: Id, claimed: seq<ClaimedMessage>)
    requires HandsOver(t, ids, claimed) && id in t && forall k :: k in ids ==> k in t && k != id && InOrder(t[k], t[id])
    ensures var message := ClaimedMessageOf(id, t[id]);
            HandsOver(t, ids + [id], claimed + if message.Some? then [message.value] else [])
  {
    var message := ClaimedMessageOf(id, t[id]);
    var all := claimed + if message.Some? then [message.value] else [];
    forall k | k in ids && Deliverable(t[k]) ensures exists j :: 0 <= j < |all| && all[j].id == k {
      var j :| 0 <= j < |claimed| && claimed[j].id == k;
      assert all[j].id == k;
    }
    if message.Some? {
      assert all[|claimed|].id == id;
    }
  }

  // ------------------------------------------------------------ the service

  datatype FailVerdict = Retry | DeadLettered | NotOwned
  datatype DatabaseError = ConstraintFailed

  class OutboxService {
    var rows: Table

    constructor ()
      ensures rows == map[]
    {
      rows := map[];
    }

    /** Enqueue a text, once per key: the id returned names the row with the key. */
    method EnqueueText(id: Id, platform: string, room: string, text: string, key: string,
                       availableAt: Option<int>, now: int) returns (r: Id)
      requires id !in rows
      modifies this
      ensures rows == Inserted(old(rows), id, PendingRow(platform, room, text, key,
                                 if availableAt.Some? then availableAt.value else now, now))
      ensures r == id ==> rows == old(rows)[id :=
                Row(platform, room, key, Text(NormalizeText(text)), Pending,
                    if availableAt.Some? then availableAt.value else now, None, None, 0, None, None, None, now, now)]
      ensures r != id ==> rows == old(rows)
      ensures HasKey(rows, r, platform, key)
      ensures r == id <==> !KeyTaken(old(rows), platform, key)
    {
      var at := if availableAt.Some? then availableAt.value else now;
      r := Insert(id, PendingRow(platform, room, text, key, at, now));
    }

    method EnqueueDirectText(id: Id, platform: string, room: string, text: string, key: string, now: int) returns (r: Id)
      requires id !in rows
      modifies this
      ensures rows == Inserted(old(rows), id, PendingRow(platform, room, text, key, now + DIRECT_SEND_GRACE_MS, now))
      ensures r == id ==> rows == old(rows)[id :=
                Row(platform, room, key, Text(NormalizeText(text)), Pending, now + 20_000, None, None, 0, None, None, None, now, now)]
      ensures r != id ==> rows == old(rows)
      ensures HasKey(rows, r, platform, key)
      ensures r == id <==> !KeyTaken(old(rows), platform, key)
    {
      r := EnqueueText(id, platform, room, text, key, Some(now + DIRECT_SEND_GRACE_MS), now);
    }

    method RecordTextDelivered(id: Id, platform: string, room: string, text: string, key: string,
                               availableAt: Option<int>, now: int) returns (r: Id)
      requires id !in rows
      modifies this
      ensures rows == Inserted(old(rows), id, DeliveredRow(platform, room, text, key,
                                 if availableAt.Some? then availableAt.value else now, now))
      ensures r == id ==> rows == old(rows)[id :=
                Row(platform, room, key, Text(NormalizeText(text)), Sent,
                    if availableAt.Some? then availableAt.value else now, None, None, 0, None, None, Some(now), now, now)]
      ensures r != id ==> rows == old(rows)
      ensures HasKey(rows, r, platform, key)
      ensures r == id <==> !KeyTaken(old(rows), platform, key)
    {
      var at := if availableAt.Some? then availableAt.value else now;
      r := Insert(id, DeliveredRow(platform, room, text, key, at, now));
    }

    method Insert(id: Id, row: Row) returns (r: Id)
      requires id !in rows
      modifies this
      ensures rows == Inserted(old(rows), id, row)
      ensures HasKey(rows, r, row.platform, row.key)
      ensures r == id <==> !KeyTaken(old(rows), row.platform, row.key)
    {
      if k :| k in rows && rows[k].platform == row.platform && rows[k].key == row.key {
        assert HasKey(rows, k, row.platform, row.key);
        r := k;
      } else {
        assert !KeyTaken(rows, row.platform, row.key);
        rows := rows[id := row];
        r := id;
      }
    }

    /** The candidate SELECT. */
    method Select(platforms: seq<string>, now: int, limit: int) returns (ids: seq<Id>)
      ensures IsSelection(rows, platforms, now, limit, ids)
      ensures PicksDue(rows, platforms, limit, now, ids)
    {
      ids := [];
      var rest := set id | id in rows && Eligible(rows[id], platforms, now);
      while rest != {} && |ids| < BatchSize(limit)
        invariant |ids| <= BatchSize(limit)
        invariant SelectedSoFar(rows, platforms, now, ids, rest)
        decreases |rest|
      {
        FirstExists(rows, rest);
        var first :| first in rest && forall id :: id in rest ==> InOrder(rows[first], rows[id]);
        SelectNext(rows, platforms, now, ids, rest, first);
        ids := ids + [first];
        rest := rest - {first};
      }
      SelectionPicksDue(rows, platforms, limit, now, ids);
    }

    /** The first candidates in order are leased to `owner` or, when they hold
        no text, retired; every other row stays as it is. */
    method Claim(owner: string, platforms: seq<string>, limit: int, now: int)
      returns (claimed: seq<ClaimedMessage>, ghost ids: seq<Id>)
      modifies this
      ensures platforms == [] ==> ids == []
      ensures platforms != [] ==> IsSelection(old(rows), platforms, now, limit, ids)
      ensures PicksDue(old(rows), platforms, limit, now, ids)
      ensures LeasesPicked(old(rows), rows, owner, now, ids)
      ensures HandsOver(old(rows), ids, claimed)
      ensures forall i :: 0 <= i < |ids| ==> ids[i] in old(rows)
      ensures rows == ClaimedTable(old(rows), owner, now, ids)
      ensures claimed == ClaimedMessages(old(rows), ids)
    {
      ids, claimed := [], [];
      if platforms == [] { return; }
      var candidates := Select(platforms, now, limit);
      ids := candidates;
      ClaimedTableLeases(rows, owner, now, ids);
      MessagesHandOver(rows, ids);
      claimed := ClaimEach(candidates, owner, now);
    }

    /** The loop over the candidates. */
    method ClaimEach(ids: seq<Id>, owner: string, now: int) returns (claimed: seq<ClaimedMessage>)
      requires forall i :: 0 <= i < |ids| ==> ids[i] in rows && Claimable(rows[ids[i]], now)
      requires forall i, j :: 0 <= i < j < |ids| ==> ids[i] != ids[j]
      modifies this
      ensures rows == ClaimedTable(old(rows), owner, now, ids)
      ensures claimed == ClaimedMessages(old(rows), ids)
    {
      claimed := [];
      for i := 0 to |ids|
        invariant rows == ClaimedTable(old(rows), owner, now, ids[..i])
        invariant claimed == ClaimedMessages(old(rows), ids[..i])
      {
        ClaimSnoc(old(rows), owner, now, ids[..i], ids[i]);
        assert ids[..i + 1] == ids[..i] + [ids[i]];
        var message := ClaimOne(ids[i], owner, now);
        if message.Some? {
          claimed := claimed + [message.value];
        }
      }
      assert ids[..|ids|] == ids;
    }

    /** One candidate inside the transaction: the guarded UPDATE, then the look
        at its payload. */
    method ClaimOne(id: Id, owner: string, now: int) returns (message: Option<ClaimedMessage>)
      modifies this
      ensures if id in old(rows) && Claimable(old(rows)[id], now)
              then rows == old(rows)[id := ClaimedRow(old(rows)[id], owner, now)] &&
                   message == ClaimedMessageOf(id, old(rows)[id])
              else rows == old(rows) && message == None
    {
      if id !in rows || !Claimable(rows[id], now) { return None; }
      rows := rows[id := LeasedRow(rows[id], owner, now)];
      var row := rows[id];
      if row.payload.Undecodable? {
        rows := rows[id := RetiredRow(row, "Undecodable outbox payload: " + row.payload.reason, now)];
        return None;
      }
      if row.payload.text == "" {
        rows := rows[id := RetiredRow(row, "Outbox payload contained no text", now)];
        return None;
      }
      return Some(ClaimedMessage(id, row.platform, row.room, row.payload.text, row.attempts));
    }

    method MarkEnqueuedSent(id: Id, providerId: Option<string>, now: int) returns (r: Result<bool, DatabaseError>)
      modifies this
      ensures rows == MarkedEnqueued(old(rows), id, providerId, now)
      ensures if r == Success(true) then id in old(rows) && rows == old(rows)[id := old(rows)[id].(
                state := Sent, providerId := providerId, sentAt := Some(now), updatedAt := now,
                leaseOwner := None, leaseExpiresAt := None, lastError := None)]
              else rows == old(rows)
      ensures r != Success(false) <==> id in old(rows) && (old(rows)[id].state == Pending || old(rows)[id].state == Failed)
      ensures r.Failure? <==> OpenForDirect(old(rows), id) && ProviderClash(old(rows), id, providerId)
      ensures r.Success? ==> (r.value <==> OpenForDirect(old(rows), id))
    {
      if !OpenForDirect(rows, id) { return Success(false); }
      var clash := Clashes(id, providerId);
      if clash { return Failure(ConstraintFailed); }
      rows := rows[id := SentRow(rows[id], providerId, now)];
      return Success(true);
    }

    method MarkSent(id: Id, owner: string, providerId: Option<string>, now: int) returns (r: Result<bool, DatabaseError>)
      modifies this
      ensures rows == MarkedOwned(old(rows), id, owner, providerId, now)
      ensures if r == Success(true) then id in old(rows) && rows == old(rows)[id := old(rows)[id].(
                state := Sent, providerId := providerId, sentAt := Some(now), updatedAt := now,
                leaseOwner := None, leaseExpiresAt := None, lastError := None)]
              else rows == old(rows)
      ensures r != Success(false) <==>
              id in old(rows) && old(rows)[id].state == Leased && old(rows)[id].leaseOwner == Some(owner)
      ensures r.Failure? <==> Owned(old(rows), id, owner) && ProviderClash(old(rows), id, providerId)
      ensures r.Success? ==> (r.value <==> Owned(old(rows), id, owner))
    {
      if !Owned(rows, id, owner) { return Success(false); }
      var clash := Clashes(id, providerId);
      if clash { return Failure(ConstraintFailed); }
      rows := rows[id := SentRow(rows[id], providerId, now)];
      return Success(true);
    }

    /** The unique-index check of an UPDATE that writes a provider id. */
    method Clashes(id: Id, providerId: Option<string>) returns (clash: bool)
      requires id in rows
      ensures clash <==> ProviderClash(rows, id, providerId)
    {
      clash := providerId.Some? && Significant(providerId.value) &&
               exists other :: other in rows && other != id && SameDelivery(rows[other], rows[id].(providerId := providerId));
    }

    method Fail(id: Id, owner: string, message: string, now: int) returns (verdict: FailVerdict)
      modifies this
      ensures rows == FailedTable(old(rows), id, owner, message, now)
      ensures verdict == NotOwned <==>
              !(id in old(rows) && old(rows)[id].state == Leased && old(rows)[id].leaseOwner == Some(owner))
      ensures verdict == NotOwned ==> rows == old(rows)
      ensures verdict != NotOwned ==> rows == old(rows)[id := old(rows)[id].(
                state := if old(rows)[id].attempts < 5 then Failed else DeadLetter,
                lastError := Some(if |message| > 2_000 then message[..2_000] else message), availableAt := now + 5_000,
                leaseOwner := None, leaseExpiresAt := None, updatedAt := now)]
      ensures verdict == NotOwned <==> !Owned(old(rows), id, owner)
      ensures verdict == DeadLettered <==> Owned(old(rows), id, owner) && rows[id].state == DeadLetter
      ensures verdict == Retry <==> Owned(old(rows), id, owner) && rows[id].state == Failed
    {
      if !Owned(rows, id, owner) { return NotOwned; }
      assert message[..|message|] == message;
      rows := rows[id := FailedRow(rows[id], message, now)];
      return if rows[id].attempts >= MAX_ATTEMPTS then DeadLettered else Retry;
    }

    method Prune(olderThanMs: int, now: int) returns (changes: nat)
      modifies this
      ensures rows == Pruned(old(rows), now - olderThanMs)
      ensures rows.Keys <= old(rows).Keys && forall id :: id in old(rows) ==>
                var row := old(rows)[id];
                if (row.state == Failed || row.state == DeadLetter) &&
                   (if row.sentAt.Some? then row.sentAt.value else row.updatedAt) + olderThanMs < now
                then id !in rows else id in rows && rows[id] == row
      ensures changes == |old(rows)| - |rows|
    {
      var cutoff := now - olderThanMs;
      var gone := set id | id in rows && Prunable(rows[id], cutoff);
      ghost var before := rows;
      rows := rows - gone;
      changes := |gone|;
      assert rows.Keys == before.Keys - gone;
    }

    /** The dashboard's retry. */
    method RetryOutbox(id: Id, now: int) returns (ok: bool)
      modifies this
      ensures rows == Requeued(old(rows), id, now)
      ensures ok <==> id in old(rows) && (old(rows)[id].state == Failed || old(rows)[id].state == DeadLetter)
      ensures if ok then rows == old(rows)[id := old(rows)[id].(
                state := Pending, attempts := 0, lastError := None, availableAt := now, leaseOwner := None, leaseExpiresAt := None)]
              else rows == old(rows)
    {
      if id !in rows || rows[id].state !in {Failed, DeadLetter} { return false; }
      rows := rows[id := RequeuedRow(rows[id], now)];
      return true;
    }
  }

  /** `ids` are the first eligible rows in order and `rest` are the others. */
  ghost predicate SelectedSoFar(t: Table, platforms: seq<string>, now: int, ids: seq<Id>, rest: set<Id>) {
    && (forall id :: id in t && Eligible(t[id], platforms, now) <==> id in rest || id in ids)
    && (forall id :: id in rest ==> id !in ids)
    && (forall i :: 0 <= i < |ids| ==> ids[i] in t && Eligible(t[ids[i]], platforms, now))
    && (forall i, j :: 0 <= i < j < |ids| ==> ids[i] != ids[j] && InOrder(t[ids[i]], t[ids[j]]))
    && (forall i, id :: 0 <= i < |ids| && id in rest ==> InOrder(t[ids[i]], t[id]))
  }

  lemma SelectNext(t: Table, platforms: seq<string>, now: int, ids: seq<Id>, rest: set<Id>, first: Id)
    requires SelectedSoFar(t, platforms, now, ids, rest)
    requires first in rest && forall id :: id in rest ==> InOrder(t[first], t[id])
    ensures SelectedSoFar(t, platforms, now, ids + [first], rest - {first})
  {
    var more := ids + [first];
    forall id ensures id in more <==> id in ids || id == first {
    }
  }

  lemma FirstExists(t: Table, ids: set<Id>)
    requires ids != {} && forall id :: id in ids ==> id in t
    ensures exists first :: first in ids && forall id :: id in ids ==> InOrder(t[first], t[id])
    decreases |ids|
  {
    var x :| x in ids;
    var rest := ids - {x};
    if rest == {} {
      assert ids == {x};
    } else {
      FirstExists(t, rest);
      var y :| y in rest && forall id :: id in rest ==> InOrder(t[y], t[id]);
      var first := if InOrder(t[x], t[y]) then x else y;
      assert forall id :: id in ids ==> id == x || id in rest;
      assert forall id :: id in ids ==> InOrder(t[first], t[id]);
    }
  }
}
