/**
 The durable inbox (src/messaging/InboxService.ts): one row per provider event,
 claimed under a lease by the worker that handles it (src/runtime/AppRuntime.ts).

 One SQL statement is one atomic step. The event key is a hash of platform, chat
 and message id; it is taken to be injective and kept as those three parts.
 */
module Inbox {
  import opened Prelude
  import opened Strings

  const LEASE_MS := 120_000
  const MAX_ATTEMPTS := 5
  const BACKOFF_MS := 5_000

  type Id = nat

  datatype State = Received | Processing | Completed | Failed | DeadLetter

  /** Events without a usable message id get a key of their own. */
  datatype EventKey = Hashed(platform: string, chat: string, messageId: string) | Local(unique: nat)

  datatype Row = Row(
    platform: string,
    chat: string,
    providerMessageId: Option<string>,
    eventKey: EventKey,
    state: State,
    attempts: nat,
    availableAt: int,
    leaseOwner: Option<string>,
    leaseExpiresAt: Option<int>,
    receivedAt: int,
    completedAt: Option<int>)

  type Table = map<Id, Row>

  datatype Context = Context(platform: string, chat: string, messageId: Option<string>)

  function EventKeyFor(ctx: Context, unique: nat): EventKey {
    var messageId := if ctx.messageId.Some? then Trim(ctx.messageId.value) else "";
    if messageId == "" || LowerLetters(messageId) == "unknown" then Local(unique)
    else Hashed(ctx.platform, ctx.chat, messageId)
  }

  function NewRow(ctx: Context, key: EventKey, now: int): Row {
    var messageId := if ctx.messageId.Some? then Trim(ctx.messageId.value) else "";
    Row(ctx.platform, ctx.chat, if messageId == "" then None else Some(messageId), key, Received, 0, now, None, None, now, None)
  }

  ghost predicate HasKey(t: Table, id: Id, platform: string, key: EventKey) {
    id in t && t[id].platform == platform && t[id].eventKey == key
  }

  ghost predicate KeyTaken(t: Table, platform: string, key: EventKey) {
    exists id :: HasKey(t, id, platform, key)
  }

  // ------------------------------------------------------------ statements

  /** Another row of the chat has the provider id, and the id is not one that the
      second unique index passes over. */
  ghost predicate IdTaken(t: Table, row: Row) {
    && row.providerMessageId.Some? && Significant(row.providerMessageId.value)
    && exists other :: other in t && SameEvent(t[other], row)
  }

  predicate SameEvent(a: Row, b: Row) {
    a.platform == b.platform && a.chat == b.chat && a.providerMessageId == b.providerMessageId
  }

  /** INSERT ... ON CONFLICT (platform, event_key) DO NOTHING; a clash in the other
      unique index raises a constraint error. */
  ghost function Admitted(t: Table, id: Id, row: Row): Table {
    if KeyTaken(t, row.platform, row.eventKey) || IdTaken(t, row) then t else t[id := row]
  }

  predicate Claimable(row: Row, now: int) {
    && row.availableAt <= now
    && (row.state in {Received, Failed} ||
        (row.state == Processing && row.leaseExpiresAt.Some? && row.leaseExpiresAt.value <= now))
  }

  predicate CanClaim(t: Table, id: Id, now: int) {
    id in t && Claimable(t[id], now)
  }

  function ClaimedRow(row: Row, owner: string, now: int): Row {
    row.(state := Processing, leaseOwner := Some(owner), leaseExpiresAt := Some(now + LEASE_MS), attempts := row.attempts + 1)
  }

  predicate Owned(t: Table, id: Id, owner: string) {
    id in t && t[id].state == Processing && t[id].leaseOwner == Some(owner)
  }

  function CompletedRow(row: Row, now: int): Row {
    row.(state := Completed, completedAt := Some(now), leaseOwner := None, leaseExpiresAt := None)
  }

  function FailedRow(row: Row, now: int): Row {
    row.(state := if row.attempts >= MAX_ATTEMPTS then DeadLetter else Failed,
         availableAt := now + BACKOFF_MS, leaseOwner := None, leaseExpiresAt := None)
  }

  function DeferredRow(row: Row, now: int, delay: int): Row {
    row.(state := if row.attempts + 1 >= MAX_ATTEMPTS then DeadLetter else Failed,
         attempts := row.attempts + 1, availableAt := now + delay)
  }

  predicate Stranded(row: Row, cutoff: int) {
    row.state == Received && row.receivedAt < cutoff
  }

  predicate Expired(row: Row, now: int) {
    row.state == Processing && row.leaseExpiresAt.Some? && row.leaseExpiresAt.value < now
  }

  function ReturnedRow(row: Row): Row {
    row.(state := Received, leaseOwner := None, leaseExpiresAt := None)
  }

  function RecoveredRow(row: Row, now: int, olderThan: int): Row {
    if Stranded(row, now - olderThan) then row.(state := Failed)
    else if Expired(row, now) then ReturnedRow(row)
    else row
  }

  function ClaimedTable(t: Table, id: Id, owner: string, now: int): Table {
    if CanClaim(t, id, now) then t[id := ClaimedRow(t[id], owner, now)] else t
  }

  function CompletedTable(t: Table, id: Id, owner: string, now: int): Table {
    if Owned(t, id, owner) then t[id := CompletedRow(t[id], now)] else t
  }

  function FailedTable(t: Table, id: Id, owner: string, now: int): Table {
    if Owned(t, id, owner) then t[id := FailedRow(t[id], now)] else t
  }

  function DeferredTable(t: Table, id: Id, now: int, delay: int): Table {
    if id in t && t[id].state == Received then t[id := DeferredRow(t[id], now, delay)] else t
  }

  function RecoveredTable(t: Table, now: int, olderThan: int): Table {
    map id | id in t :: RecoveredRow(t[id], now, olderThan)
  }

  // ------------------------------------------------------------ the service

  datatype Admission = Admission(id: Id, accepted: bool, reason: Option<Reason>)
  datatype DatabaseError = ConstraintFailed

  /** The answer names the row of the event and whether it is finished. */
  ghost predicate Answers(t: Table, platform: string, key: EventKey, a: Admission) {
    && HasKey(t, a.id, platform, key)
    && (a.accepted <==> t[a.id].state !in {Completed, DeadLetter})
    && (a.reason == Some(AlreadyCompleted) <==> t[a.id].state == Completed)
    && (a.reason == Some(AlreadyDead) <==> t[a.id].state == DeadLetter)
  }

  datatype Reason = Duplicate | AlreadyCompleted | AlreadyDead
  datatype FailVerdict = Retry | DeadLettered | NotOwned

  class InboxService {
    var rows: Table

    constructor ()
      ensures rows == map[]
    {
      rows := map[];
    }

    /** One row per event: a repeated event is told which row it has and is
        turned away once that row is finished. */
    method Admit(ctx: Context, id: Id, unique: nat, now: int) returns (r: Result<Admission, DatabaseError>)
      requires id !in rows
      modifies this
      ensures var row := NewRow(ctx, EventKeyFor(ctx, unique), now);
              var known := KeyTaken(old(rows), ctx.platform, row.eventKey);
              && rows == Admitted(old(rows), id, row)
              && (r.Failure? <==> !known && IdTaken(old(rows), row))
              && (r.Success? ==> Answers(rows, ctx.platform, row.eventKey, r.value))
              && (r.Success? ==> (r.value.reason == None <==> !known) && (!known ==> r.value.id == id))
      ensures r.Success? && r.value.reason == None ==>
                var messageId := if ctx.messageId.Some? then Trim(ctx.messageId.value) else "";
                rows == old(rows)[id := Row(ctx.platform, ctx.chat, if messageId == "" then None else Some(messageId),
                                            EventKeyFor(ctx, unique), Received, 0, now, None, None, now, None)]
      ensures !(r.Success? && r.value.reason == None) ==> rows == old(rows)
    {
      var key := EventKeyFor(ctx, unique);
      if k :| k in rows && rows[k].platform == ctx.platform && rows[k].eventKey == key {
        assert HasKey(rows, k, ctx.platform, key);
        var state := rows[k].state;
        return Success(Admission(k, state !in {Completed, DeadLetter},
          Some(if state == Completed then AlreadyCompleted else if state == DeadLetter then AlreadyDead else Duplicate)));
      }
      assert !KeyTaken(rows, ctx.platform, key);
      var row := NewRow(ctx, key, now);
      if row.providerMessageId.Some? && Significant(row.providerMessageId.value) &&
         exists other :: other in rows && SameEvent(rows[other], row) {
        return Failure(ConstraintFailed);
      }
      rows := rows[id := row];
      return Success(Admission(id, true, None));
    }

    method Claim(id: Id, owner: string, now: int) returns (ok: bool)
      modifies this
      ensures rows == ClaimedTable(old(rows), id, owner, now)
      ensures ok <==> CanClaim(old(rows), id, now)
      ensures ok <==>
              id in old(rows) && old(rows)[id].availableAt <= now &&
              match old(rows)[id].state
              case Received => true
              case Failed => true
              case Processing => old(rows)[id].leaseExpiresAt.Some? && old(rows)[id].leaseExpiresAt.value <= now
              case _ => false
      ensures if ok then rows == old(rows)[id := old(rows)[id].(
                state := Processing, leaseOwner := Some(owner), leaseExpiresAt := Some(now + 120_000),
                attempts := old(rows)[id].attempts + 1)]
              else rows == old(rows)
    {
      ok := CanClaim(rows, id, now);
      if ok { rows := rows[id := ClaimedRow(rows[id], owner, now)]; }
    }

    method Complete(id: Id, owner: string, now: int) returns (ok: bool)
      modifies this
      ensures rows == CompletedTable(old(rows), id, owner, now)
      ensures ok <==> id in old(rows) && old(rows)[id].state == Processing && old(rows)[id].leaseOwner == Some(owner)
      ensures if ok then rows == old(rows)[id := old(rows)[id].(
                state := Completed, completedAt := Some(now), leaseOwner := None, leaseExpiresAt := None)]
              else rows == old(rows)
    {
      ok := Owned(rows, id, owner);
      if ok { rows := rows[id := CompletedRow(rows[id], now)]; }
    }

    method DeferUnclaimed(id: Id, delay: int, now: int)
      modifies this
      ensures rows == DeferredTable(old(rows), id, now, delay)
      ensures if id in old(rows) && old(rows)[id].state == Received
              then rows == old(rows)[id := old(rows)[id].(
                     state := if old(rows)[id].attempts < 4 then Failed else DeadLetter,
                     attempts := old(rows)[id].attempts + 1, availableAt := now + delay)]
              else rows == old(rows)
    {
      if id in rows && rows[id].state == Received {
        rows := rows[id := DeferredRow(rows[id], now, delay)];
      }
    }

    method Fail(id: Id, owner: string, now: int) returns (verdict: FailVerdict)
      modifies this
      ensures rows == FailedTable(old(rows), id, owner, now)
      ensures verdict == NotOwned <==>
              !(id in old(rows) && old(rows)[id].state == Processing && old(rows)[id].leaseOwner == Some(owner))
      ensures verdict == NotOwned ==> rows == old(rows)
      ensures verdict != NotOwned ==> rows == old(rows)[id := old(rows)[id].(
                state := if old(rows)[id].attempts < 5 then Failed else DeadLetter, availableAt := now + 5_000,
                leaseOwner := None, leaseExpiresAt := None)]
      ensures verdict == NotOwned <==> !Owned(old(rows), id, owner)
      ensures verdict == DeadLettered <==> Owned(old(rows), id, owner) && rows[id].state == DeadLetter
      ensures verdict == Retry <==> Owned(old(rows), id, owner) && rows[id].state == Failed
    {
      if !Owned(rows, id, owner) { return NotOwned; }
      rows := rows[id := FailedRow(rows[id], now)];
      return if rows[id].attempts >= MAX_ATTEMPTS then DeadLettered else Retry;
    }

    /** Two statements: rows that were never claimed fail for good, and rows whose
        lease ran out may be claimed again. */
    method RecoverStranded(olderThan: int, now: int) returns (received: nat, processing: nat)
      modifies this
      ensures rows == RecoveredTable(old(rows), now, olderThan)
      ensures rows.Keys == old(rows).Keys && forall id :: id in old(rows) ==>
                var row := old(rows)[id];
                if row.state == Received && row.receivedAt + olderThan < now then rows[id] == row.(state := Failed)
                else if row.state == Processing && row.leaseExpiresAt.Some? && row.leaseExpiresAt.value < now
                then rows[id] == row.(state := Received, leaseOwner := None, leaseExpiresAt := None)
                else rows[id] == row
      ensures received == |set id | id in old(rows) && Stranded(old(rows)[id], now - olderThan)|
      ensures processing == |set id | id in old(rows) && Expired(old(rows)[id], now)|
    {
      received := FailStranded(now - olderThan);
      assert (set id | id in rows && Expired(rows[id], now)) == set id | id in old(rows) && Expired(old(rows)[id], now);
      processing := ReturnExpired(now);
    }

    method FailStranded(cutoff: int) returns (changes: nat)
      modifies this
      ensures rows == map id | id in old(rows) ::
                        if Stranded(old(rows)[id], cutoff) then old(rows)[id].(state := Failed) else old(rows)[id]
      ensures changes == |set id | id in old(rows) && Stranded(old(rows)[id], cutoff)|
    {
      var hit := set id | id in rows && Stranded(rows[id], cutoff);
      rows := map id | id in rows :: if id in hit then rows[id].(state := Failed) else rows[id];
      changes := |hit|;
    }

    method ReturnExpired(now: int) returns (changes: nat)
      modifies this
      ensures rows == map id | id in old(rows) ::
                        if Expired(old(rows)[id], now) then ReturnedRow(old(rows)[id]) else old(rows)[id]
      ensures changes == |set id | id in old(rows) && Expired(old(rows)[id], now)|
    {
      var hit := set id | id in rows && Expired(rows[id], now);
      rows := map id | id in rows :: if id in hit then ReturnedRow(rows[id]) else rows[id];
      changes := |hit|;
    }
  }
}

/** Runs of the inbox: duplicate admissions, claims, completions, failures and
    recovery scans in any order, on a clock that does not go back. */
module InboxRuns {
  import opened Prelude
  import opened Strings
  import opened Inbox

  datatype Op =
    | Admit(ctx: Context, id: Id, unique: nat)
    | Claim(id: Id, owner: string)
    | Complete(id: Id, owner: string)
    | Defer(id: Id, delay: int)
    | Fail(id: Id, owner: string)
    | Recover(olderThan: int)
    | Tick(to: int)

  datatype World = World(now: int, rows: Table)

  ghost predicate Enabled(w: World, op: Op) {
    match op
    case Admit(_, id, unique) => id !in w.rows && forall k :: k in w.rows ==> w.rows[k].eventKey != Local(unique)
    case Tick(to) => w.now <= to
    case _ => true
  }

  ghost function Step(w: World, op: Op): World {
    match op
    case Admit(ctx, id, unique) => w.(rows := Admitted(w.rows, id, NewRow(ctx, EventKeyFor(ctx, unique), w.now)))
    case Claim(id, owner) => w.(rows := ClaimedTable(w.rows, id, owner, w.now))
    case Complete(id, owner) => w.(rows := CompletedTable(w.rows, id, owner, w.now))
    case Defer(id, delay) => w.(rows := DeferredTable(w.rows, id, w.now, delay))
    case Fail(id, owner) => w.(rows := FailedTable(w.rows, id, owner, w.now))
    case Recover(olderThan) => w.(rows := RecoveredTable(w.rows, w.now, olderThan))
    case Tick(to) => w.(now := to)
  }

  ghost predicate Valid(w: World, ops: seq<Op>)
    decreases |ops|
  {
    ops != [] ==> Enabled(w, ops[0]) && Valid(Step(w, ops[0]), ops[1..])
  }

  ghost function Run(w: World, ops: seq<Op>): World
    decreases |ops|
  {
    if ops == [] then w else Run(Step(w, ops[0]), ops[1..])
  }

  const Empty := World(0, map[])

  // ------------------------------------------------------------ the invariant

  predicate RowInv(row: Row) {
    && (row.state == Processing <==> row.leaseOwner.Some?)
    && (row.state == Processing <==> row.leaseExpiresAt.Some?)
    && (row.state == Completed <==> row.completedAt.Some?)
    && (row.state in {Processing, Completed, DeadLetter} ==> row.attempts >= 1)
    // the provider id and the event key tell the same story
    && (row.eventKey.Hashed? ==>
          row.eventKey == Hashed(row.platform, row.chat, row.eventKey.messageId) &&
          row.providerMessageId == Some(row.eventKey.messageId))
    && (row.providerMessageId.Some? ==> (row.eventKey.Local? <==> LowerLetters(row.providerMessageId.value) == "unknown"))
  }

  ghost predicate UniqueKeys(t: Table) {
    forall a, b, platform, key :: HasKey(t, a, platform, key) && HasKey(t, b, platform, key) ==> a == b
  }

  ghost predicate Inv(t: Table) {
    UniqueKeys(t) && forall id :: id in t ==> RowInv(t[id])
  }

  lemma SameKeys(t: Table, u: Table)
    requires UniqueKeys(t) && t.Keys == u.Keys
    requires forall id :: id in t ==> u[id].platform == t[id].platform && u[id].eventKey == t[id].eventKey
    ensures UniqueKeys(u)
  {
    forall a, b, platform, key | HasKey(u, a, platform, key) && HasKey(u, b, platform, key)
      ensures a == b
    {
      assert HasKey(t, a, platform, key) && HasKey(t, b, platform, key);
    }
  }

  lemma AdmitKeepsInv(t: Table, id: Id, row: Row)
    requires Inv(t) && id !in t && RowInv(row)
    ensures Inv(Admitted(t, id, row))
  {
    var u := Admitted(t, id, row);
    if u != t {
      forall a, b, platform, key | HasKey(u, a, platform, key) && HasKey(u, b, platform, key)
        ensures a == b
      {
        assert a != id ==> HasKey(t, a, platform, key);
        assert b != id ==> HasKey(t, b, platform, key);
      }
    }
  }

  lemma OneRowKeepsInv(t: Table, id: Id, row: Row)
    requires Inv(t) && id in t && RowInv(row) && row.platform == t[id].platform && row.eventKey == t[id].eventKey
    ensures Inv(t[id := row])
  {
    SameKeys(t, t[id := row]);
  }

  lemma RecoverKeepsInv(t: Table, now: int, olderThan: int)
    requires Inv(t)
    ensures Inv(RecoveredTable(t, now, olderThan))
  {
    var u := RecoveredTable(t, now, olderThan);
    forall id | id in t
      ensures RowInv(u[id]) && u[id].platform == t[id].platform && u[id].eventKey == t[id].eventKey
    {
    }
    SameKeys(t, u);
  }

  /** Every statement keeps the table invariant. */
  lemma StepKeepsInv(w: World, op: Op)
    requires Inv(w.rows) && Enabled(w, op)
    ensures Inv(Step(w, op).rows)
  {
    match op {
      case Admit(ctx, id, unique) =>
        AdmitKeepsInv(w.rows, id, NewRow(ctx, EventKeyFor(ctx, unique), w.now));
      case Claim(id, owner) =>
        if CanClaim(w.rows, id, w.now) { OneRowKeepsInv(w.rows, id, ClaimedRow(w.rows[id], owner, w.now)); }
      case Complete(id, owner) =>
        if Owned(w.rows, id, owner) { OneRowKeepsInv(w.rows, id, CompletedRow(w.rows[id], w.now)); }
      case Defer(id, delay) =>
        if id in w.rows && w.rows[id].state == Received { OneRowKeepsInv(w.rows, id, DeferredRow(w.rows[id], w.now, delay)); }
      case Fail(id, owner) =>
        if Owned(w.rows, id, owner) { OneRowKeepsInv(w.rows, id, FailedRow(w.rows[id], w.now)); }
      case Recover(olderThan) =>
        RecoverKeepsInv(w.rows, w.now, olderThan);
      case Tick(_) =>
    }
  }

  lemma {:induction false} RunKeepsInv(w: World, ops: seq<Op>)
    requires Inv(w.rows) && Valid(w, ops)
    ensures Inv(Run(w, ops).rows)
    decreases |ops|
  {
    if ops != [] {
      StepKeepsInv(w, ops[0]);
      RunKeepsInv(Step(w, ops[0]), ops[1..]);
    }
  }

  /** JavaScript takes the id for "unknown" and SQLite does not. */
  predicate Disputed(providerId: string) {
    LowerLetters(providerId) == "unknown" && Significant(providerId)
  }

  /** An admission trips over the second unique index, on (platform, chat, provider
      id), exactly when its id is such a one and is there already. */
  lemma ProviderIndexExactly(w: World, ctx: Context, id: Id, unique: nat)
    requires Inv(w.rows) && Enabled(w, Admit(ctx, id, unique))
    ensures var row := NewRow(ctx, EventKeyFor(ctx, unique), w.now);
            !KeyTaken(w.rows, row.platform, row.eventKey) && IdTaken(w.rows, row) <==>
            && row.providerMessageId.Some? && Disputed(row.providerMessageId.value)
            && exists other :: other in w.rows && SameEvent(w.rows[other], row)
  {
    var row := NewRow(ctx, EventKeyFor(ctx, unique), w.now);
    forall other | other in w.rows && SameEvent(w.rows[other], row) && row.eventKey.Hashed?
      ensures KeyTaken(w.rows, row.platform, row.eventKey)
    {
      assert HasKey(w.rows, other, row.platform, row.eventKey);
    }
  }

  /** Only ids with a Kelvin sign are disputed, and some are. */
  lemma KelvinIsDisputed(providerId: string)
    ensures Disputed(providerId) ==> '\U{212A}' in providerId
    ensures Disputed("un\U{212A}nown")
  {
    if '\U{212A}' !in providerId {
      assert LowerLetters(providerId) == LowerAscii(providerId);
      if LowerLetters(providerId) == "unknown" {
        assert LowerAscii(providerId)[0] == 'u' && LowerAscii(providerId)[|providerId| - 1] == 'n';
        NoBlanks(providerId);
      }
    }
    assert LowerLetters("un\U{212A}nown") == "unknown";
    NoBlanks("un\U{212A}nown");
    assert LowerAscii("un\U{212A}nown")[2] == '\U{212A}';
  }

  lemma NoBlanks(s: string)
    requires s != "" && s[0] != ' ' && s[|s| - 1] != ' '
    ensures TrimBlanksEnd(TrimBlanksStart(s)) == s
  {
  }

  predicate Finished(row: Row) {
    row.state in {Completed, DeadLetter}
  }

  /** A finished row never changes again, so that `Complete` answers true at
      most once for it and no claim succeeds any more. */
  lemma {:induction false} FinishedIsForever(w: World, ops: seq<Op>, id: Id)
    requires id in w.rows && Finished(w.rows[id]) && Valid(w, ops)
    ensures id in Run(w, ops).rows && Run(w, ops).rows[id] == w.rows[id]
    decreases |ops|
  {
    if ops != [] {
      FinishedIsForever(Step(w, ops[0]), ops[1..], id);
    }
  }

  // ------------------------------------------------------------ completions

  predicate Completes(w: World, op: Op, id: Id) {
    op.Complete? && op.id == id && Owned(w.rows, id, op.owner)
  }

  /** Calls of `Complete` that answer true. */
  ghost function Completions(w: World, ops: seq<Op>, id: Id): nat
    decreases |ops|
  {
    if ops == [] then 0
    else (if Completes(w, ops[0], id) then 1 else 0) + Completions(Step(w, ops[0]), ops[1..], id)
  }

  lemma {:induction false} NoCompletionWhenFinished(w: World, ops: seq<Op>, id: Id)
    requires id in w.rows && Finished(w.rows[id]) && Valid(w, ops)
    ensures Completions(w, ops, id) == 0
    decreases |ops|
  {
    if ops != [] {
      NoCompletionWhenFinished(Step(w, ops[0]), ops[1..], id);
    }
  }

  lemma {:induction false} CompletedAtMostOnce(w: World, ops: seq<Op>, id: Id)
    requires Valid(w, ops)
    ensures Completions(w, ops, id) <= 1
    decreases |ops|
  {
    if ops != [] {
      if Completes(w, ops[0], id) {
        NoCompletionWhenFinished(Step(w, ops[0]), ops[1..], id);
      } else {
        CompletedAtMostOnce(Step(w, ops[0]), ops[1..], id);
      }
    }
  }

  // ------------------------------------------------------------ spacing of claims

  predicate Claims(w: World, op: Op, id: Id) {
    op.Claim? && op.id == id && CanClaim(w.rows, id, w.now)
  }

  predicate FailsClaim(w: World, op: Op, id: Id) {
    op.Fail? && op.id == id && Owned(w.rows, id, op.owner)
  }

  /** Since the claim at `at` nobody failed the row: it is still under that
      lease, or the lease is over, or the row is finished. */
  ghost predicate UnderClaim(w: World, id: Id, at: int) {
    && id in w.rows && at <= w.now
    && (var row := w.rows[id];
        || (row.state == Processing && row.leaseExpiresAt == Some(at + LEASE_MS))
        || Finished(row)
        || w.now >= at + LEASE_MS)
  }

  /** Nobody records a failure of the claim on `id` along the run. */
  ghost predicate NeverFailed(w: World, ops: seq<Op>, id: Id)
    decreases |ops|
  {
    ops != [] ==> !FailsClaim(w, ops[0], id) && NeverFailed(Step(w, ops[0]), ops[1..], id)
  }

  lemma {:induction false} UnderClaimKept(w: World, ops: seq<Op>, id: Id, at: int)
    requires UnderClaim(w, id, at) && Valid(w, ops) && NeverFailed(w, ops, id)
    ensures UnderClaim(Run(w, ops), id, at)
    decreases |ops|
  {
    if ops != [] {
      UnderClaimKept(Step(w, ops[0]), ops[1..], id, at);
    }
  }

  /** Two successful claims of an event with no recorded failure between them are
      at least a lease apart, whatever else happens, recovery scans included. */
  lemma ClaimsAreSpaced(w: World, first: Op, between: seq<Op>, second: Op, id: Id)
    requires Claims(w, first, id)
    requires Valid(Step(w, first), between) && NeverFailed(Step(w, first), between, id)
    requires Claims(Run(Step(w, first), between), second, id)
    ensures Run(Step(w, first), between).now >= w.now + LEASE_MS
  {
    UnderClaimKept(Step(w, first), between, id, w.now);
  }

  /** The bound is exact: at the very end of the lease the next claim succeeds. */
  lemma ClaimAtExpiry(w: World, first: Op, id: Id, next: string)
    requires Claims(w, first, id)
    ensures var between := [Tick(w.now + LEASE_MS)];
            && Valid(Step(w, first), between) && NeverFailed(Step(w, first), between, id)
            && Claims(Run(Step(w, first), between), Claim(id, next), id)
  {
  }
}
