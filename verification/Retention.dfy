/**
 The retention sweeps (src/db/retention.ts): batched deletes and clears against
 one filter, and a live run against a dry one. Every time is a plain number.
 */
module Retention {
  import opened Prelude

  datatype Message = Message(rawMessage: Option<string>, mediaPath: Option<string>, mimeType: Option<string>, content: string, createdAt: real)
  datatype Reminder = Reminder(isSent: bool, recurrence: Option<string>, createdAt: real)
  datatype Delivery = Delivery(state: string, doneAt: Option<real>, updatedAt: real)
  datatype Flow = Flow(data: string, updatedAt: real)

  /** A table by row id. */
  type Table<Row> = map<int, Row>

  // ------------------------------------------------------------ one filter

  ghost function Matching<Row>(table: Table<Row>, where: Row -> bool): set<int> {
    set id | id in table && where(table[id])
  }

  ghost function Without<Row>(table: Table<Row>, where: Row -> bool): Table<Row> {
    map id | id in table && !where(table[id]) :: table[id]
  }

  ghost function Changed<Row>(table: Table<Row>, where: Row -> bool, change: Row -> Row): Table<Row> {
    map id | id in table :: if where(table[id]) then change(table[id]) else table[id]
  }

  // ------------------------------------------------------------ batches

  method Pick<T(==)>(ids: set<T>) returns (id: T)
    requires ids != {}
    ensures id in ids
  {
    id :| id in ids;
  }

  /** `SELECT rowid … LIMIT ?`: any matching rows, as many as there are up to the limit. */
  method SelectIds<Row>(table: Table<Row>, where: Row -> bool, limit: nat) returns (ids: set<int>)
    ensures ids <= Matching(table, where) && |ids| == Min(|Matching(table, where)|, limit)
  {
    ids := {};
    var rest := set id | id in table && where(table[id]);
    ghost var all := rest;
    while |ids| < limit && |rest| > 0
      invariant ids <= all && rest == all - ids && |ids| <= limit
      decreases rest
    {
      var id := Pick(rest);
      ids, rest := ids + {id}, rest - {id};
    }
    if |rest| == 0 {
      assert ids == all;
    } else {
      AllOfThem(ids, all);
    }
    assert all == Matching(table, where);
  }

  lemma AllOfThem<T>(a: set<T>, b: set<T>)
    requires a <= b
    ensures |b - a| == |b| - |a|
    ensures |a| == |b| ==> a == b
  {
  }

  method CountRows<Row>(table: Table<Row>, where: Row -> bool) returns (n: nat)
    ensures n == |Matching(table, where)|
  {
    n := |set id | id in table && where(table[id])|;
  }

  lemma DeletedRows<Row>(table: Table<Row>, where: Row -> bool, ids: set<int>)
    requires ids <= Matching(table, where)
    ensures Without(table - ids, where) == Without(table, where)
    ensures Matching(table - ids, where) == Matching(table, where) - ids
  {
  }

  /** However the batches fall, deleting leaves what one filter would leave, and
      counts the rows a dry run counts. */
  method DeleteBatches<Row>(table: Table<Row>, where: Row -> bool, batchSize: nat, dryRun: bool)
    returns (after: Table<Row>, deleted: nat)
    requires batchSize >= 1
    ensures after == if dryRun then table else Without(table, where)
    ensures deleted == |Matching(table, where)|
  {
    after, deleted := table, 0;
    if dryRun {
      deleted := CountRows(table, where);
      return;
    }
    while true
      invariant Without(after, where) == Without(table, where)
      invariant deleted + |Matching(after, where)| == |Matching(table, where)|
      decreases |Matching(after, where)|
    {
      var ids := SelectIds(after, where, batchSize);
      DeletedRows(after, where, ids);
      AllOfThem(ids, Matching(after, where));
      after := after - ids;
      deleted := deleted + |ids|;
      if |ids| < batchSize {
        assert Without(after, where) == after;
        break;
      }
    }
  }

  lemma ChangedRows<Row(!new)>(table: Table<Row>, where: Row -> bool, change: Row -> Row, ids: set<int>)
    requires ids <= Matching(table, where) && forall row: Row :: !where(change(row))
    ensures var after := map id | id in table :: if id in ids then change(table[id]) else table[id];
            && Changed(after, where, change) == Changed(table, where, change)
            && Matching(after, where) == Matching(table, where) - ids
  {
  }

  /** Clearing in batches ends because a cleared row no longer matches. */
  method ChangeBatches<Row(!new)>(table: Table<Row>, where: Row -> bool, change: Row -> Row, batchSize: nat, dryRun: bool)
    returns (after: Table<Row>, changed: nat)
    requires batchSize >= 1 && forall row: Row :: !where(change(row))
    ensures after == if dryRun then table else Changed(table, where, change)
    ensures changed == |Matching(table, where)|
  {
    after, changed := table, 0;
    if dryRun {
      changed := CountRows(table, where);
      return;
    }
    while true
      invariant Changed(after, where, change) == Changed(table, where, change)
      invariant changed + |Matching(after, where)| == |Matching(table, where)|
      decreases |Matching(after, where)|
    {
      var ids := SelectIds(after, where, batchSize);
      ChangedRows(after, where, change, ids);
      AllOfThem(ids, Matching(after, where));
      after := map id | id in after :: if id in ids then change(after[id]) else after[id];
      changed := changed + |ids|;
      if |ids| < batchSize {
        assert Changed(after, where, change) == after;
        break;
      }
    }
  }

  // ------------------------------------------------------------ the policy

  const DAY_MS: real := 86_400_000.0

  function DayCount(value: Option<real>, fallback: int): (r: int)
    ensures value.None? ==> r == fallback
    ensures value.Some? ==> r >= 0 && (if value.value < 1.0 then r == 0 else r as real <= value.value < (r + 1) as real)
  {
    if value.None? then fallback else Max(0, value.value.Floor)
  }

  datatype PolicyInput = PolicyInput(messagesDays: Option<real>, messageDeleteGraceDays: Option<real>, sentRemindersDays: Option<real>,
                                     terminalDeliveriesDays: Option<real>, expiredFlowSessionsDays: Option<real>)

  /** The instants before which rows go. */
  datatype Cutoffs = Cutoffs(raw: real, messages: real, reminders: real, deliveries: real, flows: real)

  function CutoffsOf(input: PolicyInput, now: real): Cutoffs {
    var messages := DayCount(input.messagesDays, 180) +
                    DayCount(input.messageDeleteGraceDays, if input.messagesDays.None? then 30 else 0);
    Cutoffs(now - 7.0 * DAY_MS, now - messages as real * DAY_MS,
            now - DayCount(input.sentRemindersDays, 90) as real * DAY_MS,
            now - DayCount(input.terminalDeliveriesDays, 90) as real * DAY_MS,
            now - DayCount(input.expiredFlowSessionsDays, 30) as real * DAY_MS)
  }

  /** The batch size is at least 1 whatever is asked, and at most 10000. */
  function BatchSize(requested: Option<real>): (n: nat)
    ensures 1 <= n <= 10_000
    ensures requested.None? ==> n == 500
    ensures requested.Some? && requested.value < 1.0 ==> n == 1
    ensures requested.Some? && 1.0 <= requested.value <= 10_000.0 ==> n as real <= requested.value < (n + 1) as real
    ensures requested.Some? && requested.value > 10_000.0 ==> n == 10_000
  {
    var truncated := if requested.None? then 500
                     else if requested.value >= 0.0 then requested.value.Floor else -(-requested.value).Floor;
    Max(1, Min(10_000, truncated))
  }

  function RawIsOld(c: Cutoffs): Message -> bool {
    (m: Message) => m.rawMessage.Some? && m.createdAt < c.raw
  }

  function WithoutRaw(): Message -> Message {
    (m: Message) => m.(rawMessage := None, mediaPath := None, mimeType := None)
  }

  function MessageIsOld(c: Cutoffs): Message -> bool {
    (m: Message) => m.createdAt < c.messages
  }

  function ReminderIsOld(c: Cutoffs): Reminder -> bool {
    (r: Reminder) => r.isSent && r.recurrence.None? && r.createdAt < c.reminders
  }

  function Since(d: Delivery): real {
    if d.doneAt.Some? then d.doneAt.value else d.updatedAt
  }

  function DeliveryIsOld(c: Cutoffs, states: set<string>): Delivery -> bool {
    (d: Delivery) => d.state in states && Since(d) < c.deliveries
  }

  function FlowIsOld(c: Cutoffs): Flow -> bool {
    (f: Flow) => f.updatedAt < c.flows
  }

  const INBOX_DONE: set<string> := {"completed", "dead_letter"}
  const INBOX_STALE: set<string> := {"received", "processing", "failed"}
  const OUTBOX_DONE: set<string> := {"sent", "dead_letter"}
  const OUTBOX_STALE: set<string> := {"pending", "failed", "leased"}

  datatype Result = Result(rawMessages: nat, messages: nat, reminders: nat, inbox: nat, inboxStale: nat, outbox: nat,
                           outboxStale: nat, flowSessions: nat)

  datatype Tables = Tables(messages: Table<Message>, reminders: Table<Reminder>, inbox: Table<Delivery>, outbox: Table<Delivery>,
                           flows: Table<Flow>)

  /** The eight counts, all taken on the same tables. */
  ghost function Counts(t: Tables, c: Cutoffs): Result {
    Result(|Matching(t.messages, RawIsOld(c))|, |Matching(t.messages, MessageIsOld(c))|,
           |Matching(t.reminders, ReminderIsOld(c))|,
           |Matching(t.inbox, DeliveryIsOld(c, INBOX_DONE))|, |Matching(t.inbox, DeliveryIsOld(c, INBOX_STALE))|,
           |Matching(t.outbox, DeliveryIsOld(c, OUTBOX_DONE))|, |Matching(t.outbox, DeliveryIsOld(c, OUTBOX_STALE))|,
           |Matching(t.flows, FlowIsOld(c))|)
  }

  /** What is left: one filter a table, and raw parts cleared from old messages. */
  ghost function Swept(t: Tables, c: Cutoffs): Tables {
    Tables(Changed(Without(t.messages, MessageIsOld(c)), RawIsOld(c), WithoutRaw()),
           Without(t.reminders, ReminderIsOld(c)),
           Without(t.inbox, DeliveryIsOld(c, INBOX_DONE + INBOX_STALE)),
           Without(t.outbox, DeliveryIsOld(c, OUTBOX_DONE + OUTBOX_STALE)),
           Without(t.flows, FlowIsOld(c)))
  }

  /** What a live run keeps, by age. Messages stay 180 days and 30 days of grace, or as
      long as asked for, and lose their raw parts after a week. */
  ghost predicate KeepsByAge(t: Tables, after: Tables, input: PolicyInput, now: real) {
    var grace := DayCount(input.messageDeleteGraceDays, if input.messagesDays.None? then 30 else 0);
    && KeepsMessages(t.messages, after.messages, DayCount(input.messagesDays, 180) + grace, now)
    && after.reminders.Keys <= t.reminders.Keys
    && (forall id :: id in t.reminders ==>
          var r := t.reminders[id];
          if r.isSent && r.recurrence == None && OlderThan(r.createdAt, DayCount(input.sentRemindersDays, 90), now)
          then id !in after.reminders else id in after.reminders && after.reminders[id] == r)
    && KeepsDeliveries(t.inbox, after.inbox, ["completed", "dead_letter", "received", "processing", "failed"],
                       DayCount(input.terminalDeliveriesDays, 90), now)
    && KeepsDeliveries(t.outbox, after.outbox, ["sent", "dead_letter", "pending", "failed", "leased"],
                       DayCount(input.terminalDeliveriesDays, 90), now)
    && after.flows.Keys <= t.flows.Keys
    && (forall id :: id in t.flows ==>
          if OlderThan(t.flows[id].updatedAt, DayCount(input.expiredFlowSessionsDays, 30), now)
          then id !in after.flows else id in after.flows && after.flows[id] == t.flows[id])
  }

  ghost predicate OlderThan(at: real, days: int, now: real) {
    at + days as real * 86_400_000.0 < now
  }

  ghost predicate KeepsMessages(t: Table<Message>, after: Table<Message>, days: int, now: real) {
    && after.Keys <= t.Keys
    && forall id :: id in t ==>
         var m := t[id];
         if OlderThan(m.createdAt, days, now) then id !in after
         else id in after &&
              after[id] == if m.rawMessage.Some? && OlderThan(m.createdAt, 7, now)
                           then Message(None, None, None, m.content, m.createdAt) else m
  }

  ghost predicate KeepsDeliveries(t: Table<Delivery>, after: Table<Delivery>, states: seq<string>, days: int, now: real) {
    && after.Keys <= t.Keys
    && forall id :: id in t ==>
         var d := t[id];
         if d.state in states && OlderThan(if d.doneAt.Some? then d.doneAt.value else d.updatedAt, days, now)
         then id !in after else id in after && after[id] == d
  }

  lemma SweptKeepsByAge(t: Tables, input: PolicyInput, now: real)
    ensures KeepsByAge(t, Swept(t, CutoffsOf(input, now)), input, now)
  {
    var c := CutoffsOf(input, now);
    var days := DayCount(input.messagesDays, 180) +
                DayCount(input.messageDeleteGraceDays, if input.messagesDays.None? then 30 else 0);
    MessagesKept(t.messages, c, days, now);
    DeliveriesKept(t.inbox, c, INBOX_DONE + INBOX_STALE, ["completed", "dead_letter", "received", "processing", "failed"],
                   DayCount(input.terminalDeliveriesDays, 90), now);
    DeliveriesKept(t.outbox, c, OUTBOX_DONE + OUTBOX_STALE, ["sent", "dead_letter", "pending", "failed", "leased"],
                   DayCount(input.terminalDeliveriesDays, 90), now);
  }

  lemma MessagesKept(t: Table<Message>, c: Cutoffs, days: int, now: real)
    requires c.messages == now - days as real * 86_400_000.0 && c.raw == now - 604_800_000.0
    ensures KeepsMessages(t, Changed(Without(t, MessageIsOld(c)), RawIsOld(c), WithoutRaw()), days, now)
  {
  }

  lemma DeliveriesKept(t: Table<Delivery>, c: Cutoffs, states: set<string>, listed: seq<string>, days: int, now: real)
    requires c.deliveries == now - days as real * 86_400_000.0 && forall state :: state in states <==> state in listed
    ensures KeepsDeliveries(t, Without(t, DeliveryIsOld(c, states)), listed, days, now)
  {
  }

  /** The counts are what the tables lose; raw parts, and the two sweeps of a delivery
      table, are counted on their own. */
  lemma CountsAreLosses(t: Tables, c: Cutoffs)
    ensures var n, after := Counts(t, c), Swept(t, c);
            && n.messages == |t.messages| - |after.messages| && n.reminders == |t.reminders| - |after.reminders|
            && n.inbox + n.inboxStale == |t.inbox| - |after.inbox| && n.outbox + n.outboxStale == |t.outbox| - |after.outbox|
            && n.flowSessions == |t.flows| - |after.flows|
            && n.rawMessages == |OldRaw(t.messages, c.raw)|
            && n.inbox == |OldIn(t.inbox, ["completed", "dead_letter"], c.deliveries)|
            && n.outbox == |OldIn(t.outbox, ["sent", "dead_letter"], c.deliveries)|
  {
    MessageLoss(t.messages, c);
    LossIsMatching(t.reminders, ReminderIsOld(c));
    LossIsMatching(t.flows, FlowIsOld(c));
    DeliveryLoss(t.inbox, c, INBOX_DONE, INBOX_STALE);
    DeliveryLoss(t.outbox, c, OUTBOX_DONE, OUTBOX_STALE);
    OldInMatches(t.inbox, c, INBOX_DONE, ["completed", "dead_letter"]);
    OldInMatches(t.outbox, c, OUTBOX_DONE, ["sent", "dead_letter"]);
  }

  ghost function OldRaw(t: Table<Message>, cutoff: real): set<int> {
    set id | id in t && t[id].rawMessage.Some? && t[id].createdAt < cutoff
  }

  ghost function OldIn(t: Table<Delivery>, states: seq<string>, cutoff: real): set<int> {
    set id | id in t && t[id].state in states && (if t[id].doneAt.Some? then t[id].doneAt.value else t[id].updatedAt) < cutoff
  }

  lemma OldInMatches(t: Table<Delivery>, c: Cutoffs, states: set<string>, listed: seq<string>)
    requires forall state :: state in states <==> state in listed
    ensures Matching(t, DeliveryIsOld(c, states)) == OldIn(t, listed, c.deliveries)
  {
  }

  lemma MessageLoss(t: Table<Message>, c: Cutoffs)
    ensures |Matching(t, MessageIsOld(c))| ==
            |t| - |Changed(Without(t, MessageIsOld(c)), RawIsOld(c), WithoutRaw())|
    ensures Matching(t, RawIsOld(c)) == OldRaw(t, c.raw)
  {
    LossIsMatching(t, MessageIsOld(c));
    var kept := Without(t, MessageIsOld(c));
    assert Changed(kept, RawIsOld(c), WithoutRaw()).Keys == kept.Keys;
  }

  lemma LossIsMatching<Row>(t: Table<Row>, where: Row -> bool)
    ensures |Matching(t, where)| == |t| - |Without(t, where)|
  {
    assert Without(t, where).Keys == t.Keys - Matching(t, where);
  }

  lemma DeliveryLoss(t: Table<Delivery>, c: Cutoffs, first: set<string>, second: set<string>)
    requires first !! second
    ensures |Matching(t, DeliveryIsOld(c, first))| + |Matching(t, DeliveryIsOld(c, second))| ==
            |t| - |Without(t, DeliveryIsOld(c, first + second))|
  {
    LossIsMatching(t, DeliveryIsOld(c, first + second));
    var a, b := Matching(t, DeliveryIsOld(c, first)), Matching(t, DeliveryIsOld(c, second));
    assert a !! b && Matching(t, DeliveryIsOld(c, first + second)) == a + b;
  }

  /** Clearing raw parts first changes neither which messages go nor how many. */
  lemma ClearThenDelete(messages: Table<Message>, c: Cutoffs)
    ensures var cleared := Changed(messages, RawIsOld(c), WithoutRaw());
            && Matching(cleared, MessageIsOld(c)) == Matching(messages, MessageIsOld(c))
            && Without(cleared, MessageIsOld(c)) == Changed(Without(messages, MessageIsOld(c)), RawIsOld(c), WithoutRaw())
  {
  }

  /** Two sweeps over disjoint states are one sweep over both, and the first
      takes nothing from the count of the second. */
  lemma DisjointSweeps(table: Table<Delivery>, c: Cutoffs, first: set<string>, second: set<string>)
    requires first !! second
    ensures var rest := Without(table, DeliveryIsOld(c, first));
            && Matching(rest, DeliveryIsOld(c, second)) == Matching(table, DeliveryIsOld(c, second))
            && Without(rest, DeliveryIsOld(c, second)) == Without(table, DeliveryIsOld(c, first + second))
  {
  }

  method SweepMessages(messages: Table<Message>, c: Cutoffs, batchSize: nat, dryRun: bool)
    returns (after: Table<Message>, cleared: nat, deleted: nat)
    requires batchSize >= 1
    ensures cleared == |Matching(messages, RawIsOld(c))| && deleted == |Matching(messages, MessageIsOld(c))|
    ensures after == if dryRun then messages
                     else Changed(Without(messages, MessageIsOld(c)), RawIsOld(c), WithoutRaw())
  {
    ClearThenDelete(messages, c);
    after, cleared := ChangeBatches(messages, RawIsOld(c), WithoutRaw(), batchSize, dryRun);
    after, deleted := DeleteBatches(after, MessageIsOld(c), batchSize, dryRun);
  }

  method SweepDeliveries(table: Table<Delivery>, c: Cutoffs, terminal: set<string>, stuck: set<string>, batchSize: nat, dryRun: bool)
    returns (after: Table<Delivery>, done: nat, stale: nat)
    requires batchSize >= 1 && terminal !! stuck
    ensures done == |Matching(table, DeliveryIsOld(c, terminal))| && stale == |Matching(table, DeliveryIsOld(c, stuck))|
    ensures after == if dryRun then table else Without(table, DeliveryIsOld(c, terminal + stuck))
  {
    DisjointSweeps(table, c, terminal, stuck);
    after, done := DeleteBatches(table, DeliveryIsOld(c, terminal), batchSize, dryRun);
    after, stale := DeleteBatches(after, DeliveryIsOld(c, stuck), batchSize, dryRun);
  }

  class Store {
    var messages: Table<Message>
    var reminders: Table<Reminder>
    var inbox: Table<Delivery>
    var outbox: Table<Delivery>
    var flows: Table<Flow>

    ghost function Rows(): Tables
      reads this
    {
      Tables(messages, reminders, inbox, outbox, flows)
    }

    /** A dry run changes nothing and reports the counts of a live one. */
    method ApplyRetentionPolicy(input: PolicyInput, now: real, batchSize: Option<real>, dryRun: bool) returns (r: Result)
      modifies this
      ensures r == Counts(old(Rows()), CutoffsOf(input, now))
      ensures Rows() == if dryRun then old(Rows()) else Swept(old(Rows()), CutoffsOf(input, now))
      ensures !dryRun ==> KeepsByAge(old(Rows()), Rows(), input, now)
    {
      SweptKeepsByAge(Rows(), input, now);
      var c := CutoffsOf(input, now);
      var batch := BatchSize(batchSize);
      var n1, n2, n3, n4, n5, n6, n7, n8;
      messages, n1, n2 := SweepMessages(messages, c, batch, dryRun);
      reminders, n3 := DeleteBatches(reminders, ReminderIsOld(c), batch, dryRun);
      inbox, n4, n5 := SweepDeliveries(inbox, c, INBOX_DONE, INBOX_STALE, batch, dryRun);
      outbox, n6, n7 := SweepDeliveries(outbox, c, OUTBOX_DONE, OUTBOX_STALE, batch, dryRun);
      flows, n8 := DeleteBatches(flows, FlowIsOld(c), batch, dryRun);
      r := Result(n1, n2, n3, n4, n5, n6, n7, n8);
    }
  }

  lemma NoMessageLeft(messages: Table<Message>, c: Cutoffs)
    ensures var after := Changed(Without(messages, MessageIsOld(c)), RawIsOld(c), WithoutRaw());
            && Matching(after, RawIsOld(c)) == {} && Matching(after, MessageIsOld(c)) == {}
            && Changed(Without(after, MessageIsOld(c)), RawIsOld(c), WithoutRaw()) == after
  {
  }

  /** A second run with the same cutoffs finds nothing. */
  lemma SweptIsDone(t: Tables, c: Cutoffs)
    ensures Counts(Swept(t, c), c) == Result(0, 0, 0, 0, 0, 0, 0, 0) && Swept(Swept(t, c), c) == Swept(t, c)
  {
    NoMessageLeft(t.messages, c);
  }
}
