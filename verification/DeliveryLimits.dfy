/**
 What at-most-once delivery needs. The slack of both kinds of sender is exact. A
 direct send under a key is a second delivery exactly when the key has been
 delivered. A write-back marks its row exactly when the provider id is free in its
 room; otherwise a poller sends the message again, unless the write-back was that of
 a poller's last attempt, which gives the row up.
 */
module DeliveryLimits {
  import opened Prelude
  import opened Strings
  import opened Outbox
  import opened Delivery
  import opened DeliveryProof

  lemma Prepend(timing: Timing, w: World, e: Event, es: seq<Event>)
    requires Enabled(timing, w, e) && Valid(timing, Step(timing, w, e), es)
    ensures Valid(timing, w, [e] + es) && Run(timing, w, [e] + es) == Run(timing, Step(timing, w, e), es)
    ensures Fresh(w, e) && AllFresh(timing, Step(timing, w, e), es) ==> AllFresh(timing, w, [e] + es)
  {
  }

  lemma TextIsKept()
    ensures NormalizeText("x") != ""
  {
  }

  lemma {:induction false} Append(timing: Timing, w: World, a: seq<Event>, b: seq<Event>)
    requires Valid(timing, w, a) && Valid(timing, Run(timing, w, a), b)
    ensures Valid(timing, w, a + b) && Run(timing, w, a + b) == Run(timing, Run(timing, w, a), b)
    decreases |a|
  {
    if a == [] {
      assert a + b == b;
    } else {
      assert (a + b)[1..] == a[1..] + b;
      Append(timing, Step(timing, w, a[0]), a[1..], b);
    }
  }

  lemma {:induction false} MemberIsClaimed(t: Table, ids: seq<Id>, id: Id) returns (j: nat)
    requires (forall i :: 0 <= i < |ids| ==> ids[i] in t) && id in ids && Deliverable(t[id])
    ensures j < |ClaimedMessages(t, ids)| && ClaimedMessages(t, ids)[j].id == id
  {
    var n := |ids| - 1;
    if ids[n] == id {
      j := |ClaimedMessages(t, ids[..n])|;
    } else {
      assert ids == ids[..n] + [ids[n]];
      j := MemberIsClaimed(t, ids[..n], id);
    }
  }

  /** From any world in which the pollers may take a row whose message has been
      delivered already, one of them delivers it again. */
  lemma PollerDeliversAgain(timing: Timing, w: World, id: Id, platforms: seq<string>, limit: int, ids: seq<Id>)
    returns (es: seq<Event>)
    requires IsSelection(w.rows, platforms, w.now, limit, ids) && id in ids && Deliverable(w.rows[id])
    requires MessageKey(w.rows[id].platform, w.rows[id].key) in w.log
    ensures Valid(timing, w, es) && AllFresh(timing, w, es) && !NoMessageTwice(Run(timing, w, es))
    ensures forall e :: e in es ==> !e.EnqueueDirect?
  {
    var row := w.rows[id];
    var claim := Claim("", platforms, limit, ids);
    var j := MemberIsClaimed(w.rows, ids, id);
    ClaimedMessagesInTable(w.rows, ids);
    var n := |w.flights| + j;
    var w1 := Step(timing, w, claim);
    assert w1.flights[n] == Flight(Poller(""), id, row.platform, row.room, row.key, w.now, Waiting);
    var w2 := Step(timing, w1, Start(n));
    var w3 := Step(timing, w2, Deliver(n, None));
    LoggedTwice(w.log, MessageKey(row.platform, row.key));
    Prepend(timing, w2, Deliver(n, None), []);
    Prepend(timing, w1, Start(n), [Deliver(n, None)] + []);
    es := [claim] + ([Start(n)] + ([Deliver(n, None)] + []));
    Prepend(timing, w, claim, [Start(n)] + ([Deliver(n, None)] + []));
    assert w3.log == w.log + [MessageKey(row.platform, row.key)];
  }

  lemma LoggedTwice(log: seq<MessageKey>, m: MessageKey)
    ensures m in log ==> exists i, j :: 0 <= i < j < |log + [m]| && (log + [m])[i] == (log + [m])[j]
  {
    if m in log {
      var i :| 0 <= i < |log| && log[i] == m;
      assert (log + [m])[i] == (log + [m])[|log|];
    }
  }

  lemma OnlyRowIsSelected(t: Table, id: Id, now: int)
    requires t.Keys == {id} && Claimable(t[id], now)
    ensures IsSelection(t, [t[id].platform], now, 1, [id])
  {
    assert t[id].platform in [t[id].platform];
  }

  /** One attempt that uses all its time: it starts late, delivers at its
      time-out and has not been written back yet. */
  lemma SlowAttempt(timing: Timing, w: World, after: seq<Event>) returns (es: seq<Event>)
    requires |w.flights| == 1 && w.flights[0].phase.Waiting? && w.flights[0].begun == w.now
    requires var v := AfterSlowAttempt(timing, w); Valid(timing, v, after) && AllFresh(timing, v, after)
    ensures Valid(timing, w, es) && AllFresh(timing, w, es)
    ensures Run(timing, w, es) == Run(timing, AfterSlowAttempt(timing, w), after)
  {
    var f := w.flights[0];
    var start := w.now + StartSlack(timing, f.kind);
    var sent := start + SendTimeout(f.kind);
    var late := sent + SettleSlack(timing, f.kind);
    var w1 := Step(timing, w, Tick(start));
    var w2 := Step(timing, w1, Start(0));
    var w3 := Step(timing, w2, Tick(sent));
    var w4 := Step(timing, w3, Deliver(0, None));
    var w5 := Step(timing, w4, Tick(late));
    assert w5 == AfterSlowAttempt(timing, w);
    Prepend(timing, w4, Tick(late), after);
    Prepend(timing, w3, Deliver(0, None), [Tick(late)] + after);
    Prepend(timing, w2, Tick(sent), [Deliver(0, None)] + ([Tick(late)] + after));
    Prepend(timing, w1, Start(0), [Tick(sent)] + ([Deliver(0, None)] + ([Tick(late)] + after)));
    es := [Tick(start)] + ([Start(0)] + ([Tick(sent)] + ([Deliver(0, None)] + ([Tick(late)] + after))));
    Prepend(timing, w, Tick(start), [Start(0)] + ([Tick(sent)] + ([Deliver(0, None)] + ([Tick(late)] + after))));
  }

  function AfterSlowAttempt(timing: Timing, w: World): World
    requires |w.flights| == 1
  {
    var f := w.flights[0];
    var sent := w.now + StartSlack(timing, f.kind) + SendTimeout(f.kind);
    World(sent + SettleSlack(timing, f.kind), w.rows, w.used, [f.(phase := Delivered(sent, None))],
          w.log + [MessageKey(f.platform, f.key)])
  }

  /** When the pollers may take the row by the time the attempt is to be written
      back, one of them sends the message again. */
  lemma SlowAttemptIsOvertaken(timing: Timing, w: World) returns (es: seq<Event>)
    requires |w.flights| == 1 && w.flights[0].phase.Waiting? && w.flights[0].begun == w.now
    requires var f := w.flights[0];
             && w.rows.Keys == {f.id} && Deliverable(w.rows[f.id])
             && w.rows[f.id].platform == f.platform && w.rows[f.id].key == f.key
             && Claimable(w.rows[f.id], AfterSlowAttempt(timing, w).now)
    ensures Valid(timing, w, es) && AllFresh(timing, w, es) && !NoMessageTwice(Run(timing, w, es))
  {
    var v, f := AfterSlowAttempt(timing, w), w.flights[0];
    assert v.log[|w.log|] == MessageKey(f.platform, f.key);
    OnlyRowIsSelected(v.rows, f.id, v.now);
    var again := PollerDeliversAgain(timing, v, f.id, [f.platform], 1, [f.id]);
    es := SlowAttempt(timing, w, again);
  }

  /** With five seconds of slack or more the poller sends the agent's message again. */
  lemma LateAgentIsOvertaken(timing: Timing) returns (es: seq<Event>)
    requires !DirectInTime(timing)
    ensures Valid(timing, Initially, es) && AllFresh(timing, Initially, es)
    ensures !NoMessageTwice(Run(timing, Initially, es))
  {
    TextIsKept();
    var enqueue := EnqueueDirect(0, "p", "r", "x", "k", 0);
    var row := PendingRow("p", "r", "x", "k", DIRECT_SEND_GRACE_MS, 0);
    assert Inserted(map[], 0, row) == map[0 := row];
    assert HasKey(map[0 := row], 0, "p", "k");
    var w := Step(timing, Initially, enqueue);
    var rest := SlowAttemptIsOvertaken(timing, w);
    Prepend(timing, Initially, enqueue, rest);
    es := [enqueue] + rest;
  }

  /** One message, enqueued and claimed at once. */
  lemma FirstIsClaimed(timing: Timing) returns (enqueue: Event, claim: Event)
    ensures Enabled(timing, Initially, enqueue) && Enabled(timing, Step(timing, Initially, enqueue), claim)
    ensures Fresh(Initially, enqueue) && Fresh(Step(timing, Initially, enqueue), claim)
    ensures Step(timing, Step(timing, Initially, enqueue), claim) ==
            World(0, map[0 := LeasedRow(PendingRow("p", "r", "x", "k", 0, 0), "", 0)], {0},
                  [Flight(Poller(""), 0, "p", "r", "k", 0, Waiting)], [])
    ensures Deliverable(PendingRow("p", "r", "x", "k", 0, 0))
  {
    TextIsKept();
    enqueue, claim := EnqueueText(0, "p", "r", "x", "k", 0), Claim("", ["p"], 1, [0]);
    var row := PendingRow("p", "r", "x", "k", 0, 0);
    var w1 := Step(timing, Initially, enqueue);
    assert w1 == World(0, map[0 := row], {0}, [], []);
    OnlyRowIsSelected(w1.rows, 0, 0);
    assert [0][..0] == [];
    assert ClaimedMessages(w1.rows, [0]) == [ClaimedMessage(0, "p", "r", row.payload.text, 1)];
  }

  /** A poller whose attempt outlasts its lease is overtaken by the next one. */
  lemma LatePollerIsOvertaken(timing: Timing) returns (es: seq<Event>)
    requires !PollerInTime(timing)
    ensures Valid(timing, Initially, es) && AllFresh(timing, Initially, es)
    ensures !NoMessageTwice(Run(timing, Initially, es))
  {
    var enqueue, claim := FirstIsClaimed(timing);
    var w1 := Step(timing, Initially, enqueue);
    var w := Step(timing, w1, claim);
    var rest := SlowAttemptIsOvertaken(timing, w);
    Prepend(timing, w1, claim, rest);
    Prepend(timing, Initially, enqueue, [claim] + rest);
    es := [enqueue] + ([claim] + rest);
  }

  /**
   Fresh runs deliver at most once exactly when both kinds of sender keep within
   their slack: less than 5 s for the agent, less than 105 s for a poller.
   */
  lemma SlackIsExact(timing: Timing)
    ensures (forall es | Valid(timing, Initially, es) && AllFresh(timing, Initially, es) ::
               NoMessageTwice(Run(timing, Initially, es)))
       <==> timing.directStart + timing.directSettle < 5_000 && timing.pollerStart + timing.pollerSettle < 105_000
  {
    if DirectInTime(timing) && PollerInTime(timing) {
      forall es | Valid(timing, Initially, es) && AllFresh(timing, Initially, es)
        ensures NoMessageTwice(Run(timing, Initially, es))
      {
        DeliveredAtMostOnce(timing, es);
      }
    } else if !DirectInTime(timing) {
      var es := LateAgentIsOvertaken(timing);
    } else {
      var es := LatePollerIsOvertaken(timing);
    }
  }

  /** The world after a send that went through without delay. */
  function AfterSend(w: World, i: nat, providerId: Option<string>): World
    requires i < |w.flights|
  {
    w.(flights := InPhase(w.flights, i, Delivered(w.now, providerId)),
       log := w.log + [MessageKey(w.flights[i].platform, w.flights[i].key)])
  }

  function Send(i: nat, providerId: Option<string>): seq<Event> {
    [Start(i), Deliver(i, providerId)]
  }

  lemma SendGoesThrough(timing: Timing, w: World, i: nat, providerId: Option<string>)
    requires i < |w.flights| && w.flights[i].phase.Waiting?
    ensures Valid(timing, w, Send(i, providerId)) && Run(timing, w, Send(i, providerId)) == AfterSend(w, i, providerId)
  {
    var w1 := Step(timing, w, Start(i));
    var w2 := Step(timing, w1, Deliver(i, providerId));
    assert w2.flights == InPhase(w.flights, i, Delivered(w.now, providerId));
    Prepend(timing, w1, Deliver(i, providerId), []);
    Prepend(timing, w, Start(i), [Deliver(i, providerId)] + []);
    assert [Start(i)] + ([Deliver(i, providerId)] + []) == Send(i, providerId);
  }

  /** A direct send under any key, from any world: it is a second delivery exactly
      when a message with the key has been delivered, whatever the timing. */
  lemma RepeatedKeyIsSentAgain(timing: Timing, w: World, enqueue: Event) returns (es: seq<Event>)
    requires enqueue.EnqueueDirect? && Enabled(timing, w, enqueue) && NoMessageTwice(w)
    ensures Valid(timing, w, es) && es != [] && es[0] == enqueue
    ensures var r := Run(timing, w, es);
            && r.log == w.log + [MessageKey(enqueue.platform, enqueue.key)]
            && r.rows == Step(timing, w, enqueue).rows && r.used == w.used + {enqueue.id}
    ensures NoMessageTwice(Run(timing, w, es)) <==> MessageKey(enqueue.platform, enqueue.key) !in w.log
  {
    var w1 := Step(timing, w, enqueue);
    var sent := Send(|w.flights|, None);
    SendGoesThrough(timing, w1, |w.flights|, None);
    Prepend(timing, w, enqueue, sent);
    es := [enqueue] + sent;
    LoggedTwice(w.log, MessageKey(enqueue.platform, enqueue.key));
  }

  /** So the same text sent twice under one key is delivered twice. */
  lemma KeysMustBeFresh(timing: Timing, platform: string, room: string, text: string, key: string) returns (es: seq<Event>)
    ensures Valid(timing, Initially, es) && !NoMessageTwice(Run(timing, Initially, es))
  {
    var row := PendingRow(platform, room, text, key, DIRECT_SEND_GRACE_MS, 0);
    assert HasKey(map[0 := row], 0, platform, key);
    var once := RepeatedKeyIsSentAgain(timing, Initially, EnqueueDirect(0, platform, room, text, key, 0));
    var w := Run(timing, Initially, once);
    assert w.rows == map[0 := row];
    var again := RepeatedKeyIsSentAgain(timing, w, EnqueueDirect(1, platform, room, text, key, 0));
    Append(timing, Initially, once, again);
    es := once + again;
  }

  // ------------------------------------------------------------ the write-back

  /** The row of a delivered flight is still open to its write-back. */
  predicate OpenFor(t: Table, f: Flight) {
    match f.kind
    case Direct => OpenForDirect(t, f.id)
    case Poller(owner) => Owned(t, f.id, owner)
  }

  ghost predicate Clashes(t: Table, f: Flight)
    requires f.phase.Delivered?
  {
    ProviderClash(t, f.id, f.phase.providerId)
  }

  /** A poller's last attempt. */
  predicate LastAttempt(t: Table, f: Flight)
    requires f.id in t
  {
    f.kind.Poller? && t[f.id].attempts >= MAX_ATTEMPTS
  }

  /** When the row is due after a write-back that clashed: the agent leaves it as it
      is, a poller puts it off. */
  function DueAgain(t: Table, f: Flight, now: int): int
    requires f.id in t
  {
    if f.kind.Direct? then t[f.id].availableAt else now + BACKOFF_MS
  }

  /** A write-back marks its open row exactly when no other row of the room carries
      the provider id. If one does, the row is given up after a poller's last attempt
      and is otherwise the pollers' once it is due. No other row is touched. */
  lemma WriteBackExactly(t: Table, f: Flight, now: int)
    requires f.phase.Delivered?
    ensures !OpenFor(t, f) ==> Settled(t, f, now) == t
    ensures var r := Settled(t, f, now);
            OpenFor(t, f) ==>
            && r.Keys == t.Keys && (forall id :: id in t && id != f.id ==> r[id] == t[id])
            && (r[f.id].state == Sent <==> !Clashes(t, f))
            && (r[f.id].state == DeadLetter <==> Clashes(t, f) && LastAttempt(t, f))
            && (Clashes(t, f) ==>
                  forall later :: Claimable(r[f.id], later) <==> !LastAttempt(t, f) && DueAgain(t, f, now) <= later)
  {
  }

  /** A send that is given up leaves a direct send's row as it is. A poller's row, if
      still its own, is given up with it after five attempts and otherwise failed and
      due again 5 s later. No other row is touched. */
  lemma AbandonExactly(timing: Timing, w: World, i: nat, message: string)
    requires Enabled(timing, w, Abandon(i, message)) && w.flights[i].id in w.rows
    ensures var f, r := w.flights[i], Step(timing, w, Abandon(i, message)).rows;
            && r.Keys == w.rows.Keys && (forall id :: id in w.rows && id != f.id ==> r[id] == w.rows[id])
            && if f.kind.Poller? && w.rows[f.id].state == Leased && w.rows[f.id].leaseOwner == Some(f.kind.owner) then
                 && r[f.id].state == (if w.rows[f.id].attempts >= 5 then DeadLetter else Failed)
                 && r[f.id].availableAt == w.now + 5_000
                 && r[f.id].leaseOwner == None
               else
                 r[f.id] == w.rows[f.id]
    ensures Step(timing, w, Abandon(i, message)).log == w.log
  {
  }

  /** A delivery whose write-back clashes, in any world in which no other send is
      going on: unless it was a poller's last attempt, the row is the pollers' once it
      is due, and the first that selects it delivers the message again. */
  lemma ClashedSendIsRepeated(timing: Timing, w: World, i: nat, platforms: seq<string>, limit: int, ids: seq<Id>)
    returns (es: seq<Event>)
    requires i < |w.flights| && w.flights[i].phase.Delivered?
    requires forall j :: 0 <= j < |w.flights| && j != i ==> w.flights[j].phase.Done?
    requires var f := w.flights[i];
             && OpenFor(w.rows, f) && Clashes(w.rows, f) && !LastAttempt(w.rows, f) && Deliverable(w.rows[f.id])
             && MessageKey(w.rows[f.id].platform, w.rows[f.id].key) in w.log
             && f.id in ids
             && IsSelection(Settled(w.rows, f, w.now), platforms, Max(w.now, DueAgain(w.rows, f, w.now)), limit, ids)
    ensures Valid(timing, w, es) && AllFresh(timing, w, es) && !NoMessageTwice(Run(timing, w, es))
    ensures forall e :: e in es ==> !e.EnqueueDirect?
  {
    var f := w.flights[i];
    var later := Max(w.now, DueAgain(w.rows, f, w.now));
    var w1 := Step(timing, w, Settle(i));
    assert forall j :: 0 <= j < |w1.flights| ==> w1.flights[j].phase.Done?;
    var w2 := Step(timing, w1, Tick(later));
    SettledKeepsMessage(w.rows, f, w.now);
    var again := PollerDeliversAgain(timing, w2, f.id, platforms, limit, ids);
    Prepend(timing, w1, Tick(later), again);
    Prepend(timing, w, Settle(i), [Tick(later)] + again);
    es := [Settle(i)] + ([Tick(later)] + again);
  }

  lemma SettledKeepsMessage(t: Table, f: Flight, now: int)
    requires f.phase.Delivered? && OpenFor(t, f)
    ensures f.id in Settled(t, f, now)
    ensures var r := Settled(t, f, now)[f.id];
            r.platform == t[f.id].platform && r.key == t[f.id].key && r.payload == t[f.id].payload
  {
  }

  /** The first send with a provider id, written back. */
  lemma FirstIsMarked(timing: Timing, first: Event, providerId: string) returns (es: seq<Event>)
    requires first.EnqueueDirect? && first.row == first.id && Significant(providerId)
    ensures Valid(timing, Initially, es) && forall e :: e in es && e.EnqueueDirect? ==> e.row == e.id
    ensures var row := PendingRow(first.platform, first.room, first.text, first.key, DIRECT_SEND_GRACE_MS, 0);
            Run(timing, Initially, es) ==
            World(0, map[first.id := SentRow(row, Some(providerId), 0)], {first.id},
                  [Flight(Direct, first.id, first.platform, first.room, first.key, 0, Done)],
                  [MessageKey(first.platform, first.key)])
  {
    var row := PendingRow(first.platform, first.room, first.text, first.key, DIRECT_SEND_GRACE_MS, 0);
    assert HasKey(map[first.id := row], first.id, first.platform, first.key);
    var w1 := Step(timing, Initially, first);
    var f := Flight(Direct, first.id, first.platform, first.room, first.key, 0, Waiting);
    assert w1 == World(0, map[first.id := row], {first.id}, [f], []);
    SendGoesThrough(timing, w1, 0, Some(providerId));
    var w2 := AfterSend(w1, 0, Some(providerId));
    var w3 := Step(timing, w2, Settle(0));
    assert w3.rows == map[first.id := SentRow(row, Some(providerId), 0)];
    Prepend(timing, w2, Settle(0), []);
    Append(timing, w1, Send(0, Some(providerId)), [Settle(0)] + []);
    Prepend(timing, Initially, first, Send(0, Some(providerId)) + ([Settle(0)] + []));
    es := [first] + (Send(0, Some(providerId)) + ([Settle(0)] + []));
  }

  /** A provider that gives two messages of a room the same id makes the second one
      come twice, whatever the timing and though every key is fresh. */
  lemma ProviderIdsMustBeFresh(timing: Timing, platform: string, room: string, text: string, key: string, other: string,
                               providerId: string) returns (es: seq<Event>)
    requires key != other && Significant(providerId) && NormalizeText(text) != ""
    ensures Valid(timing, Initially, es) && !NoMessageTwice(Run(timing, Initially, es))
    ensures forall e :: e in es && e.EnqueueDirect? ==> e.row == e.id
  {
    var first, second := EnqueueDirect(0, platform, room, text, key, 0), EnqueueDirect(1, platform, room, text, other, 1);
    var before := FirstIsMarked(timing, first, providerId);
    var w := Run(timing, Initially, before);
    var after := SecondIsRepeated(timing, w, second, providerId);
    Append(timing, Initially, before, after);
    es := before + after;
  }

  /** A send with a provider id that the one other row, finished, of its room carries. */
  lemma SecondIsRepeated(timing: Timing, w: World, second: Event, providerId: string) returns (es: seq<Event>)
    requires second.EnqueueDirect? && second.id == second.row == 1 && w.used == w.rows.Keys == {0}
    requires Significant(providerId) && NormalizeText(second.text) != ""
    requires w.rows[0].state == Sent && w.rows[0].platform == second.platform && w.rows[0].room == second.room
    requires w.rows[0].key != second.key && w.rows[0].providerId == Some(providerId)
    requires |w.flights| == 1 && w.flights[0].phase.Done?
    ensures Valid(timing, w, es) && !NoMessageTwice(Run(timing, w, es))
    ensures forall e :: e in es && e.EnqueueDirect? ==> e == second
  {
    var row := PendingRow(second.platform, second.room, second.text, second.key, w.now + DIRECT_SEND_GRACE_MS, w.now);
    var w1 := SecondIsEnqueued(timing, w, second, row);
    SendGoesThrough(timing, w1, 1, Some(providerId));
    var w2 := AfterSend(w1, 1, Some(providerId));
    var again := SecondClashes(timing, w2, providerId);
    Append(timing, w1, Send(1, Some(providerId)), again);
    Prepend(timing, w, second, Send(1, Some(providerId)) + again);
    es := [second] + (Send(1, Some(providerId)) + again);
  }

  lemma SecondClashes(timing: Timing, w: World, providerId: string) returns (es: seq<Event>)
    requires w.rows.Keys == {0, 1} && |w.flights| == 2 && w.flights[0].phase.Done?
    requires w.flights[1].kind == Direct && w.flights[1].id == 1 && w.flights[1].phase == Delivered(w.now, Some(providerId))
    requires w.rows[0].state == Sent && w.rows[1].state == Pending && Deliverable(w.rows[1])
    requires Significant(providerId) && SameDelivery(w.rows[0], w.rows[1].(providerId := Some(providerId)))
    requires MessageKey(w.rows[1].platform, w.rows[1].key) in w.log
    ensures Valid(timing, w, es) && !NoMessageTwice(Run(timing, w, es)) && forall e :: e in es ==> !e.EnqueueDirect?
  {
    var platforms := [w.rows[1].platform];
    assert w.rows[1].platform in platforms;
    var later := Max(w.now, w.rows[1].availableAt);
    WriteBackExactly(w.rows, w.flights[1], w.now);
    assert Settled(w.rows, w.flights[1], w.now) == w.rows;
    assert IsSelection(w.rows, platforms, later, 1, [1]);
    es := ClashedSendIsRepeated(timing, w, 1, platforms, 1, [1]);
  }

  lemma SecondIsEnqueued(timing: Timing, w: World, second: Event, row: Row) returns (w1: World)
    requires second.EnqueueDirect? && second.row == second.id && second.id !in w.used
    requires row == PendingRow(second.platform, second.room, second.text, second.key, w.now + DIRECT_SEND_GRACE_MS, w.now)
    requires !KeyTaken(w.rows, second.platform, second.key)
    ensures Enabled(timing, w, second) && w1 == Step(timing, w, second)
    ensures w1 == World(w.now, w.rows[second.id := row], w.used + {second.id},
                        w.flights + [Flight(Direct, second.id, second.platform, second.room, second.key, w.now, Waiting)], w.log)
  {
    assert HasKey(w.rows[second.id := row], second.id, second.platform, second.key);
    w1 := Step(timing, w, second);
  }
}
