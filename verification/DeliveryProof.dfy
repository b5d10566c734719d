/**
 At-most-once delivery: within the slack of the constants, with fresh keys and
 fresh provider ids, no run delivers a message twice.
 */
module DeliveryProof {
  import opened Prelude
  import opened Strings
  import opened Outbox
  import opened Delivery
  import OutboxRuns

  predicate Live(f: Flight) {
    !f.phase.Done?
  }

  ghost predicate NoLiveFlight(fs: seq<Flight>, id: Id) {
    forall i :: 0 <= i < |fs| && Live(fs[i]) ==> fs[i].id != id
  }

  /** A table change that leaves alone the rows of live flights and sent rows and
      writes no provider id. */
  ghost predicate Harmless(w: World, t: Table, used: set<Id>) {
    && UniqueKeys(t)
    && (forall id :: id in t ==> id in used)
    && (forall i :: 0 <= i < |w.flights| && Live(w.flights[i]) && w.flights[i].id in w.rows ==>
          w.flights[i].id in t && t[w.flights[i].id] == w.rows[w.flights[i].id])
    && (forall id :: id in w.rows && w.rows[id].state == Sent ==> id in t && t[id] == w.rows[id])
    && (forall id :: id in t && t[id].providerId.Some? ==> id in w.rows && OutboxRuns.SameIdentity(w.rows[id], t[id]))
  }

  lemma HarmlessKeepsInv(timing: Timing, w: World, t: Table, used: set<Id>)
    requires Inv(timing, w) && Harmless(w, t, used)
    ensures Inv(timing, w.(rows := t, used := used))
  {
    forall i | 0 <= i < |w.flights| && w.flights[i].phase.Delivered?
      ensures ProviderInv(t, w.flights, i)
    {
      assert ProviderInv(w.rows, w.flights, i);
    }
    forall m | m in w.log
      ensures exists id :: Accounted(t, w.flights, m, id)
    {
      var id :| Accounted(w.rows, w.flights, m, id);
      AccountedKept(w, t, used, m, id);
    }
  }

  lemma AccountedKept(w: World, t: Table, used: set<Id>, m: MessageKey, id: Id)
    requires Harmless(w, t, used) && Accounted(w.rows, w.flights, m, id)
    ensures Accounted(t, w.flights, m, id)
  {
  }

  lemma InsertIsHarmless(timing: Timing, w: World, id: Id, row: Row)
    requires Inv(timing, w) && id !in w.used && row.providerId.None?
    ensures Harmless(w, Inserted(w.rows, id, row), w.used + {id})
  {
    var t := Inserted(w.rows, id, row);
    if !KeyTaken(w.rows, row.platform, row.key) {
      forall a, b, platform, key | HasKey(t, a, platform, key) && HasKey(t, b, platform, key)
        ensures a == b
      {
        assert a != id ==> HasKey(w.rows, a, platform, key);
        assert b != id ==> HasKey(w.rows, b, platform, key);
      }
    }
  }

  /** No claim can take the row of a live flight. */
  lemma LiveIsNotClaimable(timing: Timing, w: World, i: nat)
    requires DirectInTime(timing) && PollerInTime(timing)
    requires Inv(timing, w) && i < |w.flights| && Live(w.flights[i])
    ensures !Claimable(w.rows[w.flights[i].id], w.now)
  {
  }

  lemma SameIdentityIsHarmless(w: World, t: Table)
    requires UniqueKeys(w.rows) && forall id :: id in w.rows ==> id in w.used
    requires forall id :: id in t ==> id in w.rows && OutboxRuns.SameIdentity(w.rows[id], t[id])
    requires forall id :: id in w.rows && (w.rows[id].state == Sent || !NoLiveFlight(w.flights, id)) ==>
               id in t && t[id] == w.rows[id]
    ensures Harmless(w, t, w.used)
  {
    forall a, b, platform, key | HasKey(t, a, platform, key) && HasKey(t, b, platform, key)
      ensures a == b
    {
      assert HasKey(w.rows, a, platform, key) && HasKey(w.rows, b, platform, key);
    }
    forall i | 0 <= i < |w.flights| && Live(w.flights[i]) && w.flights[i].id in w.rows
      ensures w.flights[i].id in t && t[w.flights[i].id] == w.rows[w.flights[i].id]
    {
      assert !NoLiveFlight(w.flights, w.flights[i].id);
    }
  }

  /** New attempts on rows that no live attempt holds. */
  lemma AddFlights(timing: Timing, w: World, fs: seq<Flight>)
    requires Inv(timing, w)
    requires forall i :: 0 <= i < |fs| ==>
               fs[i].phase.Waiting? && FlightInv(timing, w.now, w.rows, fs[i]) && NoLiveFlight(w.flights, fs[i].id)
    requires forall i, j :: 0 <= i < j < |fs| ==> fs[i].id != fs[j].id
    ensures Inv(timing, w.(flights := w.flights + fs))
  {
    var all := w.flights + fs;
    forall i, j | 0 <= i < j < |all| && Live(all[i]) && Live(all[j])
      ensures all[i].id != all[j].id
    {
      if i < |w.flights| && j >= |w.flights| {
        assert NoLiveFlight(w.flights, fs[j - |w.flights|].id);
        assert Live(w.flights[i]);
      }
    }
    forall i | 0 <= i < |all| && all[i].phase.Delivered?
      ensures ProviderInv(w.rows, all, i)
    {
      assert ProviderInv(w.rows, w.flights, i);
    }
    forall m | m in w.log
      ensures exists id :: Accounted(w.rows, all, m, id)
    {
      var id :| Accounted(w.rows, w.flights, m, id);
      if w.rows[id].state != Sent {
        var i :| 0 <= i < |w.flights| && w.flights[i].phase.Delivered? && w.flights[i].id == id;
        assert all[i] == w.flights[i];
      }
      assert Accounted(w.rows, all, m, id);
    }
  }

  lemma EnqueueDirectKeepsInv(timing: Timing, w: World, e: Event)
    requires Inv(timing, w) && e.EnqueueDirect? && Enabled(timing, w, e) && Fresh(w, e)
    ensures Inv(timing, Step(timing, w, e))
  {
    var row := PendingRow(e.platform, e.room, e.text, e.key, w.now + DIRECT_SEND_GRACE_MS, w.now);
    NewIdIsFree(timing, w, e.id);
    OwnRowIsInserted(w.rows, e.id, row);
    InsertKeepsInv(timing, w, e.id, row);
    AddFlights(timing, w.(rows := w.rows[e.id := row], used := w.used + {e.id}),
               [Flight(Direct, e.id, e.platform, e.room, e.key, w.now, Waiting)]);
  }

  lemma OwnRowIsInserted(t: Table, id: Id, row: Row)
    requires id !in t && HasKey(Inserted(t, id, row), id, row.platform, row.key)
    ensures Inserted(t, id, row) == t[id := row]
  {
  }

  lemma InsertKeepsInv(timing: Timing, w: World, id: Id, row: Row)
    requires Inv(timing, w) && id !in w.used && row.providerId.None?
    ensures Inv(timing, w.(rows := Inserted(w.rows, id, row), used := w.used + {id}))
  {
    InsertIsHarmless(timing, w, id, row);
    HarmlessKeepsInv(timing, w, Inserted(w.rows, id, row), w.used + {id});
  }

  lemma NewIdIsFree(timing: Timing, w: World, id: Id)
    requires Inv(timing, w) && id !in w.used
    ensures id !in w.rows && NoLiveFlight(w.flights, id)
  {
    forall i | 0 <= i < |w.flights| && Live(w.flights[i])
      ensures w.flights[i].id != id
    {
      assert FlightInv(timing, w.now, w.rows, w.flights[i]);
    }
  }

  /** Claiming alone is harmless, whoever goes on to send. */
  lemma ClaimedTableKeepsInv(timing: Timing, w: World, e: Event)
    requires DirectInTime(timing) && PollerInTime(timing)
    requires Inv(timing, w) && e.Claim? && Enabled(timing, w, e)
    ensures Inv(timing, w.(rows := ClaimedTable(w.rows, e.owner, w.now, e.ids)))
  {
    var t := ClaimedTable(w.rows, e.owner, w.now, e.ids);
    SameIdentityIsHarmless(w, t);
    HarmlessKeepsInv(timing, w, t, w.used);
  }

  lemma ClaimKeepsInv(timing: Timing, w: World, e: Event)
    requires DirectInTime(timing) && PollerInTime(timing)
    requires Inv(timing, w) && e.Claim? && Enabled(timing, w, e)
    ensures Inv(timing, Step(timing, w, e))
  {
    var t := ClaimedTable(w.rows, e.owner, w.now, e.ids);
    ClaimedTableKeepsInv(timing, w, e);
    ClaimedMessagesInTable(w.rows, e.ids);
    AddFlights(timing, w.(rows := t), ClaimedFlights(e.owner, w.now, ClaimedMessages(w.rows, e.ids), w.rows));
  }

  /** A flight that has not delivered moves to a phase in which it still has not. */
  lemma PhaseKeepsInv(timing: Timing, w: World, i: nat, phase: Phase)
    requires Inv(timing, w) && i < |w.flights|
    requires Live(w.flights[i]) && !w.flights[i].phase.Delivered?
    requires phase == Done || (phase == Sending(w.now) && w.flights[i].phase.Waiting?)
    ensures Inv(timing, w.(flights := InPhase(w.flights, i, phase)))
  {
    var fs := InPhase(w.flights, i, phase);
    forall j | 0 <= j < |fs| && Live(fs[j])
      ensures FlightInv(timing, w.now, w.rows, fs[j])
    {
      assert FlightInv(timing, w.now, w.rows, w.flights[j]);
    }
    forall j | 0 <= j < |fs| && fs[j].phase.Delivered?
      ensures ProviderInv(w.rows, fs, j)
    {
      assert ProviderInv(w.rows, w.flights, j);
    }
    forall m | m in w.log
      ensures exists id :: Accounted(w.rows, fs, m, id)
    {
      var id :| Accounted(w.rows, w.flights, m, id);
      if w.rows[id].state != Sent {
        var j :| 0 <= j < |w.flights| && w.flights[j].phase.Delivered? && w.flights[j].id == id;
        assert fs[j] == w.flights[j];
      }
      assert Accounted(w.rows, fs, m, id);
    }
  }

  /** A message whose row has a live flight that has not delivered is not in the
      log yet. */
  lemma NotYetDelivered(timing: Timing, w: World, i: nat)
    requires Inv(timing, w) && i < |w.flights| && Live(w.flights[i]) && !w.flights[i].phase.Delivered?
    ensures MessageKey(w.flights[i].platform, w.flights[i].key) !in w.log
  {
    var f := w.flights[i];
    var m := MessageKey(f.platform, f.key);
    assert FlightInv(timing, w.now, w.rows, f) && HasKey(w.rows, f.id, m.platform, m.key);
  }

  lemma DeliverKeepsInv(timing: Timing, w: World, i: nat, providerId: Option<string>)
    requires Inv(timing, w) && Enabled(timing, w, Deliver(i, providerId)) && Fresh(w, Deliver(i, providerId))
    ensures Inv(timing, Step(timing, w, Deliver(i, providerId)))
  {
    var f := w.flights[i];
    var fs := InPhase(w.flights, i, Delivered(w.now, providerId));
    NotYetDelivered(timing, w, i);
    assert FlightInv(timing, w.now, w.rows, f);
    forall j | 0 <= j < |fs| && Live(fs[j])
      ensures FlightInv(timing, w.now, w.rows, fs[j])
    {
      assert FlightInv(timing, w.now, w.rows, w.flights[j]);
    }
    forall j | 0 <= j < |fs| && fs[j].phase.Delivered?
      ensures ProviderInv(w.rows, fs, j)
    {
      if j != i {
        assert ProviderInv(w.rows, w.flights, j);
        assert w.flights[j].phase.Delivered? && fs[j] == w.flights[j];
      }
    }
    var log := w.log + [MessageKey(f.platform, f.key)];
    forall m | m in log
      ensures exists id :: Accounted(w.rows, fs, m, id)
    {
      assert fs[i].phase.Delivered?;
      if m in w.log {
        var id :| Accounted(w.rows, w.flights, m, id);
        if w.rows[id].state != Sent {
          var j :| 0 <= j < |w.flights| && w.flights[j].phase.Delivered? && w.flights[j].id == id;
          assert fs[j] == w.flights[j];
        }
        assert Accounted(w.rows, fs, m, id);
      } else {
        assert Accounted(w.rows, fs, m, f.id);
      }
    }
  }

  lemma AbandonKeepsInv(timing: Timing, w: World, i: nat, message: string)
    requires Inv(timing, w) && Enabled(timing, w, Abandon(i, message))
    ensures Inv(timing, Step(timing, w, Abandon(i, message)))
  {
    var f := w.flights[i];
    assert FlightInv(timing, w.now, w.rows, f);
    PhaseKeepsInv(timing, w, i, Done);
    var v := w.(flights := InPhase(w.flights, i, Done));
    if f.kind.Poller? {
      assert NoLiveFlight(v.flights, f.id);
      SameIdentityIsHarmless(v, FailedTable(w.rows, f.id, f.kind.owner, message, w.now));
      HarmlessKeepsInv(timing, v, FailedTable(w.rows, f.id, f.kind.owner, message, w.now), v.used);
    }
  }

  /** The write-back of a delivered flight always finds its row, and finds the
      provider id free. */
  lemma SettleMarksSent(timing: Timing, w: World, i: nat)
    requires Inv(timing, w) && Enabled(timing, w, Settle(i))
    ensures var f := w.flights[i];
            f.id in w.rows && Settled(w.rows, f, w.now) == w.rows[f.id := SentRow(w.rows[f.id], f.phase.providerId, w.now)]
  {
  }

  lemma SettleKeepsInv(timing: Timing, w: World, i: nat)
    requires Inv(timing, w) && Enabled(timing, w, Settle(i))
    ensures Inv(timing, Step(timing, w, Settle(i)))
  {
    SettleMarksSent(timing, w, i);
    var f := w.flights[i];
    var row := SentRow(w.rows[f.id], f.phase.providerId, w.now);
    var t := w.rows[f.id := row];
    var fs := InPhase(w.flights, i, Done);
    assert FlightInv(timing, w.now, w.rows, f) && ProviderInv(w.rows, w.flights, i);
    forall a, b, platform, key | HasKey(t, a, platform, key) && HasKey(t, b, platform, key)
      ensures a == b
    {
      assert HasKey(w.rows, a, platform, key) && HasKey(w.rows, b, platform, key);
    }
    forall j | 0 <= j < |fs| && Live(fs[j])
      ensures FlightInv(timing, w.now, t, fs[j])
    {
      assert FlightInv(timing, w.now, w.rows, w.flights[j]);
      assert fs[j].id != f.id;
    }
    forall j | 0 <= j < |fs| && fs[j].phase.Delivered?
      ensures ProviderInv(t, fs, j)
    {
      assert ProviderInv(w.rows, w.flights, j);
      assert Carries(row, fs[j], fs[j].phase.providerId) ==> SameRoom(f, fs[j]);
    }
    forall m | m in w.log
      ensures exists id :: Accounted(t, fs, m, id)
    {
      var id :| Accounted(w.rows, w.flights, m, id);
      if id != f.id && w.rows[id].state != Sent {
        var j :| 0 <= j < |w.flights| && w.flights[j].phase.Delivered? && w.flights[j].id == id;
        assert fs[j] == w.flights[j];
      }
      assert Accounted(t, fs, m, id);
    }
  }

  /** Pruning and the manual retry reach no row that a live flight or a sent
      message needs. */
  lemma MaintenanceKeepsInv(timing: Timing, w: World, e: Event)
    requires Inv(timing, w) && (e.Prune? || e.Retry?)
    ensures Inv(timing, Step(timing, w, e))
  {
    forall i | 0 <= i < |w.flights| && Live(w.flights[i])
      ensures w.flights[i].id in w.rows && w.rows[w.flights[i].id].state in {Pending, Leased}
    {
      assert FlightInv(timing, w.now, w.rows, w.flights[i]);
    }
    var t := if e.Prune? then Pruned(w.rows, e.cutoff) else Requeued(w.rows, e.id, w.now);
    SameIdentityIsHarmless(w, t);
    HarmlessKeepsInv(timing, w, t, w.used);
  }

  /** A streamed message is recorded as sent, under a key nobody has delivered. */
  lemma RecordKeepsInv(timing: Timing, w: World, e: Event)
    requires Inv(timing, w) && e.RecordDelivered? && Enabled(timing, w, e) && Fresh(w, e)
    ensures Inv(timing, Step(timing, w, e))
  {
    var row := DeliveredRow(e.platform, e.room, e.text, e.key, e.availableAt, w.now);
    var message := MessageKey(e.platform, e.key);
    InsertKeepsInv(timing, w, e.id, row);
    var v := Step(timing, w, e);
    assert Accounted(v.rows, v.flights, message, e.id);
    LoggedIsStored(timing, w, message);
  }

  lemma LoggedIsStored(timing: Timing, w: World, m: MessageKey)
    requires Inv(timing, w)
    ensures m in w.log ==> KeyTaken(w.rows, m.platform, m.key)
  {
    if m in w.log {
      var id :| Accounted(w.rows, w.flights, m, id);
      assert HasKey(w.rows, id, m.platform, m.key);
    }
  }

  lemma StepKeepsInv(timing: Timing, w: World, e: Event)
    requires DirectInTime(timing) && PollerInTime(timing)
    requires Inv(timing, w) && Enabled(timing, w, e) && Fresh(w, e)
    ensures Inv(timing, Step(timing, w, e))
  {
    match e {
      case Tick(to) =>
        forall i | 0 <= i < |w.flights| && Live(w.flights[i])
          ensures FlightInv(timing, to, w.rows, w.flights[i])
        {
          assert FlightInv(timing, w.now, w.rows, w.flights[i]);
        }
      case EnqueueDirect(_, _, _, _, _, _) => EnqueueDirectKeepsInv(timing, w, e);
      case EnqueueText(id, platform, room, text, key, at) =>
        InsertKeepsInv(timing, w, id, PendingRow(platform, room, text, key, at, w.now));
      case RecordDelivered(_, _, _, _, _, _) =>
        RecordKeepsInv(timing, w, e);
      case Claim(_, _, _, _) => ClaimKeepsInv(timing, w, e);
      case Start(i) => PhaseKeepsInv(timing, w, i, Sending(w.now));
      case Deliver(i, providerId) => DeliverKeepsInv(timing, w, i, providerId);
      case Abandon(i, message) => AbandonKeepsInv(timing, w, i, message);
      case Settle(i) => SettleKeepsInv(timing, w, i);
      case _ => MaintenanceKeepsInv(timing, w, e);
    }
  }

  lemma {:induction false} RunKeepsInv(timing: Timing, w: World, es: seq<Event>)
    requires DirectInTime(timing) && PollerInTime(timing)
    requires Inv(timing, w) && Valid(timing, w, es) && AllFresh(timing, w, es)
    ensures Inv(timing, Run(timing, w, es))
    decreases |es|
  {
    if es != [] {
      StepKeepsInv(timing, w, es[0]);
      RunKeepsInv(timing, Step(timing, w, es[0]), es[1..]);
    }
  }

  /**
   Over every timed run of direct sends, streamed messages, any number of pollers,
   pruning and manual retries, each message is delivered at most once.
   */
  lemma DeliveredAtMostOnce(timing: Timing, es: seq<Event>)
    requires DirectInTime(timing) && PollerInTime(timing)
    requires Valid(timing, Initially, es) && AllFresh(timing, Initially, es)
    ensures NoMessageTwice(Run(timing, Initially, es))
  {
    RunKeepsInv(timing, Initially, es);
  }
}
