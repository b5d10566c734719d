/**
 Flow sessions and the writes made to them under a lock (src/core/FlowHandler.ts):
 an insertion-ordered record of flows, the active flow, and a version.
 */
module FlowSession {
  import opened Prelude

  /** `expiresAt` is none for a stored flow without a finite expiry. */
  datatype Flow = Flow(body: string, expiresAt: Option<real>, version: nat)

  /** Flow records in insertion order; writing an existing id keeps its place. */
  type Flows = seq<(string, Flow)>

  datatype Session = Session(active: Option<string>, flows: Flows, version: nat)

  predicate Has(flows: Flows, id: string) {
    exists i :: 0 <= i < |flows| && flows[i].0 == id
  }

  function Put(flows: Flows, id: string, flow: Flow): Flows {
    if flows == [] then [(id, flow)]
    else if flows[0].0 == id then [(id, flow)] + flows[1..]
    else [flows[0]] + Put(flows[1..], id, flow)
  }

  function Without(flows: Flows, id: string): Flows {
    if flows == [] then []
    else if flows[0].0 == id then Without(flows[1..], id)
    else [flows[0]] + Without(flows[1..], id)
  }

  predicate Expired(flow: Flow, now: int) {
    flow.expiresAt.None? || now as real > flow.expiresAt.value
  }

  function Unexpired(flows: Flows, now: int): Flows {
    if flows == [] then []
    else if Expired(flows[0].1, now) then Unexpired(flows[1..], now)
    else [flows[0]] + Unexpired(flows[1..], now)
  }

  predicate SomeExpired(flows: Flows, now: int) {
    exists i :: 0 <= i < |flows| && Expired(flows[i].1, now)
  }

  /** The active flow when it is there, else the last flow, else none. */
  function Fallback(s: Session): Session {
    if s.active.Some? && Has(s.flows, s.active.value) then s
    else s.(active := if s.flows == [] then None else Some(s.flows[|s.flows| - 1].0))
  }

  /** The active flow, unless it is one of those that expire. */
  function Surviving(active: Option<string>, flows: Flows, now: int): Option<string> {
    if active.Some? && Has(flows, active.value) && !Has(Unexpired(flows, now), active.value) then None else active
  }

  function Pruned(s: Session, now: int): Session {
    Fallback(Session(Surviving(s.active, s.flows, now), Unexpired(s.flows, now), s.version))
  }

  function Stamped(flows: Flows, version: nat): Flows {
    if flows == [] then [] else [(flows[0].0, flows[0].1.(version := version))] + Stamped(flows[1..], version)
  }

  /** Every write counts the version up and stamps it on every flow. */
  function Written(s: Session): Session {
    Session(s.active, Stamped(s.flows, s.version + 1), s.version + 1)
  }

  // ------------------------------------------------------------ record laws

  predicate Distinct(flows: Flows) {
    forall i, j :: 0 <= i < j < |flows| ==> flows[i].0 != flows[j].0
  }

  lemma {:induction false} PutLaws(flows: Flows, id: string, flow: Flow)
    ensures Has(Put(flows, id, flow), id)
    ensures forall k: string :: k != id ==> (Has(Put(flows, id, flow), k) <==> Has(flows, k))
    ensures Distinct(flows) ==> Distinct(Put(flows, id, flow))
    ensures (id, flow) in Put(flows, id, flow)
    ensures forall e: (string, Flow) :: e.0 != id ==> (e in Put(flows, id, flow) <==> e in flows)
  {
    var r := Put(flows, id, flow);
    if flows == [] {
      assert r[0].0 == id;
    } else if flows[0].0 == id {
      assert r[0].0 == id && r[1..] == flows[1..];
      forall k: string | k != id ensures Has(r, k) <==> Has(flows, k) {
        HasCons(r, k);
        HasCons(flows, k);
      }
      forall i, j | Distinct(flows) && 0 <= i < j < |r| ensures r[i].0 != r[j].0 {
        assert r[i].0 == flows[i].0 && r[j].0 == flows[j].0;
      }
    } else {
      PutLaws(flows[1..], id, flow);
      assert r[1..] == Put(flows[1..], id, flow) && r[0] == flows[0];
      HasCons(r, id);
      forall k: string ensures Has(r, k) <==> r[0].0 == k || Has(r[1..], k) {
        HasCons(r, k);
      }
      forall k: string ensures Has(flows, k) <==> flows[0].0 == k || Has(flows[1..], k) {
        HasCons(flows, k);
      }
      if Distinct(flows) {
        DistinctFromCons(r);
      }
    }
  }

  lemma HasCons(flows: Flows, k: string)
    requires flows != []
    ensures Has(flows, k) <==> flows[0].0 == k || Has(flows[1..], k)
  {
  }

  lemma DistinctFromCons(flows: Flows)
    requires flows != [] && Distinct(flows[1..]) && !Has(flows[1..], flows[0].0)
    ensures Distinct(flows)
  {
  }

  lemma {:induction false} WithoutLaws(flows: Flows, id: string)
    ensures forall k: string :: Has(Without(flows, id), k) <==> k != id && Has(flows, k)
    ensures Distinct(flows) ==> Distinct(Without(flows, id))
    ensures forall e :: e in flows && e.0 != id ==> e in Without(flows, id)
  {
    if flows != [] {
      WithoutLaws(flows[1..], id);
      var r := Without(flows, id);
      forall k: string ensures Has(flows, k) <==> flows[0].0 == k || Has(flows[1..], k) {
        HasCons(flows, k);
      }
      if flows[0].0 != id {
        assert r[1..] == Without(flows[1..], id);
        forall k: string ensures Has(r, k) <==> r[0].0 == k || Has(r[1..], k) {
          HasCons(r, k);
        }
      }
      if Distinct(flows) {
        if flows[0].0 != id {
          DistinctFromCons(r);
        }
      }
    }
  }

  lemma {:induction false} UnexpiredLaws(flows: Flows, now: int)
    ensures forall e :: e in Unexpired(flows, now) <==> e in flows && !Expired(e.1, now)
    ensures Distinct(flows) ==> Distinct(Unexpired(flows, now))
    ensures forall k: string :: Has(Unexpired(flows, now), k) ==> Has(flows, k)
  {
    if flows != [] {
      UnexpiredLaws(flows[1..], now);
      var r := Unexpired(flows, now);
      forall k: string ensures Has(flows, k) <==> flows[0].0 == k || Has(flows[1..], k) {
        HasCons(flows, k);
      }
      if !Expired(flows[0].1, now) {
        assert r[1..] == Unexpired(flows[1..], now);
        forall k: string ensures Has(r, k) <==> r[0].0 == k || Has(r[1..], k) {
          HasCons(r, k);
        }
      }
      if Distinct(flows) {
        if !Expired(flows[0].1, now) {
          DistinctFromCons(r);
        }
      }
    }
  }

  lemma {:induction false} StampedLaws(flows: Flows, version: nat)
    ensures |Stamped(flows, version)| == |flows|
    ensures forall i :: 0 <= i < |flows| ==>
              Stamped(flows, version)[i] == (flows[i].0, flows[i].1.(version := version))
  {
    if flows != [] {
      StampedLaws(flows[1..], version);
    }
  }

  // ------------------------------------------------------------ the writes

  datatype Task =
    | Set(id: string, body: string, ttlSeconds: Requested, expected: Option<nat>)
    | Clear(id: string, expected: Option<nat>)

  datatype Outcome = Done | Conflict | NothingToDo

  function VersionOf(s: Option<Session>): nat {
    if s.Some? then s.value.version else 0
  }

  predicate Stale(s: Option<Session>, expected: Option<nat>) {
    expected.Some? && expected.value != VersionOf(s)
  }

  /** Time to live: seconds clamped to [1, 86400], 300 when not a finite number. */
  function TtlMs(ttlSeconds: Requested): real {
    if !ttlSeconds.Finite? then 300_000.0
    else if ttlSeconds.value < 1.0 then 1000.0
    else if ttlSeconds.value > 86_400.0 then 86_400_000.0
    else ttlSeconds.value * 1000.0
  }

  /** The session a clear goes on to write, or to delete when it has no flow left. */
  function Cleared(s: Session, id: string): Session {
    var rest := s.(flows := Without(s.flows, id));
    if s.active == Some(id) then Fallback(rest) else rest
  }

  /** What a task makes of the session it has read, and how it ends. A session
      left without flows is deleted. */
  function Effect(task: Task, now: int, s: Option<Session>): (Option<Session>, Outcome) {
    match task
    case Set(id, body, ttlSeconds, expected) =>
      if Stale(s, expected) then (s, Conflict)
      else
        var session := if s.Some? then s.value else Session(None, [], 0);
        var next := Flow(body, Some(now as real + TtlMs(ttlSeconds)), 0);
        (Some(Written(Pruned(Session(Some(id), Put(session.flows, id, next), session.version), now))), Done)
    case Clear(id, expected) =>
      if s.None? || !Has(s.value.flows, id) then (s, NothingToDo)
      else if Stale(s, expected) then (s, Conflict)
      else
        var session := Cleared(s.value, id);
        (if session.flows == [] then None else Some(Written(session)), Done)
  }

  /** The active flow is none exactly when no flow is left, and else is one of
      the flows. */
  ghost predicate ActiveIsLive(s: Session) {
    && Distinct(s.flows)
    && (s.active.None? <==> s.flows == [])
    && (s.active.Some? ==> Has(s.flows, s.active.value))
  }

  ghost predicate Sound(s: Option<Session>) {
    s.Some? ==> s.value.flows != [] && ActiveIsLive(s.value)
  }

  lemma WrittenIsLive(s: Session)
    requires ActiveIsLive(s)
    ensures ActiveIsLive(Written(s)) && |Written(s).flows| == |s.flows|
    ensures forall i :: 0 <= i < |s.flows| ==> Written(s).flows[i].1.version == s.version + 1
  {
    StampedLaws(s.flows, s.version + 1);
    if s.active.Some? {
      var i :| 0 <= i < |s.flows| && s.flows[i].0 == s.active.value;
      assert Written(s).flows[i].0 == s.active.value;
    }
  }

  /** What a set makes of the flows it found. */
  function SetFlows(task: Task, now: int, flows: Flows): Flows
    requires task.Set?
  {
    Unexpired(Put(flows, task.id, Flow(task.body, Some(now as real + TtlMs(task.ttlSeconds)), 0)), now)
  }

  lemma SetKeepsOwnFlow(task: Task, now: int, flows: Flows)
    requires task.Set? && Distinct(flows)
    ensures Distinct(SetFlows(task, now, flows)) && Has(SetFlows(task, now, flows), task.id)
    ensures forall k: string :: Has(SetFlows(task, now, flows), k) ==> k == task.id || Has(flows, k)
    ensures (task.id, Flow(task.body, Some(now as real + TtlMs(task.ttlSeconds)), 0)) in SetFlows(task, now, flows)
    ensures forall e: (string, Flow) :: e.0 != task.id ==> (e in SetFlows(task, now, flows) <==> e in flows && LiveUntil(e.1, now))
  {
    var next := Flow(task.body, Some(now as real + TtlMs(task.ttlSeconds)), 0);
    PutLaws(flows, task.id, next);
    UnexpiredLaws(Put(flows, task.id, next), now);
    var live := SetFlows(task, now, flows);
    assert (task.id, next) in live;
    var i :| 0 <= i < |live| && live[i] == (task.id, next);
    assert live[i].0 == task.id;
  }

  lemma SetResult(task: Task, now: int, s: Option<Session>)
    requires task.Set? && !Stale(s, task.expected) && (s.Some? ==> Distinct(s.value.flows))
    ensures Effect(task, now, s) ==
            (Some(Written(Session(Some(task.id), SetFlows(task, now, if s.Some? then s.value.flows else []), VersionOf(s)))), Done)
  {
    SetKeepsOwnFlow(task, now, if s.Some? then s.value.flows else []);
  }

  lemma WrittenSameIds(s: Session, k: string)
    ensures Has(Written(s).flows, k) <==> Has(s.flows, k)
  {
    StampedLaws(s.flows, s.version + 1);
  }

  function Restamped(e: (string, Flow), version: nat): (string, Flow) {
    (e.0, e.1.(version := version))
  }

  lemma StampedMember(flows: Flows, version: nat, e: (string, Flow))
    requires e in flows
    ensures Restamped(e, version) in Stamped(flows, version)
  {
  }

  lemma WrittenKeeps(s: Session)
    ensures forall k: string :: Has(Written(s).flows, k) <==> Has(s.flows, k)
    ensures forall e :: e in s.flows ==> Restamped(e, s.version + 1) in Written(s).flows
    ensures forall e :: e in Written(s).flows ==> exists f :: f in s.flows && e == Restamped(f, s.version + 1)
  {
    StampedLaws(s.flows, s.version + 1);
    forall k: string ensures Has(Written(s).flows, k) <==> Has(s.flows, k) {
      WrittenSameIds(s, k);
    }
    forall e | e in s.flows ensures Restamped(e, s.version + 1) in Written(s).flows {
      StampedMember(s.flows, s.version + 1, e);
    }
    forall e | e in Written(s).flows ensures exists f :: f in s.flows && e == Restamped(f, s.version + 1) {
      var i :| 0 <= i < |s.flows| && Written(s).flows[i] == e;
      assert s.flows[i] in s.flows;
    }
  }

  ghost predicate LiveUntil(flow: Flow, now: int) {
    flow.expiresAt.Some? && now as real <= flow.expiresAt.value
  }

  /** Of the flows other than `id` those are kept that have not expired, and no more. */
  ghost predicate KeepsOthers(before: Flows, after: Flows, id: string, now: int, version: nat) {
    && (forall e :: e in before && e.0 != id && LiveUntil(e.1, now) ==> Restamped(e, version) in after)
    && (forall e :: e in after && e.0 != id ==> exists f :: f in before && LiveUntil(f.1, now) && e == Restamped(f, version))
  }

  /** A flow lives for the seconds asked for, at least one and at most a day, and for
      five minutes when no number is given. */
  ghost predicate ExpiresAsAsked(at: real, now: int, ttlSeconds: Requested) {
    && (!ttlSeconds.Finite? ==> at == now as real + 300_000.0)
    && (ttlSeconds.Finite? && ttlSeconds.value < 1.0 ==> at == now as real + 1000.0)
    && (ttlSeconds.Finite? && 1.0 <= ttlSeconds.value <= 86_400.0 ==> at == now as real + 1000.0 * ttlSeconds.value)
    && (ttlSeconds.Finite? && ttlSeconds.value > 86_400.0 ==> at == now as real + 86_400_000.0)
  }

  /** The flow a set writes. */
  ghost predicate NewFlow(task: Task, now: int, flow: Flow, version: nat)
    requires task.Set?
  {
    && flow.body == task.body && flow.version == version
    && flow.expiresAt.Some? && ExpiresAsAsked(flow.expiresAt.value, now, task.ttlSeconds)
  }

  /** A set that goes through makes its flow the active one, with the expiry asked for,
      and of the others keeps exactly the unexpired, whatever it found. */
  lemma SetActivates(task: Task, now: int, s: Option<Session>)
    requires task.Set? && !Stale(s, task.expected) && (s.Some? ==> Distinct(s.value.flows))
    ensures var r := Effect(task, now, s);
            && r.1 == Done && r.0.Some? && Sound(r.0)
            && r.0.value.active == Some(task.id) && r.0.value.version == VersionOf(s) + 1
            && (exists flow :: (task.id, flow) in r.0.value.flows && NewFlow(task, now, flow, VersionOf(s) + 1))
            && KeepsOthers(if s.Some? then s.value.flows else [], r.0.value.flows, task.id, now, VersionOf(s) + 1)
  {
    var flows := if s.Some? then s.value.flows else [];
    SetResult(task, now, s);
    var pruned := Session(Some(task.id), SetFlows(task, now, flows), VersionOf(s));
    assert ActiveIsLive(pruned) && pruned.flows != [] by { SetKeepsOwnFlow(task, now, flows); }
    WrittenIsLive(pruned);
    SetWritten(task, now, flows, pruned);
  }

  lemma SetWritten(task: Task, now: int, flows: Flows, pruned: Session)
    requires task.Set? && Distinct(flows) && pruned.flows == SetFlows(task, now, flows)
    ensures exists flow :: (task.id, flow) in Written(pruned).flows && NewFlow(task, now, flow, pruned.version + 1)
    ensures KeepsOthers(flows, Written(pruned).flows, task.id, now, pruned.version + 1)
  {
    SetKeepsOwnFlow(task, now, flows);
    WrittenKeeps(pruned);
    var next := (task.id, Flow(task.body, Some(now as real + TtlMs(task.ttlSeconds)), 0));
    var written := Restamped(next, pruned.version + 1);
    assert written in Written(pruned).flows && NewFlow(task, now, written.1, pruned.version + 1);
  }

  /** A flow is still there after a later set of another exactly up to its expiry. */
  lemma FlowLivesExactly(s: Session, id: string, flow: Flow, other: Task, later: int)
    requires Distinct(s.flows) && (id, flow) in s.flows
    requires other.Set? && other.id != id && !Stale(Some(s), other.expected)
    ensures var after := Effect(other, later, Some(s)).0;
            && after.Some?
            && (Has(after.value.flows, id) <==> flow.expiresAt.Some? && later as real <= flow.expiresAt.value)
            && (Has(after.value.flows, id) ==> (id, flow.(version := s.version + 1)) in after.value.flows)
  {
    SetActivates(other, later, Some(s));
    var after := Effect(other, later, Some(s)).0.value.flows;
    if LiveUntil(flow, later) {
      var e := Restamped((id, flow), s.version + 1);
      assert e in after;
      var i :| 0 <= i < |after| && after[i] == e;
      assert after[i].0 == id;
    }
    if Has(after, id) {
      var i :| 0 <= i < |after| && after[i].0 == id;
      assert after[i] in after;
      var f :| f in s.flows && LiveUntil(f.1, later) && after[i] == Restamped(f, s.version + 1);
      assert f == (id, flow);
    }
  }

  lemma ClearedIsLive(s: Session, id: string)
    requires s.flows != [] && ActiveIsLive(s)
    ensures Cleared(s, id).flows == Without(s.flows, id) && Cleared(s, id).version == s.version
    ensures Cleared(s, id).flows != [] ==> ActiveIsLive(Cleared(s, id))
    ensures s.active != Some(id) ==> Cleared(s, id).active == s.active
  {
    WithoutLaws(s.flows, id);
  }

  /** A clear that goes through removes its flow and nothing else. */
  lemma ClearRemoves(task: Task, now: int, s: Option<Session>)
    requires task.Clear? && Sound(s) && s.Some? && Has(s.value.flows, task.id) && !Stale(s, task.expected)
    ensures var r := Effect(task, now, s);
            && r.1 == Done && Sound(r.0)
            && (r.0.Some? ==> r.0.value.version == VersionOf(s) + 1)
            && (r.0.Some? && s.value.active != Some(task.id) ==> r.0.value.active == s.value.active)
    ensures var r := Effect(task, now, s).0;
            && (r.None? ==> forall k: string :: Has(s.value.flows, k) ==> k == task.id)
            && (r.Some? ==> ClearedExactly(s.value.flows, r.value.flows, task.id, VersionOf(s) + 1))
  {
    ClearedIsLive(s.value, task.id);
    if Cleared(s.value, task.id).flows == [] {
      OnlyOne(s.value.flows, task.id);
    } else {
      WrittenIsLive(Cleared(s.value, task.id));
      ClearedWritten(s.value, task.id);
    }
  }

  lemma OnlyOne(flows: Flows, id: string)
    requires Without(flows, id) == []
    ensures forall k: string :: Has(flows, k) ==> k == id
  {
    WithoutLaws(flows, id);
    assert forall k: string :: !Has([], k);
  }

  lemma ClearedWritten(s: Session, id: string)
    requires Cleared(s, id).flows == Without(s.flows, id) && Cleared(s, id).version == s.version
    ensures ClearedExactly(s.flows, Written(Cleared(s, id)).flows, id, s.version + 1)
  {
    WithoutLaws(s.flows, id);
    WrittenKeeps(Cleared(s, id));
  }

  lemma {:induction false} WithoutAll(flows: Flows, id: string)
    requires forall k: string :: Has(flows, k) ==> k == id
    ensures Without(flows, id) == []
  {
    if flows != [] {
      forall k: string | Has(flows[1..], k) ensures k == id {
        HasCons(flows, k);
      }
      HasCons(flows, flows[0].0);
      WithoutAll(flows[1..], id);
    }
  }

  ghost predicate ClearedExactly(before: Flows, after: Flows, id: string, version: nat) {
    && (forall k: string :: Has(after, k) <==> k != id && Has(before, k))
    && (forall e :: e in before && e.0 != id ==> Restamped(e, version) in after)
  }

  /** Every write leaves a sound session, and while the session is not deleted
      each one that goes through raises the version by one. */
  lemma EffectKeepsSound(task: Task, now: int, s: Option<Session>)
    requires Sound(s)
    ensures Sound(Effect(task, now, s).0)
    ensures Effect(task, now, s).1 == Done && Effect(task, now, s).0.Some? ==>
              VersionOf(Effect(task, now, s).0) == VersionOf(s) + 1
    ensures Effect(task, now, s).1 != Done ==> Effect(task, now, s).0 == s
  {
    match task {
      case Set(_, _, _, expected) =>
        if !Stale(s, expected) { SetActivates(task, now, s); }
      case Clear(id, expected) =>
        if s.Some? && Has(s.value.flows, id) && !Stale(s, expected) { ClearRemoves(task, now, s); }
    }
  }

  // ------------------------------------------------------------ the mutable session

  class UserSession {
    var activeFlow: Option<string>
    var flows: Flows
    var version: nat

    ghost function Value(): Session
      reads this
    {
      Session(activeFlow, flows, version)
    }

    constructor (s: Session)
      ensures Value() == s
    {
      activeFlow, flows, version := s.active, s.flows, s.version;
    }

    method SelectFallbackActiveFlow()
      modifies this`activeFlow
      ensures Value() == Fallback(old(Value()))
      ensures activeFlow == if old(activeFlow).Some? && Has(flows, old(activeFlow).value) then old(activeFlow)
                            else if flows == [] then None else Some(flows[|flows| - 1].0)
    {
      if activeFlow.Some? && Has(flows, activeFlow.value) { return; }
      activeFlow := if flows == [] then None else Some(flows[|flows| - 1].0);
    }

    /** Deleting expired flows one by one comes to keeping the unexpired ones. */
    method PruneExpiredFlows(now: int) returns (changed: bool)
      requires Distinct(flows)
      modifies this`activeFlow, this`flows
      ensures Value() == Pruned(old(Value()), now)
      ensures changed <==> SomeExpired(old(flows), now)
      ensures forall e: (string, Flow) :: e in flows <==> e in old(flows) && LiveUntil(e.1, now)
    {
      changed := false;
      var entries := flows;
      ghost var was := Value();
      assert entries[0..] == entries;
      for i := 0 to |entries|
        invariant Round(entries[i..], now, Value(), changed) == Round(entries, now, was, false)
      {
        var (flowId, flow) := entries[i];
        assert entries[i..][1..] == entries[i + 1..];
        if Expired(flow, now) {
          flows := Without(flows, flowId);
          if activeFlow == Some(flowId) { activeFlow := None; }
          changed := true;
        }
      }
      RoundsPrune(entries, 0, now, was, was, false);
      PrunedKeepsUnexpired(was, now);
      SelectFallbackActiveFlow();
    }

    /** A write counts up and stamps the version. */
    method CountVersion()
      modifies this`flows, this`version
      ensures Value() == Written(old(Value()))
      ensures version == old(version) + 1 && |flows| == |old(flows)|
      ensures forall i :: 0 <= i < |flows| ==>
                flows[i].0 == old(flows)[i].0 && flows[i].1 == old(flows)[i].1.(version := version)
    {
      version := version + 1;
      StampedLaws(flows, version);
      flows := Stamped(flows, version);
    }
  }

  lemma PrunedKeepsUnexpired(s: Session, now: int)
    ensures forall e: (string, Flow) :: e in Pruned(s, now).flows <==> e in s.flows && LiveUntil(e.1, now)
  {
    UnexpiredLaws(s.flows, now);
  }

  lemma {:induction false} UnexpiredSnoc(flows: Flows, e: (string, Flow), now: int)
    ensures Unexpired(flows + [e], now) ==
            if Expired(e.1, now) then Unexpired(flows, now) else Unexpired(flows, now) + [e]
  {
    if flows != [] {
      assert (flows + [e])[1..] == flows[1..] + [e];
      UnexpiredSnoc(flows[1..], e, now);
    } else {
      assert (flows + [e])[1..] == [];
    }
  }

  lemma HasSnoc(flows: Flows, e: (string, Flow), k: string)
    ensures Has(flows + [e], k) <==> Has(flows, k) || e.0 == k
  {
    if Has(flows, k) {
      var i :| 0 <= i < |flows| && flows[i].0 == k;
      assert (flows + [e])[i].0 == k;
    }
    assert (flows + [e])[|flows|].0 == e.0;
  }

  /** The state of the pruning loop after `i` rounds. */
  ghost predicate PrunedTo(entries: Flows, i: nat, now: int, was: Session, s: Session, changed: bool) {
    && i <= |entries|
    && s.flows == Unexpired(entries[..i], now) + entries[i..]
    && s.active == Surviving(was.active, entries[..i], now)
    && s.version == was.version
    && (changed <==> SomeExpired(entries[..i], now))
  }

  function OneDropped(e: (string, Flow), now: int, s: Session): Session {
    if !Expired(e.1, now) then s
    else Session(if s.active == Some(e.0) then None else s.active, Without(s.flows, e.0), s.version)
  }

  /** The pruning loop, one entry a round. */
  function Round(entries: Flows, now: int, s: Session, changed: bool): (Session, bool) {
    if entries == [] then (s, changed)
    else Round(entries[1..], now, OneDropped(entries[0], now, s), changed || Expired(entries[0].1, now))
  }

  lemma {:induction false} RoundsPrune(entries: Flows, i: nat, now: int, was: Session, s: Session, changed: bool)
    requires i <= |entries| && was.flows == entries && Distinct(entries)
    requires PrunedTo(entries, i, now, was, s, changed)
    ensures Fallback(Round(entries[i..], now, s, changed).0) == Pruned(was, now)
    ensures Round(entries[i..], now, s, changed).1 <==> SomeExpired(entries, now)
    decreases |entries| - i
  {
    if i == |entries| {
      PruneEnd(entries, now, was, s, changed);
    } else {
      PruneStep(entries, i, now, was, s, changed);
      assert entries[i..][1..] == entries[i + 1..];
      RoundsPrune(entries, i + 1, now, was, OneDropped(entries[i], now, s), changed || Expired(entries[i].1, now));
    }
  }

  /** One round of the pruning loop. */
  lemma PruneStep(entries: Flows, i: nat, now: int, was: Session, s: Session, changed: bool)
    requires i < |entries| && Distinct(entries) && PrunedTo(entries, i, now, was, s, changed)
    ensures PrunedTo(entries, i + 1, now, was, OneDropped(entries[i], now, s), changed || Expired(entries[i].1, now))
  {
    var r := OneDropped(entries[i], now, s);
    assert r.flows == Unexpired(entries[..i + 1], now) + entries[i + 1..] by { FlowsStep(entries, i, now); }
    assert r.active == Surviving(was.active, entries[..i + 1], now) by { ActiveStep(was.active, entries, i, now); }
    assert entries[..i + 1] == entries[..i] + [entries[i]];
    SomeExpiredSnoc(entries[..i], entries[i], now);
  }

  lemma FlowsStep(entries: Flows, i: nat, now: int)
    requires i < |entries| && Distinct(entries)
    ensures Unexpired(entries[..i + 1], now) + entries[i + 1..] ==
            var flows := Unexpired(entries[..i], now) + entries[i..];
            if Expired(entries[i].1, now) then Without(flows, entries[i].0) else flows
  {
    assert entries[..i + 1] == entries[..i] + [entries[i]];
    DropOne(entries, i, now);
    UnexpiredSnoc(entries[..i], entries[i], now);
  }

  lemma ActiveStep(active: Option<string>, entries: Flows, i: nat, now: int)
    requires i < |entries| && Distinct(entries)
    ensures Surviving(active, entries[..i + 1], now) ==
            var was := Surviving(active, entries[..i], now);
            if Expired(entries[i].1, now) && was == Some(entries[i].0) then None else was
  {
    assert entries[..i + 1] == entries[..i] + [entries[i]];
    DropOne(entries, i, now);
    SurvivingSnoc(active, entries[..i], entries[i], now);
  }

  lemma PruneEnd(entries: Flows, now: int, was: Session, s: Session, changed: bool)
    requires PrunedTo(entries, |entries|, now, was, s, changed) && was.flows == entries
    ensures Fallback(s) == Pruned(was, now) && (changed <==> SomeExpired(entries, now))
  {
    assert entries[..|entries|] == entries;
    assert s.flows == Unexpired(entries, now);
    assert s == Session(Surviving(was.active, entries, now), Unexpired(entries, now), was.version);
  }

  lemma SurvivingSnoc(active: Option<string>, front: Flows, e: (string, Flow), now: int)
    requires !Has(front, e.0) && !Has(Unexpired(front, now), e.0)
    ensures Surviving(active, front + [e], now) ==
            var was := Surviving(active, front, now);
            if Expired(e.1, now) && was == Some(e.0) then None else was
  {
    if active.Some? {
      UnexpiredSnoc(front, e, now);
      HasSnoc(front, e, active.value);
      HasSnoc(Unexpired(front, now), e, active.value);
    }
  }

  lemma SomeExpiredSnoc(front: Flows, e: (string, Flow), now: int)
    ensures SomeExpired(front + [e], now) <==> SomeExpired(front, now) || Expired(e.1, now)
  {
    var all := front + [e];
    assert all[|front|] == e;
    if SomeExpired(front, now) {
      var i :| 0 <= i < |front| && Expired(front[i].1, now);
      assert all[i] == front[i];
    }
  }

  /** Deleting entry `i` leaves the rest where it is. */
  lemma DropOne(entries: Flows, i: nat, now: int)
    requires i < |entries| && Distinct(entries)
    ensures var front := Unexpired(entries[..i], now);
            Without(front + entries[i..], entries[i].0) == front + entries[i + 1..]
    ensures !Has(Unexpired(entries[..i], now), entries[i].0) && !Has(entries[..i], entries[i].0)
  {
    UnexpiredLaws(entries[..i], now);
    var front, id := Unexpired(entries[..i], now), entries[i].0;
    assert !Has(entries[..i], id);
    assert !Has(entries[i + 1..], id) by {
    }
    WithoutConcat(front, entries[i..], id);
    WithoutAbsent(front, id);
    assert entries[i..][1..] == entries[i + 1..];
    WithoutAbsent(entries[i + 1..], id);
  }

  lemma {:induction false} WithoutConcat(a: Flows, b: Flows, id: string)
    ensures Without(a + b, id) == Without(a, id) + Without(b, id)
  {
    if a == [] {
      assert a + b == b;
    } else {
      assert (a + b)[1..] == a[1..] + b;
      WithoutConcat(a[1..], b, id);
    }
  }

  lemma {:induction false} WithoutAbsent(flows: Flows, id: string)
    requires !Has(flows, id)
    ensures Without(flows, id) == flows
  {
    if flows != [] {
      HasCons(flows, id);
      WithoutAbsent(flows[1..], id);
    }
  }
}
