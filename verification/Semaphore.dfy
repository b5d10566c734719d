/**
 The cancellable semaphore (src/providers/semaphore.ts): permits, and a queue of
 waiters that settle when permits come back or when their signal aborts.
 */
module Semaphore {
  import opened Prelude

  type Id = nat

  datatype Waiter = Waiter(id: Id, permits: nat)

  /** Outcome of an `acquire` call: granted at once, queued, or thrown. */
  datatype Acquired = Granted | Queued | InvalidCount | AlreadyAborted

  datatype SemaphoreError = ReleaseExceedsAcquired

  predicate IsValidPermitCount(permits: int) {
    0 < permits <= MAX_SAFE_INTEGER
  }

  /** Permits available and used, and the queue. */
  datatype State = State(available: nat, used: nat, waiters: seq<Waiter>)

  /** The queue is served from its head while the head fits. */
  function Drained(s: State): (State, seq<Waiter>)
    decreases |s.waiters|
  {
    if s.waiters == [] || s.waiters[0].permits > s.available then (s, [])
    else
      var w := s.waiters[0];
      var (t, granted) := Drained(State(s.available - w.permits, s.used + w.permits, s.waiters[1..]));
      (t, [w] + granted)
  }

  function PermitsOf(ws: seq<Waiter>): nat {
    if ws == [] then 0 else ws[0].permits + PermitsOf(ws[1..])
  }

  /** Draining takes the longest prefix of the queue whose permits fit one after
      another, and moves exactly those permits. */
  lemma {:induction false} DrainTakesPrefix(s: State)
    ensures var (t, granted) := Drained(s);
            && s.waiters == granted + t.waiters
            && t.available == s.available - PermitsOf(granted) && t.used == s.used + PermitsOf(granted)
            && (t.waiters == [] || t.waiters[0].permits > t.available)
    decreases |s.waiters|
  {
    if s.waiters != [] && s.waiters[0].permits <= s.available {
      var w := s.waiters[0];
      var next := State(s.available - w.permits, s.used + w.permits, s.waiters[1..]);
      DrainTakesPrefix(next);
      var granted := Drained(next).1;
      assert ([w] + granted)[1..] == granted;
      assert s.waiters == [w] + s.waiters[1..];
    }
  }

  function WithoutId(ws: seq<Waiter>, id: Id): (r: seq<Waiter>) {
    if ws == [] then [] else if ws[0].id == id then ws[1..] else [ws[0]] + WithoutId(ws[1..], id)
  }

  /** It drops the first waiter with the id, if there is one. */
  lemma {:induction false} WithoutIdAt(ws: seq<Waiter>, i: nat, id: Id)
    requires i <= |ws| && (forall j :: 0 <= j < i ==> ws[j].id != id) && (i < |ws| ==> ws[i].id == id)
    ensures WithoutId(ws, id) == if i < |ws| then ws[..i] + ws[i + 1..] else ws
    decreases i
  {
    if i > 0 {
      WithoutIdAt(ws[1..], i - 1, id);
      if i < |ws| {
        assert ws[..i] == [ws[0]] + ws[1..][..i - 1] && ws[i + 1..] == ws[1..][i..];
      }
    }
  }

  predicate Waiting(ws: seq<Waiter>, id: Id) {
    exists i :: 0 <= i < |ws| && ws[i].id == id
  }

  class CancellableSemaphore {
    const capacity: nat
    var available: nat
    var used: nat
    var waiters: seq<Waiter>

    ghost function Value(): State
      reads this
    {
      State(available, used, waiters)
    }

    ghost predicate Valid()
      reads this
    {
      available + used == capacity
    }

    constructor (capacity: nat)
      requires IsValidPermitCount(capacity)
      ensures Valid() && this.capacity == capacity && Value() == State(capacity, 0, [])
    {
      this.capacity := capacity;
      available, used, waiters := capacity, 0, [];
    }

    method TryAcquire(permits: int) returns (ok: bool)
      requires Valid()
      modifies this`available, this`used
      ensures Valid()
      ensures ok <==> 1 <= permits <= MAX_SAFE_INTEGER && permits <= old(available)
      ensures Value() == if ok then old(Value()).(available := old(available) - permits, used := old(used) + permits)
                         else old(Value())
    {
      if !IsValidPermitCount(permits) || permits > available { return false; }
      available, used := available - permits, used + permits;
      return true;
    }

    method Acquire(id: Id, permits: int, aborted: bool) returns (r: Acquired)
      requires Valid()
      modifies this
      ensures Valid()
      ensures (Value(), r) == AcquiredState(old(Value()), id, permits, aborted)
      ensures r == (if permits < 1 || permits > MAX_SAFE_INTEGER then InvalidCount
                    else if permits <= old(available) then Granted
                    else if aborted then AlreadyAborted else Queued)
      ensures available == old(available) - (if r == Granted then permits else 0)
      ensures waiters == old(waiters) + (if r == Queued then [Waiter(id, permits)] else [])
    {
      var immediate := TryAcquire(permits);
      if immediate { return Granted; }
      if !IsValidPermitCount(permits) { return InvalidCount; }
      if aborted { return AlreadyAborted; }
      waiters := waiters + [Waiter(id, permits)];
      return Queued;
    }

    /** The abort listener of a queued waiter. */
    method Abort(id: Id) returns (rejected: bool)
      requires Valid()
      modifies this`waiters
      ensures Valid()
      ensures rejected <==> exists i :: 0 <= i < |old(waiters)| && old(waiters)[i].id == id
      ensures if rejected
              then exists i :: 0 <= i < |old(waiters)| && old(waiters)[i].id == id && waiters == old(waiters)[..i] + old(waiters)[i + 1..]
              else waiters == old(waiters)
      ensures Value() == old(Value()).(waiters := WithoutId(old(waiters), id))
    {
      var i := 0;
      while i < |waiters| && waiters[i].id != id
        invariant 0 <= i <= |waiters|
        invariant forall j :: 0 <= j < i ==> waiters[j].id != id
      {
        i := i + 1;
      }
      rejected := i < |waiters|;
      WithoutIdAt(waiters, i, id);
      if rejected {
        waiters := waiters[..i] + waiters[i + 1..];
      }
    }

    method Release(permits: int) returns (r: Result<seq<Waiter>, SemaphoreError>)
      requires Valid()
      modifies this
      ensures Valid()
      ensures r.Failure? <==> permits < 1 || permits > MAX_SAFE_INTEGER || permits > old(used)
      ensures r.Failure? ==> Value() == old(Value())
      ensures r.Success? ==>
                (Value(), r.value) ==
                Drained(State(old(available) + permits, old(used) - permits, old(waiters)))
      ensures r.Success? ==>
                && old(waiters) == r.value + waiters
                && available == old(available) + permits - PermitsOf(r.value) && used == old(used) - permits + PermitsOf(r.value)
                && (waiters == [] || waiters[0].permits > available)
    {
      if !IsValidPermitCount(permits) || permits > used { return Failure(ReleaseExceedsAcquired); }
      used, available := used - permits, available + permits;
      DrainTakesPrefix(Value());
      var granted := Drain();
      return Success(granted);
    }

    method Drain() returns (granted: seq<Waiter>)
      requires Valid()
      modifies this
      ensures Valid()
      ensures (Value(), granted) == Drained(old(Value()))
    {
      granted := [];
      assert [] + Drained(Value()).1 == Drained(Value()).1;
      while |waiters| > 0
        invariant Valid()
        invariant Drained(old(Value())) == (Drained(Value()).0, granted + Drained(Value()).1)
        decreases |waiters|
      {
        var waiter := waiters[0];
        if waiter.permits > available { break; }
        ghost var rest := Drained(State(available - waiter.permits, used + waiter.permits, waiters[1..])).1;
        assert granted + ([waiter] + rest) == (granted + [waiter]) + rest;
        waiters := waiters[1..];
        available, used := available - waiter.permits, used + waiter.permits;
        granted := granted + [waiter];
      }
      assert granted + [] == granted;
    }
  }

  function AcquiredState(s: State, id: Id, permits: int, aborted: bool): (State, Acquired) {
    if IsValidPermitCount(permits) && permits <= s.available
    then (s.(available := s.available - permits, used := s.used + permits), Granted)
    else if !IsValidPermitCount(permits) then (s, InvalidCount)
    else if aborted then (s, AlreadyAborted)
    else (s.(waiters := s.waiters + [Waiter(id, permits)]), Queued)
  }
}

/** Runs of the semaphore: any sequence of acquires, aborts and releases, of
    whatever counts. */
module SemaphoreRuns {
  import opened Prelude
  import opened Semaphore

  datatype Op =
    | Acquire(permits: int, aborted: bool)
    | Abort(id: Id)
    | Release(permits: int)

  datatype Outcome = GrantedNow | GrantedQueued | Thrown | AbortedWaiting

  datatype Settlement = Settlement(id: Id, outcome: Outcome)

  /** `next` numbers the acquire calls, so ids are in call order; `granted` and
      `released` count all permits ever granted and released; `log` is what
      settled, in order. */
  datatype World = World(sem: State, next: Id, granted: nat, released: nat, log: seq<Settlement>)

  function Start(capacity: nat): World {
    World(State(capacity, 0, []), 0, 0, 0, [])
  }

  /** A count that is no permit count, or more than is used, throws. */
  predicate Releases(w: World, permits: int) {
    IsValidPermitCount(permits) && permits <= w.sem.used
  }

  function SettleAll(ws: seq<Waiter>): seq<Settlement> {
    seq(|ws|, i requires 0 <= i < |ws| => Settlement(ws[i].id, GrantedQueued))
  }

  function Step(w: World, op: Op): World {
    match op
    case Acquire(permits, aborted) =>
      var (s, r) := AcquiredState(w.sem, w.next, permits, aborted);
      World(s, w.next + 1,
            if r.Granted? then w.granted + permits else w.granted,
            w.released,
            if r.Granted? then w.log + [Settlement(w.next, GrantedNow)]
            else if r.Queued? then w.log
            else w.log + [Settlement(w.next, Thrown)])
    case Abort(id) =>
      if Waiting(w.sem.waiters, id)
      then w.(sem := w.sem.(waiters := WithoutId(w.sem.waiters, id)), log := w.log + [Settlement(id, AbortedWaiting)])
      else w
    case Release(permits) =>
      if !Releases(w, permits) then w
      else
        var (s, granted) := Drained(State(w.sem.available + permits, w.sem.used - permits, w.sem.waiters));
        World(s, w.next, w.granted + PermitsOf(granted), w.released + permits, w.log + SettleAll(granted))
  }

  function Run(w: World, ops: seq<Op>): World
    decreases |ops|
  {
    if ops == [] then w else Run(Step(w, ops[0]), ops[1..])
  }

  // ------------------------------------------------------------ the invariant

  ghost predicate SettledIn(log: seq<Settlement>, id: Id) {
    exists i :: 0 <= i < |log| && log[i].id == id
  }

  /** Permits are conserved: what is used was granted and not released. */
  ghost predicate Conserved(capacity: nat, w: World) {
    && w.sem.available + w.sem.used == capacity
    && w.sem.used + w.released == w.granted
    && (forall i :: 0 <= i < |w.sem.waiters| ==> w.sem.waiters[i].permits > 0)
  }

  /** A call settles at most once, and not while it waits. */
  ghost predicate SettlesOnce(w: World) {
    && (forall i :: 0 <= i < |w.log| ==> w.log[i].id < w.next)
    && (forall i, j :: 0 <= i < j < |w.log| ==> w.log[i].id != w.log[j].id)
    && (forall i :: 0 <= i < |w.sem.waiters| ==> w.sem.waiters[i].id < w.next && !SettledIn(w.log, w.sem.waiters[i].id))
  }

  /** Every call has settled or is waiting. */
  ghost predicate NoneLost(w: World) {
    forall id :: 0 <= id < w.next ==> SettledIn(w.log, id) || Waiting(w.sem.waiters, id)
  }

  predicate QueuedGrant(s: Settlement) {
    s.outcome.GrantedQueued?
  }

  predicate Ascending(ids: seq<Id>) {
    forall i, j :: 0 <= i < j < |ids| ==> ids[i] < ids[j]
  }

  function IdsOf(ws: seq<Waiter>): (ids: seq<Id>)
    ensures |ids| == |ws| && forall i :: 0 <= i < |ws| ==> ids[i] == ws[i].id
  {
    seq(|ws|, i requires 0 <= i < |ws| => ws[i].id)
  }

  /** The queued waiters that were granted, in the order of their grants. */
  function QueuedGrants(log: seq<Settlement>): seq<Id> {
    if log == [] then []
    else QueuedGrants(log[..|log| - 1]) + (if QueuedGrant(log[|log| - 1]) then [log[|log| - 1].id] else [])
  }

  /** The queued grants and then the queue are in call order. */
  ghost predicate Fifo(w: World) {
    Ascending(QueuedGrants(w.log) + IdsOf(w.sem.waiters))
  }

  lemma {:induction false} QueuedGrantsConcat(a: seq<Settlement>, b: seq<Settlement>)
    ensures QueuedGrants(a + b) == QueuedGrants(a) + QueuedGrants(b)
  {
    if b == [] {
      assert a + b == a;
    } else {
      var n := |b| - 1;
      assert (a + b)[..|a| + n] == a + b[..n] && (a + b)[|a| + n] == b[n];
      QueuedGrantsConcat(a, b[..n]);
    }
  }

  ghost predicate InOrder(w: World) {
    SettlesOnce(w) && NoneLost(w) && Fifo(w)
  }

  lemma WithoutIdSplits(ws: seq<Waiter>, id: Id) returns (i: nat)
    requires Waiting(ws, id)
    ensures i < |ws| && ws[i].id == id && WithoutId(ws, id) == ws[..i] + ws[i + 1..]
  {
    var k :| 0 <= k < |ws| && ws[k].id == id;
    i := 0;
    while ws[i].id != id
      invariant i <= k && forall j :: 0 <= j < i ==> ws[j].id != id
      decreases k - i
    {
      i := i + 1;
    }
    WithoutIdAt(ws, i, id);
  }

  lemma StepConserves(capacity: nat, w: World, op: Op)
    requires Conserved(capacity, w)
    ensures Conserved(capacity, Step(w, op))
  {
    match op {
      case Acquire(permits, aborted) =>
      case Abort(id) =>
        if Waiting(w.sem.waiters, id) {
          var i := WithoutIdSplits(w.sem.waiters, id);
        }
      case Release(permits) =>
        if Releases(w, permits) {
          ReleaseConserves(capacity, w, permits);
        }
    }
  }

  /** What a release does to the counters, the queue and the log: it serves the
      front of the queue. */
  lemma ReleaseEffect(w: World, permits: int) returns (granted: seq<Waiter>)
    requires Releases(w, permits)
    ensures var v := Step(w, Release(permits));
            && w.sem.waiters == granted + v.sem.waiters
            && v.granted == w.granted + PermitsOf(granted) && v.released == w.released + permits
            && v.sem.available == w.sem.available + permits - PermitsOf(granted)
            && v.sem.used == w.sem.used - permits + PermitsOf(granted)
            && (v.sem.waiters == [] || v.sem.waiters[0].permits > v.sem.available)
            && v.log == w.log + SettleAll(granted) && v.next == w.next
  {
    var s := State(w.sem.available + permits, w.sem.used - permits, w.sem.waiters);
    DrainTakesPrefix(s);
    granted := Drained(s).1;
  }

  lemma ReleaseConserves(capacity: nat, w: World, permits: int)
    requires Conserved(capacity, w) && Releases(w, permits)
    ensures Conserved(capacity, Step(w, Release(permits)))
  {
    var granted := ReleaseEffect(w, permits);
    var v := Step(w, Release(permits));
    assert forall i :: 0 <= i < |v.sem.waiters| ==> v.sem.waiters[i] == w.sem.waiters[|granted| + i];
  }

  lemma SettledMore(log: seq<Settlement>, more: seq<Settlement>, id: Id)
    ensures SettledIn(log + more, id) <==> SettledIn(log, id) || SettledIn(more, id)
  {
    forall i | 0 <= i < |log| && log[i].id == id ensures SettledIn(log + more, id) {
      assert (log + more)[i].id == id;
    }
    forall i | 0 <= i < |more| && more[i].id == id ensures SettledIn(log + more, id) {
      assert (log + more)[|log| + i].id == id;
    }
  }

  /** Moving the settlements `more` out of the queue keeps the bookkeeping. */
  lemma SettleKeepsOnce(w: World, v: World, more: seq<Settlement>)
    requires SettlesOnce(w) && v.log == w.log + more && w.next <= v.next
    requires forall i, j :: 0 <= i < j < |more| ==> more[i].id != more[j].id
    requires forall i :: 0 <= i < |more| ==> more[i].id < v.next && !SettledIn(w.log, more[i].id)
    requires forall i :: 0 <= i < |v.sem.waiters| ==>
               v.sem.waiters[i].id < v.next && !SettledIn(w.log, v.sem.waiters[i].id) && !SettledIn(more, v.sem.waiters[i].id)
    ensures SettlesOnce(v)
  {
  }

  lemma SettleKeepsAll(w: World, v: World, more: seq<Settlement>)
    requires NoneLost(w) && v.log == w.log + more
    requires forall id :: 0 <= id < w.next && Waiting(w.sem.waiters, id) ==> Waiting(v.sem.waiters, id) || SettledIn(more, id)
    requires forall id :: w.next <= id < v.next ==> Waiting(v.sem.waiters, id) || SettledIn(more, id)
    ensures NoneLost(v)
  {
    forall id | 0 <= id < v.next ensures SettledIn(v.log, id) || Waiting(v.sem.waiters, id) {
      SettledMore(w.log, more, id);
    }
  }

  lemma WaitingAt(ws: seq<Waiter>, i: nat)
    requires i < |ws|
    ensures Waiting(ws, ws[i].id)
  {
  }

  lemma SettledAt(log: seq<Settlement>, i: nat)
    requires i < |log|
    ensures SettledIn(log, log[i].id)
  {
  }

  /** What one acquire adds to the log. */
  function AcquireMore(w: World, permits: int, aborted: bool): seq<Settlement> {
    var r := AcquiredState(w.sem, w.next, permits, aborted).1;
    if r.Queued? then [] else [Settlement(w.next, if r.Granted? then GrantedNow else Thrown)]
  }

  lemma NotAmong(more: seq<Settlement>, id: Id)
    requires forall i :: 0 <= i < |more| ==> more[i].id != id
    ensures !SettledIn(more, id)
  {
  }

  lemma WaitersAreUnsettled(w: World, k: nat)
    requires SettlesOnce(w) && k < |w.sem.waiters|
    ensures w.sem.waiters[k].id < w.next && !SettledIn(w.log, w.sem.waiters[k].id)
  {
  }

  lemma AcquireOnce(w: World, permits: int, aborted: bool)
    requires SettlesOnce(w)
    ensures SettlesOnce(Step(w, Acquire(permits, aborted)))
  {
    var v := Step(w, Acquire(permits, aborted));
    var more := AcquireMore(w, permits, aborted);
    assert v.log == w.log + more;
    NextIsUnsettled(w);
    forall i | 0 <= i < |v.sem.waiters|
      ensures v.sem.waiters[i].id < v.next && !SettledIn(w.log, v.sem.waiters[i].id) && !SettledIn(more, v.sem.waiters[i].id)
    {
      if i < |w.sem.waiters| {
        WaitersAreUnsettled(w, i);
      }
      NotAmong(more, v.sem.waiters[i].id);
    }
    SettleKeepsOnce(w, v, more);
  }

  lemma NextIsUnsettled(w: World)
    requires SettlesOnce(w)
    ensures !SettledIn(w.log, w.next)
  {
  }

  lemma AcquireAll(w: World, permits: int, aborted: bool)
    requires NoneLost(w)
    ensures NoneLost(Step(w, Acquire(permits, aborted)))
  {
    var v := Step(w, Acquire(permits, aborted));
    var more := AcquireMore(w, permits, aborted);
    assert v.log == w.log + more;
    if more == [] {
      WaitingAt(v.sem.waiters, |w.sem.waiters|);
      forall id | Waiting(w.sem.waiters, id) ensures Waiting(v.sem.waiters, id) {
        var i :| 0 <= i < |w.sem.waiters| && w.sem.waiters[i].id == id;
        WaitingAt(v.sem.waiters, i);
      }
    } else {
      SettledAt(more, 0);
    }
    SettleKeepsAll(w, v, more);
  }

  lemma {:induction false} GrantsAreSettled(log: seq<Settlement>)
    ensures forall i :: 0 <= i < |QueuedGrants(log)| ==> SettledIn(log, QueuedGrants(log)[i])
  {
    if log != [] {
      var n := |log| - 1;
      GrantsAreSettled(log[..n]);
      assert log == log[..n] + [log[n]];
      SettledAt(log, n);
      forall i | 0 <= i < |QueuedGrants(log[..n])| ensures SettledIn(log, QueuedGrants(log)[i]) {
        SettledMore(log[..n], [log[n]], QueuedGrants(log[..n])[i]);
      }
    }
  }

  /** A settlement that is no queued grant leaves the grants alone. */
  lemma OtherSettlement(log: seq<Settlement>, s: Settlement)
    requires !QueuedGrant(s)
    ensures QueuedGrants(log + [s]) == QueuedGrants(log)
  {
    assert (log + [s])[..|log|] == log;
  }

  predicate Below(ids: seq<Id>, next: Id) {
    forall i :: 0 <= i < |ids| ==> ids[i] < next
  }

  lemma AllBelowNext(w: World)
    requires SettlesOnce(w)
    ensures Below(QueuedGrants(w.log) + IdsOf(w.sem.waiters), w.next)
  {
    var g := QueuedGrants(w.log);
    GrantsAreSettled(w.log);
    forall i | 0 <= i < |g| ensures g[i] < w.next {
      assert SettledIn(w.log, g[i]);
    }
  }

  lemma IdsOfConcat(a: seq<Waiter>, b: seq<Waiter>)
    ensures IdsOf(a + b) == IdsOf(a) + IdsOf(b)
  {
  }

  lemma AcquireFifo(w: World, permits: int, aborted: bool)
    requires Fifo(w) && SettlesOnce(w)
    ensures Fifo(Step(w, Acquire(permits, aborted)))
  {
    var more := AcquireMore(w, permits, aborted);
    if more == [] {
      var g, ids := QueuedGrants(w.log), IdsOf(w.sem.waiters);
      AllBelowNext(w);
      AscendingAppend(g + ids, w.next);
      IdsOfConcat(w.sem.waiters, [Waiter(w.next, permits)]);
      assert IdsOf([Waiter(w.next, permits)]) == [w.next];
      ConcatAssoc(g, ids, [w.next]);
    } else {
      OtherSettlement(w.log, more[0]);
    }
  }

  lemma QueueAscending(w: World)
    requires Fifo(w)
    ensures forall i, j :: 0 <= i < j < |w.sem.waiters| ==> w.sem.waiters[i].id < w.sem.waiters[j].id
  {
    var g := QueuedGrants(w.log);
    var all := g + IdsOf(w.sem.waiters);
    assert forall i :: 0 <= i < |w.sem.waiters| ==> all[|g| + i] == w.sem.waiters[i].id;
  }

  lemma AbortOnce(w: World, id: Id)
    requires SettlesOnce(w) && Fifo(w) && Waiting(w.sem.waiters, id)
    ensures SettlesOnce(Step(w, Abort(id)))
  {
    var v := Step(w, Abort(id));
    var i := WithoutIdSplits(w.sem.waiters, id);
    var more := [Settlement(id, AbortedWaiting)];
    QueueAscending(w);
    WaitersAreUnsettled(w, i);
    forall j | 0 <= j < |v.sem.waiters|
      ensures v.sem.waiters[j].id < v.next && !SettledIn(w.log, v.sem.waiters[j].id) && !SettledIn(more, v.sem.waiters[j].id)
    {
      var k := if j < i then j else j + 1;
      assert v.sem.waiters[j] == w.sem.waiters[k];
      WaitersAreUnsettled(w, k);
      NotAmong(more, w.sem.waiters[k].id);
    }
    SettleKeepsOnce(w, v, more);
  }

  lemma AbortAll(w: World, id: Id)
    requires NoneLost(w) && Waiting(w.sem.waiters, id)
    ensures NoneLost(Step(w, Abort(id)))
  {
    var v := Step(w, Abort(id));
    var i := WithoutIdSplits(w.sem.waiters, id);
    var more := [Settlement(id, AbortedWaiting)];
    SettledAt(more, 0);
    forall k | Waiting(w.sem.waiters, k)
      ensures Waiting(v.sem.waiters, k) || SettledIn(more, k)
    {
      var j :| 0 <= j < |w.sem.waiters| && w.sem.waiters[j].id == k;
      if j != i {
        WaitingAt(v.sem.waiters, if j < i then j else j - 1);
      }
    }
    SettleKeepsAll(w, v, more);
  }

  lemma AbortFifo(w: World, id: Id)
    requires Fifo(w) && Waiting(w.sem.waiters, id)
    ensures Fifo(Step(w, Abort(id)))
  {
    var i := WithoutIdSplits(w.sem.waiters, id);
    OtherSettlement(w.log, Settlement(id, AbortedWaiting));
    IdsWithout(w.sem.waiters, i);
    RemoveFromQueue(QueuedGrants(w.log), IdsOf(w.sem.waiters), i);
  }

  lemma IdsWithout(ws: seq<Waiter>, i: nat)
    requires i < |ws|
    ensures IdsOf(ws[..i] + ws[i + 1..]) == IdsOf(ws)[..i] + IdsOf(ws)[i + 1..]
  {
    IdsOfConcat(ws[..i], ws[i + 1..]);
    assert IdsOf(ws[..i]) == IdsOf(ws)[..i] && IdsOf(ws[i + 1..]) == IdsOf(ws)[i + 1..];
  }

  lemma RemoveFromQueue(g: seq<Id>, ids: seq<Id>, i: nat)
    requires i < |ids| && Ascending(g + ids)
    ensures Ascending(g + (ids[..i] + ids[i + 1..]))
  {
    AscendingRemove(g + ids, |g| + i);
    assert g + (ids[..i] + ids[i + 1..]) == (g + ids)[..|g| + i] + (g + ids)[|g| + i + 1..];
  }

  lemma AscendingRemove(ids: seq<Id>, i: nat)
    requires i < |ids| && Ascending(ids)
    ensures Ascending(ids[..i] + ids[i + 1..])
  {
  }

  lemma AscendingAppend(ids: seq<Id>, next: Id)
    requires Ascending(ids) && Below(ids, next)
    ensures Ascending(ids + [next])
  {
  }

  lemma ReleaseOnce(w: World, permits: int)
    requires SettlesOnce(w) && Fifo(w) && Releases(w, permits)
    ensures SettlesOnce(Step(w, Release(permits)))
  {
    var v := Step(w, Release(permits));
    var granted := ReleaseEffect(w, permits);
    QueueAscending(w);
    forall i | 0 <= i < |w.sem.waiters| ensures w.sem.waiters[i].id < w.next && !SettledIn(w.log, w.sem.waiters[i].id) {
      WaitersAreUnsettled(w, i);
    }
    SplitQueue(w.sem.waiters, granted, v.sem.waiters);
    SettleKeepsOnce(w, v, SettleAll(granted));
  }

  /** The front of the queue is settled, and nobody behind it. */
  lemma SplitQueue(ws: seq<Waiter>, front: seq<Waiter>, back: seq<Waiter>)
    requires ws == front + back && forall i, j :: 0 <= i < j < |ws| ==> ws[i].id < ws[j].id
    ensures forall i :: 0 <= i < |front| ==> SettleAll(front)[i].id == ws[i].id
    ensures forall j :: 0 <= j < |back| ==> back[j] == ws[|front| + j] && !SettledIn(SettleAll(front), back[j].id)
  {
    assert forall i :: 0 <= i < |front| ==> SettleAll(front)[i].id == ws[i].id;
    forall j | 0 <= j < |back| ensures !SettledIn(SettleAll(front), back[j].id) {
      assert back[j] == ws[|front| + j];
      NotAmong(SettleAll(front), back[j].id);
    }
  }

  lemma ReleaseAll(w: World, permits: int)
    requires NoneLost(w) && Releases(w, permits)
    ensures NoneLost(Step(w, Release(permits)))
  {
    var v := Step(w, Release(permits));
    var granted := ReleaseEffect(w, permits);
    var more := SettleAll(granted);
    forall k | Waiting(w.sem.waiters, k)
      ensures Waiting(v.sem.waiters, k) || SettledIn(more, k)
    {
      var j :| 0 <= j < |w.sem.waiters| && w.sem.waiters[j].id == k;
      if j < |granted| {
        SettledAt(more, j);
      } else {
        WaitingAt(v.sem.waiters, j - |granted|);
      }
    }
    SettleKeepsAll(w, v, more);
  }

  /** A release moves ids from the queue to the grants without reordering. */
  lemma ReleaseKeepsOrder(w: World, v: World, granted: seq<Waiter>)
    requires w.sem.waiters == granted + v.sem.waiters && v.log == w.log + SettleAll(granted)
    ensures QueuedGrants(v.log) + IdsOf(v.sem.waiters) == QueuedGrants(w.log) + IdsOf(w.sem.waiters)
  {
    QueuedGrantsConcat(w.log, SettleAll(granted));
    GrantsOfServed(granted);
    IdsOfConcat(granted, v.sem.waiters);
    ConcatAssoc(QueuedGrants(w.log), IdsOf(granted), IdsOf(v.sem.waiters));
  }

  lemma ReleaseFifo(w: World, permits: int)
    requires Fifo(w) && Releases(w, permits)
    ensures Fifo(Step(w, Release(permits)))
  {
    var granted := ReleaseEffect(w, permits);
    ReleaseKeepsOrder(w, Step(w, Release(permits)), granted);
  }

  lemma {:induction false} GrantsOfServed(granted: seq<Waiter>)
    ensures QueuedGrants(SettleAll(granted)) == IdsOf(granted)
  {
    if granted != [] {
      var n := |granted| - 1;
      GrantsOfServed(granted[..n]);
      assert SettleAll(granted)[..n] == SettleAll(granted[..n]);
      assert IdsOf(granted) == IdsOf(granted[..n]) + [granted[n].id];
    }
  }

  lemma StepInOrder(w: World, op: Op)
    requires InOrder(w)
    ensures InOrder(Step(w, op))
  {
    match op {
      case Acquire(permits, aborted) =>
        AcquireOnce(w, permits, aborted);
        AcquireAll(w, permits, aborted);
        AcquireFifo(w, permits, aborted);
      case Abort(id) =>
        if Waiting(w.sem.waiters, id) {
          AbortOnce(w, id);
          AbortAll(w, id);
          AbortFifo(w, id);
        }
      case Release(permits) =>
        if Releases(w, permits) {
          ReleaseOnce(w, permits);
          ReleaseAll(w, permits);
          ReleaseFifo(w, permits);
        }
    }
  }

  lemma {:induction false} RunInv(capacity: nat, w: World, ops: seq<Op>)
    requires Conserved(capacity, w) && InOrder(w)
    ensures Conserved(capacity, Run(w, ops)) && InOrder(Run(w, ops))
    decreases |ops|
  {
    if ops != [] {
      StepConserves(capacity, w, ops[0]);
      StepInOrder(w, ops[0]);
      RunInv(capacity, Step(w, ops[0]), ops[1..]);
    }
  }

  /**
   Over every run permits are conserved, each acquire settles exactly once or is
   still waiting, and queued waiters are granted in the order they came.
   */
  lemma SemaphoreSafety(capacity: nat, ops: seq<Op>)
    ensures Conserved(capacity, Run(Start(capacity), ops)) && InOrder(Run(Start(capacity), ops))
  {
    RunInv(capacity, Start(capacity), ops);
  }

  /** After a release the queue is empty or its head does not fit. */
  lemma HeadBlockedAfterRelease(w: World, permits: int)
    requires Releases(w, permits)
    ensures !HeadFits(Step(w, Release(permits)).sem)
  {
    var granted := ReleaseEffect(w, permits);
  }

  // ------------------------------------------------------------ a fitting head

  predicate HeadFits(s: State) {
    s.waiters != [] && s.waiters[0].permits <= s.available
  }

  /** Aborting the head of the queue uncovers a waiter that fits. */
  predicate Uncovers(s: State, op: Op) {
    && op.Abort? && |s.waiters| >= 2 && s.waiters[0].id == op.id && s.waiters[1].permits <= s.available
  }

  /** Nothing else ever leaves a head waiting that fits. */
  lemma FittingHeadStep(w: World, op: Op)
    requires InOrder(w) && !HeadFits(w.sem)
    ensures HeadFits(Step(w, op).sem) <==> Uncovers(w.sem, op)
  {
    match op {
      case Acquire(permits, aborted) =>
      case Abort(id) =>
        QueueAscending(w);
        if Waiting(w.sem.waiters, id) {
          var i := WithoutIdSplits(w.sem.waiters, id);
        }
      case Release(permits) =>
        if Releases(w, permits) {
          HeadBlockedAfterRelease(w, permits);
        }
    }
  }

  predicate HeadNeverFits(w: World, ops: seq<Op>)
    decreases |ops|
  {
    !HeadFits(w.sem) && (ops != [] ==> HeadNeverFits(Step(w, ops[0]), ops[1..]))
  }

  predicate NeverUncovers(w: World, ops: seq<Op>)
    decreases |ops|
  {
    ops != [] ==> !Uncovers(w.sem, ops[0]) && NeverUncovers(Step(w, ops[0]), ops[1..])
  }

  /** Over every run: the head never fits after any operation if and only if no
      abort removes a head in front of a waiter that fits. */
  lemma {:induction false} HeadNeverFitsExactly(w: World, ops: seq<Op>)
    requires InOrder(w) && !HeadFits(w.sem)
    ensures HeadNeverFits(w, ops) <==> NeverUncovers(w, ops)
    decreases |ops|
  {
    if ops != [] {
      FittingHeadStep(w, ops[0]);
      StepInOrder(w, ops[0]);
      if !Uncovers(w.sem, ops[0]) {
        HeadNeverFitsExactly(Step(w, ops[0]), ops[1..]);
      }
    }
  }

  // ------------------------------------------------------------ unit permits

  /** The process runner asks for one permit at a time. */
  predicate UnitOps(ops: seq<Op>) {
    forall i :: 0 <= i < |ops| && ops[i].Acquire? ==> ops[i].permits == 1
  }

  ghost predicate UnitInv(w: World) {
    && (forall i :: 0 <= i < |w.sem.waiters| ==> w.sem.waiters[i].permits == 1)
    && (w.sem.waiters != [] ==> w.sem.available == 0)
  }

  lemma UnitStep(capacity: nat, w: World, op: Op)
    requires Conserved(capacity, w) && UnitInv(w) && (op.Acquire? ==> op.permits == 1)
    ensures UnitInv(Step(w, op))
  {
    match op {
      case Acquire(permits, aborted) =>
      case Abort(id) =>
        if Waiting(w.sem.waiters, id) {
          var i := WithoutIdSplits(w.sem.waiters, id);
        }
      case Release(permits) =>
        if Releases(w, permits) { UnitRelease(w, permits); }
    }
  }

  lemma UnitRelease(w: World, permits: int)
    requires UnitInv(w) && Releases(w, permits)
    ensures UnitInv(Step(w, Release(permits)))
  {
    var granted := ReleaseEffect(w, permits);
    var v := Step(w, Release(permits));
    assert forall i :: 0 <= i < |v.sem.waiters| ==> v.sem.waiters[i] == w.sem.waiters[|granted| + i];
  }

  /** When every request is for one permit, nobody waits while a permit is free,
      aborts included. */
  lemma {:induction false} NoIdlePermit(capacity: nat, w: World, ops: seq<Op>)
    requires Conserved(capacity, w) && UnitInv(w) && UnitOps(ops)
    ensures UnitInv(Run(w, ops))
    decreases |ops|
  {
    if ops != [] {
      UnitStep(capacity, w, ops[0]);
      StepConserves(capacity, w, ops[0]);
      NoIdlePermit(capacity, Step(w, ops[0]), ops[1..]);
    }
  }

  // ------------------------------------------------------------ what it does not promise

  /** Such an abort is reached whenever the capacity is two or more: everything is
      taken, a request for the whole capacity and one for a single permit wait, a
      permit comes back, and the first gives up. */
  lemma AbortLeavesFittingHead(capacity: nat) returns (ops: seq<Op>)
    requires 2 <= capacity <= MAX_SAFE_INTEGER
    ensures Run(Start(capacity), ops).sem == State(1, capacity - 1, [Waiter(2, 1)])
  {
    var w1 := World(State(0, capacity, []), 1, capacity, 0, [Settlement(0, GrantedNow)]);
    var w2 := World(State(0, capacity, [Waiter(1, capacity)]), 2, capacity, 0, w1.log);
    var w3 := World(State(0, capacity, [Waiter(1, capacity), Waiter(2, 1)]), 3, capacity, 0, w1.log);
    var w4 := World(State(1, capacity - 1, [Waiter(1, capacity), Waiter(2, 1)]), 3, capacity, 1, w1.log);
    assert Step(Start(capacity), Acquire(capacity, false)) == w1;
    assert Step(w1, Acquire(capacity, false)) == w2;
    assert Step(w2, Acquire(1, false)) == w3;
    assert Step(w3, Release(1)) == w4 by {
      assert w4.log + SettleAll([]) == w4.log;
    }
    var w5 := Step(w4, Abort(1));
    assert w4.sem.waiters[1..] == [Waiter(2, 1)];
    var last := [Abort(1)];
    assert last[1..] == [] && Run(w4, last) == w5;
    ops := [Acquire(capacity, false), Acquire(capacity, false), Acquire(1, false), Release(1), Abort(1)];
    assert ops[1..][1..][1..][1..] == last;
    assert Run(w3, ops[1..][1..][1..]) == w5;
    assert Run(w2, ops[1..][1..]) == w5;
    assert Run(w1, ops[1..]) == w5;
  }

  ghost predicate BlockedBy(capacity: nat, w: World, head: Waiter) {
    Conserved(capacity, w) && w.sem.waiters != [] && w.sem.waiters[0] == head && head.permits > capacity
  }

  lemma OversizedHeadStays(capacity: nat, w: World, op: Op, head: Waiter)
    requires BlockedBy(capacity, w, head) && op != Abort(head.id)
    ensures BlockedBy(capacity, Step(w, op), head)
    ensures w.log <= Step(w, op).log
    ensures forall i :: |w.log| <= i < |Step(w, op).log| ==> !QueuedGrant(Step(w, op).log[i])
  {
    StepConserves(capacity, w, op);
    if op.Abort? && Waiting(w.sem.waiters, op.id) {
      var i := WithoutIdSplits(w.sem.waiters, op.id);
    }
  }

  /** A queued request is served when everything in use comes back, exactly when it
      is no larger than the capacity. */
  lemma HeadServedExactly(capacity: nat, w: World)
    requires Conserved(capacity, w) && capacity <= MAX_SAFE_INTEGER && w.sem.waiters != [] && w.sem.used > 0
    ensures Settlement(w.sem.waiters[0].id, GrantedQueued) in Step(w, Release(w.sem.used)).log[|w.log|..]
            <==> w.sem.waiters[0].permits <= capacity
  {
    var head := w.sem.waiters[0];
    var v := Step(w, Release(w.sem.used));
    if head.permits > capacity {
      OversizedHeadStays(capacity, w, Release(w.sem.used), head);
    } else {
      var granted := ReleaseEffect(w, w.sem.used);
      assert granted != [];
      assert v.log[|w.log|] == SettleAll(granted)[0] == Settlement(head.id, GrantedQueued);
    }
  }

  /** A request larger than the capacity is queued and then blocks the queue:
      while it heads it, no queued waiter is ever granted. */
  lemma {:induction false} OversizedHeadBlocks(capacity: nat, w: World, ops: seq<Op>, head: Waiter)
    requires BlockedBy(capacity, w, head) && Abort(head.id) !in ops
    ensures BlockedBy(capacity, Run(w, ops), head)
    ensures w.log <= Run(w, ops).log
    ensures forall i :: |w.log| <= i < |Run(w, ops).log| ==> !QueuedGrant(Run(w, ops).log[i])
    decreases |ops|
  {
    if ops != [] {
      var v := Step(w, ops[0]);
      OversizedHeadStays(capacity, w, ops[0], head);
      OversizedHeadBlocks(capacity, v, ops[1..], head);
      assert forall i :: |w.log| <= i < |v.log| ==> Run(v, ops[1..]).log[i] == v.log[i];
    }
  }
}
