/**
 The promise-chain lock of the flow handler and the session writes made under
 it (src/core/FlowHandler.ts:137-154,221-246,332-353): callers of one key are
 tickets that wait for their predecessor; their steps interleave freely.
 */
module FlowLock {
  import opened Prelude
  import opened FlowSession

  type Key = string

  /** What a finished write did: when, and to which stored session. */
  datatype Commit = Commit(now: int, at: Key, outcome: Outcome)

  datatype Phase =
    | Waiting
    | Begun
    | HasRead(seen: Option<Session>, at: Key)
    | Ended(commit: Option<Commit>)     // none: it threw without writing
    | Finished(commit: Option<Commit>)

  /** One call of `withLock`. A clear made in a room falls back on the session
      kept without a room when its own is missing. */
  datatype Ticket = Ticket(key: Key, fallback: Option<Key>, task: Task, previous: Option<nat>, phase: Phase)

  /** `locks` maps a key to the ticket whose queued promise it holds. */
  datatype State = State(tickets: seq<Ticket>, locks: map<Key, nat>, db: map<Key, Session>)

  function Stored(db: map<Key, Session>, key: Key): Option<Session> {
    if key in db then Some(db[key]) else None
  }

  function Store(db: map<Key, Session>, key: Key, s: Option<Session>): map<Key, Session> {
    if s.Some? then db[key := s.value] else db - {key}
  }

  /** The promise a ticket leaves behind has resolved: its predecessor's has, and
      its own gate is open. */
  predicate Resolved(tickets: seq<Ticket>, i: nat)
    decreases i
  {
    && i < |tickets| && tickets[i].phase.Finished?
    && (tickets[i].previous.Some? ==>
          tickets[i].previous.value < i && Resolved(tickets, tickets[i].previous.value))
  }

  predicate MayBegin(tickets: seq<Ticket>, i: nat)
    requires i < |tickets|
  {
    tickets[i].phase.Waiting? && (tickets[i].previous.Some? ==> Resolved(tickets, tickets[i].previous.value))
  }

  datatype Step =
    | Call(key: Key, fallback: Option<Key>, task: Task)
    | Begin(i: nat)
    | Read(i: nat)
    | Write(i: nat, now: int)
    | Throw(i: nat)
    | Release(i: nat)

  predicate Enabled(s: State, step: Step) {
    match step
    case Call(_, _, _) => true
    case Begin(i) => i < |s.tickets| && MayBegin(s.tickets, i)
    case Read(i) => i < |s.tickets| && s.tickets[i].phase.Begun?
    case Write(i, _) => i < |s.tickets| && s.tickets[i].phase.HasRead?
    case Throw(i) => i < |s.tickets| && (s.tickets[i].phase.Begun? || s.tickets[i].phase.HasRead?)
    case Release(i) => i < |s.tickets| && s.tickets[i].phase.Ended?
  }

  function InPhase(tickets: seq<Ticket>, i: nat, phase: Phase): (r: seq<Ticket>)
    requires i < |tickets|
    ensures |r| == |tickets| && forall j :: 0 <= j < |r| && j != i ==> r[j] == tickets[j]
    ensures r[i] == tickets[i].(phase := phase)
  {
    tickets[i := tickets[i].(phase := phase)]
  }

  /** A clear looks under its own key first, then under the fallback. */
  function WhereToRead(s: State, t: Ticket): Key {
    if t.task.Clear? && t.key !in s.db && t.fallback.Some? then t.fallback.value else t.key
  }

  function Next(s: State, step: Step): State
    requires Enabled(s, step)
  {
    match step
    case Call(key, fallback, task) =>
      var previous := if key in s.locks then Some(s.locks[key]) else None;
      State(s.tickets + [Ticket(key, fallback, task, previous, Waiting)], s.locks[key := |s.tickets|], s.db)
    case Begin(i) => s.(tickets := InPhase(s.tickets, i, Begun))
    case Read(i) =>
      var at := WhereToRead(s, s.tickets[i]);
      s.(tickets := InPhase(s.tickets, i, HasRead(Stored(s.db, at), at)))
    case Write(i, now) =>
      var t := s.tickets[i];
      var (session, outcome) := Effect(t.task, now, t.phase.seen);
      State(InPhase(s.tickets, i, Ended(Some(Commit(now, t.phase.at, outcome)))), s.locks,
            if outcome == Done then Store(s.db, t.phase.at, session) else s.db)
    case Throw(i) => s.(tickets := InPhase(s.tickets, i, Ended(None)))
    case Release(i) =>
      var t := s.tickets[i];
      State(InPhase(s.tickets, i, Finished(t.phase.commit)),
            if t.key in s.locks && s.locks[t.key] == i then s.locks - {t.key} else s.locks, s.db)
  }

  predicate IsRun(s: State, steps: seq<Step>)
    decreases |steps|
  {
    steps != [] ==> Enabled(s, steps[0]) && IsRun(Next(s, steps[0]), steps[1..])
  }

  function Run(s: State, steps: seq<Step>): State
    requires IsRun(s, steps)
    decreases |steps|
  {
    if steps == [] then s else Run(Next(s, steps[0]), steps[1..])
  }

  function Start(db: map<Key, Session>): State {
    State([], map[], db)
  }

  // ------------------------------------------------------------ the lock

  /** A predecessor is the last earlier ticket of the key, unless all earlier
      ones had finished. */
  ghost predicate PreviousIsLast(tickets: seq<Ticket>) {
    forall i, j :: 0 <= j < i < |tickets| && tickets[j].key == tickets[i].key ==>
                     tickets[j].phase.Finished? || (tickets[i].previous.Some? && j <= tickets[i].previous.value)
  }

  ghost predicate PreviousIsEarlier(tickets: seq<Ticket>) {
    forall i :: 0 <= i < |tickets| && tickets[i].previous.Some? ==>
                  tickets[i].previous.value < i && tickets[tickets[i].previous.value].key == tickets[i].key
  }

  /** A ticket that is no longer waiting has only finished tickets before it. */
  ghost predicate OneAtATime(tickets: seq<Ticket>) {
    forall i, j :: 0 <= j < i < |tickets| && tickets[j].key == tickets[i].key && !tickets[i].phase.Waiting? ==>
                     tickets[j].phase.Finished?
  }

  /** The map names the last ticket of each key that still has an unfinished one. */
  ghost predicate LocksNameLast(s: State) {
    && (forall k :: k in s.locks ==>
          && s.locks[k] < |s.tickets| && s.tickets[s.locks[k]].key == k
          && !s.tickets[s.locks[k]].phase.Finished?)
    && (forall i :: 0 <= i < |s.tickets| && (s.tickets[i].key !in s.locks || s.locks[s.tickets[i].key] < i) ==>
          s.tickets[i].phase.Finished? && s.tickets[i].key !in s.locks)
  }

  ghost predicate LockInv(s: State) {
    PreviousIsLast(s.tickets) && PreviousIsEarlier(s.tickets) && OneAtATime(s.tickets) && LocksNameLast(s)
  }

  /** Once a ticket has finished so have all before it, so its promise has resolved. */
  lemma {:induction false} FinishedIsResolved(tickets: seq<Ticket>, i: nat)
    requires PreviousIsEarlier(tickets) && OneAtATime(tickets) && i < |tickets| && tickets[i].phase.Finished?
    ensures Resolved(tickets, i)
    decreases i
  {
    if tickets[i].previous.Some? {
      FinishedIsResolved(tickets, tickets[i].previous.value);
    }
  }

  lemma CallKeepsOrder(s: State, t: Ticket)
    requires LockInv(s) && t.phase.Waiting?
    requires t.previous == if t.key in s.locks then Some(s.locks[t.key]) else None
    ensures var r := s.tickets + [t]; PreviousIsLast(r) && PreviousIsEarlier(r) && OneAtATime(r)
  {
  }

  lemma CallKeepsLocks(s: State, t: Ticket)
    requires LocksNameLast(s) && t.phase.Waiting?
    ensures LocksNameLast(State(s.tickets + [t], s.locks[t.key := |s.tickets|], s.db))
  {
  }

  lemma PhaseKeepsLocks(s: State, i: nat, phase: Phase)
    requires LocksNameLast(s) && i < |s.tickets| && !s.tickets[i].phase.Finished? && !phase.Finished?
    ensures LocksNameLast(s.(tickets := InPhase(s.tickets, i, phase)))
  {
  }

  lemma ReleaseKeepsLocks(s: State, i: nat)
    requires LockInv(s) && Enabled(s, Release(i))
    ensures LocksNameLast(Next(s, Release(i)))
  {
  }

  lemma PhaseKeepsOrder(tickets: seq<Ticket>, i: nat, phase: Phase)
    requires PreviousIsLast(tickets) && PreviousIsEarlier(tickets) && OneAtATime(tickets) && i < |tickets|
    requires tickets[i].phase.Finished? ==> phase.Finished?
    requires !phase.Waiting? ==>
               forall j :: 0 <= j < i && tickets[j].key == tickets[i].key ==> tickets[j].phase.Finished?
    ensures var r := InPhase(tickets, i, phase);
            PreviousIsLast(r) && PreviousIsEarlier(r) && OneAtATime(r)
  {
  }

  lemma PhaseKeepsLock(s: State, i: nat, phase: Phase, db: map<Key, Session>)
    requires LockInv(s) && i < |s.tickets| && !s.tickets[i].phase.Finished? && !phase.Finished?
    requires !phase.Waiting? ==>
               forall j :: 0 <= j < i && s.tickets[j].key == s.tickets[i].key ==> s.tickets[j].phase.Finished?
    ensures LockInv(State(InPhase(s.tickets, i, phase), s.locks, db))
  {
    PhaseKeepsOrder(s.tickets, i, phase);
    PhaseKeepsLocks(s, i, phase);
  }

  lemma CallKeepsLock(s: State, step: Step)
    requires LockInv(s) && step.Call?
    ensures LockInv(Next(s, step))
  {
    var t := Next(s, step).tickets[|s.tickets|];
    CallKeepsOrder(s, t);
    CallKeepsLocks(s, t);
  }

  lemma ReleaseKeepsLock(s: State, i: nat)
    requires LockInv(s) && Enabled(s, Release(i))
    ensures LockInv(Next(s, Release(i)))
  {
    PhaseKeepsOrder(s.tickets, i, Finished(s.tickets[i].phase.commit));
    ReleaseKeepsLocks(s, i);
  }

  lemma StepKeepsLock(s: State, step: Step)
    requires LockInv(s) && Enabled(s, step)
    ensures LockInv(Next(s, step))
  {
    match step {
      case Call(_, _, _) => CallKeepsLock(s, step);
      case Begin(i) => PhaseKeepsLock(s, i, Begun, s.db);
      case Read(i) => PhaseKeepsLock(s, i, Next(s, step).tickets[i].phase, Next(s, step).db);
      case Write(i, _) => PhaseKeepsLock(s, i, Next(s, step).tickets[i].phase, Next(s, step).db);
      case Throw(i) => PhaseKeepsLock(s, i, Ended(None), s.db);
      case Release(i) => ReleaseKeepsLock(s, i);
    }
  }

  /** In every run, tickets of one key run one at a time in call order, and the
      map holds a key exactly while one of its tickets is unfinished. */
  lemma {:induction false} LockSafety(s: State, steps: seq<Step>)
    requires LockInv(s) && IsRun(s, steps)
    ensures LockInv(Run(s, steps))
    ensures var r := Run(s, steps);
            forall k: Key :: k in r.locks <==> exists i :: 0 <= i < |r.tickets| && r.tickets[i].key == k && !r.tickets[i].phase.Finished?
    decreases |steps|
  {
    if steps != [] {
      StepKeepsLock(s, steps[0]);
      LockSafety(Next(s, steps[0]), steps[1..]);
    }
  }

  /** The first unfinished ticket of a key is running or may begin. */
  lemma NoDeadlock(s: State, i: nat, now: int)
    requires LockInv(s) && i < |s.tickets| && !s.tickets[i].phase.Finished?
    requires forall j :: 0 <= j < i && s.tickets[j].key == s.tickets[i].key ==> s.tickets[j].phase.Finished?
    ensures Enabled(s, Begin(i)) || Enabled(s, Read(i)) || Enabled(s, Write(i, now)) || Enabled(s, Release(i))
  {
    if s.tickets[i].phase.Waiting? && s.tickets[i].previous.Some? {
      FinishedIsResolved(s.tickets, s.tickets[i].previous.value);
    }
  }

  // ------------------------------------------------------------ sessions, in call order

  /** The writes that the callers of a key made to its session, in call order. */
  function History(tickets: seq<Ticket>, k: Key): seq<(Task, int)> {
    if tickets == [] then []
    else
      var t := tickets[|tickets| - 1];
      var before := History(tickets[..|tickets| - 1], k);
      if OwnCommit(t, k) then before + [(t.task, t.phase.commit.value.now)] else before
  }

  function Outcomes(tickets: seq<Ticket>, k: Key): seq<Outcome> {
    if tickets == [] then []
    else
      var t := tickets[|tickets| - 1];
      var before := Outcomes(tickets[..|tickets| - 1], k);
      if OwnCommit(t, k) then before + [t.phase.commit.value.outcome] else before
  }

  predicate CommittedAt(t: Ticket, k: Key) {
    (t.phase.Ended? || t.phase.Finished?) && t.phase.commit.Some? && t.phase.commit.value.at == k
  }

  predicate OwnCommit(t: Ticket, k: Key) {
    t.key == k && CommittedAt(t, k)
  }

  /** The session, and the outcomes, when the tasks run alone one after another. */
  function Replay(s: Option<Session>, h: seq<(Task, int)>): (Option<Session>, seq<Outcome>) {
    if h == [] then (s, [])
    else
      var (before, outcomes) := Replay(s, h[..|h| - 1]);
      var (after, outcome) := Effect(h[|h| - 1].0, h[|h| - 1].1, before);
      (after, outcomes + [outcome])
  }

  /** Callers of the key see its session as left by everyone before. */
  ghost predicate ReadsAreCurrent(s: State, k: Key) {
    forall i :: 0 <= i < |s.tickets| && s.tickets[i].key == k && s.tickets[i].phase.HasRead? && s.tickets[i].phase.at == k ==>
                  s.tickets[i].phase.seen == Stored(s.db, k)
  }

  ghost predicate InCallOrder(s: State, k: Key, initial: Option<Session>) {
    && ReadsAreCurrent(s, k)
    && Replay(initial, History(s.tickets, k)) == (Stored(s.db, k), Outcomes(s.tickets, k))
  }

  /** A write to the session of `k` by a caller of another key goes through. */
  predicate Intrudes(s: State, step: Step, k: Key)
    requires Enabled(s, step)
  {
    step.Write? &&
    var t := s.tickets[step.i];
    t.key != k && t.phase.at == k && Effect(t.task, step.now, t.phase.seen).1 == Done
  }

  /** What it writes is not what is stored there. */
  predicate Alters(s: State, step: Step, k: Key)
    requires Enabled(s, step)
  {
    Intrudes(s, step, k) &&
    var t := s.tickets[step.i];
    Effect(t.task, step.now, t.phase.seen).0 != Stored(s.db, k)
  }

  predicate NeverAlters(s: State, steps: seq<Step>, k: Key)
    requires IsRun(s, steps)
    decreases |steps|
  {
    steps != [] ==> !Alters(s, steps[0], k) && NeverAlters(Next(s, steps[0]), steps[1..], k)
  }

  /** The session is in call order now and after every step. */
  ghost predicate AlwaysInOrder(s: State, steps: seq<Step>, k: Key, initial: Option<Session>)
    requires IsRun(s, steps)
    decreases |steps|
  {
    && InCallOrder(s, k, initial)
    && (steps != [] ==> AlwaysInOrder(Next(s, steps[0]), steps[1..], k, initial))
  }

  lemma {:induction false} SameHistory(a: seq<Ticket>, b: seq<Ticket>, k: Key)
    requires |a| == |b|
    requires forall i :: 0 <= i < |a| ==> (a[i] == b[i] || SameWrite(a[i], b[i], k))
    ensures History(a, k) == History(b, k) && Outcomes(a, k) == Outcomes(b, k)
  {
    if a != [] {
      SameHistory(a[..|a| - 1], b[..|b| - 1], k);
    }
  }

  predicate SameWrite(a: Ticket, b: Ticket, k: Key) {
    && (OwnCommit(a, k) <==> OwnCommit(b, k))
    && (OwnCommit(a, k) ==> a.task == b.task && a.phase.commit == b.phase.commit)
  }

  /** A write by the only running ticket comes after all the others. */
  lemma {:induction false} WriteComesLast(tickets: seq<Ticket>, i: nat, c: Commit)
    requires i < |tickets| && tickets[i].key == c.at && !CommittedAt(tickets[i], c.at)
    requires forall j :: i < j < |tickets| ==> !OwnCommit(tickets[j], c.at)
    ensures var r := InPhase(tickets, i, Ended(Some(c)));
            && History(r, c.at) == History(tickets, c.at) + [(tickets[i].task, c.now)]
            && Outcomes(r, c.at) == Outcomes(tickets, c.at) + [c.outcome]
    decreases |tickets|
  {
    var r := InPhase(tickets, i, Ended(Some(c)));
    var n := |tickets| - 1;
    if i == n {
      assert r[..n] == tickets[..n];
      assert OwnCommit(r[n], c.at);
    } else {
      WriteComesLast(tickets[..n], i, c);
      assert r[..n] == InPhase(tickets[..n], i, Ended(Some(c)));
      assert r[n] == tickets[n];
    }
  }

  lemma ReplaySnoc(s: Option<Session>, h: seq<(Task, int)>, task: Task, now: int)
    ensures Replay(s, h + [(task, now)]) ==
            var (before, outcomes) := Replay(s, h);
            (Effect(task, now, before).0, outcomes + [Effect(task, now, before).1])
  {
  }

  lemma PhaseKeepsCallOrder(s: State, i: nat, phase: Phase, locks: map<Key, nat>, k: Key, initial: Option<Session>)
    requires InCallOrder(s, k, initial) && i < |s.tickets|
    requires SameWrite(s.tickets[i], s.tickets[i].(phase := phase), k)
    requires s.tickets[i].key == k && phase.HasRead? && phase.at == k ==> phase.seen == Stored(s.db, k)
    ensures InCallOrder(State(InPhase(s.tickets, i, phase), locks, s.db), k, initial)
  {
    SameHistory(s.tickets, InPhase(s.tickets, i, phase), k);
  }

  /** A write that is no caller's of the key, or goes elsewhere, and leaves its
      session alone. */
  lemma WriteElsewhere(s: State, i: nat, now: int, k: Key, initial: Option<Session>)
    requires InCallOrder(s, k, initial) && Enabled(s, Write(i, now)) && !Alters(s, Write(i, now), k)
    requires s.tickets[i].phase.at != k || s.tickets[i].key != k
    ensures InCallOrder(Next(s, Write(i, now)), k, initial)
  {
    var r := Next(s, Write(i, now));
    SameHistory(s.tickets, r.tickets, k);
    assert Stored(r.db, k) == Stored(s.db, k);
  }

  lemma WriteHere(s: State, i: nat, now: int, k: Key, initial: Option<Session>)
    requires LockInv(s) && InCallOrder(s, k, initial) && Enabled(s, Write(i, now))
    requires s.tickets[i].key == k && s.tickets[i].phase.at == k
    ensures var r := Next(s, Write(i, now));
            Replay(initial, History(r.tickets, k)) == (Stored(r.db, k), Outcomes(r.tickets, k))
  {
    var t := s.tickets[i];
    var (session, outcome) := Effect(t.task, now, t.phase.seen);
    LaterOnesWait(s, i, k);
    WriteComesLast(s.tickets, i, Commit(now, k, outcome));
    ReplaySnoc(initial, History(s.tickets, k), t.task, now);
  }

  lemma LaterOnesWait(s: State, i: nat, k: Key)
    requires OneAtATime(s.tickets) && i < |s.tickets| && s.tickets[i].key == k && !s.tickets[i].phase.Finished?
    ensures forall j :: i < j < |s.tickets| ==> !OwnCommit(s.tickets[j], k)
  {
  }

  lemma WriteKeepsCallOrder(s: State, i: nat, now: int, k: Key, initial: Option<Session>)
    requires LockInv(s) && InCallOrder(s, k, initial) && Enabled(s, Write(i, now)) && !Alters(s, Write(i, now), k)
    ensures InCallOrder(Next(s, Write(i, now)), k, initial)
  {
    if s.tickets[i].key == k && s.tickets[i].phase.at == k {
      WriteHere(s, i, now, k, initial);
      OnlyReader(s, i, k);
    } else {
      WriteElsewhere(s, i, now, k, initial);
    }
  }

  lemma OnlyReader(s: State, i: nat, k: Key)
    requires LockInv(s) && i < |s.tickets| && s.tickets[i].key == k && s.tickets[i].phase.HasRead?
    ensures forall j :: 0 <= j < |s.tickets| && j != i && s.tickets[j].key == k ==> !s.tickets[j].phase.HasRead?
  {
  }

  lemma CallKeepsCallOrder(s: State, step: Step, k: Key, initial: Option<Session>)
    requires InCallOrder(s, k, initial) && step.Call?
    ensures InCallOrder(Next(s, step), k, initial)
  {
  }

  lemma StepKeepsCallOrder(s: State, step: Step, k: Key, initial: Option<Session>)
    requires LockInv(s) && InCallOrder(s, k, initial) && Enabled(s, step) && !Alters(s, step, k)
    ensures InCallOrder(Next(s, step), k, initial)
  {
    match step {
      case Call(_, _, _) => CallKeepsCallOrder(s, step, k, initial);
      case Begin(i) => PhaseKeepsCallOrder(s, i, Begun, s.locks, k, initial);
      case Read(i) => PhaseKeepsCallOrder(s, i, Next(s, step).tickets[i].phase, s.locks, k, initial);
      case Write(i, now) => WriteKeepsCallOrder(s, i, now, k, initial);
      case Throw(i) => PhaseKeepsCallOrder(s, i, Ended(None), s.locks, k, initial);
      case Release(i) => PhaseKeepsCallOrder(s, i, Next(s, step).tickets[i].phase, Next(s, step).locks, k, initial);
    }
  }

  /** A foreign write adds nothing to the history of the key, so changing its
      session breaks the order. */
  lemma AlteringBreaksOrder(s: State, step: Step, k: Key, initial: Option<Session>)
    requires InCallOrder(s, k, initial) && Enabled(s, step) && Alters(s, step, k)
    ensures !InCallOrder(Next(s, step), k, initial)
  {
    SameHistory(s.tickets, Next(s, step).tickets, k);
  }

  /** A step keeps the call order exactly when it is no foreign write that changes
      the session. */
  lemma CallOrderStep(s: State, step: Step, k: Key, initial: Option<Session>)
    requires LockInv(s) && InCallOrder(s, k, initial) && Enabled(s, step)
    ensures InCallOrder(Next(s, step), k, initial) <==> !Alters(s, step, k)
  {
    if Alters(s, step, k) {
      AlteringBreaksOrder(s, step, k, initial);
    } else {
      StepKeepsCallOrder(s, step, k, initial);
    }
  }

  /** However the callers of `withLock` interleave, the session of a key and every
      outcome are at all times those of running its callers' tasks one after another
      in call order, if and only if no clear of another key changes the session. */
  lemma {:induction false} RunsInCallOrder(s: State, steps: seq<Step>, k: Key, initial: Option<Session>)
    requires LockInv(s) && InCallOrder(s, k, initial) && IsRun(s, steps)
    ensures AlwaysInOrder(s, steps, k, initial) <==> NeverAlters(s, steps, k)
    decreases |steps|
  {
    if steps != [] {
      CallOrderStep(s, steps[0], k, initial);
      StepKeepsLock(s, steps[0]);
      if !Alters(s, steps[0], k) {
        RunsInCallOrder(Next(s, steps[0]), steps[1..], k, initial);
      }
    }
  }

  lemma {:induction false} InOrderAtTheEnd(s: State, steps: seq<Step>, k: Key, initial: Option<Session>)
    requires IsRun(s, steps) && AlwaysInOrder(s, steps, k, initial)
    ensures InCallOrder(Run(s, steps), k, initial)
    decreases |steps|
  {
    if steps != [] {
      InOrderAtTheEnd(Next(s, steps[0]), steps[1..], k, initial);
    }
  }

  /** A clear of another key that has read the session as it is and goes through
      always changes it. */
  lemma IntruderBreaksOrder(s: State, step: Step, k: Key, initial: Option<Session>)
    requires InCallOrder(s, k, initial) && Enabled(s, step) && Intrudes(s, step, k)
    requires s.tickets[step.i].task.Clear? && s.tickets[step.i].phase.seen == Stored(s.db, k)
    ensures Alters(s, step, k) && !InCallOrder(Next(s, step), k, initial)
  {
    var t := s.tickets[step.i];
    var was, now := Stored(s.db, k), Effect(t.task, step.now, t.phase.seen).0;
    if now.Some? {
      WithoutLaws(was.value.flows, t.task.id);
      WrittenSameIds(Cleared(was.value, t.task.id), t.task.id);
      assert Has(was.value.flows, t.task.id) && !Has(now.value.flows, t.task.id);
    }
    AlteringBreaksOrder(s, step, k, initial);
  }

  /** Where a ticket reads is its own key or its fallback, so a key that nobody
      falls back on keeps its order. */
  ghost predicate ReadsWhereItMay(tickets: seq<Ticket>) {
    forall i :: 0 <= i < |tickets| && tickets[i].phase.HasRead? ==>
                  tickets[i].phase.at == tickets[i].key || Some(tickets[i].phase.at) == tickets[i].fallback
  }

  ghost predicate NoFallbackTo(tickets: seq<Ticket>, k: Key) {
    forall i :: 0 <= i < |tickets| ==> tickets[i].fallback != Some(k)
  }

  predicate CallsNoFallbackTo(steps: seq<Step>, k: Key) {
    forall i :: 0 <= i < |steps| && steps[i].Call? ==> steps[i].fallback != Some(k)
  }

  lemma {:induction false} NoFallbackKeepsOrder(s: State, steps: seq<Step>, k: Key)
    requires ReadsWhereItMay(s.tickets) && NoFallbackTo(s.tickets, k) && IsRun(s, steps) && CallsNoFallbackTo(steps, k)
    ensures NeverAlters(s, steps, k)
    decreases |steps|
  {
    if steps != [] {
      var r := Next(s, steps[0]);
      forall i | 0 <= i < |r.tickets| ensures r.tickets[i].fallback != Some(k) { }
      NoFallbackKeepsOrder(r, steps[1..], k);
    }
  }

  lemma StartHolds(db: map<Key, Session>, k: Key)
    ensures LockInv(Start(db)) && InCallOrder(Start(db), k, Stored(db, k))
    ensures ReadsWhereItMay(Start(db).tickets) && NoFallbackTo(Start(db).tickets, k)
  {
  }

  // ------------------------------------------------------------ versions

  lemma {:induction false} ReplayIsSound(s: Option<Session>, h: seq<(Task, int)>)
    requires Sound(s)
    ensures Sound(Replay(s, h).0) && |Replay(s, h).1| == |h|
  {
    if h != [] {
      ReplayIsSound(s, h[..|h| - 1]);
      EffectKeepsSound(h[|h| - 1].0, h[|h| - 1].1, Replay(s, h[..|h| - 1]).0);
    }
  }

  /** Task `n` removes the last flow, and the session with it. */
  predicate DeletedBy(s: Option<Session>, h: seq<(Task, int)>, n: nat)
    requires n < |h|
  {
    Replay(s, h[..n]).0.Some? && Replay(s, h[..n + 1]).0.None?
  }

  function DoneCount(outcomes: seq<Outcome>): nat {
    if outcomes == [] then 0
    else DoneCount(outcomes[..|outcomes| - 1]) + if outcomes[|outcomes| - 1] == Done then 1 else 0
  }

  /** While no task deletes the session, its version counts the writes. */
  lemma {:induction false} VersionCountsWrites(s: Option<Session>, h: seq<(Task, int)>)
    requires Sound(s) && forall n :: 0 <= n < |h| ==> !DeletedBy(s, h, n)
    ensures VersionOf(Replay(s, h).0) == VersionOf(s) + DoneCount(Replay(s, h).1)
  {
    if h != [] {
      var n := |h| - 1;
      var front := h[..n];
      forall m | 0 <= m < n ensures !DeletedBy(s, front, m) {
        assert front[..m] == h[..m] && front[..m + 1] == h[..m + 1];
        assert !DeletedBy(s, h, m);
      }
      VersionCountsWrites(s, front);
      ReplayIsSound(s, front);
      EffectKeepsSound(h[n].0, h[n].1, Replay(s, front).0);
      assert h[..n + 1] == h;
      assert !DeletedBy(s, h, n);
    }
  }

  /** Of two calls that expect the same version only the first goes through,
      unless a clear deletes the session in between. */
  lemma SameVersionTwice(s: Option<Session>, h: seq<(Task, int)>, first: (Task, int), last: (Task, int))
    requires Sound(s) && first.0.expected.Some? && first.0.expected == last.0.expected
    requires Effect(first.0, first.1, s).1 == Done
    requires var after := Effect(first.0, first.1, s).0;
             after.Some? && forall n :: 0 <= n < |h| ==> !DeletedBy(after, h, n)
    ensures var after := Effect(first.0, first.1, s).0;
            Effect(last.0, last.1, Replay(after, h).0).1 != Done
  {
    var after := Effect(first.0, first.1, s).0;
    DoneWasCurrent(first.0, first.1, s);
    VersionCountsWrites(after, h);
  }

  lemma DoneWasCurrent(task: Task, now: int, s: Option<Session>)
    requires Sound(s) && Effect(task, now, s).1 == Done && Effect(task, now, s).0.Some?
    ensures !Stale(s, task.expected) && Sound(Effect(task, now, s).0)
    ensures VersionOf(Effect(task, now, s).0) == VersionOf(s) + 1
  {
    EffectKeepsSound(task, now, s);
  }

  /** Among `setSession` calls that expect the same version exactly the first
      succeeds when that is the version, and none when it is not. */
  lemma {:induction false} OneSetSucceeds(s: Option<Session>, h: seq<(Task, int)>, v: nat)
    requires Sound(s) && forall n :: 0 <= n < |h| ==> h[n].0.Set? && h[n].0.expected == Some(v)
    ensures forall n :: 0 <= n < |h| ==>
              n < |Replay(s, h).1| && Replay(s, h).1[n] == if n == 0 && VersionOf(s) == v then Done else Conflict
    ensures VersionOf(Replay(s, h).0) == VersionOf(s) + if h != [] && VersionOf(s) == v then 1 else 0
  {
    if h != [] {
      var n := |h| - 1;
      OneSetSucceeds(s, h[..n], v);
      ReplayIsSound(s, h[..n]);
      var before := Replay(s, h[..n]).0;
      if VersionOf(before) == v {
        SetActivates(h[n].0, h[n].1, before);
      }
    }
  }

  ghost predicate AllSetsExpect(tickets: seq<Ticket>, k: Key, v: nat) {
    forall i :: 0 <= i < |tickets| && tickets[i].key == k ==> tickets[i].task.Set? && tickets[i].task.expected == Some(v)
  }

  lemma {:induction false} HistoryOfSets(tickets: seq<Ticket>, k: Key, v: nat)
    requires AllSetsExpect(tickets, k, v)
    ensures forall n :: 0 <= n < |History(tickets, k)| ==>
              History(tickets, k)[n].0.Set? && History(tickets, k)[n].0.expected == Some(v)
    ensures |Outcomes(tickets, k)| == |History(tickets, k)|
  {
    if tickets != [] {
      HistoryOfSets(tickets[..|tickets| - 1], k, v);
    }
  }

  /** Concurrent `setSession` calls on one key that expect the same version, in any
      interleaving: of those that got as far as writing, the first in call order
      succeeds when it is the version, and all the others conflict. */
  lemma ConcurrentSets(db: map<Key, Session>, steps: seq<Step>, k: Key, v: nat)
    requires Sound(Stored(db, k)) && IsRun(Start(db), steps) && NeverAlters(Start(db), steps, k)
    requires AllSetsExpect(Run(Start(db), steps).tickets, k, v)
    ensures var r := Run(Start(db), steps);
            && (forall n :: 0 <= n < |Outcomes(r.tickets, k)| ==>
                  Outcomes(r.tickets, k)[n] == if n == 0 && VersionOf(Stored(db, k)) == v then Done else Conflict)
            && VersionOf(Stored(r.db, k)) ==
               VersionOf(Stored(db, k)) + if Outcomes(r.tickets, k) != [] && VersionOf(Stored(db, k)) == v then 1 else 0
  {
    var r := Run(Start(db), steps);
    StartHolds(db, k);
    RunsInCallOrder(Start(db), steps, k, Stored(db, k));
    InOrderAtTheEnd(Start(db), steps, k, Stored(db, k));
    HistoryOfSets(r.tickets, k, v);
    OneSetSucceeds(Stored(db, k), History(r.tickets, k), v);
  }

  lemma {:induction false} ReplayConcat(s: Option<Session>, a: seq<(Task, int)>, b: seq<(Task, int)>)
    ensures var mid := Replay(s, a);
            var rest := Replay(mid.0, b);
            Replay(s, a + b) == (rest.0, mid.1 + rest.1)
    decreases |b|
  {
    if b == [] {
      assert a + b == a;
      assert Replay(s, a).1 + [] == Replay(s, a).1;
    } else {
      var n := |b| - 1;
      var task, now := b[n].0, b[n].1;
      ReplayConcat(s, a, b[..n]);
      var mid := Replay(s, a);
      ReplaySnoc(s, a + b[..n], task, now);
      ReplaySnoc(mid.0, b[..n], task, now);
      assert b == b[..n] + [(task, now)] && a + b == (a + b[..n]) + [(task, now)];
      var (before, rest) := Replay(mid.0, b[..n]);
      ConcatAssoc(mid.1, rest, [Effect(task, now, before).1]);
    }
  }

  /** After its last deletion the version counts the writes made since. */
  lemma VersionSinceDeletion(s: Option<Session>, h: seq<(Task, int)>, d: nat)
    requires Sound(s) && d < |h| && DeletedBy(s, h, d)
    requires forall n :: d < n < |h| ==> !DeletedBy(s, h, n)
    ensures |Replay(s, h).1| == |h|
    ensures VersionOf(Replay(s, h).0) == DoneCount(Replay(s, h).1[d + 1..])
  {
    var rest := h[d + 1..];
    assert h == h[..d + 1] + rest;
    ReplayConcat(s, h[..d + 1], rest);
    ReplayIsSound(s, h[..d + 1]);
    ReplayIsSound(None, rest);
    forall n | 0 <= n < |rest| ensures !DeletedBy(None, rest, n) {
      DeletedLater(s, h, d + 1, n);
      assert !DeletedBy(s, h, d + 1 + n);
    }
    VersionCountsWrites(None, rest);
  }

  lemma DeletedLater(s: Option<Session>, h: seq<(Task, int)>, m: nat, n: nat)
    requires m + n < |h|
    ensures DeletedBy(Replay(s, h[..m]).0, h[m..], n) <==> DeletedBy(s, h, m + n)
  {
    assert h[..m + n] == h[..m] + h[m..][..n] && h[..m + n + 1] == h[..m] + h[m..][..n + 1];
    ReplayConcat(s, h[..m], h[m..][..n]);
    ReplayConcat(s, h[..m], h[m..][..n + 1]);
  }

  /** Versions are used again after a deletion: whatever happened before it, a set
      that expects version `v` goes through exactly when `v` writes went through
      since. */
  lemma DeletionRepeatsVersions(s: Option<Session>, h: seq<(Task, int)>, d: nat, add: Task, now: int, v: nat)
    requires Sound(s) && d < |h| && DeletedBy(s, h, d)
    requires forall n :: d < n < |h| ==> !DeletedBy(s, h, n)
    requires add.Set? && add.expected == Some(v)
    ensures |Replay(s, h).1| == |h|
    ensures Effect(add, now, Replay(s, h).0).1 == Done <==> v == DoneCount(Replay(s, h).1[d + 1..])
  {
    VersionSinceDeletion(s, h, d);
  }

  /** So from any session a clear that deletes it lets the next set that expects
      version 0 through, however often that version was used up. */
  lemma VersionZeroAgain(s: Session, clear: Task, clearAt: int, add: Task, addAt: int)
    requires Sound(Some(s)) && clear.Clear? && add.Set? && !Stale(Some(s), clear.expected) && add.expected == Some(0)
    requires forall k: string :: Has(s.flows, k) <==> k == clear.id
    ensures Replay(Some(s), [(clear, clearAt), (add, addAt)]).1 == [Done, Done]
    ensures VersionOf(Replay(Some(s), [(clear, clearAt), (add, addAt)]).0) == 1
  {
    LastClearDeletes(s, clear, clearAt);
    SetActivates(add, addAt, None);
    ReplayTwo(Some(s), clear, clearAt, add, addAt);
  }

  lemma LastClearDeletes(s: Session, clear: Task, now: int)
    requires ActiveIsLive(s) && s.flows != [] && clear.Clear? && !Stale(Some(s), clear.expected)
    requires forall k: string :: Has(s.flows, k) <==> k == clear.id
    ensures Effect(clear, now, Some(s)) == (None, Done)
  {
    ClearedIsLive(s, clear.id);
    WithoutAll(s.flows, clear.id);
  }

  lemma ReplayTwo(s: Option<Session>, a: Task, aAt: int, b: Task, bAt: int)
    ensures var one := Effect(a, aAt, s);
            var two := Effect(b, bAt, one.0);
            Replay(s, [(a, aAt), (b, bAt)]) == (two.0, [one.1, two.1])
  {
    var one := Effect(a, aAt, s);
    var two := Effect(b, bAt, one.0);
    ReplaySnoc(s, [], a, aAt);
    assert [] + [(a, aAt)] == [(a, aAt)] && [] + [one.1] == [one.1];
    ReplaySnoc(s, [(a, aAt)], b, bAt);
    assert [(a, aAt)] + [(b, bAt)] == [(a, aAt), (b, bAt)] && [one.1] + [two.1] == [one.1, two.1];
  }

  // ------------------------------------------------------------ the fallback write

  lemma {:induction false} RunSnoc(s: State, steps: seq<Step>, step: Step)
    requires IsRun(s, steps) && Enabled(Run(s, steps), step)
    ensures IsRun(s, steps + [step]) && Run(s, steps + [step]) == Next(Run(s, steps), step)
    decreases |steps|
  {
    if steps == [] {
      assert [step][1..] == [];
    } else {
      assert (steps + [step])[1..] == steps[1..] + [step];
      RunSnoc(Next(s, steps[0]), steps[1..], step);
    }
  }

  ghost predicate Reaches(s: State, steps: seq<Step>, r: State) {
    IsRun(s, steps) && Run(s, steps) == r
  }

  lemma OneMore(s: State, steps: seq<Step>, r: State, step: Step)
    requires Reaches(s, steps, r) && Enabled(r, step)
    ensures Reaches(s, steps + [step], Next(r, step))
  {
    RunSnoc(s, steps, step);
  }

  /** A clear in a room and a set without one, both past their read. */
  lemma BothRead(s: Session, room: Key, base: Key, clear: Task, add: Task) returns (steps: seq<Step>)
    requires room != base && clear.Clear? && add.Set?
    ensures Reaches(Start(map[base := s]), steps,
                    State([Ticket(room, Some(base), clear, None, HasRead(Some(s), base)),
                           Ticket(base, None, add, None, HasRead(Some(s), base))],
                          map[room := 0, base := 1], map[base := s]))
  {
    var db := map[base := s];
    var locks := map[room := 0, base := 1];
    var start := Start(db);
    var a, b := Ticket(room, Some(base), clear, None, Waiting), Ticket(base, None, add, None, Waiting);
    var s1 := State([a], map[room := 0], db);
    var s2 := State([a, b], locks, db);
    var s3 := State([a.(phase := Begun), b], locks, db);
    var s4 := State([a.(phase := Begun), b.(phase := Begun)], locks, db);
    var s5 := State([a.(phase := HasRead(Some(s), base)), b.(phase := Begun)], locks, db);
    var s6 := State([a.(phase := HasRead(Some(s), base)), b.(phase := HasRead(Some(s), base))], locks, db);
    steps := OneStep(start, [], start, Call(room, Some(base), clear), s1);
    steps := OneStep(start, steps, s1, Call(base, None, add), s2);
    steps := OneStep(start, steps, s2, Begin(0), s3);
    steps := OneStep(start, steps, s3, Begin(1), s4);
    steps := OneStep(start, steps, s4, Read(0), s5);
    steps := OneStep(start, steps, s5, Read(1), s6);
  }

  lemma OneStep(s: State, steps: seq<Step>, r: State, step: Step, next: State) returns (more: seq<Step>)
    requires Reaches(s, steps, r) && Enabled(r, step) && Next(r, step) == next
    ensures more == steps + [step] && Reaches(s, more, next)
  {
    more := steps + [step];
    OneMore(s, steps, r, step);
  }

  /** A clear made in a room that falls back writes a session it holds no lock
      for. Whatever session is there, and whatever set runs beside it: both report
      success, and what is left is what the clear alone makes of the old session. */
  lemma FallbackLosesUpdate(room: Key, base: Key, was: Session, clear: Task, add: Task, setAt: int, clearAt: int)
    returns (steps: seq<Step>)
    requires room != base && ActiveIsLive(was) && clear.Clear? && add.Set? && Has(was.flows, clear.id)
    requires !Stale(Some(was), clear.expected) && !Stale(Some(was), add.expected)
    ensures IsRun(Start(map[base := was]), steps)
    ensures var r := Run(Start(map[base := was]), steps);
            && |r.tickets| == 2
            && r.tickets[0].key == room && r.tickets[0].task == clear
            && r.tickets[1].key == base && r.tickets[1].task == add
            && (forall i :: 0 <= i < 2 ==> CommittedAt(r.tickets[i], base) && r.tickets[i].phase.commit.value.outcome == Done)
            && Stored(r.db, base) == Effect(clear, clearAt, Some(was)).0
            && (Stored(r.db, base).Some? && !Has(was.flows, add.id) ==> !Has(Stored(r.db, base).value.flows, add.id))
  {
    steps := BothRead(was, room, base, clear, add);
    var start := Start(map[base := was]);
    var read := Run(start, steps);
    assert Effect(add, setAt, Some(was)).1 == Done by { SetActivates(add, setAt, Some(was)); }
    var one := Next(read, Write(1, setAt));
    var two := Next(one, Write(0, clearAt));
    steps := OneStep(start, steps, read, Write(1, setAt), one);
    steps := OneStep(start, steps, one, Write(0, clearAt), two);
    if Stored(two.db, base).Some? {
      ClearRemoves(clear, clearAt, Some(was));
    }
  }
}
