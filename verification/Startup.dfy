/**
 Processes that open one database file (src/db/index.ts:94-109,212-286): the
 migration section under its own lease, then the runtime lease with its heartbeat.
 */
module Startup {
  import opened Prelude
  import opened Lease
  import opened LeaseRuns

  const MIGRATION := "elastrax:migration"
  const RUNTIME := "elastrax:runtime"

  datatype Phase =
    | NotStarted
    | HasLease        // took the migration lease, has not looked at the runtime lease
    | Migrating       // saw no active runtime lease
    | Between         // gave the migration lease up, has no runtime lease yet
    | Running
    | Closed

  datatype State = State(leases: Leases, phases: map<string, Phase>)

  datatype Step =
    | TakeMigration(p: string, ttlMs: Option<int>, at: int)
    | Look(p: string, at: int)
    | Finish(p: string, at: int)
    | Fail(p: string, at: int)
    | TakeRuntime(p: string, ttlMs: Option<int>, at: int)
    | Beat(p: string, ttlMs: Option<int>, at: int)
    | Close(p: string, at: int)

  function PhaseOf(s: State, p: string): Phase {
    if p in s.phases then s.phases[p] else NotStarted
  }

  predicate Enabled(s: State, e: Step) {
    && s.leases.now <= e.at
    && match e
       case TakeMigration(p, _, _) => PhaseOf(s, p).NotStarted?
       case Look(p, _) => PhaseOf(s, p).HasLease?
       case Finish(p, _) => PhaseOf(s, p).Migrating?
       case Fail(p, _) => PhaseOf(s, p).HasLease? || PhaseOf(s, p).Migrating?
       case TakeRuntime(p, _, _) => PhaseOf(s, p).Between?
       case Beat(p, _, _) => PhaseOf(s, p).Running?
       case Close(p, _) => PhaseOf(s, p).Running?
  }

  predicate RuntimeActive(s: State, at: int) {
    RUNTIME in s.leases.rows && s.leases.rows[RUNTIME].expiresAt > at
  }

  /** An error in the migration section gives its lease up, like its end does, and
      after any refusal the process may try again; a failed heartbeat closes the
      database for good. */
  function Next(s: State, e: Step): State {
    match e
    case TakeMigration(p, ttlMs, at) =>
      var op := Acquire(MIGRATION, p, ttlMs, at);
      State(LeaseRuns.Next(s.leases, op), s.phases[p := if Succeeds(s.leases, op) then HasLease else NotStarted])
    case Look(p, at) =>
      if RuntimeActive(s, at) then State(LeaseRuns.Next(s.leases, Release(MIGRATION, p, at)), s.phases[p := NotStarted])
      else State(s.leases.(now := at), s.phases[p := Migrating])
    case Finish(p, at) => State(LeaseRuns.Next(s.leases, Release(MIGRATION, p, at)), s.phases[p := Between])
    case Fail(p, at) => State(LeaseRuns.Next(s.leases, Release(MIGRATION, p, at)), s.phases[p := NotStarted])
    case TakeRuntime(p, ttlMs, at) =>
      var op := Acquire(RUNTIME, p, ttlMs, at);
      State(LeaseRuns.Next(s.leases, op), s.phases[p := if Succeeds(s.leases, op) then Running else NotStarted])
    case Beat(p, ttlMs, at) =>
      var op := Renew(RUNTIME, p, ttlMs, at);
      if Succeeds(s.leases, op) then s.(leases := LeaseRuns.Next(s.leases, op))
      else State(LeaseRuns.Next(s.leases, Release(RUNTIME, p, at)), s.phases[p := Closed])
    case Close(p, at) => State(LeaseRuns.Next(s.leases, Release(RUNTIME, p, at)), s.phases[p := Closed])
  }

  predicate IsRun(s: State, es: seq<Step>)
    decreases |es|
  {
    es != [] ==> Enabled(s, es[0]) && IsRun(Next(s, es[0]), es[1..])
  }

  function Run(s: State, es: seq<Step>): State
    decreases |es|
  {
    if es == [] then s else Run(Next(s, es[0]), es[1..])
  }

  const Start := State(Leases(map[], map[], 0), map[])

  predicate InSection(s: State, p: string) {
    PhaseOf(s, p).HasLease? || PhaseOf(s, p).Migrating?
  }

  ghost predicate SectionHolds(s: State) {
    && LeaseRuns.Inv(s.leases)
    && (forall p :: InSection(s, p) ==> (MIGRATION, p) in s.leases.held)
    && (forall p :: PhaseOf(s, p).Running? ==> (RUNTIME, p) in s.leases.held)
    && HeldByOwners(s.leases)
  }

  /** The lease statement a step makes, if any. */
  function OpOf(s: State, e: Step): Option<Op> {
    match e
    case TakeMigration(p, ttlMs, at) => Some(Acquire(MIGRATION, p, ttlMs, at))
    case Look(p, at) => if RuntimeActive(s, at) then Some(Release(MIGRATION, p, at)) else None
    case Finish(p, at) => Some(Release(MIGRATION, p, at))
    case Fail(p, at) => Some(Release(MIGRATION, p, at))
    case TakeRuntime(p, ttlMs, at) => Some(Acquire(RUNTIME, p, ttlMs, at))
    case Beat(p, ttlMs, at) =>
      var op := Renew(RUNTIME, p, ttlMs, at);
      Some(if Succeeds(s.leases, op) then op else Release(RUNTIME, p, at))
    case Close(p, at) => Some(Release(RUNTIME, p, at))
  }

  lemma StepKeepsSection(s: State, e: Step)
    requires SectionHolds(s) && Enabled(s, e)
    ensures SectionHolds(Next(s, e))
  {
    if OpOf(s, e).Some? {
      StepKeepsInv(s.leases, OpOf(s, e).value);
    }
  }

  /** Nobody keeps a lease it has no more use for: after the section is left, by its
      end, an error or a refusal, and after the database is closed, the lease is free
      unless another process has it by then. */
  lemma LeasesAreGivenUp(s: State, e: Step)
    requires SectionHolds(s) && Enabled(s, e)
    ensures var t := Next(s, e);
            && (InSection(s, e.p) && !InSection(t, e.p) ==> !Owns(t.leases.rows, MIGRATION, e.p))
            && (PhaseOf(s, e.p).Running? && !PhaseOf(t, e.p).Running? ==> !Owns(t.leases.rows, RUNTIME, e.p))
  {
  }

  /** A lease that is free, has run out or is the process's own. */
  predicate Free(s: State, name: string, p: string, at: int) {
    name !in s.leases.rows || s.leases.rows[name].expiresAt <= at || s.leases.rows[name].owner == p
  }

  /** Where each step leads. The section is entered with its lease, migration starts
      only while no runtime lease is active, and a process runs on only as long as its
      heartbeats find an unexpired lease. */
  lemma StepsAreGuarded(s: State, e: Step)
    requires SectionHolds(s) && Enabled(s, e)
    ensures PhaseOf(Next(s, e), e.p) ==
            match e
            case TakeMigration(p, _, at) => if Free(s, MIGRATION, p, at) then HasLease else NotStarted
            case Look(p, at) =>
              if RUNTIME in s.leases.rows && s.leases.rows[RUNTIME].expiresAt > at then NotStarted else Migrating
            case Finish(_, _) => Between
            case Fail(_, _) => NotStarted
            case TakeRuntime(p, _, at) => if Free(s, RUNTIME, p, at) then Running else NotStarted
            case Beat(p, _, at) =>
              if Owns(s.leases.rows, RUNTIME, p) && s.leases.rows[RUNTIME].expiresAt > at then Running else Closed
            case Close(_, _) => Closed
    ensures forall p :: p != e.p ==> PhaseOf(Next(s, e), p) == PhaseOf(s, p)
    ensures forall p, at :: InSection(s, p) && s.leases.now <= at ==> Enabled(s, Fail(p, at))
  {
  }

  predicate MayMigrate(s: State, p: string) {
    InSection(s, p) && Believes(s.leases, MIGRATION, p)
  }

  predicate MayRun(s: State, p: string) {
    PhaseOf(s, p).Running? && Believes(s.leases, RUNTIME, p)
  }

  /** In every run at most one process is in the migration section with a lease
      that has not expired, and likewise at most one runs. */
  lemma {:induction false} OneMigrates(s: State, es: seq<Step>, p: string, q: string)
    requires SectionHolds(s) && IsRun(s, es)
    ensures SectionHolds(Run(s, es))
    ensures var r := Run(s, es);
            && (MayMigrate(r, p) && MayMigrate(r, q) ==> p == q)
            && (MayRun(r, p) && MayRun(r, q) ==> p == q)
    decreases |es|
  {
    if es == [] {
      OneHolder(s.leases, [], MIGRATION, p, q);
      OneHolder(s.leases, [], RUNTIME, p, q);
    } else {
      StepKeepsSection(s, es[0]);
      OneMigrates(Next(s, es[0]), es[1..], p, q);
    }
  }

  // ------------------------------------------------------------ running while another migrates

  predicate Overlap(s: State, p: string, q: string) {
    p != q && MayRun(s, p) && PhaseOf(s, q).Migrating? && Believes(s.leases, MIGRATION, q)
  }

  ghost predicate Apart(s: State) {
    forall p, q :: !Overlap(s, p, q)
  }

  predicate MigrationActive(s: State, at: int) {
    MIGRATION in s.leases.rows && s.leases.rows[MIGRATION].expiresAt > at
  }

  /** A runtime lease is granted while the owner of an active migration lease migrates. */
  predicate Clashes(s: State, e: Step) {
    && e.TakeRuntime? && Grants(s.leases.rows, RUNTIME, e.p, e.at)
    && MigrationActive(s, e.at) && PhaseOf(s, s.leases.rows[MIGRATION].owner).Migrating?
  }

  lemma OverlapAfterClash(s: State, e: Step)
    requires SectionHolds(s) && Enabled(s, e) && Clashes(s, e)
    ensures Overlap(Next(s, e), e.p, s.leases.rows[MIGRATION].owner)
  {
  }

  lemma OverlapNeedsClash(s: State, e: Step, p: string, q: string)
    requires SectionHolds(s) && Enabled(s, e) && !Overlap(s, p, q) && Overlap(Next(s, e), p, q)
    ensures Clashes(s, e)
  {
  }

  /** That one step, and no other, brings a running and a migrating process together. */
  lemma ApartStep(s: State, e: Step)
    requires SectionHolds(s) && Enabled(s, e) && Apart(s)
    ensures Apart(Next(s, e)) <==> !Clashes(s, e)
  {
    if Clashes(s, e) {
      OverlapAfterClash(s, e);
    } else {
      forall p, q ensures !Overlap(Next(s, e), p, q) {
        if Overlap(Next(s, e), p, q) {
          OverlapNeedsClash(s, e, p, q);
        }
      }
    }
  }

  ghost predicate AlwaysApart(s: State, es: seq<Step>)
    decreases |es|
  {
    Apart(s) && (es != [] ==> AlwaysApart(Next(s, es[0]), es[1..]))
  }

  predicate NeverClashes(s: State, es: seq<Step>)
    decreases |es|
  {
    es != [] ==> !Clashes(s, es[0]) && NeverClashes(Next(s, es[0]), es[1..])
  }

  /** Every process asks for the runtime lease only while no migration lease is active. */
  predicate AsksFirst(s: State, es: seq<Step>)
    decreases |es|
  {
    es != [] ==> (es[0].TakeRuntime? ==> !MigrationActive(s, es[0].at)) && AsksFirst(Next(s, es[0]), es[1..])
  }

  /** In every run: no process runs while another migrates, both under unexpired
      leases, if and only if no runtime lease is granted during a migration. */
  lemma {:induction false} ApartExactly(s: State, es: seq<Step>)
    requires SectionHolds(s) && Apart(s) && IsRun(s, es)
    ensures AlwaysApart(s, es) <==> NeverClashes(s, es)
    decreases |es|
  {
    if es != [] {
      ApartStep(s, es[0]);
      StepKeepsSection(s, es[0]);
      if !Clashes(s, es[0]) {
        ApartExactly(Next(s, es[0]), es[1..]);
      }
    }
  }

  /** So it would do to look at the migration lease before taking the runtime lease. */
  lemma {:induction false} AskingFirstIsEnough(s: State, es: seq<Step>)
    requires SectionHolds(s) && Apart(s) && IsRun(s, es) && AsksFirst(s, es)
    ensures AlwaysApart(s, es)
    decreases |es|
  {
    if es != [] {
      ApartStep(s, es[0]);
      StepKeepsSection(s, es[0]);
      AskingFirstIsEnough(Next(s, es[0]), es[1..]);
    }
  }

  lemma StartIsApart()
    ensures SectionHolds(Start) && Apart(Start)
  {
  }

  /** The code does not look: it gives the migration lease up before it takes the
      runtime lease, and the clash is reached. */
  lemma RunsWhileAnotherMigrates(p: string, q: string) returns (es: seq<Step>)
    requires p != q
    ensures IsRun(Start, es) && PhaseOf(Run(Start, es), p).Running? && PhaseOf(Run(Start, es), q).Migrating?
    ensures Believes(Run(Start, es).leases, RUNTIME, p) && Believes(Run(Start, es).leases, MIGRATION, q)
  {
    es := [TakeMigration(p, None, 0), Look(p, 0), Finish(p, 0), TakeMigration(q, None, 0), Look(q, 0), TakeRuntime(p, None, 0)];
    var s1 := Next(Start, es[0]);
    var s2 := Next(s1, es[1]);
    var s3 := Next(s2, es[2]);
    var s4 := Next(s3, es[3]);
    var s5 := Next(s4, es[4]);
    var s6 := Next(s5, es[5]);
    assert es[5..][1..] == [] && IsRun(s6, []) && Run(s6, []) == s6;
    assert es[5..] == [es[5]] && IsRun(s5, es[5..]) && Run(s5, es[5..]) == s6;
    assert es[4..][1..] == es[5..] && IsRun(s4, es[4..]) && Run(s4, es[4..]) == s6;
    assert es[3..][1..] == es[4..] && IsRun(s3, es[3..]) && Run(s3, es[3..]) == s6;
    assert es[2..][1..] == es[3..] && IsRun(s2, es[2..]) && Run(s2, es[2..]) == s6;
    assert es[1..][1..] == es[2..] && IsRun(s1, es[1..]) && Run(s1, es[1..]) == s6;
  }
}
