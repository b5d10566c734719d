/**
 One bounded child process (src/providers/process.ts:131-296): its callbacks may
 come in any order, and the promise settles once.
 */
module ProcessRun {
  import opened Prelude
  import opened Utf8

  type Bytes = seq<Byte>

  datatype Cause = Aborted | TimedOut | StdoutLimit | DirectoryLimit

  datatype Failure = Terminated(cause: Cause) | SpawnFailed | ExitFailed(code: Option<int>)

  datatype Settlement = Resolved(stdout: Bytes, stderr: Bytes, truncated: bool) | Rejected(failure: Failure)

  datatype Limits = Limits(stdout: nat, stderr: nat)

  /** `active`: the child is in the set of running processes. `kills` counts the
      termination signals sent; `out` and `err` are all bytes the child wrote. */
  datatype State = State(
    stdout: Bytes,
    stderr: Bytes,
    truncated: bool,
    aborted: bool,
    termination: Option<Cause>,
    spawnError: bool,
    settlement: Option<Settlement>,
    active: bool,
    scanning: bool,
    closed: bool,
    kills: nat,
    out: Bytes,
    err: Bytes)

  const Spawned := State([], [], false, false, None, false, None, true, false, false, 0, [], [])

  datatype Event =
    | Stdout(data: Bytes)
    | Stderr(data: Bytes)
    | CallerAborts
    | Timeout
    | Error(hasPid: bool)
    | Close(code: Option<int>)
    | ScanStarts
    | ScanEnds(exceeds: bool)

  /** Settling removes the abort listeners and stops the timers, and a closed
      child writes nothing more; a directory scan under way goes on. */
  predicate Enabled(s: State, e: Event) {
    match e
    case Stdout(_) => !s.closed && s.settlement.None?
    case Stderr(_) => !s.closed && s.settlement.None?
    case CallerAborts => s.settlement.None?
    case Timeout => s.settlement.None?
    case Error(_) => !s.closed
    case Close(_) => !s.closed
    case ScanStarts => s.settlement.None? && !s.scanning
    case ScanEnds(_) => s.scanning
  }

  /** What is kept of `data`, and whether some of it is not. */
  function Kept(have: Bytes, data: Bytes, limit: nat): Bytes {
    have + data[..Min(|data|, Max(0, limit - |have|))]
  }

  function Terminate(s: State, cause: Cause): (t: State)
    ensures t.kills >= s.kills
  {
    if s.termination.Some? then s else s.(termination := Some(cause), kills := s.kills + 1, active := false)
  }

  function Abort(s: State, cause: Cause): (t: State)
    ensures t.kills >= s.kills
  {
    if s.aborted then s else Terminate(s.(aborted := true), cause)
  }

  function Settle(s: State, settlement: Settlement): (t: State)
    ensures t.kills == s.kills
  {
    if s.settlement.Some? then s else s.(settlement := Some(settlement), active := false)
  }

  function Outcome(s: State, code: Option<int>): Settlement {
    if s.termination.Some? then Rejected(Terminated(s.termination.value))
    else if s.spawnError then Rejected(SpawnFailed)
    else if code != Some(0) then Rejected(ExitFailed(code))
    else Resolved(s.stdout, s.stderr, s.truncated)
  }

  function Received(l: Limits, s: State, data: Bytes): (t: State)
    ensures t.kills >= s.kills
  {
    var t := s.(stdout := Kept(s.stdout, data, l.stdout), out := s.out + data);
    if |data| > l.stdout - |s.stdout| then Terminate(t, StdoutLimit) else t
  }

  function Next(l: Limits, s: State, e: Event): State {
    match e
    case Stdout(data) => Received(l, s, data)
    case Stderr(data) =>
      s.(stderr := Kept(s.stderr, data, l.stderr), err := s.err + data,
         truncated := s.truncated || |data| > l.stderr - |s.stderr|)
    case CallerAborts => Abort(s, Aborted)
    case Timeout => Abort(s, TimedOut)
    case Error(hasPid) =>
      if hasPid then s.(spawnError := true) else Settle(s.(spawnError := true), Rejected(SpawnFailed))
    case Close(code) => Settle(s.(closed := true), Outcome(s, code))
    case ScanStarts => s.(scanning := true)
    case ScanEnds(exceeds) =>
      (if exceeds then Terminate(s, DirectoryLimit) else s).(scanning := false)
  }

  /** The callbacks over the variables they share. */
  class BoundedProcess {
    const limits: Limits
    var stdout: Bytes
    var stderr: Bytes
    var stderrTruncated: bool
    var aborted: bool
    var terminationError: Option<Cause>
    var spawnError: bool
    var settlement: Option<Settlement>
    var active: bool
    var scanning: bool
    var kills: nat
    ghost var closed: bool
    ghost var out: Bytes
    ghost var err: Bytes

    ghost function Value(): State
      reads this
    {
      State(stdout, stderr, stderrTruncated, aborted, terminationError, spawnError, settlement, active, scanning, closed, kills, out, err)
    }

    constructor (limits: Limits)
      ensures Value() == Spawned && this.limits == limits
    {
      this.limits := limits;
      stdout, stderr, stderrTruncated, aborted, terminationError, spawnError := [], [], false, false, None, false;
      settlement, active, scanning, kills := None, true, false, 0;
      closed, out, err := false, [], [];
    }

    method TerminateWith(cause: Cause)
      modifies this
      ensures Value() == Terminate(old(Value()), cause)
    {
      if terminationError.Some? { return; }
      terminationError := Some(cause);
      kills := kills + 1;
      active := false;
    }

    method SettleOnce(s: Settlement)
      modifies this
      ensures Value() == Settle(old(Value()), s)
    {
      if settlement.Some? { return; }
      settlement := Some(s);
      active := false;
    }

    method OnStdout(data: Bytes)
      modifies this
      ensures Value() == Next(limits, old(Value()), Stdout(data))
      ensures |old(stdout)| <= limits.stdout ==>
                var all := old(stdout) + data;
                stdout == if |all| <= limits.stdout then all else all[..limits.stdout]
      ensures terminationError == if old(terminationError).None? && |data| > limits.stdout - |old(stdout)|
                                  then Some(StdoutLimit) else old(terminationError)
      ensures kills == old(kills) + if old(terminationError) != terminationError then 1 else 0
    {
      out := out + data;
      var remaining := limits.stdout - |stdout|;
      if remaining > 0 {
        stdout := stdout + data[..Min(|data|, remaining)];
      } else {
        assert stdout + data[..0] == stdout;
      }
      if |data| > remaining { TerminateWith(StdoutLimit); }
    }

    method OnStderr(data: Bytes)
      modifies this
      ensures Value() == Next(limits, old(Value()), Stderr(data))
      ensures |old(stderr)| <= limits.stderr ==>
                var all := old(stderr) + data;
                stderr == if |all| <= limits.stderr then all else all[..limits.stderr]
      ensures stderrTruncated <==> old(stderrTruncated) || |data| > limits.stderr - |old(stderr)|
      ensures terminationError == old(terminationError) && kills == old(kills)
    {
      err := err + data;
      var remaining := limits.stderr - |stderr|;
      if remaining > 0 {
        stderr := stderr + data[..Min(|data|, remaining)];
      } else {
        assert stderr + data[..0] == stderr;
      }
      if |data| > remaining { stderrTruncated := true; }
    }

    method OnAbort(cause: Cause)
      modifies this
      ensures Value() == Abort(old(Value()), cause)
      ensures aborted
      ensures terminationError == if old(aborted) || old(terminationError).Some? then old(terminationError) else Some(cause)
      ensures kills == old(kills) + if old(terminationError) != terminationError then 1 else 0
    {
      if !aborted {
        aborted := true;
        TerminateWith(cause);
      }
    }

    method OnError(hasPid: bool)
      modifies this
      ensures Value() == Next(limits, old(Value()), Error(hasPid))
      ensures spawnError
      ensures settlement == if old(settlement).None? && !hasPid then Some(Rejected(SpawnFailed)) else old(settlement)
    {
      spawnError := true;
      if !hasPid { SettleOnce(Rejected(SpawnFailed)); }
    }

    method OnClose(code: Option<int>)
      modifies this
      ensures Value() == Next(limits, old(Value()), Close(code))
      ensures old(settlement).Some? ==> settlement == old(settlement)
      ensures old(settlement).None? ==>
                && (settlement == Some(Resolved(stdout, stderr, stderrTruncated)) <==>
                      terminationError.None? && !spawnError && code == Some(0))
                && (terminationError.Some? ==> settlement == Some(Rejected(Terminated(terminationError.value))))
                && (terminationError.None? && spawnError ==> settlement == Some(Rejected(SpawnFailed)))
                && (terminationError.None? && !spawnError && code != Some(0) ==> settlement == Some(Rejected(ExitFailed(code))))
    {
      closed := true;
      if settlement.Some? { return; }
      if terminationError.Some? {
        SettleOnce(Rejected(Terminated(terminationError.value)));
      } else if spawnError {
        SettleOnce(Rejected(SpawnFailed));
      } else if code != Some(0) {
        SettleOnce(Rejected(ExitFailed(code)));
      } else {
        SettleOnce(Resolved(stdout, stderr, stderrTruncated));
      }
    }

    method OnScanEnd(exceeds: bool)
      modifies this
      ensures Value() == Next(limits, old(Value()), ScanEnds(exceeds))
      ensures !scanning
      ensures terminationError == if exceeds && old(terminationError).None? then Some(DirectoryLimit) else old(terminationError)
      ensures kills == old(kills) + if old(terminationError) != terminationError then 1 else 0
    {
      if exceeds { TerminateWith(DirectoryLimit); }
      scanning := false;
    }
  }

  // ------------------------------------------------------------ whole runs

  predicate IsRun(l: Limits, s: State, es: seq<Event>)
    decreases |es|
  {
    es != [] ==> Enabled(s, es[0]) && IsRun(l, Next(l, s, es[0]), es[1..])
  }

  function Run(l: Limits, s: State, es: seq<Event>): State
    decreases |es|
  {
    if es == [] then s else Run(l, Next(l, s, es[0]), es[1..])
  }

  /** The buffers hold the first bytes written, up to their limits, and every
      byte beyond stdout's limit leads to a termination. */
  ghost predicate BuffersHold(l: Limits, s: State) {
    && s.stdout == s.out[..Min(|s.out|, l.stdout)]
    && s.stderr == s.err[..Min(|s.err|, l.stderr)]
    && (s.truncated <==> |s.err| > l.stderr)
    && (|s.out| > l.stdout ==> s.termination.Some?)
  }

  ghost predicate Consistent(s: State) {
    && (s.active <==> s.settlement.None? && s.termination.None?)
    && (s.aborted ==> s.termination.Some?)
    && s.kills == (if s.termination.Some? then 1 else 0)
    && (s.closed ==> s.settlement.Some?)
  }

  lemma KeptIsPrefix(have: Bytes, all: Bytes, data: Bytes, limit: nat)
    requires have == all[..Min(|all|, limit)]
    ensures Kept(have, data, limit) == (all + data)[..Min(|all + data|, limit)]
    ensures |data| > limit - |have| <==> |data| > 0 && |all + data| > limit
  {
  }

  lemma StepHolds(l: Limits, s: State, e: Event)
    requires BuffersHold(l, s) && Consistent(s) && Enabled(s, e)
    ensures BuffersHold(l, Next(l, s, e)) && Consistent(Next(l, s, e))
    ensures s.settlement.Some? ==> Next(l, s, e).settlement == s.settlement
    ensures s.termination.Some? ==> Next(l, s, e).termination == s.termination
  {
    match e {
      case Stdout(data) => KeptIsPrefix(s.stdout, s.out, data, l.stdout);
      case Stderr(data) => KeptIsPrefix(s.stderr, s.err, data, l.stderr);
      case _ =>
    }
  }

  /** Once settled always settled the same way; the first cause stays the cause;
      at most one termination signal is sent. */
  lemma {:induction false} SettlesOnce(l: Limits, s: State, es: seq<Event>)
    requires BuffersHold(l, s) && Consistent(s) && IsRun(l, s, es)
    ensures var r := Run(l, s, es);
            && BuffersHold(l, r) && Consistent(r) && r.kills <= 1
            && (s.settlement.Some? ==> r.settlement == s.settlement)
            && (s.termination.Some? ==> r.termination == s.termination)
    decreases |es|
  {
    if es != [] {
      StepHolds(l, s, es[0]);
      SettlesOnce(l, Next(l, s, es[0]), es[1..]);
    }
  }

  /** A resolved run kept the whole of stdout, and of stderr the whole or, when it
      says so, the first bytes. */
  ghost predicate ResolvedInFull(l: Limits, s: State) {
    s.settlement.Some? && s.settlement.value.Resolved? ==>
      && s.settlement.value.stdout == s.out && |s.out| <= l.stdout
      && s.settlement.value.stderr == s.err[..Min(|s.err|, l.stderr)]
      && (s.settlement.value.truncated <==> |s.err| > l.stderr)
  }

  lemma StepWhole(l: Limits, s: State, e: Event)
    requires BuffersHold(l, s) && Consistent(s) && ResolvedInFull(l, s) && Enabled(s, e)
    ensures ResolvedInFull(l, Next(l, s, e))
  {
    if e.Close? && s.termination.None? {
      assert s.out[..|s.out|] == s.out;
    }
  }

  lemma {:induction false} ResolvedRunsAreWhole(l: Limits, s: State, es: seq<Event>)
    requires BuffersHold(l, s) && Consistent(s) && ResolvedInFull(l, s) && IsRun(l, s, es)
    ensures ResolvedInFull(l, Run(l, s, es))
    decreases |es|
  {
    if es != [] {
      StepHolds(l, s, es[0]);
      StepWhole(l, s, es[0]);
      ResolvedRunsAreWhole(l, Next(l, s, es[0]), es[1..]);
    }
  }

  /** After a run has settled a signal is sent only by a directory scan that was
      under way and finds too much: there the code does not look again. */
  lemma {:induction false} QuietAfterSettling(l: Limits, s: State, es: seq<Event>)
    requires s.settlement.Some? && IsRun(l, s, es)
    ensures Run(l, s, es).kills == s.kills <==> s.termination.Some? || !s.scanning || ScanEnds(true) !in es
    decreases |es|
  {
    if es != [] {
      var t := Next(l, s, es[0]);
      QuietStep(l, s, es[0]);
      QuietAfterSettling(l, t, es[1..]);
      OnlyRises(l, t, es[1..]);
      if es[0].ScanEnds? {
        NoMoreScans(l, t, es[1..]);
      }
      assert ScanEnds(true) in es <==> es[0] == ScanEnds(true) || ScanEnds(true) in es[1..];
    }
  }

  lemma QuietStep(l: Limits, s: State, e: Event)
    requires s.settlement.Some? && Enabled(s, e)
    ensures var t := Next(l, s, e);
            && t.settlement.Some?
            && (t.kills == s.kills <==> s.termination.Some? || e != ScanEnds(true))
            && (t.kills == s.kills ==> t.termination == s.termination)
            && (t.scanning <==> s.scanning && !e.ScanEnds?)
  {
  }

  lemma StepRises(l: Limits, s: State, e: Event)
    ensures Next(l, s, e).kills >= s.kills
  {
  }

  lemma {:induction false} OnlyRises(l: Limits, s: State, es: seq<Event>)
    ensures Run(l, s, es).kills >= s.kills
    decreases |es|
  {
    if es != [] {
      StepRises(l, s, es[0]);
      OnlyRises(l, Next(l, s, es[0]), es[1..]);
    }
  }

  lemma {:induction false} NoMoreScans(l: Limits, s: State, es: seq<Event>)
    requires s.settlement.Some? && !s.scanning && IsRun(l, s, es)
    ensures forall e :: e in es ==> !e.ScanEnds?
    decreases |es|
  {
    if es != [] {
      NoMoreScans(l, Next(l, s, es[0]), es[1..]);
      assert forall e :: e in es ==> e == es[0] || e in es[1..];
    }
  }
}
