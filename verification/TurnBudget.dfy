/**
 The per-turn tool budget (src/ai/turnBudget.ts): claimed tool calls, running
 calls, and the bytes of recorded tool results.
 */
module TurnBudgets {
  import opened Prelude
  import opened Utf8

  datatype LimitName = MaxToolCalls | MaxParallelToolCalls | MaxToolResultBytes | MaxTotalToolResultBytes

  datatype BudgetError = Exceeded(limit: LimitName) | BadArgument

  datatype Limits = Limits(toolCalls: nat, parallel: nat, resultBytes: nat, totalBytes: nat) {
    ghost predicate Valid() {
      1 <= toolCalls <= 8 && 1 <= parallel <= 4 &&
      1 <= resultBytes <= 10 * 1024 * 1024 && 1 <= totalBytes <= 40 * 1024 * 1024
    }
  }

  function HardLimit(name: LimitName): nat {
    match name
    case MaxToolCalls => 8
    case MaxParallelToolCalls => 4
    case MaxToolResultBytes => 1024 * 1024
    case MaxTotalToolResultBytes => 4 * 1024 * 1024
  }

  function AbsoluteLimit(name: LimitName): nat {
    match name
    case MaxToolCalls => 8
    case MaxParallelToolCalls => 4
    case MaxToolResultBytes => 10 * 1024 * 1024
    case MaxTotalToolResultBytes => 40 * 1024 * 1024
  }

  /** A limit is always at least 1 and never above its absolute ceiling; a
      finite request inside that range is taken rounded down. */
  function NormalizeLimit(name: LimitName, value: Requested): (r: nat)
    ensures 1 <= r <= AbsoluteLimit(name)
    ensures value.Finite? && 1.0 <= value.value <= AbsoluteLimit(name) as real ==>
              r as real <= value.value < (r + 1) as real
    ensures value.Finite? && value.value < 1.0 ==> r == 1
    ensures value.Finite? && value.value > AbsoluteLimit(name) as real ==> r == AbsoluteLimit(name)
    ensures !value.Finite? ==>
              match name
              case MaxToolCalls => r == 8
              case MaxParallelToolCalls => r == 4
              case MaxToolResultBytes => r == 1_048_576
              case MaxTotalToolResultBytes => r == 4_194_304
  {
    if !value.Finite? then HardLimit(name)
    else Max(1, Min(value.value.Floor, AbsoluteLimit(name)))
  }

  /** The counters of one turn. */
  datatype Usage = Usage(toolCalls: nat, parallel: nat, lastBytes: nat, totalBytes: nat)

  const Unused := Usage(0, 0, 0, 0)

  function Claimed(limits: Limits, u: Usage, count: int): Result<Usage, BudgetError> {
    if count < 1 then Failure(BadArgument)
    else if u.toolCalls + count > limits.toolCalls then Failure(Exceeded(MaxToolCalls))
    else Success(u.(toolCalls := u.toolCalls + count))
  }

  function Begun(limits: Limits, u: Usage): Result<Usage, BudgetError> {
    if u.parallel >= limits.parallel then Failure(Exceeded(MaxParallelToolCalls))
    else Success(u.(parallel := u.parallel + 1))
  }

  function Ended(u: Usage): Usage {
    u.(parallel := Max(0, u.parallel - 1))
  }

  function Recorded(limits: Limits, u: Usage, bytes: int): Result<Usage, BudgetError> {
    if bytes < 0 || bytes > MAX_SAFE_INTEGER then Failure(BadArgument)
    else if bytes > limits.resultBytes then Failure(Exceeded(MaxToolResultBytes))
    else if u.totalBytes + bytes > limits.totalBytes then Failure(Exceeded(MaxTotalToolResultBytes))
    else Success(u.(lastBytes := bytes, totalBytes := u.totalBytes + bytes))
  }

  /** Bytes the next text result may take. */
  function Allowed(limits: Limits, u: Usage): int {
    Min(limits.resultBytes, limits.totalBytes - u.totalBytes)
  }

  class TurnBudget {
    const limits: Limits
    var toolCalls: nat
    var parallelToolCalls: nat
    var toolResultBytes: nat
    var totalToolResultBytes: nat

    ghost function State(): Usage
      reads this
    {
      Usage(toolCalls, parallelToolCalls, toolResultBytes, totalToolResultBytes)
    }

    constructor (calls: Requested, parallel: Requested, bytes: Requested, total: Requested)
      ensures limits.Valid() && State() == Unused
      ensures limits.toolCalls == NormalizeLimit(MaxToolCalls, calls)
      ensures limits.parallel == NormalizeLimit(MaxParallelToolCalls, if parallel.Missing? then calls else parallel)
      ensures limits.resultBytes == NormalizeLimit(MaxToolResultBytes, bytes)
      ensures limits.totalBytes == NormalizeLimit(MaxTotalToolResultBytes, if total.Missing? then bytes else total)
    {
      limits := Limits(
        NormalizeLimit(MaxToolCalls, calls),
        NormalizeLimit(MaxParallelToolCalls, if parallel.Missing? then calls else parallel),
        NormalizeLimit(MaxToolResultBytes, bytes),
        NormalizeLimit(MaxTotalToolResultBytes, if total.Missing? then bytes else total));
      toolCalls, parallelToolCalls, toolResultBytes, totalToolResultBytes := 0, 0, 0, 0;
    }

    method ClaimToolCalls(count: int) returns (r: Result<(), BudgetError>)
      modifies this`toolCalls
      ensures var next := Claimed(limits, old(State()), count);
              if next.Success? then r == Success(()) && State() == next.value
              else r == Failure(next.error) && State() == old(State())
      ensures r.Success? <==> count >= 1 && old(toolCalls) + count <= limits.toolCalls
      ensures r.Failure? ==> r.error == if count < 1 then BadArgument else Exceeded(MaxToolCalls)
      ensures toolCalls == old(toolCalls) + if r.Success? then count else 0
    {
      if count < 1 { return Failure(BadArgument); }
      if toolCalls + count > limits.toolCalls { return Failure(Exceeded(MaxToolCalls)); }
      toolCalls := toolCalls + count;
      return Success(());
    }

    method BeginParallelCall() returns (r: Result<(), BudgetError>)
      modifies this`parallelToolCalls
      ensures var next := Begun(limits, old(State()));
              if next.Success? then r == Success(()) && State() == next.value
              else r == Failure(next.error) && State() == old(State())
      ensures r.Success? <==> old(parallelToolCalls) < limits.parallel
      ensures r.Failure? ==> r.error == Exceeded(MaxParallelToolCalls)
      ensures parallelToolCalls == old(parallelToolCalls) + if r.Success? then 1 else 0
    {
      if parallelToolCalls >= limits.parallel { return Failure(Exceeded(MaxParallelToolCalls)); }
      parallelToolCalls := parallelToolCalls + 1;
      return Success(());
    }

    method EndParallelCall()
      modifies this`parallelToolCalls
      ensures State() == Ended(old(State()))
      ensures if old(parallelToolCalls) == 0 then parallelToolCalls == 0 else parallelToolCalls + 1 == old(parallelToolCalls)
    {
      parallelToolCalls := Max(0, parallelToolCalls - 1);
    }

    method RecordToolResult(byteLength: int) returns (r: Result<nat, BudgetError>)
      modifies this`toolResultBytes, this`totalToolResultBytes
      ensures var next := Recorded(limits, old(State()), byteLength);
              if next.Success? then r == Success(byteLength) && State() == next.value
              else r == Failure(next.error) && State() == old(State())
      ensures r.Success? <==>
              && 0 <= byteLength <= MAX_SAFE_INTEGER && byteLength <= limits.resultBytes
              && old(totalToolResultBytes) + byteLength <= limits.totalBytes
      ensures r.Success? ==> r.value == byteLength == toolResultBytes
      ensures totalToolResultBytes == old(totalToolResultBytes) + if r.Success? then byteLength else 0
      ensures r.Failure? ==>
                && toolResultBytes == old(toolResultBytes)
                && (r.error == BadArgument <==> byteLength < 0 || byteLength > MAX_SAFE_INTEGER)
                && (r.error == Exceeded(MaxToolResultBytes) <==> limits.resultBytes < byteLength <= MAX_SAFE_INTEGER)
    {
      if byteLength < 0 || byteLength > MAX_SAFE_INTEGER { return Failure(BadArgument); }
      if byteLength > limits.resultBytes { return Failure(Exceeded(MaxToolResultBytes)); }
      if totalToolResultBytes + byteLength > limits.totalBytes {
        return Failure(Exceeded(MaxTotalToolResultBytes));
      }
      toolResultBytes := byteLength;
      totalToolResultBytes := totalToolResultBytes + byteLength;
      return Success(byteLength);
    }

    /** The text itself when it fits, else a prefix of it in whole characters:
        the longest that fits, save for a U+FFFD standing exactly at the cut.
        It fails only when no byte is left, and then changes nothing. */
    method ConstrainTextResult(value: string) returns (r: Result<(string, nat, bool), BudgetError>)
      requires limits.Valid() && totalToolResultBytes <= limits.totalBytes
      modifies this`toolResultBytes, this`totalToolResultBytes
      ensures r.Failure? <==> old(totalToolResultBytes) == limits.totalBytes
      ensures r.Failure? ==> r.error == Exceeded(MaxTotalToolResultBytes) && State() == old(State())
      ensures r.Success? ==>
                var allowed := old(Allowed(limits, State()));
                var (text, bytes, truncated) := r.value;
                && (truncated <==> ByteLength(value) > allowed)
                && text == (if truncated then value[..KeptCount(value, allowed)] else value)
                && bytes == ByteLength(text) <= allowed
                && State() == old(State()).(lastBytes := bytes, totalBytes := old(totalToolResultBytes) + bytes)
    {
      var encoded := Encode(value);
      var remainingTotal := limits.totalBytes - totalToolResultBytes;
      var allowed := Min(limits.resultBytes, remainingTotal);
      if allowed <= 0 { return Failure(Exceeded(MaxTotalToolResultBytes)); }
      if |encoded| <= allowed {
        var bytes := RecordToolResult(|encoded|);
        assert bytes.Success?;
        return Success((value, bytes.value, false));
      }
      var truncated := StripReplacement(Decode(encoded[..allowed]));
      TruncationKeepsPrefix(value, allowed);
      KeptPrefixIsLongest(value, allowed);
      // The trimming loop that stands here in the source is never entered:
      assert ByteLength(truncated) <= allowed;
      var bytes := RecordToolResult(ByteLength(truncated));
      return Success((truncated, bytes.value, true));
    }
  }

  // ---------------------------------------------------------------- whole turns

  datatype Op = Claim(count: int) | Begin | End | Record(bytes: int) | Constrain(text: string)

  /** The bytes a `ConstrainTextResult` call records, when it records any. */
  function ConstrainedBytes(limits: Limits, u: Usage, text: string): Result<nat, BudgetError> {
    var allowed := Allowed(limits, u);
    if allowed <= 0 then Failure(Exceeded(MaxTotalToolResultBytes))
    else if ByteLength(text) <= allowed then Success(ByteLength(text))
    else Success(ByteLength(text[..KeptCount(text, allowed)]))
  }

  function Apply(limits: Limits, u: Usage, op: Op): Result<Usage, BudgetError> {
    match op
    case Claim(n) => Claimed(limits, u, n)
    case Begin => Begun(limits, u)
    case End => Success(Ended(u))
    case Record(n) => Recorded(limits, u, n)
    case Constrain(text) =>
      match ConstrainedBytes(limits, u, text)
      case Failure(e) => Failure(e)
      case Success(n) => Recorded(limits, u, n)
  }

  /** A failing call throws and leaves the counters as they were. */
  function Next(limits: Limits, u: Usage, op: Op): Usage {
    var r := Apply(limits, u, op);
    if r.Success? then r.value else u
  }

  function RunOps(limits: Limits, u: Usage, ops: seq<Op>): Usage
    decreases |ops|
  {
    if ops == [] then u else RunOps(limits, Next(limits, u, ops[0]), ops[1..])
  }

  /** Bytes recorded and calls claimed by the operations that succeed. */
  function SumRecorded(limits: Limits, u: Usage, ops: seq<Op>): nat
    decreases |ops|
  {
    if ops == [] then 0
    else
      var ok := Apply(limits, u, ops[0]).Success?;
      var here := match ops[0]
                  case Record(n) => if ok && n >= 0 then n else 0
                  case Constrain(text) =>
                    (match ConstrainedBytes(limits, u, text) case Success(n) => if ok then n else 0 case Failure(_) => 0)
                  case _ => 0;
      here + SumRecorded(limits, Next(limits, u, ops[0]), ops[1..])
  }

  function SumClaimed(limits: Limits, u: Usage, ops: seq<Op>): nat
    decreases |ops|
  {
    if ops == [] then 0
    else
      (if ops[0].Claim? && ops[0].count >= 0 && Apply(limits, u, ops[0]).Success? then ops[0].count else 0) +
      SumClaimed(limits, Next(limits, u, ops[0]), ops[1..])
  }

  ghost predicate Within(limits: Limits, u: Usage) {
    u.toolCalls <= limits.toolCalls && u.parallel <= limits.parallel && u.totalBytes <= limits.totalBytes
  }

  /** Over any call sequence the totals are the sums of what was accepted, and
      no counter passes its limit. */
  lemma {:induction false} TotalsAreSums(limits: Limits, u: Usage, ops: seq<Op>)
    requires limits.Valid() && Within(limits, u)
    ensures var v := RunOps(limits, u, ops);
            && v.totalBytes == u.totalBytes + SumRecorded(limits, u, ops)
            && v.toolCalls == u.toolCalls + SumClaimed(limits, u, ops)
            && Within(limits, v)
    decreases |ops|
  {
    if ops != [] {
      TotalsAreSums(limits, Next(limits, u, ops[0]), ops[1..]);
    }
  }

  /** A text result never runs into the recording limits: it is refused before,
      and only when every byte is spent. */
  lemma ConstrainSucceedsWhileBytesRemain(limits: Limits, u: Usage, text: string)
    requires limits.Valid() && Within(limits, u)
    ensures Apply(limits, u, Constrain(text)).Success? <==> u.totalBytes < limits.totalBytes
  {
    var allowed := Allowed(limits, u);
    if allowed > 0 && ByteLength(text) > allowed {
      KeptPrefixIsLongest(text, allowed);
    }
  }
}
