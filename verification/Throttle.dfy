/** The login throttle (src/admin/auth.ts:221-251): one fixed window an address. */
module Throttle {
  import opened Prelude

  datatype Bucket = Bucket(count: nat, resetAt: int)

  type Buckets = map<string, Bucket>

  function Pruned(b: Buckets, now: int): Buckets {
    map ip | ip in b && b[ip].resetAt > now :: b[ip]
  }

  /** The bucket that counts at `now`: an expired one is like none. */
  function Live(b: Buckets, ip: string, now: int): Option<Bucket> {
    if ip in b && b[ip].resetAt > now then Some(b[ip]) else None
  }

  predicate Allows(b: Buckets, limit: int, ip: string, now: int) {
    var bucket := Live(b, ip, now);
    bucket.None? || bucket.value.count < limit
  }

  /** An attempt counts only when it is allowed. */
  function Counted(b: Buckets, limit: int, windowMs: int, ip: string, now: int): Buckets {
    var bucket := Live(b, ip, now);
    if bucket.None? then b[ip := Bucket(1, now + windowMs)]
    else if bucket.value.count < limit then b[ip := bucket.value.(count := bucket.value.count + 1)]
    else b
  }

  /** The code prunes first when the map has grown large. */
  function Attempted(b: Buckets, limit: int, windowMs: int, ip: string, now: int): Buckets {
    Counted(if |b| > 1000 then Pruned(b, now) else b, limit, windowMs, ip, now)
  }

  class LoginThrottle {
    const limit: int
    const windowMs: int
    var buckets: Buckets

    constructor (limit: int, windowMs: int)
      ensures this.limit == limit && this.windowMs == windowMs && buckets == map[]
    {
      this.limit, this.windowMs, buckets := limit, windowMs, map[];
    }

    method Attempt(ip: string, now: int) returns (allowed: bool)
      modifies this`buckets
      ensures allowed <==> Allows(old(buckets), limit, ip, now)
      ensures buckets == Attempted(old(buckets), limit, windowMs, ip, now)
      ensures var open := ip in old(buckets) && old(buckets)[ip].resetAt > now;
              && (allowed <==> !open || old(buckets)[ip].count < limit)
              && ip in buckets
              && buckets[ip] == if !open then Bucket(1, now + windowMs)
                                else if allowed then Bucket(old(buckets)[ip].count + 1, old(buckets)[ip].resetAt)
                                else old(buckets)[ip]
      ensures forall other :: other in buckets && other != ip ==> other in old(buckets) && buckets[other] == old(buckets)[other]
      ensures forall other :: other in old(buckets) && (|old(buckets)| <= 1000 || old(buckets)[other].resetAt > now) ==>
                other in buckets
    {
      if |buckets| > 1000 { Prune(now); }
      if ip !in buckets || buckets[ip].resetAt <= now {
        buckets := buckets[ip := Bucket(1, now + windowMs)];
        return true;
      }
      if buckets[ip].count >= limit { return false; }
      buckets := buckets[ip := buckets[ip].(count := buckets[ip].count + 1)];
      return true;
    }

    method Prune(now: int)
      modifies this`buckets
      ensures buckets == Pruned(old(buckets), now)
      ensures forall ip :: ip in buckets <==> ip in old(buckets) && old(buckets)[ip].resetAt > now
      ensures forall ip :: ip in buckets ==> buckets[ip] == old(buckets)[ip]
    {
      var rest := buckets.Keys;
      while rest != {}
        invariant rest <= old(buckets).Keys
        invariant buckets == map ip | ip in old(buckets) && (ip in rest || old(buckets)[ip].resetAt > now) :: old(buckets)[ip]
        decreases rest
      {
        var ip :| ip in rest;
        if buckets[ip].resetAt <= now { buckets := buckets - {ip}; }
        rest := rest - {ip};
      }
    }
  }

  // ------------------------------------------------------------ whole runs

  datatype Event = Attempt(ip: string, at: int) | Prune(at: int)

  function Next(b: Buckets, limit: int, windowMs: int, e: Event): Buckets {
    match e
    case Attempt(ip, at) => Attempted(b, limit, windowMs, ip, at)
    case Prune(at) => Pruned(b, at)
  }

  predicate InTime(now: int, es: seq<Event>)
    decreases |es|
  {
    es != [] ==> now <= es[0].at && InTime(es[0].at, es[1..])
  }

  /** The verdict of each attempt, in order. */
  function Verdicts(b: Buckets, limit: int, windowMs: int, es: seq<Event>): seq<bool>
    decreases |es|
  {
    if es == [] then []
    else
      (if es[0].Attempt? then [Allows(b, limit, es[0].ip, es[0].at)] else []) +
      Verdicts(Next(b, limit, windowMs, es[0]), limit, windowMs, es[1..])
  }

  /** The same throttle when nobody ever prunes. */
  function PlainVerdicts(b: Buckets, limit: int, windowMs: int, es: seq<Event>): seq<bool>
    decreases |es|
  {
    if es == [] then []
    else if es[0].Prune? then PlainVerdicts(b, limit, windowMs, es[1..])
    else
      [Allows(b, limit, es[0].ip, es[0].at)] +
      PlainVerdicts(Counted(b, limit, windowMs, es[0].ip, es[0].at), limit, windowMs, es[1..])
  }

  /** Nothing that counts from `now` on tells the two apart. */
  ghost predicate Alike(a: Buckets, b: Buckets, now: int) {
    forall ip: string :: Live(a, ip, now) == Live(b, ip, now)
  }

  lemma CountedAlike(a: Buckets, b: Buckets, limit: int, windowMs: int, ip: string, now: int)
    requires Alike(a, b, now)
    ensures Alike(Counted(a, limit, windowMs, ip, now), Counted(b, limit, windowMs, ip, now), now)
  {
    forall other: string
      ensures Live(Counted(a, limit, windowMs, ip, now), other, now) == Live(Counted(b, limit, windowMs, ip, now), other, now)
    {
      assert Live(a, other, now) == Live(b, other, now) && Live(a, ip, now) == Live(b, ip, now);
    }
  }

  lemma AlikeLater(a: Buckets, b: Buckets, now: int, later: int)
    requires Alike(a, b, now) && now <= later
    ensures Alike(a, b, later) && Alike(Pruned(a, later), b, later)
  {
    forall ip: string ensures Live(a, ip, later) == Live(b, ip, later) && Live(Pruned(a, later), ip, later) == Live(b, ip, later) {
      assert Live(a, ip, now) == Live(b, ip, now);
    }
  }

  lemma AttemptAlike(a: Buckets, b: Buckets, limit: int, windowMs: int, ip: string, now: int)
    requires Alike(a, b, now)
    ensures Allows(a, limit, ip, now) == Allows(b, limit, ip, now)
    ensures Alike(Attempted(a, limit, windowMs, ip, now), Counted(b, limit, windowMs, ip, now), now)
  {
    AlikeLater(a, b, now, now);
    assert Live(a, ip, now) == Live(b, ip, now);
    if |a| > 1000 {
      CountedAlike(Pruned(a, now), b, limit, windowMs, ip, now);
    } else {
      CountedAlike(a, b, limit, windowMs, ip, now);
    }
  }

  /** Pruning, by hand or when the map grows large, changes no verdict. */
  lemma {:induction false} PruningChangesNothing(a: Buckets, b: Buckets, limit: int, windowMs: int, now: int, es: seq<Event>)
    requires Alike(a, b, now) && InTime(now, es)
    ensures Verdicts(a, limit, windowMs, es) == PlainVerdicts(b, limit, windowMs, es)
    decreases |es|
  {
    if es != [] {
      var e := es[0];
      AlikeLater(a, b, now, e.at);
      if e.Prune? {
        PruningChangesNothing(Pruned(a, e.at), b, limit, windowMs, e.at, es[1..]);
      } else {
        AttemptAlike(a, b, limit, windowMs, e.ip, e.at);
        PruningChangesNothing(Next(a, limit, windowMs, e), Counted(b, limit, windowMs, e.ip, e.at), limit, windowMs, e.at, es[1..]);
      }
    }
  }

  // ------------------------------------------------------------ the bound

  /** Allowed attempts of one address in the closed interval [lo, hi]. */
  function AllowedIn(b: Buckets, limit: int, windowMs: int, es: seq<Event>, ip: string, lo: int, hi: int): nat
    decreases |es|
  {
    if es == [] then 0
    else
      (if es[0].Attempt? && es[0].ip == ip && lo <= es[0].at <= hi && Allows(b, limit, ip, es[0].at) then 1 else 0) +
      AllowedIn(Next(b, limit, windowMs, es[0]), limit, windowMs, es[1..], ip, lo, hi)
  }

  ghost predicate CountsAreBounded(b: Buckets, limit: int) {
    forall ip :: ip in b ==> 1 <= b[ip].count <= Max(1, limit)
  }

  /** How many more attempts the interval [lo, lo + windowMs] can still allow. */
  function Room(b: Buckets, limit: int, windowMs: int, ip: string, lo: int, now: int): int {
    var n := Max(1, limit);
    if now > lo + windowMs then 0
    else if ip in b && b[ip].resetAt > now && b[ip].resetAt > lo then
      (if b[ip].resetAt > lo + windowMs then n - b[ip].count else 2 * n - b[ip].count)
    else if now > lo then n
    else 2 * n
  }

  /** An attempt that is allowed takes of the room. */
  lemma StepUsesRoom(b: Buckets, limit: int, windowMs: int, e: Event, ip: string, lo: int, now: int)
    requires windowMs > 0 && CountsAreBounded(b, limit) && now <= e.at
    ensures CountsAreBounded(Next(b, limit, windowMs, e), limit)
    ensures var counts := e.Attempt? && e.ip == ip && lo <= e.at <= lo + windowMs && Allows(b, limit, ip, e.at);
            Room(Next(b, limit, windowMs, e), limit, windowMs, ip, lo, e.at) + (if counts then 1 else 0)
            <= Room(b, limit, windowMs, ip, lo, now)
  {
  }

  /** In every interval of the length of a window an address gets at most twice
      the limit (twice one when the limit is below that). */
  lemma {:induction false} AtMostTwiceTheLimit(b: Buckets, limit: int, windowMs: int, es: seq<Event>, ip: string, lo: int, now: int)
    requires windowMs > 0 && CountsAreBounded(b, limit) && InTime(now, es)
    ensures AllowedIn(b, limit, windowMs, es, ip, lo, lo + windowMs) <= Room(b, limit, windowMs, ip, lo, now)
    ensures AllowedIn(b, limit, windowMs, es, ip, lo, lo + windowMs) <= 2 * Max(1, limit)
    decreases |es|
  {
    if es != [] {
      StepUsesRoom(b, limit, windowMs, es[0], ip, lo, now);
      AtMostTwiceTheLimit(Next(b, limit, windowMs, es[0]), limit, windowMs, es[1..], ip, lo, es[0].at);
    }
  }

  function Burst(ip: string, at: int, n: nat): seq<Event> {
    if n == 0 then [] else [Attempt(ip, at)] + Burst(ip, at, n - 1)
  }

  lemma {:induction false} BurstInTime(ip: string, at: int, n: nat, rest: seq<Event>)
    requires InTime(at, rest)
    ensures InTime(at, Burst(ip, at, n) + rest)
  {
    if n == 0 {
      assert Burst(ip, at, n) + rest == rest;
    } else {
      BurstInTime(ip, at, n - 1, rest);
      assert Burst(ip, at, n) + rest == [Attempt(ip, at)] + (Burst(ip, at, n - 1) + rest);
    }
  }

  /** A burst inside one window is allowed until the limit is reached. */
  lemma {:induction false} BurstFillsWindow(b: Buckets, limit: int, windowMs: int, ip: string, at: int, n: nat, rest: seq<Event>,
                                            lo: int, resetAt: int, count: nat)
    requires Live(b, ip, at) == Some(Bucket(count, resetAt)) && 1 <= count && count + n <= limit && |b| <= 1000
    requires lo <= at <= lo + windowMs
    ensures exists after: Buckets ::
              && ip in after && after[ip] == Bucket(count + n, resetAt) && |after| <= 1000
              && AllowedIn(b, limit, windowMs, Burst(ip, at, n) + rest, ip, lo, lo + windowMs) ==
                 n + AllowedIn(after, limit, windowMs, rest, ip, lo, lo + windowMs)
    decreases n
  {
    if n == 0 {
      assert Burst(ip, at, n) + rest == rest;
    } else {
      assert (Burst(ip, at, n) + rest)[1..] == Burst(ip, at, n - 1) + rest;
      var next := b[ip := Bucket(count + 1, resetAt)];
      assert next.Keys == b.Keys;
      assert |next| == |next.Keys| == |b.Keys| == |b|;
      BurstFillsWindow(next, limit, windowMs, ip, at, n - 1, rest, lo, resetAt, count + 1);
    }
  }

  /** A burst that opens a window and fills it. */
  lemma BurstOpensWindow(b: Buckets, limit: int, windowMs: int, ip: string, at: int, rest: seq<Event>, lo: int)
    requires Live(b, ip, at).None? && limit >= 1 && windowMs > 0 && lo <= at <= lo + windowMs
    requires |b| <= 1000 && (ip in b || |b| < 1000)
    ensures exists after: Buckets ::
              && ip in after && after[ip] == Bucket(limit, at + windowMs) && |after| <= 1000
              && AllowedIn(b, limit, windowMs, Burst(ip, at, limit) + rest, ip, lo, lo + windowMs) ==
                 limit + AllowedIn(after, limit, windowMs, rest, ip, lo, lo + windowMs)
  {
    assert (Burst(ip, at, limit) + rest)[1..] == Burst(ip, at, limit - 1) + rest;
    var next := b[ip := Bucket(1, at + windowMs)];
    assert next.Keys == b.Keys + {ip};
    assert |next| == |next.Keys|;
    BurstFillsWindow(next, limit, windowMs, ip, at, limit - 1, rest, lo, at + windowMs, 1);
  }

  /** Twice the limit is reached: one burst when a window opens, one when it closes. */
  lemma TwiceIsReached(limit: int, windowMs: int, ip: string, at: int)
    requires limit >= 1 && windowMs > 0
    ensures var es := Burst(ip, at, limit) + Burst(ip, at + windowMs, limit);
            InTime(at, es) && AllowedIn(map[], limit, windowMs, es, ip, at, at + windowMs) == 2 * limit
  {
    var second := Burst(ip, at + windowMs, limit);
    assert second + [] == second;
    BurstInTime(ip, at + windowMs, limit, []);
    assert InTime(at, second);
    BurstInTime(ip, at, limit, second);
    BurstOpensWindow(map[], limit, windowMs, ip, at, second, at);
    var after: Buckets :| ip in after && after[ip] == Bucket(limit, at + windowMs) && |after| <= 1000
      && AllowedIn(map[], limit, windowMs, Burst(ip, at, limit) + second, ip, at, at + windowMs) ==
         limit + AllowedIn(after, limit, windowMs, second, ip, at, at + windowMs);
    BurstOpensWindow(after, limit, windowMs, ip, at + windowMs, [], at);
  }
}
