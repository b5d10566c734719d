/**
 The database lease (src/db/runtime.ts:62-122): one row a name, taken, renewed
 and given up by owners on a shared clock.
 */
module Lease {
  import opened Prelude

  datatype Row = Row(owner: string, expiresAt: int, updatedAt: int)

  type Rows = map<string, Row>

  function Ttl(ttlMs: Option<int>): int {
    Max(1_000, if ttlMs.Some? then ttlMs.value else 30_000)
  }

  /** The upsert goes through on a free name, an expired lease, or one's own. */
  predicate Grants(rows: Rows, name: string, owner: string, now: int) {
    name !in rows || rows[name].expiresAt <= now || rows[name].owner == owner
  }

  predicate Renews(rows: Rows, name: string, owner: string, now: int) {
    name in rows && rows[name].owner == owner && rows[name].expiresAt > now
  }

  predicate Owns(rows: Rows, name: string, owner: string) {
    name in rows && rows[name].owner == owner
  }

  class LeaseTable {
    var rows: Rows

    constructor ()
      ensures rows == map[]
    {
      rows := map[];
    }

    /** The expiry of the lease, or none when another owner's has not expired. */
    method Acquire(name: string, owner: string, ttlMs: Option<int>, now: int) returns (expiresAt: Option<int>)
      modifies this
      ensures expiresAt.Some? <==> Grants(old(rows), name, owner, now)
      ensures expiresAt.Some? ==> expiresAt.value == now + Ttl(ttlMs)
      ensures rows == if expiresAt.Some? then old(rows)[name := Row(owner, expiresAt.value, now)] else old(rows)
    {
      var expiry := now + Max(1_000, if ttlMs.Some? then ttlMs.value else 30_000);
      if name !in rows {
        rows := rows[name := Row(owner, expiry, now)];
      } else if rows[name].expiresAt <= now || rows[name].owner == owner {
        rows := rows[name := Row(owner, expiry, now)];
      } else {
        return None;
      }
      expiresAt := Some(expiry);
    }

    method Renew(name: string, owner: string, ttlMs: Option<int>, now: int) returns (expiresAt: Option<int>)
      modifies this
      ensures expiresAt.Some? <==> Renews(old(rows), name, owner, now)
      ensures expiresAt.Some? ==> expiresAt.value == now + Ttl(ttlMs)
      ensures rows == if expiresAt.Some? then old(rows)[name := Row(owner, expiresAt.value, now)] else old(rows)
    {
      var expiry := now + Max(1_000, if ttlMs.Some? then ttlMs.value else 30_000);
      if name in rows && rows[name].owner == owner && rows[name].expiresAt > now {
        rows := rows[name := rows[name].(expiresAt := expiry, updatedAt := now)];
        return Some(expiry);
      }
      return None;
    }

    /** A lease is active exactly when somebody would be refused it; then everybody
        but its owner would. */
    method IsActive(name: string, now: int) returns (active: bool)
      ensures active <==> exists owner: string :: !Grants(rows, name, owner, now)
      ensures active ==> forall owner: string :: Grants(rows, name, owner, now) <==> Owns(rows, name, owner)
    {
      active := name in rows && rows[name].expiresAt > now;
      if active {
        var other := rows[name].owner + "'";
        assert |other| != |rows[name].owner|;
        assert !Grants(rows, name, other, now);
      }
    }

    method Release(name: string, owner: string) returns (released: bool)
      modifies this
      ensures released <==> Owns(old(rows), name, owner)
      ensures rows == if released then old(rows) - {name} else old(rows)
    {
      released := name in rows && rows[name].owner == owner;
      if released { rows := rows - {name}; }
    }
  }
}

/** Any interleaving of lease statements. */
module LeaseRuns {
  import opened Prelude
  import opened Lease

  /** `held`: for a name and an owner, the expiry the owner was last given. */
  datatype Leases = Leases(rows: Rows, held: map<(string, string), int>, now: int)

  datatype Op =
    | Acquire(name: string, owner: string, ttlMs: Option<int>, at: int)
    | Renew(name: string, owner: string, ttlMs: Option<int>, at: int)
    | Release(name: string, owner: string, at: int)

  predicate Succeeds(s: Leases, op: Op) {
    match op
    case Acquire(name, owner, _, at) => Grants(s.rows, name, owner, at)
    case Renew(name, owner, _, at) => Renews(s.rows, name, owner, at)
    case Release(name, owner, _) => Owns(s.rows, name, owner)
  }

  function Next(s: Leases, op: Op): Leases {
    if op.Release? then
      Leases(if Succeeds(s, op) then s.rows - {op.name} else s.rows, s.held - {(op.name, op.owner)}, op.at)
    else if Succeeds(s, op) then
      var expiry := op.at + Ttl(op.ttlMs);
      Leases(s.rows[op.name := Row(op.owner, expiry, op.at)], s.held[(op.name, op.owner) := expiry], op.at)
    else s.(now := op.at)
  }

  predicate InTime(now: int, ops: seq<Op>)
    decreases |ops|
  {
    ops != [] ==> now <= ops[0].at && InTime(ops[0].at, ops[1..])
  }

  function Run(s: Leases, ops: seq<Op>): Leases
    decreases |ops|
  {
    if ops == [] then s else Run(Next(s, ops[0]), ops[1..])
  }

  /** The owner may still think the lease is its own. */
  predicate Believes(s: Leases, name: string, owner: string) {
    (name, owner) in s.held && s.held[(name, owner)] > s.now
  }

  /** Whoever still believes in a lease has the row. */
  ghost predicate Inv(s: Leases) {
    forall name, owner :: Believes(s, name, owner) ==>
      Owns(s.rows, name, owner) && s.rows[name].expiresAt == s.held[(name, owner)]
  }

  /** The owner of a row was given the expiry that is in it. */
  ghost predicate HeldByOwners(s: Leases) {
    forall name :: name in s.rows ==>
      (name, s.rows[name].owner) in s.held && s.held[(name, s.rows[name].owner)] == s.rows[name].expiresAt
  }

  lemma StepKeepsInv(s: Leases, op: Op)
    requires Inv(s) && s.now <= op.at
    ensures Inv(Next(s, op))
  {
  }

  /** In every run, no two owners believe in an unexpired lease of one name. */
  lemma {:induction false} OneHolder(s: Leases, ops: seq<Op>, name: string, a: string, b: string)
    requires Inv(s) && InTime(s.now, ops)
    ensures Inv(Run(s, ops))
    ensures var r := Run(s, ops); Believes(r, name, a) && Believes(r, name, b) ==> a == b
    decreases |ops|
  {
    if ops == [] {
      if Believes(s, name, a) && Believes(s, name, b) {
        assert Owns(s.rows, name, a) && Owns(s.rows, name, b);
      }
    } else {
      StepKeepsInv(s, ops[0]);
      OneHolder(Next(s, ops[0]), ops[1..], name, a, b);
    }
  }

  /** Nobody touches another owner's lease before it expires; a release never does. */
  lemma OthersStay(s: Leases, op: Op, owner: string)
    requires owner != op.owner && Owns(s.rows, op.name, owner)
    requires op.Release? || s.rows[op.name].expiresAt > op.at
    ensures Next(s, op).rows == s.rows
  {
  }

  // ------------------------------------------------------------ heartbeats

  /** The pause between two renewals. */
  function BeatInterval(ttlMs: int): int {
    Max(1_000, ttlMs / 3)
  }

  /** The pause is shorter than the lease exactly for leases over a second: at
      or below it the first renewal comes when the lease has just run out. */
  lemma BeatsInTime(ttlMs: int)
    ensures BeatInterval(ttlMs) < Ttl(Some(ttlMs)) <==> ttlMs > 1_000
    ensures ttlMs >= 3_000 ==> 3 * BeatInterval(ttlMs) <= ttlMs < 3 * (BeatInterval(ttlMs) + 1)
    ensures ttlMs < 3_000 ==> BeatInterval(ttlMs) == 1_000
  {
  }

  predicate IsBeat(op: Op, name: string, owner: string) {
    !op.Release? && op.name == name && op.owner == owner
  }

  /** Everything happens before the lease taken at `beat` runs out, the owner's
      beats all ask for `ttlMs`, and the owner gives nothing up. */
  predicate Punctual(ops: seq<Op>, name: string, owner: string, ttlMs: int, beat: int)
    decreases |ops|
  {
    ops != [] ==>
      && ops[0].at < beat + Ttl(Some(ttlMs))
      && (ops[0].name == name && ops[0].owner == owner ==> !ops[0].Release? && ops[0].ttlMs == Some(ttlMs))
      && Punctual(ops[1..], name, owner, ttlMs, if IsBeat(ops[0], name, owner) then ops[0].at else beat)
  }

  function LastBeat(ops: seq<Op>, name: string, owner: string, beat: int): int
    decreases |ops|
  {
    if ops == [] then beat
    else LastBeat(ops[1..], name, owner, if IsBeat(ops[0], name, owner) then ops[0].at else beat)
  }

  /** A holder whose beats come less than the time to live apart is never
      displaced, and every one of its beats succeeds. */
  lemma {:induction false} PunctualHolderStays(s: Leases, ops: seq<Op>, name: string, owner: string, ttlMs: int, beat: int)
    requires InTime(s.now, ops) && Punctual(ops, name, owner, ttlMs, beat)
    requires Owns(s.rows, name, owner) && s.rows[name].expiresAt == beat + Ttl(Some(ttlMs))
    ensures var r := Run(s, ops).rows;
            Owns(r, name, owner) && r[name].expiresAt == LastBeat(ops, name, owner, beat) + Ttl(Some(ttlMs))
    ensures forall i :: 0 <= i < |ops| && IsBeat(ops[i], name, owner) ==> Succeeds(Run(s, ops[..i]), ops[i])
    decreases |ops|
  {
    if ops != [] {
      var next := if IsBeat(ops[0], name, owner) then ops[0].at else beat;
      PunctualHolderStays(Next(s, ops[0]), ops[1..], name, owner, ttlMs, next);
      forall i | 0 <= i < |ops| && IsBeat(ops[i], name, owner) ensures Succeeds(Run(s, ops[..i]), ops[i]) {
        if i > 0 {
          assert ops[..i][1..] == ops[1..][..i - 1];
          assert ops[1..][i - 1] == ops[i];
        }
      }
    }
  }
}
