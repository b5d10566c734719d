/** The room-key format (src/core/roomKeyFormat.ts). */
module RoomKeyFormat {
  import opened Prelude
  import opened Strings

  datatype Parts = Parts(platform: string, remoteRoomId: string)

  const PREFIX: string := "room:"

  function Body(platform: string, remoteRoomId: string): string {
    platform + ":" + remoteRoomId
  }

  function ToRoomKey(platform: string, remoteRoomId: string): string {
    PREFIX + Body(Trim(platform), Trim(remoteRoomId))
  }

  /** Splits at the first colon; both sides must be there. */
  function Split(body: string): Option<Parts> {
    match IndexOf(body, ':')
    case None => None
    case Some(separator) =>
      if separator == 0 || separator + 1 == |body| then None
      else Some(Parts(body[..separator], body[separator + 1..]))
  }

  function ParseCanonicalRoomKey(value: string): Option<Parts> {
    var raw := Trim(value);
    if PREFIX <= raw then Split(raw[|PREFIX|..]) else None
  }

  function ParseRoomReference(value: string): Option<Parts> {
    var raw := Trim(value);
    if raw == "" then None
    else Split(if PREFIX <= raw then raw[|PREFIX|..] else raw)
  }

  predicate IsRoomKeyFor(value: string, platform: string) {
    var parsed := ParseCanonicalRoomKey(value);
    parsed.Some? && parsed.value.platform == platform
  }

  function RoomIdFromRoomKey(value: string, platform: string): Option<string> {
    var parsed := ParseRoomReference(value);
    if parsed.None? || parsed.value.platform != platform then None else Some(parsed.value.remoteRoomId)
  }

  function NormalizeRoomId(platform: string, room: string): string {
    var parsed := ParseRoomReference(room);
    if parsed.None? || parsed.value.platform != platform then room else parsed.value.remoteRoomId
  }

  /** A key reads back to its pair just when the platform is free of colons. */
  predicate Separable(platform: string, remoteRoomId: string) {
    Trim(platform) != "" && ':' !in Trim(platform) && Trim(remoteRoomId) != ""
  }

  lemma TrimmedStays(s: string)
    requires IsTrimmed(s)
    ensures Trim(s) == s
  {
  }

  lemma KeyIsTrimmed(platform: string, remoteRoomId: string)
    ensures Trim(ToRoomKey(platform, remoteRoomId)) == ToRoomKey(platform, remoteRoomId)
  {
    var key, id := ToRoomKey(platform, remoteRoomId), Trim(remoteRoomId);
    assert IsTrimmed(id) by { var lo, hi := TrimSplits(remoteRoomId); }
    assert key[0] == 'r' && key[|key| - 1] == if id == "" then ':' else id[|id| - 1];
    assert IsTrimmed(key) by { assert !IsSpace('r') && !IsSpace(':'); }
    TrimmedStays(key);
  }

  lemma {:induction false} FirstColon(platform: string, rest: string)
    requires ':' !in platform
    ensures IndexOf(Body(platform, rest), ':') == Some(|platform|)
    decreases |platform|
  {
    var body := Body(platform, rest);
    if platform == "" {
      assert body[0] == ':';
    } else {
      assert body[0] == platform[0] && body[1..] == Body(platform[1..], rest);
      FirstColon(platform[1..], rest);
    }
  }

  lemma SplitAt(platform: string, rest: string)
    requires ':' !in platform
    ensures Split(Body(platform, rest)) == if platform == "" || rest == "" then None else Some(Parts(platform, rest))
  {
    var body := Body(platform, rest);
    FirstColon(platform, rest);
    assert body[..|platform|] == platform && body[|platform| + 1..] == rest;
  }

  lemma ParseOfKey(platform: string, remoteRoomId: string)
    ensures ParseCanonicalRoomKey(ToRoomKey(platform, remoteRoomId)) == Split(Body(Trim(platform), Trim(remoteRoomId)))
    ensures ParseRoomReference(ToRoomKey(platform, remoteRoomId)) == ParseCanonicalRoomKey(ToRoomKey(platform, remoteRoomId))
  {
    KeyIsTrimmed(platform, remoteRoomId);
    assert ToRoomKey(platform, remoteRoomId)[|PREFIX|..] == Body(Trim(platform), Trim(remoteRoomId));
  }

  lemma ParsesBackExactly(platform: string, remoteRoomId: string)
    ensures ParseCanonicalRoomKey(ToRoomKey(platform, remoteRoomId)) == Some(Parts(Trim(platform), Trim(remoteRoomId)))
            <==> Separable(platform, remoteRoomId)
  {
    ParseOfKey(platform, remoteRoomId);
    if ':' !in Trim(platform) {
      SplitAt(Trim(platform), Trim(remoteRoomId));
    }
  }

  /** The first platform is longer by a part that the second pair has in its id. */
  predicate Shifted(p: string, r: string, q: string, s: string, part: string) {
    p == q + ":" + part && s == part + ":" + r
  }

  ghost predicate Shifts(p: string, r: string, q: string, s: string) {
    exists part :: Shifted(p, r, q, s, part)
  }

  /** Two rooms share a key exactly when their trimmed pairs are equal, or a colon of
      one platform is where the other pair is divided. */
  lemma SharedKeyExactly(p: string, r: string, q: string, s: string)
    ensures ToRoomKey(p, r) == ToRoomKey(q, s) <==>
            || (Trim(p) == Trim(q) && Trim(r) == Trim(s))
            || Shifts(Trim(p), Trim(r), Trim(q), Trim(s))
            || Shifts(Trim(q), Trim(s), Trim(p), Trim(r))
  {
    assert Body(Trim(p), Trim(r)) == ToRoomKey(p, r)[|PREFIX|..];
    assert Body(Trim(q), Trim(s)) == ToRoomKey(q, s)[|PREFIX|..];
    if |Trim(p)| < |Trim(q)| {
      SharedBody(Trim(q), Trim(s), Trim(p), Trim(r));
    } else {
      SharedBody(Trim(p), Trim(r), Trim(q), Trim(s));
    }
  }

  lemma SharedBody(p: string, r: string, q: string, s: string)
    requires |q| <= |p|
    ensures Body(p, r) == Body(q, s) <==> (p == q && r == s) || Shifts(p, r, q, s)
    ensures !Shifts(q, s, p, r)
  {
    var body, other := Body(p, r), Body(q, s);
    if body == other {
      assert body[..|p|] == p && body[|p| + 1..] == r;
      assert other[..|q|] == q && other[|q| + 1..] == s;
      if |q| < |p| {
        var part := p[|q| + 1..];
        assert p[|q|] == other[|q|] == ':';
        assert p == q + ":" + part && s == part + ":" + r;
        assert Shifted(p, r, q, s, part);
      }
    }
    forall part | Shifted(p, r, q, s, part) ensures body == other {
      assert (q + ":" + part) + ":" + r == q + ":" + (part + ":" + r);
    }
  }

  /** So different rooms get different keys while platforms are free of colons. */
  lemma KeysAreInjective(p: string, r: string, q: string, s: string)
    requires ':' !in Trim(p) && ':' !in Trim(q) && ToRoomKey(p, r) == ToRoomKey(q, s)
    ensures Trim(p) == Trim(q) && Trim(r) == Trim(s)
  {
    SharedKeyExactly(p, r, q, s);
    forall part ensures !Shifted(Trim(p), Trim(r), Trim(q), Trim(s), part) {
      assert (Trim(q) + ":" + part)[|Trim(q)|] == ':';
    }
    forall part ensures !Shifted(Trim(q), Trim(s), Trim(p), Trim(r), part) {
      assert (Trim(p) + ":" + part)[|Trim(p)|] == ':';
    }
  }

  ghost predicate SharesKey(platform: string, remoteRoomId: string) {
    exists q, s :: ToRoomKey(q, s) == ToRoomKey(platform, remoteRoomId) &&
                   !(Trim(q) == Trim(platform) && Trim(s) == Trim(remoteRoomId))
  }

  /** Another colon of the body has no white space at the outside or beside it. */
  predicate DividesAt(platform: string, remoteRoomId: string, i: nat) {
    var body := Body(platform, remoteRoomId);
    && i < |body| && i != |platform| && body[i] == ':'
    && IsTrimmed(body[..i]) && IsTrimmed(body[i + 1..])
  }

  /** A room has a key of its own unless the key can be divided at another colon. */
  lemma SharesKeyExactly(platform: string, remoteRoomId: string)
    ensures SharesKey(platform, remoteRoomId) <==> exists i :: DividesAt(Trim(platform), Trim(remoteRoomId), i)
  {
    var p, r := Trim(platform), Trim(remoteRoomId);
    forall q, s | ToRoomKey(q, s) == ToRoomKey(platform, remoteRoomId) && !(Trim(q) == p && Trim(s) == r)
      ensures DividesAt(p, r, |Trim(q)|)
    {
      OtherRoomDivides(p, r, q, s);
    }
    forall i: nat | DividesAt(p, r, i) ensures SharesKey(platform, remoteRoomId) {
      DividingShares(platform, remoteRoomId, i);
    }
  }

  lemma DividingShares(platform: string, remoteRoomId: string, i: nat)
    requires DividesAt(Trim(platform), Trim(remoteRoomId), i)
    ensures SharesKey(platform, remoteRoomId)
  {
    var body := Body(Trim(platform), Trim(remoteRoomId));
    var q, s := body[..i], body[i + 1..];
    TrimmedKey(q, s);
    assert Body(q, s) == body;
  }

  lemma TrimmedKey(platform: string, remoteRoomId: string)
    requires IsTrimmed(platform) && IsTrimmed(remoteRoomId)
    ensures Trim(platform) == platform && Trim(remoteRoomId) == remoteRoomId
    ensures ToRoomKey(platform, remoteRoomId) == PREFIX + Body(platform, remoteRoomId)
  {
    TrimmedStays(platform);
    TrimmedStays(remoteRoomId);
  }

  lemma OtherRoomDivides(p: string, r: string, q: string, s: string)
    requires ToRoomKey(q, s) == PREFIX + Body(p, r) && !(Trim(q) == p && Trim(s) == r)
    ensures DividesAt(p, r, |Trim(q)|)
  {
    var lo, hi := TrimSplits(q);
    var lo', hi' := TrimSplits(s);
    var body, other := Body(p, r), Body(Trim(q), Trim(s));
    assert other == ToRoomKey(q, s)[|PREFIX|..] == body;
    assert other[..|Trim(q)|] == Trim(q) && other[|Trim(q)| + 1..] == Trim(s);
    assert body[..|p|] == p && body[|p| + 1..] == r;
  }

  /** With a colon in a platform two rooms can share a key. */
  lemma ColonsCollide()
    ensures ToRoomKey("a:b", "c") == ToRoomKey("a", "b:c")
  {
    TrimmedStays("a:b");
    TrimmedStays("c");
    TrimmedStays("a");
    TrimmedStays("b:c");
    assert Shifted("a:b", "c", "a", "b:c", "b");
    SharedKeyExactly("a:b", "c", "a", "b:c");
  }

  /** How a key is spelt, and that a reference may go without the word at its head. */
  lemma KeysAreSpelt(platform: string, remoteRoomId: string)
    requires IsTrimmed(platform) && IsTrimmed(remoteRoomId)
    ensures ToRoomKey(platform, remoteRoomId) == "room:" + platform + ":" + remoteRoomId
    ensures platform != "" && ':' !in platform && platform != "room" && remoteRoomId != "" ==>
              ParseRoomReference(platform + ":" + remoteRoomId) == Some(Parts(platform, remoteRoomId))
  {
    TrimmedKey(platform, remoteRoomId);
    if platform != "" && ':' !in platform && platform != "room" && remoteRoomId != "" {
      TrimmedStays(Body(platform, remoteRoomId));
      SplitAt(platform, remoteRoomId);
      NotPrefixed(platform, remoteRoomId);
    }
  }

  lemma NotPrefixed(platform: string, remoteRoomId: string)
    requires ':' !in platform && platform != "room"
    ensures !(PREFIX <= Body(platform, remoteRoomId))
  {
    var body := Body(platform, remoteRoomId);
    if |platform| < 4 {
      assert body[|platform|] == ':' && PREFIX[|platform|] != ':';
    } else if |platform| == 4 {
      assert body[..4] == platform && PREFIX[..4] == "room";
    } else {
      assert body[4] == platform[4] && platform[4] in platform && PREFIX[4] == ':';
    }
  }

  /** The room id comes out for the platform of the key and for no other. */
  lemma IdOnlyForItsPlatform(platform: string, remoteRoomId: string, asking: string)
    requires Separable(platform, remoteRoomId)
    ensures RoomIdFromRoomKey(ToRoomKey(platform, remoteRoomId), asking) ==
            if asking == Trim(platform) then Some(Trim(remoteRoomId)) else None
    ensures NormalizeRoomId(asking, ToRoomKey(platform, remoteRoomId)) ==
            if asking == Trim(platform) then Trim(remoteRoomId) else ToRoomKey(platform, remoteRoomId)
    ensures IsRoomKeyFor(ToRoomKey(platform, remoteRoomId), asking) <==> asking == Trim(platform)
  {
    ParseOfKey(platform, remoteRoomId);
    ParsesBackExactly(platform, remoteRoomId);
  }

  /** A canonical key read as a reference means the same room. */
  lemma ReferenceAgrees(value: string)
    requires ParseCanonicalRoomKey(value).Some?
    ensures ParseRoomReference(value) == ParseCanonicalRoomKey(value)
  {
  }
}

/** The room registry (src/db/rooms.ts:82-96,125-129,243-299). */
module RoomRegistry {
  import opened Prelude
  import opened Strings
  import opened RoomKeyFormat

  datatype RegistryRow = RegistryRow(roomKey: string, platform: string, remoteRoomId: string, legacyRoomId: Option<string>, createdAt: int)

  datatype Resolved = Resolved(roomKey: string, platform: string, remoteRoomId: string, legacyRoomId: Option<string>, created: bool)

  datatype RegistryError = Empty | TooLong | ControlCharacters | FailedToRegister

  /** JavaScript counts a character beyond the basic plane twice. */
  function Utf16Length(s: string): nat {
    if s == "" then 0 else Utf16Length(s[1..]) + if s[0] > '\U{FFFF}' then 2 else 1
  }

  /** The length is the sum over the characters, one or two for each. */
  lemma {:induction false} Utf16LengthAdds(a: string, b: string)
    ensures Utf16Length(a + b) == Utf16Length(a) + Utf16Length(b)
    ensures forall c: char :: Utf16Length([c]) == if c as int < 65_536 then 1 else 2
  {
    forall c: char ensures Utf16Length([c]) == if c as int < 65_536 then 1 else 2 {
      assert [c][1..] == "";
    }
    if a == "" {
      assert a + b == b;
    } else {
      assert (a + b)[1..] == a[1..] + b;
      Utf16LengthAdds(a[1..], b);
    }
  }

  predicate IsControl(c: char)
    ensures IsControl(c) <==> c as int < 32 || c as int == 127
  {
    c <= '\U{1F}' || c == '\U{7F}'
  }

  function TrimValue(value: string): (r: Result<string, RegistryError>)
    ensures r.Success? ==> r.value == Trim(value) && IsIdentifier(r.value)
    ensures r.Failure? ==> !IsIdentifier(Trim(value)) && r.error != FailedToRegister
    ensures r == Failure(Empty) <==> Trim(value) == ""
    ensures r == Failure(TooLong) <==> Utf16Length(Trim(value)) > 512
  {
    var trimmed := Trim(value);
    if trimmed == "" then Failure(Empty)
    else if Utf16Length(trimmed) > 512 then Failure(TooLong)
    else if exists i :: 0 <= i < |trimmed| && IsControl(trimmed[i]) then Failure(ControlCharacters)
    else Success(trimmed)
  }

  predicate IsIdentifier(s: string) {
    s != "" && Utf16Length(s) <= 512 && forall i :: 0 <= i < |s| ==> !IsControl(s[i])
  }

  type Rows = seq<RegistryRow>

  function Find(rows: Rows, platform: string, remoteRoomId: string): (r: Option<RegistryRow>)
    ensures r.Some? ==> r.value in rows && r.value.platform == platform && r.value.remoteRoomId == remoteRoomId
    ensures r.None? ==> forall i :: 0 <= i < |rows| ==> !(rows[i].platform == platform && rows[i].remoteRoomId == remoteRoomId)
  {
    if rows == [] then None
    else if rows[0].platform == platform && rows[0].remoteRoomId == remoteRoomId then Some(rows[0])
    else Find(rows[1..], platform, remoteRoomId)
  }

  /** The primary key, the unique pair, and the partial unique legacy index. */
  predicate Clash(a: RegistryRow, b: RegistryRow) {
    || a.roomKey == b.roomKey
    || (a.platform == b.platform && a.remoteRoomId == b.remoteRoomId)
    || (a.platform == b.platform && a.legacyRoomId.Some? && a.legacyRoomId == b.legacyRoomId)
  }

  predicate Clashes(rows: Rows, row: RegistryRow) {
    exists i :: 0 <= i < |rows| && Clash(rows[i], row)
  }

  function InsertOrIgnore(rows: Rows, row: RegistryRow): Rows {
    if Clashes(rows, row) then rows else rows + [row]
  }

  /** Every row carries the key of its own pair; the legacy id, if any, is the remote id. */
  ghost predicate Canonical(rows: Rows) {
    && (forall i :: 0 <= i < |rows| ==> CanonicalRow(rows[i]))
    && (forall i, j :: 0 <= i < j < |rows| ==> !Clash(rows[i], rows[j]))
  }

  predicate CanonicalRow(row: RegistryRow) {
    && row.roomKey == ToRoomKey(row.platform, row.remoteRoomId)
    && Trim(row.platform) == row.platform && Trim(row.remoteRoomId) == row.remoteRoomId
    && (row.legacyRoomId.Some? ==> row.legacyRoomId.value == row.remoteRoomId)
  }

  /** Some other room already has the key. */
  predicate KeyTaken(rows: Rows, platform: string, remoteRoomId: string) {
    exists i :: 0 <= i < |rows| && rows[i].roomKey == ToRoomKey(platform, remoteRoomId)
                && (rows[i].platform, rows[i].remoteRoomId) != (Trim(platform), Trim(remoteRoomId))
  }

  class Registry {
    var rows: Rows
    var chatRooms: set<(string, string)>

    constructor (rows: Rows, chatRooms: set<(string, string)>)
      requires Canonical(rows)
      ensures this.rows == rows && this.chatRooms == chatRooms
    {
      this.rows, this.chatRooms := rows, chatRooms;
    }

    function RowFor(platform: string, remoteRoomId: string, now: int): RegistryRow
      reads this
    {
      RegistryRow(ToRoomKey(platform, remoteRoomId), platform, remoteRoomId,
                  if (platform, remoteRoomId) in chatRooms then Some(remoteRoomId) else None, now)
    }

    /** The immediate transaction: by now another process may have registered the
        room, or one with the same key. */
    method Register(platform: string, remoteRoomId: string, now: int) returns (r: Result<Resolved, RegistryError>)
      requires Canonical(rows) && Trim(platform) == platform && Trim(remoteRoomId) == remoteRoomId
      modifies this`rows
      ensures Canonical(rows)
      ensures r.Failure? <==> old(KeyTaken(rows, platform, remoteRoomId)) && old(Find(rows, platform, remoteRoomId)).None?
      ensures r.Failure? ==> r.error == FailedToRegister && rows == old(rows)
      ensures r.Success? ==>
                && r.value.roomKey == ToRoomKey(platform, remoteRoomId) && r.value.created
                && r.value.platform == platform && r.value.remoteRoomId == remoteRoomId
                && Find(rows, platform, remoteRoomId).Some?
      ensures if old(Find(rows, platform, remoteRoomId)).Some? || r.Failure? then rows == old(rows)
              else rows == old(rows) + [RegistryRow(ToRoomKey(platform, remoteRoomId), platform, remoteRoomId, r.value.legacyRoomId, now)] &&
                   r.value.legacyRoomId == if (platform, remoteRoomId) in chatRooms then Some(remoteRoomId) else None
      ensures old(Find(rows, platform, remoteRoomId)).Some? && r.Success? ==>
                r.value.legacyRoomId == old(Find(rows, platform, remoteRoomId)).value.legacyRoomId
    {
      var row := RowFor(platform, remoteRoomId, now);
      RegisterLaws(rows, row);
      rows := InsertOrIgnore(rows, row);
      var inserted := Find(rows, platform, remoteRoomId);
      if inserted.None? { return Failure(FailedToRegister); }
      return Success(Resolved(inserted.value.roomKey, inserted.value.platform, inserted.value.remoteRoomId,
                              inserted.value.legacyRoomId, true));
    }

    /** `resolveOrCreateRoomKeySync` when nothing comes between its two steps. */
    method ResolveOrCreateRoomKey(platform: string, remoteRoomId: string, now: int) returns (r: Result<Resolved, RegistryError>)
      requires Canonical(rows)
      modifies this`rows
      ensures Canonical(rows)
      ensures r.Success? ==>
                && r.value.roomKey == ToRoomKey(platform, remoteRoomId)
                && r.value.platform == Trim(platform) && r.value.remoteRoomId == Trim(remoteRoomId)
                && Find(rows, Trim(platform), Trim(remoteRoomId)).Some?
                && (r.value.created <==> old(Find(rows, Trim(platform), Trim(remoteRoomId))).None?)
                && (r.value.created <==> rows != old(rows))
                && r.value.legacyRoomId == Find(rows, Trim(platform), Trim(remoteRoomId)).value.legacyRoomId
      ensures r.Failure? ==> rows == old(rows)
      ensures r == Failure(FailedToRegister) <==>
              && IsIdentifier(Trim(platform)) && IsIdentifier(Trim(remoteRoomId))
              && old(KeyTaken(rows, platform, remoteRoomId)) && old(Find(rows, Trim(platform), Trim(remoteRoomId))).None?
    {
      var p := TrimValue(platform);
      if p.Failure? { return Failure(p.error); }
      var id := TrimValue(remoteRoomId);
      if id.Failure? { return Failure(id.error); }
      TrimmedTwice(platform);
      TrimmedTwice(remoteRoomId);
      var existing := Find(rows, p.value, id.value);
      if existing.Some? {
        return Success(Resolved(existing.value.roomKey, existing.value.platform, existing.value.remoteRoomId,
                                existing.value.legacyRoomId, false));
      }
      r := Register(p.value, id.value, now);
    }
  }

  lemma TrimmedTwice(s: string)
    ensures Trim(Trim(s)) == Trim(s)
  {
    var lo, hi := TrimSplits(s);
  }

  lemma RegisterLaws(rows: Rows, row: RegistryRow)
    requires Canonical(rows) && CanonicalRow(row)
    ensures Canonical(InsertOrIgnore(rows, row))
    ensures Clashes(rows, row) <==>
            KeyTaken(rows, row.platform, row.remoteRoomId) || Find(rows, row.platform, row.remoteRoomId).Some?
    ensures Find(rows, row.platform, row.remoteRoomId).None? && !KeyTaken(rows, row.platform, row.remoteRoomId) ==>
              Find(rows + [row], row.platform, row.remoteRoomId).Some?
  {
    var found := Find(rows, row.platform, row.remoteRoomId);
    if found.Some? {
      var i :| 0 <= i < |rows| && rows[i] == found.value;
      assert Clash(rows[i], row);
    } else {
      assert (rows + [row])[|rows|] == row;
      forall i | 0 <= i < |rows| ensures Clash(rows[i], row) <==> rows[i].roomKey == row.roomKey { }
    }
  }

  // ------------------------------------------------------------ colon-free platforms

  ghost predicate NoColons(rows: Rows) {
    forall i :: 0 <= i < |rows| ==> ':' !in rows[i].platform
  }

  /** Registering never fails while all platforms are free of colons. */
  lemma NeverFailsWithoutColons(rows: Rows, platform: string, remoteRoomId: string)
    requires Canonical(rows) && NoColons(rows) && ':' !in Trim(platform)
    ensures !KeyTaken(rows, platform, remoteRoomId)
  {
    forall i | 0 <= i < |rows| && rows[i].roomKey == ToRoomKey(platform, remoteRoomId)
      ensures (rows[i].platform, rows[i].remoteRoomId) == (Trim(platform), Trim(remoteRoomId))
    {
      assert CanonicalRow(rows[i]);
      KeysAreInjective(rows[i].platform, rows[i].remoteRoomId, platform, remoteRoomId);
    }
  }

  function After(rows: Rows, calls: seq<RegistryRow>): Rows
    decreases |calls|
  {
    if calls == [] then rows else After(InsertOrIgnore(rows, calls[0]), calls[1..])
  }

  lemma {:induction false} FindStays(rows: Rows, row: RegistryRow, platform: string, remoteRoomId: string)
    requires Find(rows, platform, remoteRoomId).Some?
    ensures Find(rows + [row], platform, remoteRoomId) == Find(rows, platform, remoteRoomId)
  {
    assert (rows + [row])[0] == rows[0] && (rows + [row])[1..] == rows[1..] + [row];
    if !(rows[0].platform == platform && rows[0].remoteRoomId == remoteRoomId) {
      FindStays(rows[1..], row, platform, remoteRoomId);
    }
  }

  lemma {:induction false} FindStaysAfter(rows: Rows, calls: seq<RegistryRow>, platform: string, remoteRoomId: string)
    requires Find(rows, platform, remoteRoomId).Some?
    ensures Find(After(rows, calls), platform, remoteRoomId) == Find(rows, platform, remoteRoomId)
    decreases |calls|
  {
    if calls != [] {
      if !Clashes(rows, calls[0]) {
        FindStays(rows, calls[0], platform, remoteRoomId);
      }
      FindStaysAfter(InsertOrIgnore(rows, calls[0]), calls[1..], platform, remoteRoomId);
    }
  }

  /** However many callers register rooms of colon-free platforms, in whatever
      order, every one of them finds its room under the key of its pair. */
  lemma {:induction false} EveryCallerIsServed(rows: Rows, calls: seq<RegistryRow>)
    requires Canonical(rows) && NoColons(rows)
    requires forall i :: 0 <= i < |calls| ==> CanonicalRow(calls[i]) && ':' !in calls[i].platform
    ensures Canonical(After(rows, calls)) && NoColons(After(rows, calls))
    ensures forall i :: 0 <= i < |calls| ==>
              var found := Find(After(rows, calls), calls[i].platform, calls[i].remoteRoomId);
              found.Some? && found.value.roomKey == calls[i].roomKey
    decreases |calls|
  {
    if calls != [] {
      var row := calls[0];
      RegisterLaws(rows, row);
      NeverFailsWithoutColons(rows, row.platform, row.remoteRoomId);
      var next := InsertOrIgnore(rows, row);
      assert Find(next, row.platform, row.remoteRoomId).Some?;
      EveryCallerIsServed(next, calls[1..]);
      FindStaysAfter(next, calls[1..], row.platform, row.remoteRoomId);
      var found := Find(next, row.platform, row.remoteRoomId).value;
      assert CanonicalRow(found);
      forall i | 0 <= i < |calls|
        ensures var found := Find(After(rows, calls), calls[i].platform, calls[i].remoteRoomId);
                found.Some? && found.value.roomKey == calls[i].roomKey
      {
        if i > 0 {
          assert calls[i] == calls[1..][i - 1];
        }
      }
    }
  }
}
