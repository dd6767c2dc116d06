/**
Signing keys over time. Rows are active, retiring or revoked; every process of the
service remembers the key it last signed with; the janitor revokes retiring keys after
twice a token lifetime. Signatures are ideal: a token is its claims and the id of the
key that signed it.

The main results: there is at most one active key in every run, and a token finds its
key published until it expires exactly when the janitor's grace period covers the
token's lifetime, the verifier's leeway and the time, if any, by which the key was
already rotated away when a process signed with it from memory.
*/
module SigningKeys {
  import opened Common

  type Kid = nat
  type Time = int
  type Process = nat

  datatype Status = ActiveKey | RetiringKey | RevokedKey

  datatype KeyRow = KeyRow(status: Status, rotatedAt: Option<Time>)

  type KeyRows = map<Kid, KeyRow>

  // ---- Key rows ----

  ghost predicate OneActive(rows: KeyRows) {
    forall j, k :: j in rows && k in rows && rows[j].status.ActiveKey? && rows[k].status.ActiveKey? ==> j == k
  }

  predicate HasActive(rows: KeyRows) {
    exists k :: k in rows && rows[k].status.ActiveKey?
  }

  /** Whether a key is in the published set, apart from keys supplied by the environment. */
  predicate Published(rows: KeyRows, kid: Kid) {
    kid in rows && !rows[kid].status.RevokedKey?
  }

  function Retire(row: KeyRow, now: Time): KeyRow {
    if row.status.ActiveKey? then KeyRow(RetiringKey, Some(now)) else row
  }

  /** The active key retires and a new one takes over. */
  function Rotated(rows: KeyRows, kid: Kid, now: Time): KeyRows {
    (map k | k in rows :: Retire(rows[k], now))[kid := KeyRow(ActiveKey, None)]
  }

  /** The grace period of a retiring key is over. */
  predicate GraceOver(row: KeyRow, now: Time, ttl: nat) {
    row.status.RetiringKey? && row.rotatedAt.Some? && row.rotatedAt.value <= now - 2 * ttl
  }

  function PruneRow(row: KeyRow, now: Time, ttl: nat): KeyRow {
    if GraceOver(row, now, ttl) then row.(status := RevokedKey) else row
  }

  function Pruned(rows: KeyRows, now: Time, ttl: nat): KeyRows {
    map k | k in rows :: PruneRow(rows[k], now, ttl)
  }

  // ---- The service object ----

  /** The table that all processes share. */
  class KeyTable {
    var rows: KeyRows
    var next: Kid

    constructor ()
      ensures rows == map[] && next == 0
    {
      rows, next := map[], 0;
    }

    ghost predicate Valid() reads this {
      OneActive(rows) && forall k :: k in rows ==> k < next
    }
  }

  class SigningKeyService {
    const table: KeyTable
    const env: Option<Kid>
    var cached: Option<Kid>

    constructor (table: KeyTable, env: Option<Kid>)
      ensures this.table == table && this.env == env && cached.None?
    {
      this.table, this.env, cached := table, env, None;
    }

    /** The key to sign with: the remembered one, else the environment's, else the active row. */
    method ActiveSigningKey(generate: bool) returns (key: Option<Kid>)
      requires table.Valid()
      modifies this, table
      ensures table.Valid()
      ensures key == cached && (old(cached).Some? ==> key == old(cached))
      ensures old(cached).None? && env.Some? ==> key == env
      ensures old(cached).None? && env.None? && HasActive(old(table.rows)) ==>
                key.Some? && key.value in old(table.rows) && old(table.rows)[key.value].status.ActiveKey?
      ensures if old(cached).None? && env.None? && !HasActive(old(table.rows)) && generate
              then key == Some(old(table.next)) && table.next == old(table.next) + 1
                   && table.rows == old(table.rows)[old(table.next) := KeyRow(ActiveKey, None)]
              else table.rows == old(table.rows) && table.next == old(table.next)
      ensures old(cached).None? && env.None? && !HasActive(old(table.rows)) && !generate ==> key.None?
    {
      if cached.Some? {
        return cached;
      }
      if env.Some? {
        cached := env;
        return cached;
      }
      if k :| k in table.rows && table.rows[k].status.ActiveKey? {
        cached := Some(k);
      } else if generate {
        cached := Some(table.next);
        table.rows := table.rows[table.next := KeyRow(ActiveKey, None)];
        table.next := table.next + 1;
      }
      return cached;
    }

    /** The published keys: the environment's first, then active and retiring rows, each once. */
    method AllPublicKeys() returns (keys: seq<Kid>)
      ensures forall k :: k in keys <==> env == Some(k) || Published(table.rows, k)
      ensures forall i, j :: 0 <= i < j < |keys| ==> keys[i] != keys[j]
    {
      keys := if env.Some? then [env.value] else [];
      var todo := set k | k in table.rows && !table.rows[k].status.RevokedKey?;
      while todo != {}
        invariant forall k :: k in todo ==> Published(table.rows, k)
        invariant forall k :: k in keys <==> env == Some(k) || (Published(table.rows, k) && k !in todo)
        invariant forall i, j :: 0 <= i < j < |keys| ==> keys[i] != keys[j]
        decreases todo
      {
        var k :| k in todo;
        if env != Some(k) {
          keys := keys + [k];
        }
        todo := todo - {k};
      }
    }

    /** Retire the active key and put a new one in its place; keys of the environment are not rotated here. */
    method Rotate(now: Time) returns (key: Option<Kid>)
      requires table.Valid()
      modifies this, table
      ensures table.Valid()
      ensures env.Some? ==> key.None? && cached == old(cached) && table.rows == old(table.rows) && table.next == old(table.next)
      ensures env.None? ==>
                && key == Some(old(table.next)) && cached.None? && table.next == old(table.next) + 1
                && table.rows == Rotated(old(table.rows), old(table.next), now)
    {
      if env.Some? {
        return None;
      }
      RotatedByRow(table.rows, table.next, now);
      if current :| current in table.rows && table.rows[current].status.ActiveKey? {
        table.rows := table.rows[current := KeyRow(RetiringKey, Some(now))];
      }
      key := Some(table.next);
      table.rows := table.rows[table.next := KeyRow(ActiveKey, None)];
      table.next := table.next + 1;
      cached := None;
      assert table.rows == Rotated(old(table.rows), old(table.next), now);
    }

    /** Revoke the retiring keys whose grace period is over, and count them. */
    method PruneRetiring(now: Time, ttl: nat) returns (revoked: nat)
      requires table.Valid()
      modifies table
      ensures table.Valid() && table.next == old(table.next)
      ensures table.rows == Pruned(old(table.rows), now, ttl)
      ensures revoked == |set k | k in old(table.rows) && GraceOver(old(table.rows)[k], now, ttl)|
    {
      var rows := table.rows;
      var retiring := set k | k in rows && rows[k].status.RetiringKey?;
      var over := (k: Kid) => k in rows && rows[k].rotatedAt.Some? && rows[k].rotatedAt.value <= now - 2 * ttl;
      var rows';
      rows', revoked := ChangeWhere<Kid, KeyRow>(rows, retiring, over, RevokeKey);
      assert Passing<Kid>(retiring, over) == set k | k in rows && GraceOver(rows[k], now, ttl);
      assert rows' == Pruned(rows, now, ttl);
      table.rows := rows';
    }
  }

  function RevokeKey(row: KeyRow): KeyRow {
    row.(status := RevokedKey)
  }

  lemma RotatedByRow(rows: KeyRows, kid: Kid, now: Time)
    requires OneActive(rows) && kid !in rows
    ensures OneActive(Rotated(rows, kid, now))
    ensures forall k :: k in rows && rows[k].status.ActiveKey? ==>
              Rotated(rows, kid, now) == rows[k := KeyRow(RetiringKey, Some(now))][kid := KeyRow(ActiveKey, None)]
    ensures !HasActive(rows) ==> Rotated(rows, kid, now) == rows[kid := KeyRow(ActiveKey, None)]
  {
  }

  // ---- Runs of several processes ----

  datatype Token = Token(kid: Kid, signedAt: Time, lifetime: nat)

  datatype Keys = Keys(
    now: Time,
    rows: KeyRows,
    next: Kid,
    caches: map<Process, Kid>,
    env: map<Process, Kid>,
    signed: set<Token>)

  datatype Event =
    | Tick(elapsed: nat)
    | RotateBy(process: Process)
    | PruneWith(ttl: nat)
    | Load(process: Process, generate: bool)
    | Sign(process: Process, lifetime: nat)

  const FRESH := Keys(0, map[], 0, map[], map[], {})

  ghost function ActiveOf(rows: KeyRows): (kid: Kid)
    requires HasActive(rows)
    ensures kid in rows && rows[kid].status.ActiveKey?
  {
    var k :| k in rows && rows[k].status.ActiveKey?; k
  }

  /** The process asks for its signing key; without one, and unless it may generate one, nothing is remembered. */
  ghost function Loaded(keys: Keys, p: Process, generate: bool): Keys {
    if p in keys.caches then keys
    else if p in keys.env then keys.(caches := keys.caches[p := keys.env[p]])
    else if HasActive(keys.rows) then keys.(caches := keys.caches[p := ActiveOf(keys.rows)])
    else if generate then
      keys.(rows := keys.rows[keys.next := KeyRow(ActiveKey, None)], next := keys.next + 1,
            caches := keys.caches[p := keys.next])
    else keys
  }

  ghost function Next(keys: Keys, e: Event): Keys {
    match e
    case Tick(elapsed) => keys.(now := keys.now + elapsed)
    case RotateBy(p) =>
      if p in keys.env then keys
      else keys.(rows := Rotated(keys.rows, keys.next, keys.now), next := keys.next + 1, caches := keys.caches - {p})
    case PruneWith(ttl) => keys.(rows := Pruned(keys.rows, keys.now, ttl))
    case Load(p, generate) => Loaded(keys, p, generate)
    case Sign(p, lifetime) =>
      var loaded := Loaded(keys, p, false);
      if p !in loaded.caches then loaded
      else loaded.(signed := loaded.signed + {Token(loaded.caches[p], keys.now, lifetime)})
  }

  ghost function Run(keys: Keys, events: seq<Event>): Keys
    decreases |events|
  {
    if events == [] then keys else Next(Run(keys, events[..|events| - 1]), events[|events| - 1])
  }

  // ---- At most one active key ----

  ghost predicate WellKept(keys: Keys) {
    OneActive(keys.rows) && forall k :: k in keys.rows ==> k < keys.next
  }

  lemma NextWellKept(keys: Keys, e: Event)
    requires WellKept(keys)
    ensures WellKept(Next(keys, e))
  {
  }

  lemma {:induction false} AtMostOneActive(keys: Keys, events: seq<Event>)
    requires WellKept(keys)
    ensures WellKept(Run(keys, events))
    ensures var rows := Run(keys, events).rows;
            forall j, k :: j in rows && k in rows && rows[j].status == rows[k].status == ActiveKey ==> j == k
    decreases |events|
  {
    if events != [] {
      AtMostOneActive(keys, events[..|events| - 1]);
      NextWellKept(Run(keys, events[..|events| - 1]), events[|events| - 1]);
    }
  }

  /** A process that rotates signs with the new key from then on; it is the active one. */
  lemma RotationTakesEffect(keys: Keys, p: Process, lifetime: nat)
    requires WellKept(keys) && p !in keys.env
    ensures var rotated := Next(keys, RotateBy(p));
            && keys.next in rotated.rows && rotated.rows[keys.next].status == ActiveKey && keys.next !in keys.rows
            && Next(rotated, Sign(p, lifetime)).signed == keys.signed + {Token(keys.next, keys.now, lifetime)}
  {
  }

  // ---- Tokens find their key ----

  /** Whoever signs does so with a stored key or one of the environment, and a key is revoked only after its grace period. */
  ghost predicate GraceKept(keys: Keys, ttl: nat) {
    && (forall p :: p in keys.caches ==> HasKey(keys, keys.caches[p]))
    && (forall t :: t in keys.signed ==> HasKey(keys, t.kid) && t.signedAt <= keys.now)
    && (forall k :: k in keys.rows && keys.rows[k].status.RevokedKey? ==>
          keys.rows[k].rotatedAt.Some? && keys.rows[k].rotatedAt.value + 2 * ttl <= keys.now)
  }

  predicate HasKey(keys: Keys, kid: Kid) {
    kid in keys.env.Values || kid in keys.rows
  }

  lemma LoadedKeepsGrace(keys: Keys, p: Process, generate: bool, ttl: nat)
    requires WellKept(keys) && GraceKept(keys, ttl)
    ensures GraceKept(Loaded(keys, p, generate), ttl) && Loaded(keys, p, generate).env == keys.env
  {
  }

  lemma NextKeepsGrace(keys: Keys, e: Event, ttl: nat)
    requires WellKept(keys) && GraceKept(keys, ttl)
    requires e.PruneWith? ==> ttl <= e.ttl
    ensures GraceKept(Next(keys, e), ttl) && Next(keys, e).env == keys.env
  {
    match e
    case Load(p, generate) => LoadedKeepsGrace(keys, p, generate, ttl);
    case Sign(p, lifetime) => LoadedKeepsGrace(keys, p, false, ttl);
    case _ =>
  }

  ghost predicate PrunesWithAtLeast(events: seq<Event>, ttl: nat) {
    forall e :: e in events && e.PruneWith? ==> ttl <= e.ttl
  }

  lemma {:induction false} RunKeepsGrace(keys: Keys, events: seq<Event>, ttl: nat)
    requires WellKept(keys) && GraceKept(keys, ttl)
    requires PrunesWithAtLeast(events, ttl)
    ensures GraceKept(Run(keys, events), ttl) && Run(keys, events).env == keys.env
    decreases |events|
  {
    if events != [] {
      var before := events[..|events| - 1];
      RunKeepsGrace(keys, before, ttl);
      AtMostOneActive(keys, before);
      NextKeepsGrace(Run(keys, before), events[|events| - 1], ttl);
    }
  }

  /** The token was signed before its key was rotated away, or at most this long after: zero is for a key in active use. */
  predicate SignedInTime(keys: Keys, t: Token, delay: nat) {
    t.kid in keys.rows && keys.rows[t.kid].rotatedAt.Some? ==> t.signedAt <= keys.rows[t.kid].rotatedAt.value + delay
  }

  /** Keys are found as long as tokens with this lifetime, signed in time, count as unexpired. */
  ghost predicate KeyFound(keys: Keys, lifetime: nat, leeway: nat, delay: nat) {
    forall t | t in keys.signed && t.lifetime == lifetime && SignedInTime(keys, t, delay) && keys.now < t.signedAt + lifetime + leeway
      :: t.kid in keys.env.Values || Published(keys.rows, t.kid)
  }

  /** In every run whose prunings grant at least this grace, the keys are found. */
  lemma KeysOutliveTokens(keys: Keys, events: seq<Event>, ttl: nat, lifetime: nat, leeway: nat, delay: nat)
    requires WellKept(keys) && GraceKept(keys, ttl)
    requires PrunesWithAtLeast(events, ttl)
    requires lifetime + leeway + delay <= 2 * ttl
    ensures KeyFound(Run(keys, events), lifetime, leeway, delay)
  {
    RunKeepsGrace(keys, events, ttl);
  }

  /** The key is active, or was rotated away no sooner than this. */
  predicate ActiveUntil(rows: KeyRows, kid: Kid, since: Time) {
    kid in rows && (rows[kid].status.ActiveKey? || (rows[kid].rotatedAt.Some? && since <= rows[kid].rotatedAt.value))
  }

  lemma NextActiveUntil(keys: Keys, e: Event, kid: Kid, since: Time)
    requires WellKept(keys) && ActiveUntil(keys.rows, kid, since) && since <= keys.now
    ensures ActiveUntil(Next(keys, e).rows, kid, since) && keys.now <= Next(keys, e).now
  {
  }

  lemma {:induction false} RunActiveUntil(keys: Keys, events: seq<Event>, kid: Kid)
    requires WellKept(keys) && ActiveUntil(keys.rows, kid, keys.now)
    ensures ActiveUntil(Run(keys, events).rows, kid, keys.now) && keys.now <= Run(keys, events).now
    decreases |events|
  {
    if events != [] {
      var before := events[..|events| - 1];
      RunActiveUntil(keys, before, kid);
      AtMostOneActive(keys, before);
      NextActiveUntil(Run(keys, before), events[|events| - 1], kid, keys.now);
    }
  }

  /**
  A token signed while its key is active finds that key until it expires, however long
  ago the process loaded it and whatever happens next.
  */
  lemma ActiveKeySignsForLong(keys: Keys, p: Process, lifetime: nat, leeway: nat, events: seq<Event>, ttl: nat)
    requires WellKept(keys) && GraceKept(keys, ttl) && PrunesWithAtLeast(events, ttl)
    requires p in keys.caches && keys.caches[p] in keys.rows && keys.rows[keys.caches[p]].status.ActiveKey?
    requires lifetime + leeway <= 2 * ttl
    ensures var end := Run(Next(keys, Sign(p, lifetime)), events);
            end.now < keys.now + lifetime + leeway ==> Published(end.rows, keys.caches[p])
  {
    var signed := Next(keys, Sign(p, lifetime));
    NextKeepsGrace(keys, Sign(p, lifetime), ttl);
    RunKeepsGrace(signed, events, ttl);
    RunActiveUntil(signed, events, keys.caches[p]);
  }

  // ---- The bound is exact ----

  /** A key is loaded, rotated away elsewhere, used from memory, and pruned. */
  function StaleRun(ttl: nat, lifetime: nat, delay: nat): seq<Event> {
    [Load(0, true), RotateBy(1), Tick(delay), Sign(0, lifetime), Tick(if delay < 2 * ttl then 2 * ttl - delay else 0), PruneWith(ttl)]
  }

  lemma RunOneMore(keys: Keys, events: seq<Event>, e: Event)
    ensures Run(keys, events + [e]) == Next(Run(keys, events), e)
  {
  }

  lemma StaleSigned(lifetime: nat, delay: nat)
    ensures Run(FRESH, [Load(0, true), RotateBy(1), Tick(delay), Sign(0, lifetime)])
            == Keys(delay, map[0 := KeyRow(RetiringKey, Some(0)), 1 := KeyRow(ActiveKey, None)], 2, map[0 := 0], map[],
                    {Token(0, delay, lifetime)})
  {
    var e1, e2, e3, e4 := Load(0, true), RotateBy(1), Tick(delay), Sign(0, lifetime);
    RunOneMore(FRESH, [], e1);
    RunOneMore(FRESH, [e1], e2);
    RunOneMore(FRESH, [e1, e2], e3);
    RunOneMore(FRESH, [e1, e2, e3], e4);
    assert [e1] == [] + [e1] && [e1, e2] == [e1] + [e2] && [e1, e2, e3] == [e1, e2] + [e3];
    assert [e1, e2, e3, e4] == [e1, e2, e3] + [e4];
    assert Run(FRESH, [e1]) == Keys(0, map[0 := KeyRow(ActiveKey, None)], 1, map[0 := 0], map[], {});
  }

  lemma StaleRunLosesKey(ttl: nat, lifetime: nat, leeway: nat, delay: nat)
    requires 0 < lifetime && 2 * ttl < lifetime + leeway + delay
    ensures !KeyFound(Run(FRESH, StaleRun(ttl, lifetime, delay)), lifetime, leeway, delay)
  {
    var signed := [Load(0, true), RotateBy(1), Tick(delay), Sign(0, lifetime)];
    var wait := Tick(if delay < 2 * ttl then 2 * ttl - delay else 0);
    StaleSigned(lifetime, delay);
    RunOneMore(FRESH, signed, wait);
    RunOneMore(FRESH, signed + [wait], PruneWith(ttl));
    assert StaleRun(ttl, lifetime, delay) == signed + [wait] + [PruneWith(ttl)];
    var end := Run(FRESH, StaleRun(ttl, lifetime, delay));
    assert Token(0, delay, lifetime) in end.signed;
    assert end.rows[0].status.RevokedKey?;
  }

  /**
  The grace period is long enough exactly when it covers lifetime, leeway and how long
  after its rotation a key may still be signed with. Nothing in the service bounds the
  last: a process drops the key it remembers only when it rotates keys itself.
  */
  lemma GraceIsLongEnoughIff(ttl: nat, lifetime: nat, leeway: nat, delay: nat)
    requires 0 < lifetime
    ensures (forall events :: PrunesWithAtLeast(events, ttl) ==> KeyFound(Run(FRESH, events), lifetime, leeway, delay))
            <==> lifetime + leeway + delay <= 2 * ttl
  {
    if lifetime + leeway + delay <= 2 * ttl {
      forall events | PrunesWithAtLeast(events, ttl)
        ensures KeyFound(Run(FRESH, events), lifetime, leeway, delay)
      {
        KeysOutliveTokens(FRESH, events, ttl, lifetime, leeway, delay);
      }
    } else {
      StaleRunLosesKey(ttl, lifetime, leeway, delay);
      assert PrunesWithAtLeast(StaleRun(ttl, lifetime, delay), ttl);
    }
  }

  /**
  With the authorization server on, the janitor prunes with the lifetime of access tokens
  (one hour by default) while a delegation grant may live a day. One process signs a
  grant with its active key and then rotates: the key can be gone with the grant unexpired.
  */
  lemma DefaultGraceIsTooShortForGrants()
    ensures var signed := Run(FRESH, [Load(0, true), Sign(0, 86400)]);
            var end := Run(signed, [RotateBy(0), Tick(7200), PruneWith(3600)]);
            && signed.signed == {Token(0, 0, 86400)} && 0 in signed.rows && signed.rows[0].status.ActiveKey?
            && end.now < 86400 && end.env == map[] && !Published(end.rows, 0)
  {
    RunOneMore(FRESH, [], Load(0, true));
    RunOneMore(FRESH, [Load(0, true)], Sign(0, 86400));
    assert [Load(0, true)] == [] + [Load(0, true)] && [Load(0, true), Sign(0, 86400)] == [Load(0, true)] + [Sign(0, 86400)];
    assert Run(FRESH, [Load(0, true)]) == Keys(0, map[0 := KeyRow(ActiveKey, None)], 1, map[0 := 0], map[], {});
    var signed := Run(FRESH, [Load(0, true), Sign(0, 86400)]);
    assert signed == Keys(0, map[0 := KeyRow(ActiveKey, None)], 1, map[0 := 0], map[], {Token(0, 0, 86400)});
    RunOneMore(signed, [], RotateBy(0));
    RunOneMore(signed, [RotateBy(0)], Tick(7200));
    RunOneMore(signed, [RotateBy(0), Tick(7200)], PruneWith(3600));
    assert [RotateBy(0)] == [] + [RotateBy(0)] && [RotateBy(0), Tick(7200)] == [RotateBy(0)] + [Tick(7200)];
    assert [RotateBy(0), Tick(7200), PruneWith(3600)] == [RotateBy(0), Tick(7200)] + [PruneWith(3600)];
  }
}
