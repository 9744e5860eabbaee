/**
 API keys: creating, revoking and rotating them in the database, and resolving a presented key through a
 short-lived cache. The clock, the random part of a secret and record ids are parameters.
 */
module KeyResolver {
  import opened Wrappers

  datatype Org = Org(id: string, name: string, mode: string, backendUrl: string, backendModel: string,
                     defaultBaseline: string, cacheEnabled: bool)

  datatype Row = Row(id: string, orgId: string, name: string, prefix: string, keyHash: string, revokedAt: Option<real>)

  /** The key table in insertion order, and the organisations by id. */
  datatype Db = Db(rows: seq<Row>, orgs: map<string, Org>)

  datatype Tenant = Tenant(name: string, mode: string, backendUrl: string, backendModel: string,
                           defaultBaseline: string, cacheEnabled: bool) {
    predicate UsesMock() { mode == "mock" || backendUrl == "" }
  }

  datatype Principal = Principal(tenant: Tenant, orgId: string, keyId: string)

  /** What the deployment fixes: the secret hash, the cache lifetime and the shared pool's address. */
  datatype Config = Config(hash: string -> string, ttl: real, pool: string)

  /** The key column and the id column are unique in the schema. */
  ghost predicate UniqueRows(db: Db) {
    forall a, b :: 0 <= a < b < |db.rows| ==>
      db.rows[a].keyHash != db.rows[b].keyHash && db.rows[a].id != db.rows[b].id
  }

  function ByHash(rows: seq<Row>, h: string): (r: Option<nat>)
    ensures r.Some? ==> r.value < |rows| && rows[r.value].keyHash == h
    ensures r.None? ==> forall a :: 0 <= a < |rows| ==> rows[a].keyHash != h
  {
    if rows == [] then None
    else if rows[|rows| - 1].keyHash == h then Some(|rows| - 1)
    else ByHash(rows[..|rows| - 1], h)
  }

  function ById(rows: seq<Row>, id: string): (r: Option<nat>)
    ensures r.Some? ==> r.value < |rows| && rows[r.value].id == id
    ensures r.None? ==> forall a :: 0 <= a < |rows| ==> rows[a].id != id
  {
    if rows == [] then None
    else if rows[|rows| - 1].id == id then Some(|rows| - 1)
    else ById(rows[..|rows| - 1], id)
  }

  // ---------------------------------------------------------------- principals

  function Build(c: Config, org: Org, keyId: string): Principal {
    var backend := if org.backendUrl != "" then org.backendUrl else if org.mode == "hosted" then c.pool else "";
    Principal(Tenant(if org.name != "" then org.name else org.id, if backend != "" then org.mode else "mock", backend,
                     org.backendModel, org.defaultBaseline, org.cacheEnabled),
              org.id, keyId)
  }

  /** A tenant is mocked exactly when it asked for it or has nowhere to go. */
  lemma MockedIff(c: Config, org: Org, keyId: string)
    ensures Build(c, org, keyId).tenant.UsesMock() <==>
            org.mode == "mock" || (org.backendUrl == "" && (org.mode != "hosted" || c.pool == ""))
    ensures Build(c, org, keyId).orgId == org.id && Build(c, org, keyId).keyId == keyId
    ensures org.backendUrl != "" ==> Build(c, org, keyId).tenant.backendUrl == org.backendUrl
    ensures Build(c, org, keyId).tenant.backendUrl !in {"", org.backendUrl} ==>
              org.mode == "hosted" && Build(c, org, keyId).tenant.backendUrl == c.pool
    ensures org.name != "" ==> Build(c, org, keyId).tenant.name == org.name
  {}

  /** What the database says about a hash: a live key of an existing organisation. */
  function Lookup(c: Config, db: Db, h: string): Option<Principal> {
    match ByHash(db.rows, h)
    case None => None
    case Some(a) =>
      var row := db.rows[a];
      if row.revokedAt.Some? then None
      else if row.orgId !in db.orgs then None
      else Some(Build(c, db.orgs[row.orgId], row.id))
  }

  /** The database answers for exactly the hashes of live keys whose organisation exists, with that organisation. */
  lemma LookupIff(c: Config, db: Db, h: string, p: Principal)
    requires UniqueRows(db)
    ensures Lookup(c, db, h) == Some(p) <==>
            exists a :: 0 <= a < |db.rows| && db.rows[a].keyHash == h && db.rows[a].revokedAt.None?
              && db.rows[a].orgId in db.orgs && p == Build(c, db.orgs[db.rows[a].orgId], db.rows[a].id)
  {
    hide Build;
  }

  ghost predicate Revoked(db: Db, h: string) {
    exists a :: 0 <= a < |db.rows| && db.rows[a].keyHash == h && db.rows[a].revokedAt.Some?
  }

  lemma RevokedIsNone(c: Config, db: Db, h: string)
    requires UniqueRows(db) && Revoked(db, h)
    ensures Lookup(c, db, h) == None
  {}

  // ---------------------------------------------------------------- key lifecycle

  datatype NewKey = NewKey(row: Row, secret: string)

  const PREFIX_VISIBLE := 14

  function SecretOf(env: string, token: string): string { "dexa_" + env + "_" + token }

  function Visible(s: string): string { if |s| < PREFIX_VISIBLE then s else s[..PREFIX_VISIBLE] }

  /** A new row, or the errors of a bad environment name and of the unique columns. */
  function Mint(c: Config, db: Db, orgId: string, name: string, env: string, token: string, id: string)
    : (r: Result<(Db, NewKey), string>)
    ensures r.Ok? ==> r.value.0.rows == db.rows + [r.value.1.row] && r.value.0.orgs == db.orgs
    ensures UniqueRows(db) && r.Ok? ==> UniqueRows(r.value.0)
    ensures r.Ok? ==> r.value.1.row.keyHash == c.hash(r.value.1.secret) && r.value.1.row.revokedAt == None
  {
    if env != "live" && env != "test" then Err("env must be 'live' or 'test'")
    else
      var secret := SecretOf(env, token);
      var row := Row(id, orgId, name, Visible(secret), c.hash(secret), None);
      if ByHash(db.rows, row.keyHash).Some? || ById(db.rows, id).Some? then Err("integrity error")
      else Ok((Db(db.rows + [row], db.orgs), NewKey(row, secret)))
  }

  /** When a key is minted, and what it is: the secret shown once, its hash, and a prefix that stays visible. */
  lemma MintSucceedsIff(c: Config, db: Db, orgId: string, name: string, env: string, token: string, id: string)
    ensures var r := Mint(c, db, orgId, name, env, token, id);
            && (r.Ok? <==> (env == "live" || env == "test") && FreshRow(db, id, c.hash("dexa_" + env + "_" + token)))
            && (r.Ok? ==>
                var nk := r.value.1;
                && nk.secret == "dexa_" + env + "_" + token && nk.row.keyHash == c.hash(nk.secret)
                && nk.row.id == id && nk.row.orgId == orgId && nk.row.name == name
                && nk.row.prefix <= nk.secret && |nk.row.prefix| == if |nk.secret| < 14 then |nk.secret| else 14)
  {}

  ghost predicate FreshRow(db: Db, id: string, h: string) {
    forall a :: 0 <= a < |db.rows| ==> db.rows[a].id != id && db.rows[a].keyHash != h
  }

  function Stamp(db: Db, a: nat, now: real): Db
    requires a < |db.rows|
  {
    Db(db.rows[a := db.rows[a].(revokedAt := Some(now))], db.orgs)
  }

  function RevokeKey(db: Db, orgId: string, keyId: string, now: real): (Db, bool) {
    match ById(db.rows, keyId)
    case None => (db, false)
    case Some(a) =>
      if db.rows[a].orgId != orgId || db.rows[a].revokedAt.Some? then (db, false) else (Stamp(db, a, now), true)
  }

  /** Revokes whatever state the key is in, and mints a live replacement of the same name; errors undo both. */
  function RotateKey(c: Config, db: Db, orgId: string, keyId: string, now: real, token: string, id: string)
    : Result<(Db, Option<NewKey>), string>
  {
    match ById(db.rows, keyId)
    case None => Ok((db, None))
    case Some(a) =>
      if db.rows[a].orgId != orgId then Ok((db, None))
      else
        match Mint(c, Stamp(db, a, now), orgId, db.rows[a].name, "live", token, id)
        case Err(e) => Err(e)
        case Ok(m) => Ok((m.0, Some(m.1)))
  }

  /** Rotation ends exactly one old key and starts exactly one new one, for live and revoked keys alike. */
  lemma RotateReplaces(c: Config, db: Db, orgId: string, keyId: string, now: real, token: string, id: string)
    requires UniqueRows(db)
    ensures var r := RotateKey(c, db, orgId, keyId, now, token, id);
            r.Ok? && r.value.1.Some? ==>
              var after, nk := r.value.0, r.value.1.value;
              exists a :: 0 <= a < |db.rows| && db.rows[a].id == keyId && db.rows[a].orgId == orgId
                && Lookup(c, after, db.rows[a].keyHash) == None
                && nk.row.name == db.rows[a].name && nk.row.orgId == orgId
                && (orgId in db.orgs ==>
                    Lookup(c, after, c.hash(nk.secret)) == Some(Build(c, db.orgs[orgId], nk.row.id)))
                && forall h :: h != db.rows[a].keyHash && h != nk.row.keyHash ==>
                    Lookup(c, after, h) == Lookup(c, db, h)
  {
    var r := RotateKey(c, db, orgId, keyId, now, token, id);
    if r.Ok? && r.value.1.Some? {
      var a := ById(db.rows, keyId).value;
      var stamped, after, nk := Stamp(db, a, now), r.value.0, r.value.1.value;
      hide ById, ByHash, Lookup, Build;
      assert db.rows[a].keyHash != nk.row.keyHash by { assert stamped.rows[a].keyHash == db.rows[a].keyHash; }
      forall h ensures h != nk.row.keyHash ==> Lookup(c, after, h) == Lookup(c, stamped, h)
               ensures h == nk.row.keyHash && orgId in db.orgs ==>
                         Lookup(c, after, h) == Some(Build(c, db.orgs[orgId], nk.row.id))
               ensures h != db.rows[a].keyHash ==> Lookup(c, stamped, h) == Lookup(c, db, h)
      {
        AppendedLookup(c, stamped, nk.row, h);
        StampElsewhere(c, db, a, now, h);
      }
      assert stamped.rows[a].revokedAt.Some?;
      RevokedIsNone(c, stamped, db.rows[a].keyHash);
    }
  }

  /** A new live row answers for its own hash and for no other. */
  lemma AppendedLookup(c: Config, db: Db, row: Row, h: string)
    requires row.revokedAt == None
    ensures var after := Db(db.rows + [row], db.orgs);
            && (h != row.keyHash ==> Lookup(c, after, h) == Lookup(c, db, h))
            && (h == row.keyHash && row.orgId in db.orgs ==>
                  Lookup(c, after, h) == Some(Build(c, db.orgs[row.orgId], row.id)))
  {
    hide Build;
    assert (db.rows + [row])[..|db.rows|] == db.rows;
  }

  ghost predicate HasRow(db: Db, keyId: string, orgId: string) {
    exists a :: 0 <= a < |db.rows| && db.rows[a].id == keyId && db.rows[a].orgId == orgId
  }

  /** When a rotation mints a replacement: the organisation has the key, revoked or not, and the new row is fresh. */
  lemma RotateSucceedsIff(c: Config, db: Db, orgId: string, keyId: string, now: real, token: string, id: string)
    requires UniqueRows(db)
    ensures var r := RotateKey(c, db, orgId, keyId, now, token, id);
            && (r.Ok? && r.value.1.Some? <==>
                HasRow(db, keyId, orgId) && FreshRow(db, id, c.hash(SecretOf("live", token))))
            && (r.Ok? && r.value.1.None? <==> !HasRow(db, keyId, orgId))
            && (r.Ok? && r.value.1.Some? ==>
                r.value.1.value.secret == SecretOf("live", token) && r.value.1.value.row.id == id)
  {
    var found := ById(db.rows, keyId);
    if found.Some? {
      var stamped := Stamp(db, found.value, now);
      assert forall a :: 0 <= a < |db.rows| ==>
               stamped.rows[a].id == db.rows[a].id && stamped.rows[a].keyHash == db.rows[a].keyHash;
    }
  }

  /** A key that was revoked before is rotated all the same: it stays dead and a live replacement appears. */
  lemma RotateRevivesRevoked(c: Config, db: Db, a: nat, now: real, token: string, id: string)
    requires UniqueRows(db) && a < |db.rows| && db.rows[a].revokedAt.Some? && db.rows[a].orgId in db.orgs
    requires FreshRow(db, id, c.hash(SecretOf("live", token)))
    ensures var orgId := db.rows[a].orgId;
            var r := RotateKey(c, db, orgId, db.rows[a].id, now, token, id);
            && r.Ok? && Lookup(c, db, db.rows[a].keyHash) == None
            && Lookup(c, r.value.0, db.rows[a].keyHash) == None
            && Lookup(c, r.value.0, c.hash(SecretOf("live", token))) == Some(Build(c, db.orgs[orgId], id))
  {
    hide RotateKey, Lookup, Build;
    var row := db.rows[a];
    assert Revoked(db, row.keyHash);
    RevokedIsNone(c, db, row.keyHash);
    RotateSucceedsIff(c, db, row.orgId, row.id, now, token, id);
    RotateReplaces(c, db, row.orgId, row.id, now, token, id);
  }

  lemma StampElsewhere(c: Config, db: Db, a: nat, now: real, h: string)
    requires UniqueRows(db) && a < |db.rows|
    ensures UniqueRows(Stamp(db, a, now))
    ensures h != db.rows[a].keyHash ==> Lookup(c, Stamp(db, a, now), h) == Lookup(c, db, h)
    ensures Revoked(db, h) || h == db.rows[a].keyHash ==> Revoked(Stamp(db, a, now), h)
  {
    hide UniqueRows, ByHash, Build, Stamp, Revoked;
    StampRows(db, a, now);
    StampRevokes(db, a, now, h);
    var after := Stamp(db, a, now);
    if h != db.rows[a].keyHash {
      var found := ByHash(db.rows, h);
      if found.Some? { FoundIs(after, h, found.value); }
    }
  }

  lemma StampRows(db: Db, a: nat, now: real)
    requires UniqueRows(db) && a < |db.rows|
    ensures var after := Stamp(db, a, now);
            && UniqueRows(after) && |after.rows| == |db.rows| && after.orgs == db.orgs
            && (forall b :: 0 <= b < |db.rows| ==> after.rows[b].keyHash == db.rows[b].keyHash)
            && (forall b :: 0 <= b < |db.rows| && b != a ==> after.rows[b] == db.rows[b])
  {
    var after := Stamp(db, a, now);
    assert forall b :: 0 <= b < |db.rows| ==>
             after.rows[b].keyHash == db.rows[b].keyHash && after.rows[b].id == db.rows[b].id;
  }

  lemma StampRevokes(db: Db, a: nat, now: real, h: string)
    requires a < |db.rows|
    ensures Revoked(db, h) || h == db.rows[a].keyHash ==> Revoked(Stamp(db, a, now), h)
  {
    var after := Stamp(db, a, now);
    assert after.rows[a].keyHash == db.rows[a].keyHash && after.rows[a].revokedAt.Some?;
    if Revoked(db, h) {
      var b :| 0 <= b < |db.rows| && db.rows[b].keyHash == h && db.rows[b].revokedAt.Some?;
      assert after.rows[b].keyHash == h && after.rows[b].revokedAt.Some?;
    }
  }

  /** The key column is unique, so a search finds the one row that has the hash. */
  lemma FoundIs(db: Db, h: string, a: nat)
    requires UniqueRows(db) && a < |db.rows| && db.rows[a].keyHash == h
    ensures ByHash(db.rows, h) == Some(a)
  {}

  /** Row a is the organisation's key of this id. */
  ghost predicate IsKey(db: Db, a: nat, orgId: string, keyId: string) {
    a < |db.rows| && db.rows[a].id == keyId && db.rows[a].orgId == orgId
  }

  /** A revocation succeeds exactly if the organisation has the key and it is live. Then that key resolves to nothing
      and every other key as before; otherwise nothing changes. */
  lemma RevokeSucceedsIff(c: Config, db: Db, orgId: string, keyId: string, now: real)
    requires UniqueRows(db)
    ensures var r := RevokeKey(db, orgId, keyId, now);
            && (r.1 <==> exists a: nat :: IsKey(db, a, orgId, keyId) && db.rows[a].revokedAt.None?)
            && (!r.1 ==> r.0 == db)
            && (r.1 ==> exists a: nat ::
                  && IsKey(db, a, orgId, keyId) && |r.0.rows| == |db.rows| && r.0.orgs == db.orgs
                  && r.0.rows[a] == db.rows[a].(revokedAt := Some(now))
                  && (forall b :: 0 <= b < |db.rows| && b != a ==> r.0.rows[b] == db.rows[b])
                  && Lookup(c, r.0, db.rows[a].keyHash) == None
                  && forall h :: h != db.rows[a].keyHash ==> Lookup(c, r.0, h) == Lookup(c, db, h))
  {
    hide Lookup, UniqueRows;
    var r := RevokeKey(db, orgId, keyId, now);
    IdIs(db, keyId);
    if r.1 {
      var a := ById(db.rows, keyId).value;
      assert IsKey(db, a, orgId, keyId);
      StampRows(db, a, now);
      StampElsewhere(c, db, a, now, db.rows[a].keyHash);
      RevokedIsNone(c, r.0, db.rows[a].keyHash);
      forall h | h != db.rows[a].keyHash ensures Lookup(c, r.0, h) == Lookup(c, db, h) {
        StampElsewhere(c, db, a, now, h);
      }
    }
  }

  lemma IdIs(db: Db, id: string)
    requires UniqueRows(db)
    ensures forall a :: 0 <= a < |db.rows| && db.rows[a].id == id ==> ById(db.rows, id) == Some(a)
  {}

  class Accounts {
    var db: Db
    const config: Config

    ghost predicate Valid()
      reads this
    {
      UniqueRows(db)
    }

    constructor (config: Config)
      ensures Valid() && db == Db([], map[]) && this.config == config
    {
      this.config, db := config, Db([], map[]);
    }

    method CreateKey(orgId: string, name: string, env: string, token: string, id: string)
      returns (r: Result<NewKey, string>)
      requires Valid()
      modifies this
      ensures Valid()
      ensures match Mint(config, old(db), orgId, name, env, token, id)
              case Err(e) => r == Err(e) && db == old(db)
              case Ok(m) => r == Ok(m.1) && db == m.0
    {
      var m := Mint(config, db, orgId, name, env, token, id);
      if m.Err? { return Err(m.error); }
      db := m.value.0;
      r := Ok(m.value.1);
    }

    method Revoke(orgId: string, keyId: string, now: real) returns (ok: bool)
      requires Valid()
      modifies this
      ensures Valid() && (db, ok) == RevokeKey(old(db), orgId, keyId, now)
    {
      var found := ById(db.rows, keyId);
      if found.None? || db.rows[found.value].orgId != orgId || db.rows[found.value].revokedAt.Some? { return false; }
      StampElsewhere(config, db, found.value, now, "");
      db := Stamp(db, found.value, now);
      ok := true;
    }

    method Rotate(orgId: string, keyId: string, now: real, token: string, id: string)
      returns (r: Result<Option<NewKey>, string>)
      requires Valid()
      modifies this
      ensures Valid()
      ensures match RotateKey(config, old(db), orgId, keyId, now, token, id)
              case Err(e) => r == Err(e) && db == old(db)
              case Ok(m) => r == Ok(m.1) && db == m.0
    {
      var found := ById(db.rows, keyId);
      if found.None? || db.rows[found.value].orgId != orgId { return Ok(None); }
      var name, before := db.rows[found.value].name, db;
      StampElsewhere(config, db, found.value, now, "");
      db := Stamp(db, found.value, now);
      var nk := CreateKey(orgId, name, "live", token, id);
      if nk.Err? {
        db := before;
        return Err(nk.error);
      }
      r := Ok(Some(nk.value));
    }
  }

  // ---------------------------------------------------------------- the cache

  datatype Entry = Entry(expires: real, principal: Option<Principal>)

  predicate LooksLikeKey(s: Option<string>) {
    s.Some? && ("dexa_live_" <= s.value || "dexa_test_" <= s.value)
  }

  /** What resolving answers: a live cache entry, or else the database. */
  function Answer(c: Config, db: Db, cache: map<string, Entry>, secret: Option<string>, now: real): Option<Principal> {
    if !LooksLikeKey(secret) then None
    else
      var h := c.hash(secret.value);
      if h in cache && cache[h].expires > now then cache[h].principal else Lookup(c, db, h)
  }

  function CacheAfter(c: Config, db: Db, cache: map<string, Entry>, secret: Option<string>,
                      now: real): map<string, Entry> {
    if !LooksLikeKey(secret) then cache
    else
      var h := c.hash(secret.value);
      if h in cache && cache[h].expires > now then cache else cache[h := Entry(now + c.ttl, Lookup(c, db, h))]
  }

  /** An empty secret counts as none and clears everything. */
  function CacheWithout(c: Config, cache: map<string, Entry>, secret: Option<string>): map<string, Entry> {
    if secret.Some? && secret.value != "" then cache - {c.hash(secret.value)} else map[]
  }

  class Resolver {
    var cache: map<string, Entry>
    const config: Config

    constructor (config: Config)
      ensures cache == map[] && this.config == config
    {
      this.config, cache := config, map[];
    }

    method Resolve(secret: Option<string>, accounts: Accounts, now: real) returns (r: Option<Principal>)
      modifies this
      ensures r == Answer(config, accounts.db, old(cache), secret, now)
      ensures cache == CacheAfter(config, accounts.db, old(cache), secret, now)
    {
      if !LooksLikeKey(secret) { return None; }
      var h := config.hash(secret.value);
      if h in cache {
        var hit := cache[h];
        if hit.expires > now { return hit.principal; }
      }
      r := Lookup(config, accounts.db, h);
      cache := cache[h := Entry(now + config.ttl, r)];
    }

    method Invalidate(secret: Option<string>)
      modifies this
      ensures cache == CacheWithout(config, old(cache), secret)
      ensures forall h :: h in cache <==>
                h in old(cache) && secret.Some? && secret.value != "" && h != config.hash(secret.value)
      ensures forall h :: h in cache ==> cache[h] == old(cache)[h]
    {
      if secret.Some? && secret.value != "" {
        cache := cache - {config.hash(secret.value)};
      } else {
        cache := map[];
      }
    }
  }

  // ---------------------------------------------------------------- runs

  datatype Event =
    | Create(orgId: string, name: string, env: string, token: string, id: string)
    | Revoke(orgId: string, keyId: string)
    | Rotate(orgId: string, keyId: string, token: string, id: string)
    | SaveOrg(org: Org)
    | Resolve(secret: Option<string>)
    | Invalidate(secret: Option<string>)
    | Tick(dt: real)

  /** The database as it was from `at` on, until the next snapshot. */
  datatype Snapshot = Snapshot(at: real, db: Db)

  datatype World = World(db: Db, cache: map<string, Entry>, clock: real, log: seq<Snapshot>)

  function Write(w: World, db: Db): World {
    w.(db := db, log := w.log + [Snapshot(w.clock, db)])
  }

  function Step(c: Config, w: World, e: Event): World {
    match e
    case Create(o, n, env, t, id) =>
      (match Mint(c, w.db, o, n, env, t, id) case Err(_) => w case Ok(m) => Write(w, m.0))
    case Revoke(o, k) => Write(w, RevokeKey(w.db, o, k, w.clock).0)
    case Rotate(o, k, t, id) =>
      (match RotateKey(c, w.db, o, k, w.clock, t, id) case Err(_) => w case Ok(m) => Write(w, m.0))
    case SaveOrg(org) => Write(w, Db(w.db.rows, w.db.orgs[org.id := org]))
    case Resolve(s) => w.(cache := CacheAfter(c, w.db, w.cache, s, w.clock))
    case Invalidate(s) => w.(cache := CacheWithout(c, w.cache, s))
    case Tick(dt) => if dt > 0.0 then w.(clock := w.clock + dt) else w
  }

  function Run(c: Config, w: World, es: seq<Event>): World {
    if es == [] then w else Step(c, Run(c, w, es[..|es| - 1]), es[|es| - 1])
  }

  /** Snapshot i was the database at instant u. */
  ghost predicate HeldAt(log: seq<Snapshot>, i: nat, u: real) {
    i < |log| && log[i].at <= u && (i + 1 < |log| ==> u <= log[i + 1].at)
  }

  /** The database gave this answer at instant u. */
  ghost predicate GivenAt(c: Config, log: seq<Snapshot>, u: real, h: string, p: Option<Principal>) {
    exists i: nat {:trigger HeldAt(log, i, u)} :: HeldAt(log, i, u) && Lookup(c, log[i].db, h) == p
  }

  ghost predicate Grows(a: Db, b: Db) {
    forall h :: Revoked(a, h) ==> Revoked(b, h)
  }

  ghost predicate LogOk(w: World) {
    && w.log != [] && w.log[|w.log| - 1].db == w.db && w.log[|w.log| - 1].at <= w.clock
    && (forall i, j :: 0 <= i < j < |w.log| ==> w.log[i].at <= w.log[j].at)
    && (forall i :: 0 <= i < |w.log| ==> UniqueRows(w.log[i].db))
    && (forall i, j :: 0 <= i <= j < |w.log| ==> Grows(w.log[i].db, w.log[j].db))
  }

  ghost predicate CacheOk(c: Config, w: World) {
    forall h :: h in w.cache ==>
      w.cache[h].expires - c.ttl <= w.clock && GivenAt(c, w.log, w.cache[h].expires - c.ttl, h, w.cache[h].principal)
  }

  ghost predicate Inv(c: Config, w: World) { LogOk(w) && CacheOk(c, w) }

  /** An empty database at some instant, and nothing cached. */
  function Born(clock: real): World {
    var db := Db([], map[]);
    World(db, map[], clock, [Snapshot(clock, db)])
  }

  lemma BornInv(c: Config, clock: real)
    ensures Inv(c, Born(clock))
  {}

  /** Writing keeps the log in order and everything that was once given. */
  lemma WriteKeeps(c: Config, w: World, db: Db)
    requires Inv(c, w) && UniqueRows(db) && Grows(w.db, db)
    ensures Inv(c, Write(w, db))
  {
    hide LogOk, Lookup;
    WriteKeepsLog(w, db);
    var after := Write(w, db);
    forall h | h in w.cache
      ensures GivenAt(c, after.log, w.cache[h].expires - c.ttl, h, w.cache[h].principal)
    {
      var u := w.cache[h].expires - c.ttl;
      var i: nat :| HeldAt(w.log, i, u) && Lookup(c, w.log[i].db, h) == w.cache[h].principal;
      assert HeldAt(after.log, i, u);
    }
  }

  lemma WriteKeepsLog(w: World, db: Db)
    requires LogOk(w) && UniqueRows(db) && Grows(w.db, db)
    ensures LogOk(Write(w, db))
  {
    hide UniqueRows, Grows;
    var after := Write(w, db);
    var n := |w.log|;
    forall i, j | 0 <= i <= j < |after.log| ensures Grows(after.log[i].db, after.log[j].db) {
      if j == n && i < j {
        GrowsOn(w.log[i].db, w.db, db);
      } else if j == n {
        GrowsOn(db, db, db);
      }
    }
  }

  lemma GrowsOn(a: Db, b: Db, d: Db)
    ensures Grows(a, a)
    ensures Grows(a, b) && Grows(b, d) ==> Grows(a, d)
  {
    hide Revoked;
  }

  lemma MintGrows(c: Config, db: Db, orgId: string, name: string, env: string, token: string, id: string)
    requires UniqueRows(db)
    ensures var m := Mint(c, db, orgId, name, env, token, id);
            m.Ok? ==> UniqueRows(m.value.0) && Grows(db, m.value.0)
  {
    var m := Mint(c, db, orgId, name, env, token, id);
    if m.Ok? {
      forall h | Revoked(db, h) ensures Revoked(m.value.0, h) {
        var a :| 0 <= a < |db.rows| && db.rows[a].keyHash == h && db.rows[a].revokedAt.Some?;
        assert m.value.0.rows[a] == db.rows[a];
      }
    }
  }

  lemma StampGrows(c: Config, db: Db, a: nat, now: real)
    requires UniqueRows(db) && a < |db.rows|
    ensures UniqueRows(Stamp(db, a, now)) && Grows(db, Stamp(db, a, now))
    ensures Revoked(Stamp(db, a, now), db.rows[a].keyHash)
  {
    hide Revoked, Stamp, UniqueRows;
    StampElsewhere(c, db, a, now, db.rows[a].keyHash);
    forall h | Revoked(db, h) ensures Revoked(Stamp(db, a, now), h) { StampElsewhere(c, db, a, now, h); }
  }

  /** What every event does to the database keeps keys unique and never brings a revoked key back. */
  lemma DatabaseGrows(c: Config, w: World, e: Event)
    requires UniqueRows(w.db)
    ensures UniqueRows(Step(c, w, e).db) && Grows(w.db, Step(c, w, e).db)
  {
    hide UniqueRows, Revoked, Mint, Stamp;
    match e
    case Create(o, n, env, t, id) => MintGrows(c, w.db, o, n, env, t, id);
    case Revoke(o, k) =>
      if ById(w.db.rows, k).Some? { StampGrows(c, w.db, ById(w.db.rows, k).value, w.clock); }
    case Rotate(o, k, t, id) =>
      if ById(w.db.rows, k).Some? {
        var a := ById(w.db.rows, k).value;
        StampGrows(c, w.db, a, w.clock);
        MintGrows(c, Stamp(w.db, a, w.clock), o, w.db.rows[a].name, "live", t, id);
      }
    case SaveOrg(org) => SameRows(w.db, Db(w.db.rows, w.db.orgs[org.id := org]));
    case _ =>
  }

  lemma SameRows(a: Db, b: Db)
    requires a.rows == b.rows && UniqueRows(a)
    ensures UniqueRows(b) && Grows(a, b)
  {}

  lemma StepKeeps(c: Config, w: World, e: Event)
    requires Inv(c, w)
    ensures Inv(c, Step(c, w, e)) && Step(c, w, e).clock >= w.clock
  {
    hide UniqueRows, Grows, GivenAt, Lookup, Mint, RevokeKey, RotateKey;
    DatabaseGrows(c, w, e);
    var after := Step(c, w, e);
    if after.log != w.log {
      WriteKeeps(c, w, after.db);
    } else if e.Resolve? {
      Fresh(c, w);
    }
  }

  /** At this moment the database gives what it gives. */
  lemma Fresh(c: Config, w: World)
    requires LogOk(w)
    ensures forall h :: GivenAt(c, w.log, w.clock, h, Lookup(c, w.db, h))
  {
    assert HeldAt(w.log, |w.log| - 1, w.clock);
  }

  lemma {:induction false} RunKeeps(c: Config, w: World, es: seq<Event>)
    requires Inv(c, w)
    ensures Inv(c, Run(c, w, es)) && Run(c, w, es).clock >= w.clock
  {
    if es != [] {
      RunKeeps(c, w, es[..|es| - 1]);
      StepKeeps(c, Run(c, w, es[..|es| - 1]), es[|es| - 1]);
    }
  }

  /** Bounded staleness: an answer is one the database gives now, or gave less than ttl ago. */
  lemma AnswerIsRecent(c: Config, w: World, secret: Option<string>) returns (u: real)
    requires Inv(c, w) && LooksLikeKey(secret)
    ensures u == w.clock || w.clock - c.ttl < u <= w.clock
    ensures GivenAt(c, w.log, u, c.hash(secret.value), Answer(c, w.db, w.cache, secret, w.clock))
    ensures c.hash(secret.value) !in w.cache ==>
              Answer(c, w.db, w.cache, secret, w.clock) == Lookup(c, w.db, c.hash(secret.value))
  {
    hide GivenAt, Lookup;
    Fresh(c, w);
    var h := c.hash(secret.value);
    u := if h in w.cache && w.cache[h].expires > w.clock then w.cache[h].expires - c.ttl else w.clock;
  }

  lemma HeldBefore(w: World, i: nat, j: nat, u: real)
    requires LogOk(w) && i < j < |w.log| && HeldAt(w.log, i, u)
    ensures u <= w.log[j].at
  {}

  /** A database that had the key revoked by some instant gives nothing for it at that instant or later. */
  lemma GivenAfterRevoke(c: Config, w: World, j: nat, u: real, h: string, p: Option<Principal>)
    requires LogOk(w) && j < |w.log| && Revoked(w.log[j].db, h)
    requires GivenAt(c, w.log, u, h, p) && u > w.log[j].at
    ensures p == None
  {
    hide Revoked, Lookup, UniqueRows;
    var i: nat :| HeldAt(w.log, i, u) && Lookup(c, w.log[i].db, h) == p;
    if i < j { HeldBefore(w, i, j, u); }
    RevokedIsNone(c, w.log[i].db, h);
  }

  lemma {:induction false} LogOnlyGrows(c: Config, w: World, es: seq<Event>)
    ensures w.log <= Run(c, w, es).log
  {
    if es != [] { LogOnlyGrows(c, w, es[..|es| - 1]); }
  }

  lemma RevokedStaysOut(c: Config, w: World, orgId: string, keyId: string, es: seq<Event>, secret: string)
    requires Inv(c, w) && RevokeKey(w.db, orgId, keyId, w.clock).1
    requires c.hash(secret) == w.db.rows[ById(w.db.rows, keyId).value].keyHash
    requires var later := Run(c, Step(c, w, Revoke(orgId, keyId)), es); later.clock >= w.clock + c.ttl
    ensures var later := Run(c, Step(c, w, Revoke(orgId, keyId)), es);
            Answer(c, later.db, later.cache, Some(secret), later.clock) == None
  {
    var w1 := Step(c, w, Revoke(orgId, keyId));
    var later := Run(c, w1, es);
    StepKeeps(c, w, Revoke(orgId, keyId));
    RunKeeps(c, w1, es);
    LogOnlyGrows(c, w1, es);
    StampGrows(c, w.db, ById(w.db.rows, keyId).value, w.clock);
    StaysRevoked(c, later, |w.log|, c.hash(secret), secret);
  }

  /** The same for any world with a snapshot in which the key was revoked, however that came about. */
  lemma StaysRevoked(c: Config, w: World, j: nat, h: string, secret: string)
    requires Inv(c, w) && j < |w.log| && Revoked(w.log[j].db, h) && h == c.hash(secret)
    requires w.clock >= w.log[j].at + c.ttl
    ensures Answer(c, w.db, w.cache, Some(secret), w.clock) == None
  {
    hide Revoked, Lookup, UniqueRows, GivenAt;
    if LooksLikeKey(Some(secret)) {
      var last := |w.log| - 1;
      assert Grows(w.log[j].db, w.log[last].db);
      RevokedIsNone(c, w.db, h);
      if h in w.cache && w.cache[h].expires > w.clock {
        GivenAfterRevoke(c, w, j, w.cache[h].expires - c.ttl, h, w.cache[h].principal);
      }
    }
  }

  // ---- every run of the whole system, from the empty database ---------------------------------------

  /** Every reachable world has the invariant. */
  lemma EveryRunKeeps(c: Config, clock: real, es: seq<Event>)
    ensures Inv(c, Run(c, Born(clock), es)) && Run(c, Born(clock), es).clock >= clock
  {
    BornInv(c, clock);
    RunKeeps(c, Born(clock), es);
  }

  /** Bounded staleness after every run. */
  lemma EveryAnswerIsRecent(c: Config, clock: real, es: seq<Event>, secret: Option<string>) returns (u: real)
    requires LooksLikeKey(secret)
    ensures var w := Run(c, Born(clock), es);
            && (u == w.clock || w.clock - c.ttl < u <= w.clock)
            && GivenAt(c, w.log, u, c.hash(secret.value), Answer(c, w.db, w.cache, secret, w.clock))
            && (c.hash(secret.value) !in w.cache ==>
                  Answer(c, w.db, w.cache, secret, w.clock) == Lookup(c, w.db, c.hash(secret.value)))
  {
    hide Run, Answer, GivenAt, Lookup, Inv;
    EveryRunKeeps(c, clock, es);
    u := AnswerIsRecent(c, Run(c, Born(clock), es), secret);
  }

  /** A key revoked at least ttl ago never resolves, whatever happened before the revocation and since. */
  lemma RevokedNeverResolves(c: Config, clock: real, before: seq<Event>, orgId: string, keyId: string,
                             since: seq<Event>, secret: string)
    requires var w := Run(c, Born(clock), before);
             && RevokeKey(w.db, orgId, keyId, w.clock).1
             && c.hash(secret) == w.db.rows[ById(w.db.rows, keyId).value].keyHash
    requires var w := Run(c, Born(clock), before);
             Run(c, Step(c, w, Revoke(orgId, keyId)), since).clock >= w.clock + c.ttl
    ensures var later := Run(c, Step(c, Run(c, Born(clock), before), Revoke(orgId, keyId)), since);
            Answer(c, later.db, later.cache, Some(secret), later.clock) == None
  {
    hide Run, Answer, Inv, Step;
    EveryRunKeeps(c, clock, before);
    RevokedStaysOut(c, Run(c, Born(clock), before), orgId, keyId, since, secret);
  }
}
