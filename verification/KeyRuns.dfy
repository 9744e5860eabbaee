/**
 What a presented key resolves to over whole runs of the database and the cache: right after it was minted, while an
 answer is remembered, and once it was forgotten.
 */
module KeyRuns {
  import opened Wrappers
  import opened KeyResolver

  /** What the world answers to a presented secret. */
  function Says(c: Config, w: World, secret: Option<string>): Option<Principal> {
    Answer(c, w.db, w.cache, secret, w.clock)
  }

  /** An answer for this hash is remembered and has not expired. */
  predicate Remembered(w: World, h: string) { h in w.cache && w.cache[h].expires > w.clock }

  lemma {:induction false} RunConcat(c: Config, w: World, a: seq<Event>, b: seq<Event>)
    ensures Run(c, w, a + b) == Run(c, Run(c, w, a), b)
  {
    hide Step;
    if b == [] {
      assert a + b == a;
    } else {
      RunConcat(c, w, a, b[..|b| - 1]);
      assert (a + b)[..|a + b| - 1] == a + b[..|b| - 1];
    }
  }

  lemma RunOne(c: Config, w: World, es: seq<Event>, e: Event)
    ensures Run(c, w, es + [e]) == Step(c, Run(c, w, es), e)
  {
    assert (es + [e])[..|es|] == es;
  }

  /** Nothing is looked up or remembered for what does not start like a key. */
  lemma OthersResolveToNothing(c: Config, w: World, secret: Option<string>)
    requires secret == None || !("dexa_live_" <= secret.value || "dexa_test_" <= secret.value)
    ensures Says(c, w, secret) == None && Step(c, w, Resolve(secret)) == w
  {}

  // ---- forgetting ---------------------------------------------------------------------------------

  /** Forgetting a secret, at the end of any run: it is looked up again at once, and no other secret notices. */
  lemma InvalidateForgets(c: Config, clock: real, es: seq<Event>, secret: string)
    requires secret != ""
    ensures var w := Run(c, Born(clock), es);
            var after := Run(c, Born(clock), es + [Invalidate(Some(secret))]);
            && after.db == w.db && after.clock == w.clock
            && (LooksLikeKey(Some(secret)) ==> Says(c, after, Some(secret)) == Lookup(c, w.db, c.hash(secret)))
            && forall other: string :: c.hash(other) != c.hash(secret) ==>
                 Says(c, after, Some(other)) == Says(c, w, Some(other))
  {
    hide Run, Lookup, LooksLikeKey;
    RunOne(c, Born(clock), es, Invalidate(Some(secret)));
  }

  /** Forgetting none or the empty secret forgets all answers: every secret is looked up again. */
  lemma InvalidateAllForgets(c: Config, clock: real, es: seq<Event>, none: Option<string>)
    requires none == None || none == Some("")
    ensures var w := Run(c, Born(clock), es);
            var after := Run(c, Born(clock), es + [Invalidate(none)]);
            && after.db == w.db && after.clock == w.clock
            && forall secret: string :: LooksLikeKey(Some(secret)) ==>
                 Says(c, after, Some(secret)) == Lookup(c, w.db, c.hash(secret))
  {
    hide Run, Lookup, LooksLikeKey;
    RunOne(c, Born(clock), es, Invalidate(none));
  }

  /** The key is revoked in the database, and nothing remembered says otherwise. */
  ghost predicate Gone(w: World, h: string) {
    UniqueRows(w.db) && Revoked(w.db, h) && (h in w.cache ==> w.cache[h].principal == None)
  }

  lemma {:induction false} GoneStays(c: Config, w: World, es: seq<Event>, h: string)
    requires Gone(w, h)
    ensures Gone(Run(c, w, es), h)
  {
    if es != [] {
      hide Step, Lookup, UniqueRows, Revoked;
      var before, e := Run(c, w, es[..|es| - 1]), es[|es| - 1];
      GoneStays(c, w, es[..|es| - 1], h);
      DatabaseGrows(c, before, e);
      StepForgets(c, before, e, h);
    }
  }

  lemma StepForgets(c: Config, w: World, e: Event, h: string)
    requires Gone(w, h)
    ensures h in Step(c, w, e).cache ==> Step(c, w, e).cache[h].principal == None
  {
    hide Lookup, UniqueRows, Revoked, Mint, RevokeKey, RotateKey, LooksLikeKey;
    RevokedIsNone(c, w.db, h);
  }

  /** A key that was revoked and then forgotten never resolves again, without waiting for anything to expire. */
  lemma RevokedAndForgotten(c: Config, clock: real, before: seq<Event>, orgId: string, keyId: string,
                            between: seq<Event>, since: seq<Event>, secret: string)
    requires secret != ""
    requires var w := Run(c, Born(clock), before);
             && RevokeKey(w.db, orgId, keyId, w.clock).1
             && c.hash(secret) == w.db.rows[ById(w.db.rows, keyId).value].keyHash
    ensures var es := before + [Revoke(orgId, keyId)] + between + [Invalidate(Some(secret))] + since;
            Says(c, Run(c, Born(clock), es), Some(secret)) == None
  {
    hide UniqueRows, Revoked, Lookup, LooksLikeKey, Grows;
    var h := c.hash(secret);
    var w0, revoke, forget := Run(c, Born(clock), before), Revoke(orgId, keyId), Invalidate(Some(secret));
    EveryRunKeeps(c, clock, before);
    var w1 := Step(c, w0, revoke);
    StampGrows(c, w0.db, ById(w0.db.rows, keyId).value, w0.clock);
    RunOne(c, Born(clock), before, revoke);
    RunConcat(c, Born(clock), before + [revoke], between);
    var w2 := Run(c, w1, between);
    DatabaseOnlyGrows(c, w1, between, h);
    var w3 := Step(c, w2, forget);
    RunOne(c, Born(clock), before + [revoke] + between, forget);
    assert Gone(w3, h);
    GoneStays(c, w3, since, h);
    RunConcat(c, Born(clock), before + [revoke] + between + [forget], since);
    RevokedIsNone(c, Run(c, w3, since).db, h);
  }

  lemma {:induction false} DatabaseOnlyGrows(c: Config, w: World, es: seq<Event>, h: string)
    requires UniqueRows(w.db) && Revoked(w.db, h)
    ensures UniqueRows(Run(c, w, es).db) && Revoked(Run(c, w, es).db, h)
  {
    hide Step, UniqueRows, Revoked;
    if es != [] {
      DatabaseOnlyGrows(c, w, es[..|es| - 1], h);
      DatabaseGrows(c, Run(c, w, es[..|es| - 1]), es[|es| - 1]);
    }
  }

  // ---- remembering ----------------------------------------------------------------------------------

  lemma ClockRuns(c: Config, w: World, e: Event)
    ensures Step(c, w, e).clock >= w.clock
  {
    hide Mint, RevokeKey, RotateKey, CacheAfter;
  }

  /** A remembered answer stays as it is until it expires, whatever happens to the database. */
  lemma {:induction false} StaysRemembered(c: Config, w: World, es: seq<Event>, h: string)
    requires h in w.cache && Run(c, w, es).clock < w.cache[h].expires
    requires forall k :: 0 <= k < |es| ==> !es[k].Invalidate?
    ensures h in Run(c, w, es).cache && Run(c, w, es).cache[h] == w.cache[h]
  {
    if es != [] {
      hide Mint, RevokeKey, RotateKey, Lookup, LooksLikeKey;
      var before, e := Run(c, w, es[..|es| - 1]), es[|es| - 1];
      ClockRuns(c, before, e);
      StaysRemembered(c, w, es[..|es| - 1], h);
    }
  }

  /** An answer from the database is given again for the whole lifetime of the cache, even if the database would answer
      differently by then, as long as nobody forgets it. */
  lemma AnswerLasts(c: Config, clock: real, es: seq<Event>, secret: string, since: seq<Event>)
    requires LooksLikeKey(Some(secret)) && !Remembered(Run(c, Born(clock), es), c.hash(secret))
    requires forall k :: 0 <= k < |since| ==> !since[k].Invalidate?
    requires Run(c, Born(clock), es + [Resolve(Some(secret))] + since).clock < Run(c, Born(clock), es).clock + c.ttl
    ensures var w := Run(c, Born(clock), es);
            && Says(c, w, Some(secret)) == Lookup(c, w.db, c.hash(secret))
            && Says(c, Run(c, Born(clock), es + [Resolve(Some(secret))] + since), Some(secret))
               == Lookup(c, w.db, c.hash(secret))
  {
    hide Run, Lookup, LooksLikeKey;
    var w := Run(c, Born(clock), es);
    RunOne(c, Born(clock), es, Resolve(Some(secret)));
    RunConcat(c, Born(clock), es + [Resolve(Some(secret))], since);
    StaysRemembered(c, Step(c, w, Resolve(Some(secret))), since, c.hash(secret));
  }

  // ---- minting ----------------------------------------------------------------------------------------

  ghost predicate HasHash(db: Db, h: string) {
    exists a :: 0 <= a < |db.rows| && db.rows[a].keyHash == h
  }

  /** Only hashes that the table has were ever answered with a principal. */
  ghost predicate KnowsOnlyRows(w: World) {
    forall h :: h in w.cache && w.cache[h].principal.Some? ==> HasHash(w.db, h)
  }

  lemma RowsStay(c: Config, w: World, e: Event, h: string)
    requires HasHash(w.db, h)
    ensures HasHash(Step(c, w, e).db, h)
  {
    hide CacheAfter, CacheWithout, Visible, SecretOf;
    var a :| 0 <= a < |w.db.rows| && w.db.rows[a].keyHash == h;
    var after := Step(c, w, e).db;
    assert a < |after.rows| && after.rows[a].keyHash == h;
  }

  lemma {:induction false} RunKnowsOnlyRows(c: Config, clock: real, es: seq<Event>)
    ensures KnowsOnlyRows(Run(c, Born(clock), es))
  {
    hide Step;
    if es != [] {
      RunKnowsOnlyRows(c, clock, es[..|es| - 1]);
      StepKnowsOnlyRows(c, Run(c, Born(clock), es[..|es| - 1]), es[|es| - 1]);
    }
  }

  lemma StepKnowsOnlyRows(c: Config, w: World, e: Event)
    requires KnowsOnlyRows(w)
    ensures KnowsOnlyRows(Step(c, w, e))
  {
    hide HasHash, Step;
    var after := Step(c, w, e);
    forall h | h in after.cache && after.cache[h].principal.Some? ensures HasHash(after.db, h) {
      NewEntry(c, w, e, h);
      FoundHas(c, w.db, h);
      RowsStay(c, w, e, h);
    }
  }

  /** An entry is an old one, or what the database answers. */
  lemma NewEntry(c: Config, w: World, e: Event, h: string)
    requires h in Step(c, w, e).cache
    ensures (h in w.cache && Step(c, w, e).cache[h] == w.cache[h]) ||
            Step(c, w, e).cache[h].principal == Lookup(c, w.db, h)
  {
    hide Lookup, Mint, RevokeKey, RotateKey, LooksLikeKey;
  }

  lemma FoundHas(c: Config, db: Db, h: string)
    ensures Lookup(c, db, h).Some? ==> HasHash(db, h)
  {}

  /**
   A key minted at the end of any run looks like a key, and the database answers for it. Presented at once it resolves
   to its organisation, exactly unless its hash was presented before and the missing key is still remembered.
   */
  lemma MintedResolves(c: Config, clock: real, es: seq<Event>, orgId: string, name: string, env: string, token: string,
                       id: string)
    requires var w := Run(c, Born(clock), es);
             orgId in w.db.orgs && Mint(c, w.db, orgId, name, env, token, id).Ok?
    ensures var w := Run(c, Born(clock), es);
            var after := Run(c, Born(clock), es + [Create(orgId, name, env, token, id)]);
            var secret := "dexa_" + env + "_" + token;
            var p := Some(Build(c, w.db.orgs[orgId], id));
            && LooksLikeKey(Some(secret)) && Lookup(c, after.db, c.hash(secret)) == p
            && (Says(c, after, Some(secret)) == p <==> !Remembered(w, c.hash(secret)))
  {
    hide Run, Build, Lookup, KnowsOnlyRows;
    var w, e := Run(c, Born(clock), es), Create(orgId, name, env, token, id);
    var secret := "dexa_" + env + "_" + token;
    RunOne(c, Born(clock), es, e);
    MintSucceedsIff(c, w.db, orgId, name, env, token, id);
    assert env == "live" ==> secret[..10] == "dexa_live_";
    assert env == "test" ==> secret[..10] == "dexa_test_";
    AppendedLookup(c, w.db, Mint(c, w.db, orgId, name, env, token, id).value.1.row, c.hash(secret));
    RunKnowsOnlyRows(c, clock, es);
    NotKnown(w, c.hash(secret));
  }

  /** A rotation at the end of any run: the old key is dead in the database and the new one live, for live and revoked
      keys alike, and the new one resolves at once exactly unless it is remembered as missing. */
  lemma RotatedResolves(c: Config, clock: real, es: seq<Event>, a: nat, token: string, id: string)
    requires var db := Run(c, Born(clock), es).db;
             && a < |db.rows| && db.rows[a].orgId in db.orgs
             && FreshRow(db, id, c.hash("dexa_live_" + token))
    ensures var w := Run(c, Born(clock), es);
            var row, secret := w.db.rows[a], "dexa_live_" + token;
            var after := Run(c, Born(clock), es + [Rotate(row.orgId, row.id, token, id)]);
            var p := Some(Build(c, w.db.orgs[row.orgId], id));
            && Lookup(c, after.db, row.keyHash) == None && Lookup(c, after.db, c.hash(secret)) == p
            && (Says(c, after, Some(secret)) == p <==> !Remembered(w, c.hash(secret)))
  {
    hide Run, Build, Lookup, KnowsOnlyRows, UniqueRows, RotateKey, HasRow;
    var w := Run(c, Born(clock), es);
    var row, secret := w.db.rows[a], "dexa_live_" + token;
    EveryRunKeeps(c, clock, es);
    RunOne(c, Born(clock), es, Rotate(row.orgId, row.id, token, id));
    assert SecretOf("live", token) == secret;
    RowOf(w.db, a);
    RotateSucceedsIff(c, w.db, row.orgId, row.id, w.clock, token, id);
    RotateReplaces(c, w.db, row.orgId, row.id, w.clock, token, id);
    IdIs(w.db, row.id);
    RunKnowsOnlyRows(c, clock, es);
    NotKnown(w, c.hash(secret));
    assert secret[..10] == "dexa_live_";
  }

  lemma RowOf(db: Db, a: nat)
    requires a < |db.rows|
    ensures HasRow(db, db.rows[a].id, db.rows[a].orgId)
  {}

  /** After an organisation was saved the database serves all its live keys from what was saved. */
  lemma SavedOrgIsServed(c: Config, clock: real, es: seq<Event>, org: Org, a: nat)
    requires var db := Run(c, Born(clock), es).db;
             a < |db.rows| && db.rows[a].orgId == org.id && db.rows[a].revokedAt.None?
    ensures var w, after := Run(c, Born(clock), es), Run(c, Born(clock), es + [SaveOrg(org)]);
            && after.db.rows == w.db.rows
            && Lookup(c, after.db, w.db.rows[a].keyHash) == Some(Build(c, org, w.db.rows[a].id))
  {
    hide Run, Build, UniqueRows, Lookup;
    var w := Run(c, Born(clock), es);
    EveryRunKeeps(c, clock, es);
    RunOne(c, Born(clock), es, SaveOrg(org));
    var after := Step(c, w, SaveOrg(org));
    SameRows(w.db, after.db);
    LookupIff(c, after.db, w.db.rows[a].keyHash, Build(c, org, w.db.rows[a].id));
  }

  /** When nothing happens for a cache lifetime, every answer is looked up again. */
  lemma SilenceExpires(c: Config, clock: real, es: seq<Event>, dt: real)
    requires dt > 0.0 && dt >= c.ttl
    ensures var w, after := Run(c, Born(clock), es), Run(c, Born(clock), es + [Tick(dt)]);
            && after.clock == w.clock + dt && after.db == w.db
            && forall secret: string :: LooksLikeKey(Some(secret)) ==>
                 Says(c, after, Some(secret)) == Lookup(c, w.db, c.hash(secret))
  {
    hide Run, Lookup, LooksLikeKey, LogOk, GivenAt;
    EveryRunKeeps(c, clock, es);
    RunOne(c, Born(clock), es, Tick(dt));
  }

  lemma NotKnown(w: World, h: string)
    requires KnowsOnlyRows(w) && forall a :: 0 <= a < |w.db.rows| ==> w.db.rows[a].keyHash != h
    ensures h in w.cache ==> w.cache[h].principal == None
  {}
}
