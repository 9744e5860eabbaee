/**
 The on-device session: a resident cache that forwards grow in place, with token ids beside it.
 Every mutation touches only the delta; the cache is nevertheless always the full prefill of the
 token ids, and forks of a session never see each other's mutations.
 */
module KvSession {
  import opened Wrappers
  import opened Transformer
  import opened SegmentPlan

  /** The mutable cache object that a forward extends in place. */
  class DynamicCache<C> {
    var cells: seq<C>

    constructor (cells: seq<C>)
      ensures this.cells == cells
    {
      this.cells := cells;
    }
  }

  /** A forward over a cache: grows it in place, or makes a new one when there is none. */
  method ModelForward<C, L>(m: Model<C, L>, past: DynamicCache?<C>, start: nat, ids: seq<int>)
    returns (out: DynamicCache<C>, logits: seq<L>)
    modifies if past == null then {} else {past}
    ensures if past == null then fresh(out) else out == past
    ensures past == null ==> out.cells == Forward(m, [], start, ids) && logits == Logits(m, [], start, ids)
    ensures past != null ==>
            out.cells == Forward(m, old(past.cells), start, ids) && logits == Logits(m, old(past.cells), start, ids)
  {
    if past == null {
      out := new DynamicCache([]);
    } else {
      out := past;
    }
    logits := Logits(m, out.cells, start, ids);
    out.cells := Forward(m, out.cells, start, ids);
  }

  /** How many of len elements the slice [:n] keeps; a negative n counts from the end. */
  function Kept(len: nat, n: int): (k: nat)
    ensures k <= len
  {
    if n >= len then len else if n >= 0 then n else if len + n >= 0 then len + n else 0
  }

  /** The decode loop over a live cache: one forward a token, never re-decoding the text. */
  method GreedyLoop<C, L>(m: Model<C, L>, cache: DynamicCache<C>, ghost text: seq<int>, n: nat, first: L,
                          maxNewTokens: nat)
    returns (generated: seq<int>)
    requires n == |text| > 0 && cache.cells == Prefill(m, text) && first == LastLogit(m, text)
    modifies cache
    ensures generated == Response(m, text, maxNewTokens)
    ensures cache.cells == Prefill(m, text + generated)
  {
    hide Forward, Prefill, LastLogit;
    var last := first;
    generated := [];
    assert text + generated == text;
    for k := 0 to maxNewTokens
      invariant generated == Response(m, text, k)
      invariant cache.cells == Prefill(m, text + generated)
      invariant last == LastLogit(m, text + generated)
    {
      var token := m.argmax(last);
      StepLogit(m, text + generated, token);
      var _, logits := ModelForward(m, cache, n + k, [token]);
      last := logits[0];
      assert text + (generated + [token]) == (text + generated) + [token];
      generated := generated + [token];
    }
  }

  class TorchKVSession<C, L> {
    const be: Model<C, L>
    var cache: DynamicCache?<C>
    var tokenIds: seq<int>

    /** The resident cache is the full prefill of the token ids at positions 0..n-1. */
    ghost predicate Valid()
      reads this, cache
    {
      if cache == null then tokenIds == [] else cache.cells == Prefill(be, tokenIds)
    }

    constructor (be: Model<C, L>, tokens: seq<int>)
      ensures Valid() && this.be == be && tokenIds == tokens
      ensures if tokens == [] then cache == null else cache != null && fresh(cache)
    {
      this.be := be;
      cache, tokenIds := null, [];
      new;
      if tokens != [] { var _ := Append(tokens); }
    }

    method Append(tokens: seq<int>) returns (forwarded: nat)
      requires Valid()
      modifies this`cache, this`tokenIds, if cache == null then {} else {cache}
      ensures Valid() && tokenIds == old(tokenIds) + tokens && forwarded == |tokens|
      ensures cache == old(cache) || (old(cache) == null && cache != null && fresh(cache))
      ensures tokens != [] ==> cache != null
    {
      if tokens == [] {
        assert tokenIds + tokens == tokenIds;
        return 0;
      }
      ExtendPrefill(be, tokenIds, tokens);
      var out, _ := ModelForward(be, cache, |tokenIds|, tokens);
      cache := out;
      tokenIds := tokenIds + tokens;
      forwarded := |tokens|;
    }

    /** Slice the resident cache into a new one; nothing is sliced when nothing is dropped. */
    method Truncate(n: int)
      requires Valid()
      modifies this`cache, this`tokenIds
      ensures Valid() && tokenIds == old(tokenIds)[..Kept(|old(tokenIds)|, n)]
      ensures 0 <= n <= |old(tokenIds)| ==> tokenIds == old(tokenIds)[..n]
      ensures n > |old(tokenIds)| ==> tokenIds == old(tokenIds)
      ensures -|old(tokenIds)| <= n < 0 ==> tokenIds == old(tokenIds)[..|old(tokenIds)| + n]
      ensures n < -|old(tokenIds)| ==> tokenIds == []
      ensures if old(cache) == null || n >= |old(tokenIds)| then cache == old(cache) else cache != null && fresh(cache)
    {
      var k := Kept(|tokenIds|, n);
      if cache == null || n >= |tokenIds| {
        assert cache != null ==> tokenIds[..k] == tokenIds;
        tokenIds := tokenIds[..k];
        return;
      }
      TruncatePrefill(be, tokenIds, k);
      cache := new DynamicCache(cache.cells[..k]);
      tokenIds := tokenIds[..k];
    }

    method EditSuffix(prefixLen: int, newTail: seq<int>) returns (forwarded: nat)
      requires Valid()
      modifies this`cache, this`tokenIds, if cache == null then {} else {cache}
      ensures Valid() && tokenIds == old(tokenIds)[..Kept(|old(tokenIds)|, prefixLen)] + newTail
      ensures 0 <= prefixLen <= |old(tokenIds)| ==> tokenIds == old(tokenIds)[..prefixLen] + newTail
      ensures forwarded == |newTail|
      ensures cache == old(cache) || (cache != null && fresh(cache))
    {
      Truncate(prefixLen);
      forwarded := Append(newTail);
    }

    /** Mutate from one segmented context to another along the exact recompute plan. */
    method Apply(hash: ContentHash, prev: seq<Segment>, next: seq<Segment>)
      returns (reused: nat, recomputed: nat, total: nat)
      requires Valid() && tokenIds == Tokens(prev) && CollisionFree(hash, prev, next)
      modifies this`cache, this`tokenIds, if cache == null then {} else {cache}
      ensures Valid() && tokenIds == Tokens(next)
      ensures total == |Tokens(next)| == reused + recomputed
      ensures exists p :: IsCommonPrefix(hash, prev, next, p) && reused == Offset(next, p)
      ensures cache == old(cache) || (cache != null && fresh(cache))
    {
      hide PlanFor, IsCommonPrefix, CollisionFree, Prefill, TokensOf;
      var r, p := PlanIncremental(hash, Some(prev), next, "exact");
      var plan := r.value;
      PlanReuse(hash, prev, next, false, p, plan);
      SharedTokens(hash, prev, next, p);
      reused := ReusedExactTokens(plan.items);
      recomputed := EditSuffix(reused, Tokens(next)[reused..]);
      total := |Tokens(next)|;
    }

    /** Decode greedily on a detached copy: the session itself is not in the frame. */
    method Greedy(maxNewTokens: nat) returns (r: Result<seq<int>, string>)
      requires Valid()
      ensures r.Err? <==> cache == null || tokenIds == []
      ensures r.Ok? ==> r.value == Response(be, tokenIds, maxNewTokens)
    {
      if cache == null { return Err("empty session"); }
      if tokenIds == [] { return Err("no last token"); }
      hide Forward, Prefill, LastLogit;
      var n := |tokenIds|;
      TruncatePrefill(be, tokenIds, n - 1);
      var copy := new DynamicCache(cache.cells);
      copy.cells := copy.cells[..n - 1];
      var logits: seq<L>;
      copy, logits := ModelForward(be, copy, n - 1, [tokenIds[n - 1]]);
      assert tokenIds[..n - 1] + [tokenIds[n - 1]] == tokenIds;
      StepLogit(be, tokenIds[..n - 1], tokenIds[n - 1]);
      var generated := GreedyLoop(be, copy, tokenIds, n, logits[0], maxNewTokens);
      r := Ok(generated);
    }

    method Clone() returns (s: TorchKVSession<C, L>)
      requires Valid()
      ensures fresh(s) && s.Valid() && s.be == be && s.tokenIds == tokenIds
      ensures s.cache != null ==> fresh(s.cache)
      ensures s.cache == null <==> cache == null
    {
      s := new TorchKVSession(be, []);
      if cache != null { s.cache := new DynamicCache(cache.cells); }
      s.tokenIds := tokenIds;
    }
  }

  /** Feeding one more token over a prefill gives the logits and the prefill of the longer text. */
  lemma StepLogit<C, L>(m: Model<C, L>, text: seq<int>, token: int)
    ensures Logits(m, Prefill(m, text), |text|, [token])[0] == LastLogit(m, text + [token])
    ensures Forward(m, Prefill(m, text), |text|, [token]) == Prefill(m, text + [token])
  {
    LogitsOverPrefill(m, text, [token], 0);
    assert [token][..1] == [token];
    ExtendPrefill(m, text, [token]);
  }

  lemma {:induction false} TokensPrefix(ctx: seq<Segment>, p: nat, q: nat)
    requires p <= q <= |ctx|
    ensures TokensOf(ctx, p) <= TokensOf(ctx, q)
  {
    if p < q { TokensPrefix(ctx, p, q - 1); }
  }

  lemma {:induction false} SharedUpTo(hash: ContentHash, prev: seq<Segment>, next: seq<Segment>, p: nat, k: nat)
    requires CollisionFree(hash, prev, next) && IsCommonPrefix(hash, prev, next, p) && k <= p
    ensures TokensOf(prev, k) == TokensOf(next, k)
  {
    if k > 0 { SharedUpTo(hash, prev, next, p, k - 1); }
  }

  /** The common prefix is the same tokens in both contexts, so the old tokens are a valid start of the new ones. */
  lemma SharedTokens(hash: ContentHash, prev: seq<Segment>, next: seq<Segment>, p: nat)
    requires CollisionFree(hash, prev, next) && IsCommonPrefix(hash, prev, next, p)
    ensures Offset(next, p) <= |Tokens(prev)| && Offset(next, p) <= |Tokens(next)|
    ensures Tokens(prev)[..Offset(next, p)] + Tokens(next)[Offset(next, p)..] == Tokens(next)
    ensures Tokens(prev)[..Offset(next, p)] == Tokens(next)[..Offset(next, p)]
  {
    hide TokensOf, Offset, CollisionFree;
    SharedUpTo(hash, prev, next, p, p);
    TokensPrefix(prev, p, |prev|);
    TokensPrefix(next, p, |next|);
    var shared := TokensOf(next, p);
    assert Tokens(prev)[..|shared|] == shared == Tokens(next)[..|shared|];
  }

  // ---- whole runs over a forest of forks ---------------------------------------------------------

  /** One mutation of the k-th session, or a fork of it. */
  datatype Op =
    | AppendOp(k: nat, tokens: seq<int>)
    | TruncateOp(k: nat, n: int)
    | EditOp(k: nat, prefixLen: int, tail: seq<int>)
    | ApplyOp(k: nat, prev: seq<Segment>, next: seq<Segment>)
    | CloneOp(k: nat)

  ghost predicate Legal(hash: ContentHash, texts: seq<seq<int>>, op: Op) {
    && op.k < |texts|
    && (op.ApplyOp? ==> texts[op.k] == Tokens(op.prev) && CollisionFree(hash, op.prev, op.next))
  }

  /** What a mutation means when a session is just its text. */
  function Mutated(t: seq<int>, op: Op): seq<int> {
    match op
    case AppendOp(_, tokens) => t + tokens
    case TruncateOp(_, n) => t[..Kept(|t|, n)]
    case EditOp(_, p, tail) => t[..Kept(|t|, p)] + tail
    case ApplyOp(_, _, next) => Tokens(next)
    case CloneOp(_) => t
  }

  function Meaning(texts: seq<seq<int>>, op: Op): seq<seq<int>>
    requires op.k < |texts|
  {
    if op.CloneOp? then texts + [texts[op.k]] else texts[op.k := Mutated(texts[op.k], op)]
  }

  ghost predicate LegalRun(hash: ContentHash, texts: seq<seq<int>>, ops: seq<Op>)
    decreases |ops|
  {
    ops != [] ==> Legal(hash, texts, ops[0]) && LegalRun(hash, Meaning(texts, ops[0]), ops[1..])
  }

  ghost function RunMeaning(hash: ContentHash, texts: seq<seq<int>>, ops: seq<Op>): seq<seq<int>>
    requires LegalRun(hash, texts, ops)
    decreases |ops|
  {
    if ops == [] then texts else RunMeaning(hash, Meaning(texts, ops[0]), ops[1..])
  }

  /** The sessions share no object, and each is the full prefill of its text. */
  ghost predicate Forest<C(!new), L(!new)>(be: Model<C, L>, sessions: seq<TorchKVSession<C, L>>, texts: seq<seq<int>>)
    reads sessions, Footprint(sessions)
  {
    && |sessions| == |texts|
    && (forall i :: 0 <= i < |sessions| ==>
          sessions[i].Valid() && sessions[i].be == be && sessions[i].tokenIds == texts[i])
    && (forall i, j :: 0 <= i < j < |sessions| ==>
          && sessions[i] != sessions[j]
          && (sessions[i].cache != null ==> sessions[i].cache != sessions[j].cache))
  }

  /** Any legal run of mutations and forks, over real sessions that mutate in place, ends where the
      same run over plain texts ends: every cache is a full prefill and no fork disturbs another. */
  method RunForest<C(!new), L(!new)>(be: Model<C, L>, hash: ContentHash, ops: seq<Op>)
    returns (sessions: seq<TorchKVSession<C, L>>)
    requires LegalRun(hash, [[]], ops)
    ensures Forest(be, sessions, RunMeaning(hash, [[]], ops))
  {
    var root := new TorchKVSession(be, []);
    sessions := [root];
    ghost var texts := [[]];
    for i := 0 to |ops|
      invariant LegalRun(hash, texts, ops[i..])
      invariant RunMeaning(hash, texts, ops[i..]) == RunMeaning(hash, [[]], ops)
      invariant Forest(be, sessions, texts)
      invariant fresh(Footprint(sessions))
    {
      assert ops[i..][1..] == ops[i + 1..];
      sessions := StepForest(be, hash, sessions, texts, ops[i]);
      texts := Meaning(texts, ops[i]);
    }
  }

  /** All objects the sessions own. */
  ghost function Footprint<C(!new), L(!new)>(sessions: seq<TorchKVSession<C, L>>): set<object>
    reads sessions
  {
    (set s | s in sessions :: s as object) + (set s | s in sessions && s.cache != null :: s.cache as object)
  }

  lemma Owns<C(!new), L(!new)>(sessions: seq<TorchKVSession<C, L>>, k: nat)
    requires k < |sessions|
    ensures sessions[k] in Footprint(sessions)
    ensures sessions[k].cache != null ==> sessions[k].cache in Footprint(sessions)
  {
    assert sessions[k] in sessions;
  }

  method StepForest<C(!new), L(!new)>(be: Model<C, L>, hash: ContentHash, sessions: seq<TorchKVSession<C, L>>,
                                      ghost texts: seq<seq<int>>, op: Op)
    returns (sessions': seq<TorchKVSession<C, L>>)
    requires Forest(be, sessions, texts) && Legal(hash, texts, op)
    modifies Footprint(sessions)
    ensures Forest(be, sessions', Meaning(texts, op))
    ensures fresh(Footprint(sessions') - old(Footprint(sessions)))
  {
    hide Forward, Prefill, Mutated;
    Owns(sessions, op.k);
    if op.CloneOp? {
      var fork := sessions[op.k].Clone();
      sessions' := sessions + [fork];
    } else {
      sessions' := sessions;
      MutateOne(be, hash, sessions, texts, op);
    }
  }

  method MutateOne<C(!new), L(!new)>(be: Model<C, L>, hash: ContentHash, sessions: seq<TorchKVSession<C, L>>,
                                     ghost texts: seq<seq<int>>, op: Op)
    requires Forest(be, sessions, texts) && Legal(hash, texts, op) && !op.CloneOp?
    modifies sessions[op.k], if sessions[op.k].cache == null then {} else {sessions[op.k].cache}
    ensures Forest(be, sessions, texts[op.k := Mutated(texts[op.k], op)])
    ensures fresh(Footprint(sessions) - old(Footprint(sessions)))
  {
    hide Forward, Prefill, Mutated;
    Mutate(hash, sessions[op.k], op);
    forall i | 0 <= i < |sessions| && i != op.k
      ensures sessions[i] != sessions[op.k] && sessions[i].Valid()
      ensures sessions[i].cache == old(sessions[i].cache) && sessions[i].tokenIds == old(sessions[i].tokenIds)
    {
    }
  }

  /** A mutation of one session. */
  method Mutate<C(!new), L(!new)>(hash: ContentHash, s: TorchKVSession<C, L>, op: Op)
    requires s.Valid() && !op.CloneOp?
    requires op.ApplyOp? ==> s.tokenIds == Tokens(op.prev) && CollisionFree(hash, op.prev, op.next)
    modifies s`cache, s`tokenIds, if s.cache == null then {} else {s.cache}
    ensures s.Valid() && s.tokenIds == Mutated(old(s.tokenIds), op)
    ensures s.cache == old(s.cache) || (s.cache != null && fresh(s.cache))
  {
    match op
    case AppendOp(_, tokens) => var _ := s.Append(tokens);
    case TruncateOp(_, n) => s.Truncate(n);
    case EditOp(_, p, tail) => var _ := s.EditSuffix(p, tail);
    case ApplyOp(_, prev, next) => var _, _, _ := s.Apply(hash, prev, next);
  }
}
