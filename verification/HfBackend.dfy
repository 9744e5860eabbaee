/**
 The portable backend: raw caches are plain values that are sliced, extended, decoded and scored.
 Each fast form is measured against recomputing everything from the text alone.
 */
module HfBackend {
  import opened Wrappers
  import opened Transformer
  import opened SegmentPlan
  import opened KvSession

  datatype KVCache<C> = KVCache(cells: seq<C>, positions: seq<int>, tokenIds: Option<seq<int>>)

  function Arange(lo: nat, hi: nat): (r: seq<int>)
    requires lo <= hi
    ensures |r| == hi - lo && forall i :: 0 <= i < |r| ==> r[i] == lo + i
  {
    seq(hi - lo, i => lo + i)
  }

  /** kv is what a full prefill of ids would build, positions and token ids included. */
  ghost predicate IsPrefill<C(!new), L(!new)>(m: Model<C, L>, kv: KVCache<C>, ids: seq<int>) {
    kv == KVCache(Prefill(m, ids), Arange(0, |ids|), Some(ids))
  }

  function SliceKv<C>(kv: KVCache<C>, n: nat): KVCache<C>
    requires n <= |kv.cells| && n <= |kv.positions| && (kv.tokenIds.Some? ==> n <= |kv.tokenIds.value|)
  {
    KVCache(kv.cells[..n], kv.positions[..n], if kv.tokenIds.Some? then Some(kv.tokenIds.value[..n]) else None)
  }

  function Extend<C, L>(m: Model<C, L>, kv: KVCache<C>, ids: seq<int>): KVCache<C> {
    if ids == [] then kv else
      var start := |kv.positions|;
      KVCache(Forward(m, kv.cells, start, ids), Arange(0, start + |ids|),
              Some((if kv.tokenIds.Some? then kv.tokenIds.value else []) + ids))
  }

  lemma ExtendIsPrefill<C(!new), L(!new)>(m: Model<C, L>, kv: KVCache<C>, ctx: seq<int>, ids: seq<int>)
    requires IsPrefill(m, kv, ctx)
    ensures IsPrefill(m, Extend(m, kv, ids), ctx + ids)
  {
    ExtendPrefill(m, ctx, ids);
    assert ids == [] ==> ctx + ids == ctx;
  }

  lemma SliceIsPrefill<C(!new), L(!new)>(m: Model<C, L>, kv: KVCache<C>, ctx: seq<int>, n: nat)
    requires IsPrefill(m, kv, ctx) && n <= |ctx|
    ensures IsPrefill(m, SliceKv(kv, n), ctx[..n])
  {
    TruncatePrefill(m, ctx, n);
    assert Arange(0, |ctx|)[..n] == Arange(0, n);
  }

  /** Exact incremental recompute: the result is the full prefill of the new context, and the reused
      part is the longest common segment prefix. */
  method RecomputeIncremental<C(!new), L(!new)>(m: Model<C, L>, hash: ContentHash, prevKv: KVCache<C>,
                                                prev: seq<Segment>, next: seq<Segment>)
    returns (kv: KVCache<C>, reused: nat, recomputed: nat)
    requires IsPrefill(m, prevKv, Tokens(prev)) && CollisionFree(hash, prev, next)
    ensures IsPrefill(m, kv, Tokens(next))
    ensures reused + recomputed == |Tokens(next)|
    ensures exists p :: IsCommonPrefix(hash, prev, next, p) && reused == Offset(next, p)
  {
    hide PlanFor, IsCommonPrefix, CollisionFree, Prefill, TokensOf;
    var r, p := PlanIncremental(hash, Some(prev), next, "exact");
    PlanReuse(hash, prev, next, false, p, r.value);
    SharedTokens(hash, prev, next, p);
    reused := ReusedExactTokens(r.value.items);
    var ids := Tokens(next);
    SliceIsPrefill(m, prevKv, Tokens(prev), reused);
    var base := SliceKv(prevKv, reused);
    var tail := ids[reused..];
    recomputed := |tail|;
    kv := if tail == [] then base else Extend(m, base, tail);
    ExtendIsPrefill(m, base, ids[..reused], tail);
    assert ids[..reused] + tail == ids;
  }

  // ---- contexts --------------------------------------------------------------------------------------

  /**
   What can be decoded over: a full cache, or a compact one. columns(d) is what the compact cache's heads build into
   when each has given up its last d slots.
   */
  datatype Context<C> =
    | Full(kv: KVCache<C>)
    | Compact(columns: nat -> seq<C>, logicalLength: nat, tokenIds: Option<seq<int>>)

  function Past<C>(ctx: Context<C>): seq<C> {
    if ctx.Full? then ctx.kv.cells else ctx.columns(0)
  }

  /** The position of the next token. */
  function Begin<C>(ctx: Context<C>): nat {
    if ctx.Full? then |ctx.kv.positions| else ctx.logicalLength
  }

  function DecodeLogits<C, L>(m: Model<C, L>, ctx: Context<C>, ids: seq<int>): (ls: seq<L>)
    ensures |ls| == |ids|
  {
    Logits(m, Past(ctx), Begin(ctx), ids)
  }

  /** The context without its last position, and the token that stood there. */
  function DropLast<C>(ctx: Context<C>): Result<(Context<C>, int), string> {
    match ctx
    case Full(kv) =>
      if kv.tokenIds.None? then Err("token ids required")
      else if kv.tokenIds.value == [] || kv.positions == [] || kv.cells == [] then Err("empty context")
      else
        var ids := kv.tokenIds.value;
        var shorter := KVCache(kv.cells[..|kv.cells| - 1], kv.positions[..|kv.positions| - 1], Some(ids[..|ids| - 1]));
        Ok((Full(shorter), ids[|ids| - 1]))
    case Compact(columns, length, tokenIds) =>
      if tokenIds.None? || tokenIds.value == [] || length == 0 then Err("token ids required")
      else
        var ids := tokenIds.value;
        Ok((Compact((d: nat) => columns(d + 1), length - 1, Some(ids[..|ids| - 1])), ids[|ids| - 1]))
  }

  /** What a context needs for its last token to be fed again, and which token that is. */
  lemma DropLastIff<C>(ctx: Context<C>)
    ensures var ids := if ctx.Full? then ctx.kv.tokenIds else ctx.tokenIds;
            && (DropLast(ctx).Ok? <==>
                ids.Some? && ids.value != [] &&
                if ctx.Full? then ctx.kv.positions != [] && ctx.kv.cells != [] else ctx.logicalLength > 0)
            && (DropLast(ctx).Ok? ==> DropLast(ctx).value.1 == ids.value[|ids.value| - 1])
  {}

  /** Feeding the dropped token again restores the context. */
  ghost predicate Refeeds<C(!new), L(!new)>(m: Model<C, L>, ctx: Context<C>) {
    DropLast(ctx).Ok? &&
    var (shorter, last) := DropLast(ctx).value;
    Begin(shorter) + 1 == Begin(ctx) && Forward(m, Past(shorter), Begin(shorter), [last]) == Past(ctx)
  }

  lemma DropLastIsPrefill<C(!new), L(!new)>(m: Model<C, L>, kv: KVCache<C>, text: seq<int>)
    requires IsPrefill(m, kv, text)
    ensures DropLast(Full(kv)).Ok? <==> text != []
    ensures text != [] ==>
              var (shorter, last) := DropLast(Full(kv)).value;
              && shorter.Full? && IsPrefill(m, shorter.kv, text[..|text| - 1]) && last == text[|text| - 1]
              && Refeeds(m, Full(kv))
  {
    if text != [] {
      SliceIsPrefill(m, kv, text, |text| - 1);
      ExtendPrefill(m, text[..|text| - 1], [text[|text| - 1]]);
      assert text[..|text| - 1] + [text[|text| - 1]] == text;
    }
  }

  /** A compact cache that kept everything behaves like the full one: there the dropped slot is the last position. */
  lemma KeepAllRefeeds<C(!new), L(!new)>(m: Model<C, L>, columns: nat -> seq<C>, text: seq<int>)
    requires text != [] && columns(0) == Prefill(m, text) && columns(1) == Prefill(m, text[..|text| - 1])
    ensures Refeeds(m, Compact(columns, |text|, Some(text)))
    ensures forall ids: seq<int> :: ids != [] ==>
              NextLogit(m, Compact(columns, |text|, Some(text)), ids) == LastLogit(m, text + ids)
    ensures NextLogit(m, Compact(columns, |text|, Some(text)), []) == LastLogit(m, text)
  {
    hide Forward, LastLogit;
    var k := |text| - 1;
    ExtendPrefill(m, text[..k], [text[k]]);
    assert text[..k] + [text[k]] == text;
    forall ids: seq<int> | ids != []
      ensures NextLogit(m, Compact(columns, |text|, Some(text)), ids) == LastLogit(m, text + ids)
    {
      LogitsOverPrefill(m, text, ids, |ids| - 1);
      assert ids[..|ids|] == ids;
    }
    LogitsOverPrefill(m, text[..k], [text[k]], 0);
    assert [text[k]][..1] == [text[k]];
  }

  /**
   Tokens fed to a compact context stand at its logical length and on, however many columns its heads kept; fed again,
   its last token stands one position before, over the columns with their last slots dropped.
   */
  lemma CompactRows<C(!new), L(!new)>(m: Model<C, L>, columns: nat -> seq<C>, length: nat, tokenIds: Option<seq<int>>,
                                      ids: seq<int>)
    ensures var ctx := Compact(columns, length, tokenIds);
            && (forall i :: 0 <= i < |ids| ==>
                  DecodeLogits(m, ctx, ids)[i] == m.logit(Forward(m, columns(0), length, ids[..i]), length + i, ids[i]))
            && (DropLast(ctx).Ok? ==>
                tokenIds.Some? && tokenIds.value != [] && length > 0 &&
                NextLogit(m, ctx, []) == m.logit(columns(1), length - 1, tokenIds.value[|tokenIds.value| - 1]))
  {
    hide Forward, Logits;
    if DropLast(Compact(columns, length, tokenIds)).Ok? {
      NoneFed(m, columns(1), length - 1, tokenIds.value[|tokenIds.value| - 1]);
    }
  }

  lemma NoneFed<C(!new), L(!new)>(m: Model<C, L>, past: seq<C>, start: nat, last: int)
    ensures Logits(m, past, start, [last])[0] == m.logit(past, start, last)
  {
    assert [last][..0] == [];
  }

  // ---- decoding ---------------------------------------------------------------------------------------

  /** The logits after the context and more tokens; right after the context, its last token is fed again. */
  function NextLogit<C, L>(m: Model<C, L>, ctx: Context<C>, ids: seq<int>): L
    requires ids != [] || DropLast(ctx).Ok?
  {
    if ids != [] then DecodeLogits(m, ctx, ids)[|ids| - 1]
    else
      var (shorter, last) := DropLast(ctx).value;
      DecodeLogits(m, shorter, [last])[0]
  }

  lemma NextLogitIsLast<C(!new), L(!new)>(m: Model<C, L>, kv: KVCache<C>, text: seq<int>, ids: seq<int>)
    requires IsPrefill(m, kv, text) && text + ids != []
    ensures ids != [] || DropLast(Full(kv)).Ok?
    ensures NextLogit(m, Full(kv), ids) == LastLogit(m, text + ids)
  {
    hide Forward, LastLogit;
    if ids != [] {
      LogitsOverPrefill(m, text, ids, |ids| - 1);
      assert ids[..|ids|] == ids;
    } else {
      DropLastIsPrefill(m, kv, text);
      var k := |text| - 1;
      LogitsOverPrefill(m, text[..k], [text[k]], 0);
      assert [text[k]][..1] == [text[k]] && text[..k] + [text[k]] == text + ids;
    }
  }

  /** k greedily decoded tokens: each is the best after the context, the prompt and the tokens before it. */
  function ContextResponse<C, L>(m: Model<C, L>, ctx: Context<C>, prompt: seq<int>, k: nat): (r: seq<int>)
    requires prompt != [] || DropLast(ctx).Ok?
    ensures |r| == k
  {
    if k == 0 then [] else
      var r := ContextResponse(m, ctx, prompt, k - 1);
      r + [m.argmax(NextLogit(m, ctx, prompt + r))]
  }

  /** Greedy decoding, over any context, that re-decodes prompt and response at every step. */
  method Generate<C(!new), L(!new)>(m: Model<C, L>, ctx: Context<C>, prompt: seq<int>, maxNewTokens: nat)
    returns (r: Result<seq<int>, string>)
    ensures r.Err? <==> prompt == [] && DropLast(ctx).Err?
    ensures r.Ok? ==> r.value == ContextResponse(m, ctx, prompt, maxNewTokens)
  {
    hide Forward, DecodeLogits;
    var lastLogit: L;
    if prompt != [] {
      lastLogit := DecodeLogits(m, ctx, prompt)[|prompt| - 1];
    } else {
      var dropped := DropLast(ctx);
      if dropped.Err? { return Err(dropped.error); }
      lastLogit := DecodeLogits(m, dropped.value.0, [dropped.value.1])[0];
    }
    var generated: seq<int> := [];
    assert prompt + generated == prompt;
    while |generated| < maxNewTokens
      invariant |generated| <= maxNewTokens
      invariant generated == ContextResponse(m, ctx, prompt, |generated|)
      invariant |generated| < maxNewTokens ==> lastLogit == NextLogit(m, ctx, prompt + generated)
      decreases maxNewTokens - |generated|
    {
      generated := generated + [m.argmax(lastLogit)];
      if |generated| >= maxNewTokens { break; }
      var prefix := prompt + generated;
      lastLogit := DecodeLogits(m, ctx, prefix)[|prefix| - 1];
    }
    r := Ok(generated);
  }

  /** Over the cache of a text that is the greedy response to text and prompt, recomputed from scratch. */
  lemma {:induction false} ResponseOnPrefill<C(!new), L(!new)>(m: Model<C, L>, kv: KVCache<C>, text: seq<int>,
                                                             prompt: seq<int>, k: nat)
    requires IsPrefill(m, kv, text) && text + prompt != []
    ensures prompt != [] || DropLast(Full(kv)).Ok?
    ensures ContextResponse(m, Full(kv), prompt, k) == Response(m, text + prompt, k)
  {
    hide NextLogit, LastLogit;
    DropLastIsPrefill(m, kv, text);
    assert prompt == [] ==> text + prompt == text;
    if k > 0 {
      ResponseOnPrefill(m, kv, text, prompt, k - 1);
      var r := Response(m, text + prompt, k - 1);
      NextLogitIsLast(m, kv, text, prompt + r);
      assert text + (prompt + r) == text + prompt + r;
    }
  }

  /** Incremental decoding: the prompt once, then one token a step over the grown cache. */
  method GenerateAndExtend<C(!new), L(!new)>(m: Model<C, L>, kv: KVCache<C>, ghost ctx: seq<int>, prompt: seq<int>,
                                             maxNewTokens: nat)
    returns (generated: seq<int>, grown: KVCache<C>)
    requires IsPrefill(m, kv, ctx) && prompt != []
    ensures generated == Response(m, ctx + prompt, maxNewTokens)
    ensures IsPrefill(m, grown, ctx + prompt + generated)
  {
    hide Forward, LastLogit;
    var start := |kv.positions|;
    var cache := new DynamicCache(kv.cells);
    var logits: seq<L>;
    cache, logits := ModelForward(m, cache, start, prompt);
    LogitsOverPrefill(m, ctx, prompt, |prompt| - 1);
    assert prompt[..|prompt|] == prompt;
    ExtendPrefill(m, ctx, prompt);
    generated := GreedyLoop(m, cache, ctx + prompt, start + |prompt|, logits[|logits| - 1], maxNewTokens);
    var cur := start + |prompt| + |generated|;
    var ids := (if kv.tokenIds.Some? then kv.tokenIds.value else []) + prompt + generated;
    grown := KVCache(cache.cells, Arange(0, cur), Some(ids));
  }

  /** The incremental form gives the tokens the re-decoding form gives. */
  method DecodingAgrees<C(!new), L(!new)>(m: Model<C, L>, kv: KVCache<C>, ghost ctx: seq<int>, prompt: seq<int>,
                                          maxNewTokens: nat)
    returns (naive: Result<seq<int>, string>, incremental: seq<int>)
    requires IsPrefill(m, kv, ctx) && prompt != []
    ensures naive == Ok(incremental)
  {
    naive := Generate(m, Full(kv), prompt, maxNewTokens);
    ResponseOnPrefill(m, kv, ctx, prompt, maxNewTokens);
    var grown;
    incremental, grown := GenerateAndExtend(m, kv, ctx, prompt, maxNewTokens);
  }

  /** Materialise a session's cache. */
  method ToKvCache<C(!new), L(!new)>(s: TorchKVSession<C, L>) returns (kv: KVCache<C>)
    requires s.Valid() && s.cache != null
    ensures IsPrefill(s.be, kv, s.tokenIds)
  {
    kv := KVCache(s.cache.cells, Arange(0, |s.tokenIds|), Some(s.tokenIds));
  }

  /** Rebuild a session from a portable cache. */
  method FromKvCache<C(!new), L(!new)>(m: Model<C, L>, kv: KVCache<C>, ghost ctx: seq<int>)
    returns (s: TorchKVSession<C, L>)
    requires IsPrefill(m, kv, ctx)
    ensures fresh(s) && s.Valid() && s.be == m && s.tokenIds == ctx && s.cache != null && fresh(s.cache)
  {
    s := new TorchKVSession(m, []);
    s.cache := new DynamicCache(kv.cells);
    s.tokenIds := if kv.tokenIds.Some? then kv.tokenIds.value else [];
  }

  /** A session decodes what the backend generates from the materialised cache with an empty prompt. */
  method SessionAgrees<C(!new), L(!new)>(s: TorchKVSession<C, L>, maxNewTokens: nat)
    returns (onDevice: Result<seq<int>, string>, portable: Result<seq<int>, string>)
    requires s.Valid() && s.cache != null
    ensures onDevice.Ok? <==> portable.Ok?
    ensures onDevice.Ok? ==> onDevice == portable
  {
    onDevice := s.Greedy(maxNewTokens);
    var kv := ToKvCache(s);
    portable := Generate(s.be, Full(kv), [], maxNewTokens);
    DropLastIsPrefill(s.be, kv, s.tokenIds);
    assert s.tokenIds + [] == s.tokenIds;
    if s.tokenIds != [] { ResponseOnPrefill(s.be, kv, s.tokenIds, [], maxNewTokens); }
  }

  // ---- scoring --------------------------------------------------------------------------------------

  function Score<C, L>(m: Model<C, L>, ctx: Context<C>, prompt: seq<int>, target: seq<int>): Result<seq<real>, string> {
    var n := |target|;
    if n == 0 then Ok([])
    else if prompt != [] then
      var logits := DecodeLogits(m, ctx, prompt + target);
      Ok(seq(n, i requires 0 <= i < n => m.logprob(logits[|prompt| - 1 + i], target[i])))
    else match DropLast(ctx)
      case Err(e) => Err(e)
      case Ok((shorter, last)) =>
        var logits := DecodeLogits(m, shorter, [last] + target);
        Ok(seq(n, i requires 0 <= i < n => m.logprob(logits[i], target[i])))
  }

  /** Log-probability of each target token after the context, the prompt and the target tokens before it. */
  ghost function ContextScore<C, L>(m: Model<C, L>, ctx: Context<C>, prompt: seq<int>, target: seq<int>): (r: seq<real>)
    requires prompt != [] || DropLast(ctx).Ok?
    ensures |r| == |target|
    ensures forall i :: 0 <= i < |target| ==> r[i] == m.logprob(NextLogit(m, ctx, prompt + target[..i]), target[i])
  {
    seq(|target|, i requires 0 <= i < |target| => m.logprob(NextLogit(m, ctx, prompt + target[..i]), target[i]))
  }

  /** Log-probability of each target token after everything before it, from scratch. */
  ghost function TextScore<C, L>(m: Model<C, L>, text: seq<int>, target: seq<int>): (r: seq<real>)
    requires text != []
    ensures |r| == |target|
    ensures forall i :: 0 <= i < |target| ==> r[i] == m.logprob(LastLogit(m, text + target[..i]), target[i])
  {
    seq(|target|, i requires 0 <= i < |target| => m.logprob(LastLogit(m, text + target[..i]), target[i]))
  }

  /** A row of a decode does not depend on the tokens after it. */
  lemma RowIsNext<C(!new), L(!new)>(m: Model<C, L>, ctx: Context<C>, ids: seq<int>, i: nat)
    requires i < |ids|
    ensures DecodeLogits(m, ctx, ids)[i] == NextLogit(m, ctx, ids[..i + 1])
  {
    assert ids[..i + 1][..i] == ids[..i];
  }

  /** The last logits of a forward over some columns. */
  function LastRow<C, L>(m: Model<C, L>, past: seq<C>, start: nat, ids: seq<int>): L
    requires ids != []
  {
    var k := |ids| - 1;
    m.logit(Forward(m, past, start, ids[..k]), start + k, ids[k])
  }

  lemma NextIsRow<C(!new), L(!new)>(m: Model<C, L>, ctx: Context<C>, ids: seq<int>)
    requires ids != []
    ensures NextLogit(m, ctx, ids) == LastRow(m, Past(ctx), Begin(ctx), ids)
  {
    hide Forward, Past, Begin, DropLast;
  }

  lemma RowShifts<C(!new), L(!new)>(m: Model<C, L>, past: seq<C>, start: nat, last: int, ids: seq<int>)
    requires ids != []
    ensures LastRow(m, past, start, [last] + ids) == LastRow(m, Forward(m, past, start, [last]), start + 1, ids)
  {
    hide Forward;
    var k := |ids| - 1;
    ForwardConcat(m, past, start, [last], ids[..k]);
    assert ([last] + ids)[..k + 1] == [last] + ids[..k];
  }

  /** Over a context that can be re-fed, decoding from one token earlier gives the same rows. */
  lemma RefedRow<C(!new), L(!new)>(m: Model<C, L>, ctx: Context<C>, ids: seq<int>)
    requires Refeeds(m, ctx)
    ensures var (shorter, last) := DropLast(ctx).value; NextLogit(m, shorter, [last] + ids) == NextLogit(m, ctx, ids)
  {
    hide Forward, Past, Begin, LastRow, DecodeLogits;
    var (shorter, last) := DropLast(ctx).value;
    if ids == [] {
      assert [last] + ids == [last];
    } else {
      hide DropLast, NextLogit;
      NextIsRow(m, ctx, ids);
      NextIsRow(m, shorter, [last] + ids);
      RowShifts(m, Past(shorter), Begin(shorter), last, ids);
    }
  }

  /**
   Scoring over any context. Without a prompt it is scoring after the context's last token, fed again over the shorter
   context, and that is the score after the context itself whenever re-feeding restores it.
   */
  lemma ScoreMeaning<C(!new), L(!new)>(m: Model<C, L>, ctx: Context<C>, prompt: seq<int>, target: seq<int>)
    ensures target == [] ==> Score(m, ctx, prompt, target) == Ok([])
    ensures target != [] ==> (Score(m, ctx, prompt, target).Err? <==> prompt == [] && DropLast(ctx).Err?)
    ensures target != [] && prompt == [] && DropLast(ctx).Ok? ==>
              var (shorter, last) := DropLast(ctx).value;
              Score(m, ctx, prompt, target) == Ok(ContextScore(m, shorter, [last], target))
    ensures prompt != [] || Refeeds(m, ctx) ==>
            Score(m, ctx, prompt, target) == Ok(ContextScore(m, ctx, prompt, target))
  {
    hide DecodeLogits, NextLogit, Forward;
    if target != [] && prompt != [] {
      PromptRows(m, ctx, prompt, target);
    } else if target != [] && DropLast(ctx).Ok? {
      var (shorter, last) := DropLast(ctx).value;
      PromptRows(m, shorter, [last], target);
      assert Score(m, ctx, prompt, target).value == ContextScore(m, shorter, [last], target);
      if Refeeds(m, ctx) {
        forall i | 0 <= i < |target|
          ensures NextLogit(m, shorter, [last] + target[..i]) == NextLogit(m, ctx, prompt + target[..i])
        {
          RefedRow(m, ctx, target[..i]);
          assert prompt + target[..i] == target[..i];
        }
        assert ContextScore(m, shorter, [last], target) == ContextScore(m, ctx, prompt, target);
      }
    }
  }

  /** The rows that score a target after a prompt. */
  lemma PromptRows<C(!new), L(!new)>(m: Model<C, L>, ctx: Context<C>, prompt: seq<int>, target: seq<int>)
    requires prompt != []
    ensures |DecodeLogits(m, ctx, prompt + target)| == |prompt| + |target|
    ensures seq(|target|, i requires 0 <= i < |target| =>
              m.logprob(DecodeLogits(m, ctx, prompt + target)[|prompt| - 1 + i], target[i]))
            == ContextScore(m, ctx, prompt, target)
  {
    hide DecodeLogits, NextLogit;
    forall i | 0 <= i < |target|
      ensures DecodeLogits(m, ctx, prompt + target)[|prompt| - 1 + i] == NextLogit(m, ctx, prompt + target[..i])
    {
      RowIsNext(m, ctx, prompt + target, |prompt| - 1 + i);
      assert (prompt + target)[..|prompt| + i] == prompt + target[..i];
    }
  }

  /** Over the cache of a text, scores are those of the text itself, with or without a prompt. */
  lemma ScoreOnPrefill<C(!new), L(!new)>(m: Model<C, L>, kv: KVCache<C>, text: seq<int>, prompt: seq<int>,
                                         target: seq<int>)
    requires IsPrefill(m, kv, text)
    ensures text + prompt != [] ==> Score(m, Full(kv), prompt, target) == Ok(TextScore(m, text + prompt, target))
    ensures text + prompt == [] && target != [] ==> Score(m, Full(kv), prompt, target).Err?
  {
    hide Score, NextLogit, LastLogit, Refeeds;
    DropLastIsPrefill(m, kv, text);
    ScoreMeaning(m, Full(kv), prompt, target);
    if text + prompt != [] {
      assert prompt == [] ==> text != [];
      forall i | 0 <= i < |target|
        ensures ContextScore(m, Full(kv), prompt, target)[i] == TextScore(m, text + prompt, target)[i]
      {
        NextLogitIsLast(m, kv, text, prompt + target[..i]);
        assert text + (prompt + target[..i]) == text + prompt + target[..i];
      }
      assert ContextScore(m, Full(kv), prompt, target) == TextScore(m, text + prompt, target);
    }
  }

  /**
   Scoring a target is scoring its first part, then the second part after the first: over any context with a prompt,
   and without one whenever re-feeding restores the context.
   */
  lemma ScoreSplits<C(!new), L(!new)>(m: Model<C, L>, ctx: Context<C>, prompt: seq<int>, t1: seq<int>, t2: seq<int>)
    requires prompt != [] || Refeeds(m, ctx)
    ensures Score(m, ctx, prompt, t1).Ok? && Score(m, ctx, prompt + t1, t2).Ok?
    ensures Score(m, ctx, prompt, t1 + t2) == Ok(Score(m, ctx, prompt, t1).value + Score(m, ctx, prompt + t1, t2).value)
  {
    hide NextLogit, Score, Refeeds;
    ScoreMeaning(m, ctx, prompt, t1);
    ScoreMeaning(m, ctx, prompt + t1, t2);
    ScoreMeaning(m, ctx, prompt, t1 + t2);
    RefeedsDrops(m, ctx);
    var whole := ContextScore(m, ctx, prompt, t1 + t2);
    var parts := ContextScore(m, ctx, prompt, t1) + ContextScore(m, ctx, prompt + t1, t2);
    forall i | 0 <= i < |t1 + t2| ensures whole[i] == parts[i] {
      if i < |t1| {
        assert (t1 + t2)[..i] == t1[..i];
      } else {
        assert prompt + (t1 + t2)[..i] == prompt + t1 + t2[..i - |t1|];
      }
    }
    assert whole == parts;
  }

  lemma RefeedsDrops<C(!new), L(!new)>(m: Model<C, L>, ctx: Context<C>)
    ensures Refeeds(m, ctx) ==> DropLast(ctx).Ok?
  {}

  /** Moving a part of the prompt into the context does not change any score. */
  lemma ScoreMovesPrompt<C(!new), L(!new)>(m: Model<C, L>, kv: KVCache<C>, text: seq<int>, p1: seq<int>, p2: seq<int>,
                                           target: seq<int>)
    requires IsPrefill(m, kv, text) && text + p1 + p2 != []
    ensures Score(m, Full(Extend(m, kv, p1)), p2, target) == Score(m, Full(kv), p1 + p2, target)
    ensures Score(m, Full(kv), p1 + p2, target).Ok?
  {
    hide Forward, Prefill, LastLogit, Score, Extend;
    ExtendIsPrefill(m, kv, text, p1);
    ScoreOnPrefill(m, Extend(m, kv, p1), text + p1, p2, target);
    ScoreOnPrefill(m, kv, text, p1 + p2, target);
    assert text + p1 + p2 == text + (p1 + p2);
  }
}
