/**
 A causal transformer seen from its KV cache: the column a token leaves in the cache, and the
 logits it produces, depend on the columns before it, on its position and on the token alone.
 Nothing else is known about the model.
 */
module Transformer {

  /** C is one token's keys and values over all layers and heads, L a row of logits. */
  datatype Model<!C, !L> = Model(
    cell: (seq<C>, nat, int) -> C,
    logit: (seq<C>, nat, int) -> L,
    argmax: L -> int,
    logprob: (L, int) -> real)

  /** The cache after feeding ids at positions start, start+1, ... on top of past. */
  function Forward<C, L>(m: Model<C, L>, past: seq<C>, start: nat, ids: seq<int>): (cells: seq<C>)
    ensures |cells| == |past| + |ids|
    ensures past <= cells
  {
    if ids == [] then past else
      var k := |ids| - 1;
      var c := Forward(m, past, start, ids[..k]);
      c + [m.cell(c, start + k, ids[k])]
  }

  /** The logits that one forward of ids returns, one row a token. */
  function Logits<C, L>(m: Model<C, L>, past: seq<C>, start: nat, ids: seq<int>): (ls: seq<L>)
    ensures |ls| == |ids|
    ensures forall i :: 0 <= i < |ids| ==> ls[i] == m.logit(Forward(m, past, start, ids[..i]), start + i, ids[i])
  {
    seq(|ids|, i requires 0 <= i < |ids| => m.logit(Forward(m, past, start, ids[..i]), start + i, ids[i]))
  }

  /** A full prefill from position 0: the reference every incremental form is measured against. */
  function Prefill<C, L>(m: Model<C, L>, ids: seq<int>): (cells: seq<C>)
    ensures |cells| == |ids|
  {
    Forward(m, [], 0, ids)
  }

  lemma {:induction false} ForwardConcat<C, L>(m: Model<C, L>, past: seq<C>, start: nat, a: seq<int>, b: seq<int>)
    ensures Forward(m, past, start, a + b) == Forward(m, Forward(m, past, start, a), start + |a|, b)
  {
    if b == [] {
      assert a + b == a;
    } else {
      var k := |b| - 1;
      ForwardConcat(m, past, start, a, b[..k]);
      assert (a + b)[..|a + b| - 1] == a + b[..k];
    }
  }

  /** The column of the i-th token of a forward: its position counts from the start, not from the columns before it. */
  lemma {:induction false} ForwardAt<C, L>(m: Model<C, L>, past: seq<C>, start: nat, ids: seq<int>, i: nat)
    requires i < |ids|
    ensures Forward(m, past, start, ids)[|past| + i] == m.cell(Forward(m, past, start, ids[..i]), start + i, ids[i])
  {
    var k := |ids| - 1;
    if i < k {
      ForwardAt(m, past, start, ids[..k], i);
      assert ids[..k][..i] == ids[..i];
    }
  }

  /** Extending a prefill is the prefill of the concatenation. */
  lemma ExtendPrefill<C, L>(m: Model<C, L>, a: seq<int>, b: seq<int>)
    ensures Forward(m, Prefill(m, a), |a|, b) == Prefill(m, a + b)
  {
    ForwardConcat(m, [], 0, a, b);
  }

  /** Cutting a prefill back to n tokens is the prefill of the first n tokens: causality. */
  lemma {:induction false} TruncatePrefill<C, L>(m: Model<C, L>, ids: seq<int>, n: nat)
    requires n <= |ids|
    ensures Prefill(m, ids)[..n] == Prefill(m, ids[..n])
  {
    ExtendPrefill(m, ids[..n], ids[n..]);
    assert ids[..n] + ids[n..] == ids;
  }

  // ---- what decoding means, without any cache ------------------------------------------------

  /** The logits after the last token of a non-empty text, recomputed from scratch. */
  function LastLogit<C, L>(m: Model<C, L>, text: seq<int>): L
    requires text != []
  {
    var k := |text| - 1;
    m.logit(Prefill(m, text[..k]), k, text[k])
  }

  /** k greedily decoded tokens after a text, each recomputed from scratch. */
  function Response<C, L>(m: Model<C, L>, text: seq<int>, k: nat): (r: seq<int>)
    requires text != []
    ensures |r| == k
  {
    if k == 0 then [] else
      var r := Response(m, text, k - 1);
      r + [m.argmax(LastLogit(m, text + r))]
  }

  /** The logits of a forward over a prefilled context are those of the whole text. */
  lemma LogitsOverPrefill<C, L>(m: Model<C, L>, ctx: seq<int>, ids: seq<int>, i: nat)
    requires i < |ids|
    ensures Logits(m, Prefill(m, ctx), |ctx|, ids)[i] == LastLogit(m, ctx + ids[..i + 1])
  {
    hide Forward;
    var text := ctx + ids[..i + 1];
    assert text[..|text| - 1] == ctx + ids[..i] && text[|text| - 1] == ids[i];
    ExtendPrefill(m, ctx, ids[..i]);
  }
}
