/**
 Selective recompute across an edit: keep the exact prefix, re-phase content-identical segments to
 their new positions, recompute the edited region and the chosen part of the re-phased tokens.
 */
module SelectiveRecompute {
  import opened Rope
  import opened Transformer
  import opened SegmentPlan
  import opened KvSession

  /** One token's cached keys (one vector a layer and head, already rotated) and values. */
  datatype Column = Column(keys: seq<seq<real>>, values: seq<seq<real>>)

  ghost predicate Even(c: Column) {
    forall i :: 0 <= i < |c.keys| ==> |c.keys[i]| % 2 == 0
  }

  /** Re-phase the keys of a column; values carry no position. */
  function RotColumn(t: Trig, delta: int, c: Column): (r: Column)
    requires Even(c)
    ensures Even(r) && |r.keys| == |c.keys|
  {
    Column(seq(|c.keys|, i requires 0 <= i < |c.keys| => Rot(t, delta, c.keys[i])), c.values)
  }

  lemma RotColumnCompose(t: Trig, a: int, b: int, c: Column)
    requires AngleAddition(t) && Even(c)
    ensures RotColumn(t, a, RotColumn(t, b, c)) == RotColumn(t, a + b, c)
  {
    hide Rot;
    forall i | 0 <= i < |c.keys| ensures Rot(t, a, RotColumn(t, b, c).keys[i]) == RotColumn(t, a + b, c).keys[i] {
      RotCompose(t, a, b, c.keys[i]);
    }
  }

  /** got carries the raw column's values as they are and every raw key rotated by the position. */
  ghost predicate Rephased(t: Trig, position: int, raw: Column, got: Column)
    requires Even(raw)
  {
    && got.values == raw.values && |got.keys| == |raw.keys|
    && forall i :: 0 <= i < |raw.keys| ==> got.keys[i] == Rot(t, position, raw.keys[i])
  }

  lemma RotColumnRephases(t: Trig, position: int, raw: Column)
    requires Even(raw)
    ensures Rephased(t, position, raw, RotColumn(t, position, raw))
  {}

  /** A model whose cached keys are raw keys rotated by their position. */
  datatype Rotary<!L> = Rotary(m: Model<Column, L>, raw: (seq<Column>, nat, int) -> Column, t: Trig)

  ghost predicate RotaryAt<L>(r: Rotary<L>, past: seq<Column>, pos: nat, tok: int) {
    Even(r.raw(past, pos, tok)) && r.m.cell(past, pos, tok) == RotColumn(r.t, pos, r.raw(past, pos, tok))
  }

  ghost predicate IsRotary<L(!new)>(r: Rotary<L>) {
    AngleAddition(r.t) && forall past, pos: nat, tok :: RotaryAt(r, past, pos, tok)
  }

  /** Column q of a prefill is the model's column for token q after the first q tokens. */
  lemma PrefillAt<L>(m: Model<Column, L>, ids: seq<int>, q: nat)
    requires q < |ids|
    ensures Prefill(m, ids)[q] == m.cell(Prefill(m, ids[..q]), q, ids[q])
  {
    TruncatePrefill(m, ids, q + 1);
    assert ids[..q + 1][..q] == ids[..q];
    assert Prefill(m, ids)[q] == Prefill(m, ids)[..q + 1][q];
  }

  // ---- assembly --------------------------------------------------------------------------------------

  /** Each reused item copies a whole segment of its own length out of the previous cache. */
  ghost predicate Fits(prevCtx: seq<Segment>, it: Item) {
    && it.lo <= it.hi
    && (!it.action.Recompute? ==>
          it.action.prevIndex < |prevCtx| && |prevCtx[it.action.prevIndex].tokenIds| == it.hi - it.lo)
  }

  /** The column an item puts at offset k of its span. */
  ghost function Served(t: Trig, prevKv: seq<Column>, correct: seq<Column>, prevCtx: seq<Segment>, it: Item,
                        k: nat): Column
    requires Fits(prevCtx, it) && k < it.hi - it.lo && it.hi <= |correct|
    requires |prevKv| == Offset(prevCtx, |prevCtx|) && forall c :: c in prevKv ==> Even(c)
  {
    match it.action
    case Recompute => correct[it.lo + k]
    case ReuseExact(j) => OffsetWithin(prevCtx, j); prevKv[Offset(prevCtx, j) + k]
    case ReuseShifted(j, shift) => OffsetWithin(prevCtx, j); RotColumn(t, shift, prevKv[Offset(prevCtx, j) + k])
  }

  lemma {:induction false} OffsetMonotone(ctx: seq<Segment>, i: nat, j: nat)
    requires i <= j <= |ctx|
    ensures Offset(ctx, i) <= Offset(ctx, j)
  {
    if i < j { OffsetMonotone(ctx, i, j - 1); }
  }

  lemma OffsetWithin(ctx: seq<Segment>, j: nat)
    requires j < |ctx|
    ensures Offset(ctx, j) + |ctx[j].tokenIds| == Offset(ctx, j + 1) <= Offset(ctx, |ctx|)
  {
    OffsetMonotone(ctx, j + 1, |ctx|);
  }

  ghost predicate Assemblable(prevKv: seq<Column>, correct: seq<Column>, prevCtx: seq<Segment>, next: seq<Segment>,
                              items: seq<Item>) {
    && |prevKv| == Offset(prevCtx, |prevCtx|) && (forall c :: c in prevKv ==> Even(c))
    && |correct| == Offset(next, |next|)
    && Tiles(next, items)
    && forall i :: 0 <= i < |items| ==> Fits(prevCtx, items[i]) && items[i].hi <= |correct|
  }

  /** The cache after the first n items have written their spans over the correct one. */
  ghost function Assembled(t: Trig, prevKv: seq<Column>, correct: seq<Column>, prevCtx: seq<Segment>,
                           next: seq<Segment>,
                           items: seq<Item>, n: nat): (a: seq<Column>)
    requires Assemblable(prevKv, correct, prevCtx, next, items) && n <= |items|
    ensures |a| == |correct|
  {
    if n == 0 then correct else
      var a := Assembled(t, prevKv, correct, prevCtx, next, items, n - 1);
      var it := items[n - 1];
      seq(|correct|, q requires 0 <= q < |correct| =>
        if it.lo <= q < it.hi then Served(t, prevKv, correct, prevCtx, it, q - it.lo) else a[q])
  }

  lemma AssembledStep(t: Trig, prevKv: seq<Column>, correct: seq<Column>, prevCtx: seq<Segment>, next: seq<Segment>,
                      items: seq<Item>, n: nat, q: nat)
    requires Assemblable(prevKv, correct, prevCtx, next, items) && n < |items| && q < |correct|
    ensures Assembled(t, prevKv, correct, prevCtx, next, items, n + 1)[q] ==
            if items[n].lo <= q < items[n].hi then Served(t, prevKv, correct, prevCtx, items[n], q - items[n].lo)
            else Assembled(t, prevKv, correct, prevCtx, next, items, n)[q]
  {}

  method AssembleReused(t: Trig, prevKv: seq<Column>, correct: seq<Column>, prevCtx: seq<Segment>,
                        ghost next: seq<Segment>,
                        items: seq<Item>) returns (reused: seq<Column>)
    requires Assemblable(prevKv, correct, prevCtx, next, items)
    ensures reused == Assembled(t, prevKv, correct, prevCtx, next, items, |items|)
  {
    hide Served, Offset;
    var layers := new Column[|correct|](i requires 0 <= i < |correct| => correct[i]);
    assert layers[..] == correct;
    for n := 0 to |items|
      invariant layers[..] == Assembled(t, prevKv, correct, prevCtx, next, items, n)
    {
      forall q | 0 <= q < |correct| ensures items[n].lo <= q ==> layers[..][q] == correct[q] {
        UntouchedFrom(t, prevKv, correct, prevCtx, next, items, n, q);
      }
      WriteSpan(layers, t, prevKv, correct, prevCtx, items[n]);
      hide Assembled;
      forall q | 0 <= q < |correct|
        ensures layers[..][q] == Assembled(t, prevKv, correct, prevCtx, next, items, n + 1)[q]
      {
        AssembledStep(t, prevKv, correct, prevCtx, next, items, n, q);
      }
    }
    reused := layers[..];
  }

  /** Overwrite the span of one item in place. */
  method WriteSpan(layers: array<Column>, t: Trig, prevKv: seq<Column>, correct: seq<Column>, prevCtx: seq<Segment>,
                   it: Item)
    requires Fits(prevCtx, it) && it.hi <= |correct| == layers.Length
    requires |prevKv| == Offset(prevCtx, |prevCtx|) && forall c :: c in prevKv ==> Even(c)
    requires forall q :: it.lo <= q < it.hi ==> layers[q] == correct[q]
    modifies layers
    ensures forall q :: 0 <= q < layers.Length ==>
              layers[q] == if it.lo <= q < it.hi then Served(t, prevKv, correct, prevCtx, it, q - it.lo)
                           else old(layers[q])
  {
    hide RotColumn, Offset, Even;
    match it.action {
      case Recompute =>
      case ReuseExact(j) =>
        OffsetWithin(prevCtx, j);
        var lo := Offset(prevCtx, j);
        forall q | it.lo <= q < it.hi { layers[q] := prevKv[lo + (q - it.lo)]; }
      case ReuseShifted(j, shift) =>
        OffsetWithin(prevCtx, j);
        var lo := Offset(prevCtx, j);
        forall q | it.lo <= q < it.hi { layers[q] := RotColumn(t, shift, prevKv[lo + (q - it.lo)]); }
    }
  }

  /** No earlier item writes into the span of item n. */
  lemma {:induction false} UntouchedFrom(t: Trig, prevKv: seq<Column>, correct: seq<Column>, prevCtx: seq<Segment>,
                                         next: seq<Segment>,
                                         items: seq<Item>, n: nat, q: nat)
    requires Assemblable(prevKv, correct, prevCtx, next, items) && n <= |items| && q < |correct|
    ensures Offset(next, n) <= q ==> Assembled(t, prevKv, correct, prevCtx, next, items, n)[q] == correct[q]
  {
    hide *;
    if n == 0 {
      NothingAssembled(t, prevKv, correct, prevCtx, next, items);
    } else {
      UntouchedFrom(t, prevKv, correct, prevCtx, next, items, n - 1, q);
      SpanBounds(prevKv, correct, prevCtx, next, items, n - 1, n);
      AssembledStep(t, prevKv, correct, prevCtx, next, items, n - 1, q);
    }
  }

  lemma NothingAssembled(t: Trig, prevKv: seq<Column>, correct: seq<Column>, prevCtx: seq<Segment>,
                         next: seq<Segment>, items: seq<Item>)
    requires Assemblable(prevKv, correct, prevCtx, next, items)
    ensures Assembled(t, prevKv, correct, prevCtx, next, items, 0) == correct
  {}

  /** Spans lie in the order of the items. */
  lemma SpanBounds(prevKv: seq<Column>, correct: seq<Column>, prevCtx: seq<Segment>, next: seq<Segment>,
                   items: seq<Item>, i: nat, n: nat)
    requires Assemblable(prevKv, correct, prevCtx, next, items) && i < n <= |items|
    ensures |items| <= |next| && items[i].lo == Offset(next, i) <= items[i].hi <= Offset(next, n)
    ensures n < |items| ==> items[n].lo == Offset(next, n)
  {
    OffsetMonotone(next, i, i + 1);
    OffsetMonotone(next, i + 1, n);
  }

  lemma {:induction false} AssembledAt(t: Trig, prevKv: seq<Column>, correct: seq<Column>, prevCtx: seq<Segment>,
                                       next: seq<Segment>,
                                       items: seq<Item>, n: nat, i: nat, q: nat)
    requires Assemblable(prevKv, correct, prevCtx, next, items) && i < n <= |items| && items[i].lo <= q < items[i].hi
    ensures Assembled(t, prevKv, correct, prevCtx, next, items, n)[q]
            == Served(t, prevKv, correct, prevCtx, items[i], q - items[i].lo)
  {
    hide Served, Assembled, Offset, Even, Fits;
    AssembledStep(t, prevKv, correct, prevCtx, next, items, n - 1, q);
    if i < n - 1 {
      AssembledAt(t, prevKv, correct, prevCtx, next, items, n - 1, i, q);
      SpanBounds(prevKv, correct, prevCtx, next, items, i, n - 1);
    }
  }

  // ---- what the assembled cache is ---------------------------------------------------------------------

  lemma {:induction false} TokenAt(ctx: seq<Segment>, n: nat, j: nat, k: nat)
    requires j < n <= |ctx| && k < |ctx[j].tokenIds|
    ensures Offset(ctx, j) + k < Offset(ctx, n) && TokensOf(ctx, n)[Offset(ctx, j) + k] == ctx[j].tokenIds[k]
  {
    OffsetMonotone(ctx, j + 1, n);
    if j < n - 1 {
      OffsetMonotone(ctx, j + 1, n - 1);
      TokenAt(ctx, n - 1, j, k);
    }
  }

  /** The position of token k of segment j. */
  function At(ctx: seq<Segment>, j: nat, k: nat): (q: nat)
    requires j < |ctx| && k < |ctx[j].tokenIds|
    ensures q < |Tokens(ctx)| && Tokens(ctx)[q] == ctx[j].tokenIds[k]
  {
    TokenAt(ctx, |ctx|, j, k);
    Offset(ctx, j) + k
  }

  /** The raw column that the model computed for token q of a text. */
  ghost function RawAt<L>(r: Rotary<L>, ids: seq<int>, q: nat): Column
    requires q < |ids|
  {
    r.raw(Prefill(r.m, ids[..q]), q, ids[q])
  }

  lemma PrefillRotated<L(!new)>(r: Rotary<L>, ids: seq<int>, q: nat)
    requires IsRotary(r) && q < |ids|
    ensures Even(RawAt(r, ids, q)) && Prefill(r.m, ids)[q] == RotColumn(r.t, q, RawAt(r, ids, q))
  {
    PrefillAt(r.m, ids, q);
    assert RotaryAt(r, Prefill(r.m, ids[..q]), q, ids[q]);
  }

  lemma PrefillEven<L(!new)>(r: Rotary<L>, ids: seq<int>)
    requires IsRotary(r)
    ensures forall c :: c in Prefill(r.m, ids) ==> Even(c)
  {
    forall q | 0 <= q < |ids| ensures Even(Prefill(r.m, ids)[q]) {
      PrefillRotated(r, ids, q);
    }
  }

  lemma PlanIsAssemblable<L(!new)>(r: Rotary<L>, hash: ContentHash, prev: seq<Segment>, next: seq<Segment>,
                                   selective: bool, p: nat, plan: Plan)
    requires IsRotary(r) && PlanFor(hash, prev, next, selective, p, plan) && CollisionFree(hash, prev, next)
    ensures Assemblable(Prefill(r.m, Tokens(prev)), Prefill(r.m, Tokens(next)), prev, next, plan.items)
  {
    hide IsRotary, Prefill, TokensOf, Offset;
    PrefillEven(r, Tokens(prev));
    forall i | 0 <= i < |plan.items| ensures Fits(prev, plan.items[i]) && plan.items[i].hi <= |Tokens(next)| {
      PlannedItem(hash, prev, next, selective, p, plan, i);
      OffsetWithin(next, i);
    }
  }

  /** Where an item is not a shifted reuse, the assembled cache is the full prefill of the new context. */
  lemma ExactOutsideShifted<L(!new)>(r: Rotary<L>, hash: ContentHash, prev: seq<Segment>, next: seq<Segment>,
                                     selective: bool,
                                     p: nat, plan: Plan, i: nat, k: nat)
    requires IsRotary(r) && PlanFor(hash, prev, next, selective, p, plan) && CollisionFree(hash, prev, next)
    requires Assemblable(Prefill(r.m, Tokens(prev)), Prefill(r.m, Tokens(next)), prev, next, plan.items)
    requires i < |plan.items| && k < |next[i].tokenIds| && !plan.items[i].action.ReuseShifted?
    ensures var before, after := Prefill(r.m, Tokens(prev)), Prefill(r.m, Tokens(next));
            var assembled := Assembled(r.t, before, after, prev, next, plan.items, |next|);
            assembled[At(next, i, k)] == after[At(next, i, k)]
  {
    hide IsRotary, Assembled, Prefill, TokensOf, Offset, IsCommonPrefix, GoodItems;
    var was, cor := Prefill(r.m, Tokens(prev)), Prefill(r.m, Tokens(next));
    var q := At(next, i, k);
    PlannedItem(hash, prev, next, selective, p, plan, i);
    AssembledAt(r.t, was, cor, prev, next, plan.items, |next|, i, q);
    if plan.items[i].action.ReuseExact? {
      SamePrefixColumns(r.m, hash, prev, next, p, i, k);
    }
  }

  /** Inside the common prefix the two prefills have the same columns at the same places. */
  lemma SamePrefixColumns<L>(m: Model<Column, L>, hash: ContentHash, prev: seq<Segment>, next: seq<Segment>, p: nat,
                             i: nat, k: nat)
    requires CollisionFree(hash, prev, next) && IsCommonPrefix(hash, prev, next, p) && i < p
    requires k < |next[i].tokenIds| && |prev[i].tokenIds| == |next[i].tokenIds|
    ensures At(prev, i, k) == At(next, i, k)
            && Prefill(m, Tokens(prev))[At(prev, i, k)] == Prefill(m, Tokens(next))[At(next, i, k)]
  {
    hide CollisionFree, Prefill;
    SharedUpTo(hash, prev, next, p, i);
    SharedTokens(hash, prev, next, p);
    OffsetMonotone(next, i + 1, p);
    var cut := Offset(next, p);
    TruncatePrefill(m, Tokens(prev), cut);
    TruncatePrefill(m, Tokens(next), cut);
    var q := At(next, i, k);
    assert Prefill(m, Tokens(prev))[q] == Prefill(m, Tokens(prev))[..cut][q];
    assert Prefill(m, Tokens(next))[q] == Prefill(m, Tokens(next))[..cut][q];
  }

  /** Inside a shifted reuse every column is the previous context's raw column for the same token,
      with its values untouched and its keys rotated to exactly the new position. */
  lemma ShiftedIsRephased<L(!new)>(r: Rotary<L>, hash: ContentHash, prev: seq<Segment>, next: seq<Segment>,
                                   selective: bool,
                                   p: nat, plan: Plan, i: nat, k: nat)
    requires IsRotary(r) && PlanFor(hash, prev, next, selective, p, plan) && CollisionFree(hash, prev, next)
    requires Assemblable(Prefill(r.m, Tokens(prev)), Prefill(r.m, Tokens(next)), prev, next, plan.items)
    requires i < |plan.items| && k < |next[i].tokenIds| && plan.items[i].action.ReuseShifted?
    ensures var j := plan.items[i].action.prevIndex;
            && j < |prev| && prev[j].tokenIds == next[i].tokenIds
            && Even(RawAt(r, Tokens(prev), At(prev, j, k)))
            && var before, after := Prefill(r.m, Tokens(prev)), Prefill(r.m, Tokens(next));
               var assembled := Assembled(r.t, before, after, prev, next, plan.items, |next|);
               Rephased(r.t, At(next, i, k), RawAt(r, Tokens(prev), At(prev, j, k)), assembled[At(next, i, k)])
  {
    hide Assembled, Prefill, TokensOf, RotColumn, RawAt, Offset, PlanFor, CollisionFree, IsCommonPrefix, Even, Rephased,
        AngleAddition;
    var was, cor := Prefill(r.m, Tokens(prev)), Prefill(r.m, Tokens(next));
    var q := At(next, i, k);
    PlannedItem(hash, prev, next, selective, p, plan, i);
    var j := plan.items[i].action.prevIndex;
    AssembledAt(r.t, was, cor, prev, next, plan.items, |next|, i, q);
    PrefillRotated(r, Tokens(prev), At(prev, j, k));
    assert AngleAddition(r.t);
    hide IsRotary;
    RotColumnCompose(r.t, plan.items[i].action.shift, At(prev, j, k), RawAt(r, Tokens(prev), At(prev, j, k)));
    RotColumnRephases(r.t, At(next, i, k), RawAt(r, Tokens(prev), At(prev, j, k)));
  }
}
