/**
 Recompute planning over segmented contexts: which segments of the new context reuse the cached
 keys and values of the previous one exactly, which are shifted copies, and which must be run.
 */
module SegmentPlan {
  import opened Wrappers

  datatype Segment = Segment(name: string, tokenIds: seq<int>, role: string)

  /** Token sequences to content ids. */
  type ContentHash = seq<int> -> string

  /** Tokens of the first i segments; Offset(ctx, i) is where segment i starts. */
  function Offset(ctx: seq<Segment>, i: nat): nat
    requires i <= |ctx|
  {
    if i == 0 then 0 else Offset(ctx, i - 1) + |ctx[i - 1].tokenIds|
  }

  function TokensOf(ctx: seq<Segment>, i: nat): (ts: seq<int>)
    requires i <= |ctx|
    ensures |ts| == Offset(ctx, i)
  {
    if i == 0 then [] else TokensOf(ctx, i - 1) + ctx[i - 1].tokenIds
  }

  function Tokens(ctx: seq<Segment>): (ts: seq<int>)
    ensures |ts| == Offset(ctx, |ctx|)
  {
    TokensOf(ctx, |ctx|)
  }

  datatype Action =
    | ReuseExact(prevIndex: nat)
    | ReuseShifted(prevIndex: nat, shift: int)
    | Recompute

  datatype Item = Item(index: nat, action: Action, segment: Segment, lo: nat, hi: nat)

  datatype Plan = Plan(items: seq<Item>, totalTokens: nat, exact: bool)

  function ReusedExactTokens(items: seq<Item>): nat {
    if items == [] then 0 else
      var it := items[|items| - 1];
      ReusedExactTokens(items[..|items| - 1]) + if it.action.ReuseExact? then |it.segment.tokenIds| else 0
  }

  /** Equal content ids mean equal tokens, for the segments at hand. */
  ghost predicate CollisionFree(hash: ContentHash, prev: seq<Segment>, next: seq<Segment>) {
    forall i, j :: 0 <= i < |prev| && 0 <= j < |next| && hash(prev[i].tokenIds) == hash(next[j].tokenIds) ==>
      prev[i].tokenIds == next[j].tokenIds
  }

  /** p leading segments agree in content, and no more do. */
  ghost predicate IsCommonPrefix(hash: ContentHash, prev: seq<Segment>, next: seq<Segment>, p: nat) {
    && p <= |prev| && p <= |next|
    && (forall i :: 0 <= i < p ==> hash(prev[i].tokenIds) == hash(next[i].tokenIds))
    && (p < |prev| && p < |next| ==> hash(prev[p].tokenIds) != hash(next[p].tokenIds))
  }

  method CommonPrefixLen(hash: ContentHash, prev: seq<Segment>, next: seq<Segment>) returns (n: nat)
    ensures IsCommonPrefix(hash, prev, next, n)
  {
    n := 0;
    while n < |prev| && n < |next|
      invariant n <= |prev| && n <= |next|
      invariant forall i :: 0 <= i < n ==> hash(prev[i].tokenIds) == hash(next[i].tokenIds)
    {
      if hash(prev[n].tokenIds) != hash(next[n].tokenIds) { break; }
      n := n + 1;
    }
  }

  // ---- what a correct plan is -----------------------------------------------------------------

  function ContentIds(hash: ContentHash, ctx: seq<Segment>): (ids: seq<string>)
    ensures |ids| == |ctx| && forall i :: 0 <= i < |ctx| ==> ids[i] == hash(ctx[i].tokenIds)
  {
    seq(|ctx|, i requires 0 <= i < |ctx| => hash(ctx[i].tokenIds))
  }

  /** The items list the new segments in order and their spans tile [0, total). */
  ghost predicate Tiles(next: seq<Segment>, items: seq<Item>) {
    && |items| <= |next|
    && forall i :: 0 <= i < |items| ==>
         && items[i].index == i && items[i].segment == next[i]
         && items[i].lo == Offset(next, i) && items[i].hi == Offset(next, i + 1)
  }

  /** Previous segments that the items serve shifted. */
  ghost function Taken(items: seq<Item>): (js: set<nat>)
    ensures forall i :: 0 <= i < |items| && items[i].action.ReuseShifted? ==> items[i].action.prevIndex in js
  {
    if items == [] then {} else
      var k := |items| - 1;
      Taken(items[..k]) + if items[k].action.ReuseShifted? then {items[k].action.prevIndex} else {}
  }

  /** The decision for new segment i, when the segments in taken are gone already. Before p segments
      are kept exactly; behind, a selective plan serves the first equal segment not taken yet, and
      recomputes only when there is none; an exact plan recomputes. */
  ghost predicate GoodAction(prev: seq<string>, next: seq<string>, p: nat, selective: bool, taken: set<nat>, i: nat,
                             a: Action)
    requires i < |next|
  {
    if i < p then a == ReuseExact(i)
    else match a
      case ReuseExact(_) => false
      case ReuseShifted(j, _) =>
        && selective && p <= j < |prev| && prev[j] == next[i] && j !in taken
        && forall k :: p <= k < j && prev[k] == next[i] ==> k in taken
      case Recompute =>
        selective ==> forall k :: p <= k < |prev| && prev[k] == next[i] ==> k in taken
  }

  ghost predicate GoodItem(hash: ContentHash, prev: seq<Segment>, next: seq<Segment>, p: nat, selective: bool,
                           before: seq<Item>, item: Item)
    requires |before| < |next|
  {
    && GoodAction(ContentIds(hash, prev), ContentIds(hash, next), p, selective, Taken(before), |before|, item.action)
    && (item.action.ReuseShifted? && item.action.prevIndex < |prev| ==>
          item.action.shift == Offset(next, |before|) - Offset(prev, item.action.prevIndex))
  }

  ghost predicate GoodItems(hash: ContentHash, prev: seq<Segment>, next: seq<Segment>, p: nat, selective: bool,
                            items: seq<Item>) {
    && Tiles(next, items)
    && forall i :: 0 <= i < |items| ==> GoodItem(hash, prev, next, p, selective, items[..i], items[i])
  }

  ghost predicate PlanFor(hash: ContentHash, prev: seq<Segment>, next: seq<Segment>, selective: bool, p: nat,
                          plan: Plan) {
    && IsCommonPrefix(hash, prev, next, p)
    && GoodItems(hash, prev, next, p, selective, plan.items) && |plan.items| == |next|
    && plan.totalTokens == |Tokens(next)|
  }

  /** Each previous segment is reused at most once, and equal contents are matched in order. */
  lemma ReusedOnce(hash: ContentHash, prev: seq<Segment>, next: seq<Segment>, p: nat, selective: bool,
                   items: seq<Item>, i: nat, k: nat)
    requires GoodItems(hash, prev, next, p, selective, items) && i < k < |items|
    requires items[i].action.ReuseShifted? && items[k].action.ReuseShifted?
    ensures items[i].action.prevIndex != items[k].action.prevIndex
    ensures hash(next[i].tokenIds) == hash(next[k].tokenIds) ==> items[i].action.prevIndex < items[k].action.prevIndex
  {
    hide Offset, Taken;
    assert GoodItem(hash, prev, next, p, selective, items[..i], items[i]);
    assert GoodItem(hash, prev, next, p, selective, items[..k], items[k]);
    TakenUpTo(items, i, k);
  }

  lemma TakenUpTo(items: seq<Item>, i: nat, k: nat)
    requires i < k <= |items|
    ensures Taken(items[..i]) <= Taken(items[..k])
    ensures items[i].action.ReuseShifted? ==> items[i].action.prevIndex in Taken(items[..k])
  {
    assert items[..k][i] == items[i];
    TakenGrows(items[..k], i);
    assert items[..k][..i] == items[..i];
  }

  lemma {:induction false} TakenGrows(items: seq<Item>, i: nat)
    requires i <= |items|
    ensures Taken(items[..i]) <= Taken(items)
  {
    if i < |items| {
      var k := |items| - 1;
      TakenGrows(items[..k], i);
      assert items[..k][..i] == items[..i];
    } else {
      assert items[..i] == items;
    }
  }

  /** What a plan says about one segment of the new context. */
  lemma PlannedItem(hash: ContentHash, prev: seq<Segment>, next: seq<Segment>, selective: bool, p: nat, plan: Plan,
                    i: nat)
    requires PlanFor(hash, prev, next, selective, p, plan) && CollisionFree(hash, prev, next) && i < |next|
    ensures |plan.items| == |next|
    ensures var it := plan.items[i];
            && it.lo == Offset(next, i) && it.hi == it.lo + |next[i].tokenIds|
            && (it.action.ReuseExact? ==>
                it.action.prevIndex == i < p <= |prev| && prev[i].tokenIds == next[i].tokenIds)
            && (it.action.ReuseShifted? ==>
                  && it.action.prevIndex < |prev| && prev[it.action.prevIndex].tokenIds == next[i].tokenIds
                  && it.action.shift == Offset(next, i) - Offset(prev, it.action.prevIndex))
  {
    hide Taken;
    assert Offset(next, i + 1) == Offset(next, i) + |next[i].tokenIds|;
    hide Offset;
    assert GoodItem(hash, prev, next, p, selective, plan.items[..i], plan.items[i]);
  }

  /** The exact reuse of a plan is exactly the common prefix. */
  lemma PlanReuse(hash: ContentHash, prev: seq<Segment>, next: seq<Segment>, selective: bool, p: nat, plan: Plan)
    requires PlanFor(hash, prev, next, selective, p, plan)
    ensures IsCommonPrefix(hash, prev, next, p) && ReusedExactTokens(plan.items) == Offset(next, p)
  {
    var items := plan.items;
    forall i | 0 <= i < |items| ensures items[i].action.ReuseExact? <==> i < p {
      assert GoodItem(hash, prev, next, p, selective, items[..i], items[i]);
    }
    ReusedUpTo(next, items, p);
  }

  lemma {:induction false} ReusedUpTo(next: seq<Segment>, items: seq<Item>, p: nat)
    requires p <= |next| && |items| <= |next|
    requires forall i :: 0 <= i < |items| ==>
               items[i].segment == next[i] && (items[i].action.ReuseExact? <==> i < p)
    ensures ReusedExactTokens(items) == Offset(next, if |items| < p then |items| else p)
  {
    if items != [] { ReusedUpTo(next, items[..|items| - 1], p); }
  }

  // ---- the planner --------------------------------------------------------------------------------

  /** content id -> previous segments behind the prefix that nobody has taken yet, in order. */
  type Pool = map<string, seq<nat>>

  function Get(pool: Pool, id: string): seq<nat> {
    if id in pool then pool[id] else []
  }

  /** The pool lists, per content id, the segments of [p, q) that are not taken, in order. */
  ghost predicate PoolIs(prev: seq<string>, p: nat, q: nat, taken: set<nat>, pool: Pool)
    requires q <= |prev|
  {
    && (forall id, a, b :: 0 <= a < b < |Get(pool, id)| ==> Get(pool, id)[a] < Get(pool, id)[b])
    && (forall id, j: nat {:trigger j in Get(pool, id)} :: j in Get(pool, id) <==>
        p <= j < q && prev[j] == id && j !in taken)
  }

  method BuildPool(prev: seq<string>, p: nat) returns (pool: Pool)
    requires p <= |prev|
    ensures PoolIs(prev, p, |prev|, {}, pool)
  {
    pool := map[];
    assert forall id :: Get(pool, id) == [];
    for j := p to |prev|
      invariant PoolIs(prev, p, j, {}, pool)
    {
      PoolPut(prev, p, j, pool);
      pool := pool[prev[j] := Get(pool, prev[j]) + [j]];
    }
  }

  lemma PoolPut(prev: seq<string>, p: nat, j: nat, pool: Pool)
    requires p <= j < |prev| && PoolIs(prev, p, j, {}, pool)
    ensures PoolIs(prev, p, j + 1, {}, pool[prev[j] := Get(pool, prev[j]) + [j]])
  {
    var pool' := pool[prev[j] := Get(pool, prev[j]) + [j]];
    forall id, k: nat {:trigger k in Get(pool', id)}
      ensures k in Get(pool', id) <==> p <= k < j + 1 && prev[k] == id && k !in {}
    {
      assert id != prev[j] ==> Get(pool', id) == Get(pool, id);
      assert k in Get(pool, prev[j]) + [j] <==> k in Get(pool, prev[j]) || k == j;
      assert k in Get(pool, id) <==> p <= k < j && prev[k] == id;
    }
    forall id, a, b | 0 <= a < b < |Get(pool', id)| ensures Get(pool', id)[a] < Get(pool', id)[b] {
      assert id != prev[j] ==> Get(pool', id) == Get(pool, id);
      assert id == prev[j] ==> Get(pool', id)[a] in Get(pool, id);
    }
  }

  /** Taking the head of a content's list takes the first untaken segment of that content. */
  lemma PoolTake(prev: seq<string>, p: nat, taken: set<nat>, pool: Pool, id: string)
    requires PoolIs(prev, p, |prev|, taken, pool) && Get(pool, id) != []
    ensures var j := Get(pool, id)[0];
            && p <= j < |prev| && prev[j] == id && j !in taken
            && (forall k :: p <= k < j && prev[k] == id ==> k in taken)
            && PoolIs(prev, p, |prev|, taken + {j}, pool[id := Get(pool, id)[1..]])
  {
    var list := Get(pool, id);
    var j := list[0];
    assert j in list;
    assert forall k :: p <= k < j && prev[k] == id && k !in taken ==> k in list;
    assert forall k :: k in list ==> j <= k;
    PoolDrop(prev, p, taken, pool, id);
  }

  lemma PoolDrop(prev: seq<string>, p: nat, taken: set<nat>, pool: Pool, id: string)
    requires p <= |prev| && PoolIs(prev, p, |prev|, taken, pool) && Get(pool, id) != []
    ensures PoolIs(prev, p, |prev|, taken + {Get(pool, id)[0]}, pool[id := Get(pool, id)[1..]])
  {
    var list := Get(pool, id);
    var j := list[0];
    var pool' := pool[id := list[1..]];
    assert j in list;
    assert list == [j] + list[1..];
    forall id', k: nat {:trigger k in Get(pool', id')}
      ensures k in Get(pool', id') <==> p <= k < |prev| && prev[k] == id' && k !in taken + {j}
    {
      assert id' != id ==> Get(pool', id') == Get(pool, id');
      assert k in list[1..] <==> k in list && k != j;
      assert k in Get(pool, id') <==> p <= k < |prev| && prev[k] == id' && k !in taken;
    }
    forall id', a, b | 0 <= a < b < |Get(pool', id')| ensures Get(pool', id')[a] < Get(pool', id')[b] {
      assert id' != id ==> Get(pool', id') == Get(pool, id');
    }
  }

  method PlanIncremental(hash: ContentHash, prev: Option<seq<Segment>>, next: seq<Segment>, mode: string)
    returns (r: Result<Plan, string>, ghost p: nat)
    ensures r.Err? <==> mode != "exact" && mode != "selective"
    ensures r.Ok? && prev.None? ==>
              && Tiles(next, r.value.items) && |r.value.items| == |next|
              && r.value.totalTokens == |Tokens(next)|
              && forall i :: 0 <= i < |next| ==> r.value.items[i].action.Recompute?
    ensures r.Ok? && prev.Some? ==> PlanFor(hash, prev.value, next, mode == "selective", p, r.value)
    ensures r.Ok? ==> (r.value.exact <==> Taken(r.value.items) == {})
    ensures r.Ok? && mode == "exact" ==> r.value.exact
  {
    hide PoolIs, Offset;
    p := 0;
    if mode != "exact" && mode != "selective" { return Err("unknown mode"), 0; }
    if prev.None? {
      var items := PlanCold(next);
      NothingTaken(items);
      return Ok(Plan(items, |Tokens(next)|, true)), 0;
    }
    var selective := mode == "selective";
    var prefix := CommonPrefixLen(hash, prev.value, next);
    p := prefix;
    var prevIds, nextIds := ContentIds(hash, prev.value), ContentIds(hash, next);
    var pool := BuildPool(prevIds, prefix);
    var items: seq<Item> := [];
    var exact := true;
    for i := 0 to |next|
      invariant |items| == i
      invariant GoodItems(hash, prev.value, next, prefix, selective, items)
      invariant PoolIs(prevIds, prefix, |prevIds|, Taken(items), pool)
      invariant exact <==> Taken(items) == {}
      invariant !selective ==> exact
    {
      var item;
      item, pool := PlanOne(hash, prev.value, next, prefix, selective, items, pool);
      if item.action.ReuseShifted? { exact := false; }
      items := items + [item];
    }
    r := Ok(Plan(items, |Tokens(next)|, exact));
  }

  /** The decision for the next segment. */
  method PlanOne(hash: ContentHash, prev: seq<Segment>, next: seq<Segment>, p: nat, selective: bool, items: seq<Item>,
                 pool: Pool)
    returns (item: Item, pool': Pool)
    requires |items| < |next| && GoodItems(hash, prev, next, p, selective, items)
    requires p <= |prev| && PoolIs(ContentIds(hash, prev), p, |prev|, Taken(items), pool)
    ensures GoodItems(hash, prev, next, p, selective, items + [item])
    ensures PoolIs(ContentIds(hash, prev), p, |prev|, Taken(items + [item]), pool')
    ensures item.action.ReuseShifted? ==> selective && Taken(items + [item]) != {}
    ensures !item.action.ReuseShifted? ==> Taken(items + [item]) == Taken(items)
  {
    hide Offset, PoolIs, Tiles, GoodItems;
    var i := |items|;
    var id := hash(next[i].tokenIds);
    var action := Recompute;
    pool' := pool;
    if i < p {
      action := ReuseExact(i);
    } else if selective && Get(pool, id) != [] {
      var j := Get(pool, id)[0];
      PoolTake(ContentIds(hash, prev), p, Taken(items), pool, id);
      pool' := pool[id := Get(pool, id)[1..]];
      action := ReuseShifted(j, Offset(next, i) - Offset(prev, j));
    } else {
      PoolEmpty(ContentIds(hash, prev), p, Taken(items), pool, id);
    }
    item := Item(i, action, next[i], Offset(next, i), Offset(next, i + 1));
    assert (items + [item])[..i] == items;
    GrowItems(hash, prev, next, p, selective, items, item);
    assert Taken(items + [item]) == Taken(items) + if action.ReuseShifted? then {action.prevIndex} else {};
    assert !action.ReuseShifted? ==> Taken(items + [item]) == Taken(items);
  }

  lemma PoolEmpty(prev: seq<string>, p: nat, taken: set<nat>, pool: Pool, id: string)
    requires p <= |prev| && PoolIs(prev, p, |prev|, taken, pool)
    ensures Get(pool, id) == [] ==> forall k :: p <= k < |prev| && prev[k] == id ==> k in taken
  {
    assert Get(pool, id) == [] ==> forall k :: p <= k < |prev| && prev[k] == id && k !in taken ==> k in Get(pool, id);
  }

  lemma GrowItems(hash: ContentHash, prev: seq<Segment>, next: seq<Segment>, p: nat, selective: bool,
                  before: seq<Item>, item: Item)
    requires |before| < |next| && GoodItems(hash, prev, next, p, selective, before)
    requires GoodItem(hash, prev, next, p, selective, before, item)
    requires item.index == |before| && item.segment == next[|before|]
    requires item.lo == Offset(next, |before|) && item.hi == Offset(next, |before| + 1)
    ensures GoodItems(hash, prev, next, p, selective, before + [item])
  {
    hide GoodItem, Offset;
    var items := before + [item];
    forall i | 0 <= i < |items| ensures GoodItem(hash, prev, next, p, selective, items[..i], items[i]) {
      assert items[..i] == before[..i];
      assert before[..|before|] == before;
    }
  }

  method PlanCold(next: seq<Segment>) returns (items: seq<Item>)
    ensures Tiles(next, items) && |items| == |next|
    ensures forall i :: 0 <= i < |next| ==> items[i].action.Recompute?
  {
    hide Offset;
    items := [];
    for i := 0 to |next|
      invariant Tiles(next, items) && |items| == i
      invariant forall k :: 0 <= k < i ==> items[k].action.Recompute?
    {
      items := items + [Item(i, Recompute, next[i], Offset(next, i), Offset(next, i + 1))];
    }
  }

  lemma {:induction false} NothingTaken(items: seq<Item>)
    requires forall i :: 0 <= i < |items| ==> !items[i].action.ReuseShifted?
    ensures Taken(items) == {}
  {
    if items != [] { NothingTaken(items[..|items| - 1]); }
  }
}
