/**
 Block-granular prefix reuse: a request is cut into blocks, each block is keyed by the hash of everything up to its
 end, and the leading blocks found in the store are loaded instead of recomputed.
 */
module PrefixReuse {
  import opened Arith

  type Key = string

  /** The request in blocks of the given size, the last one possibly shorter. */
  function Chunks(s: seq<int>, size: nat): (r: seq<seq<int>>)
    requires size > 0
    ensures s != [] ==> r != [] && r[0] == s[..Min(size, |s|)] && r[1..] == Chunks(s[Min(size, |s|)..], size)
  {
    if s == [] then [] else [s[..Min(size, |s|)]] + Chunks(s[Min(size, |s|)..], size)
  }

  /** p ends where one of the blocks of r ends. */
  predicate Boundary(p: seq<int>, r: seq<int>, size: nat)
    requires size > 0
  {
    p != [] && p <= r && (|p| % size == 0 || p == r)
  }

  ghost predicate Seen(requests: seq<seq<int>>, size: nat, p: seq<int>)
    requires size > 0
  {
    exists j :: 0 <= j < |requests| && Boundary(p, requests[j], size)
  }

  /** The prefixes that these requests are keyed by have different hashes. */
  ghost predicate CollisionFree(hash: seq<int> -> Key, size: nat, requests: seq<seq<int>>)
    requires size > 0
  {
    forall p, q {:trigger hash(p), hash(q)} ::
      Seen(requests, size, p) && Seen(requests, size, q) && hash(p) == hash(q) ==> p == q
  }

  /** What recomputing the block that ends prefix p stores: its tokens at their absolute position. */
  function BlockKv<KV>(prefill: (seq<int>, nat) -> KV, size: nat, p: seq<int>): KV
    requires size > 0 && p != []
  {
    var start := BlockStart(|p|, size);
    prefill(p[start..], start)
  }

  /** The end of a block determines where it starts, whichever request it is part of. */
  function BlockStart(end: nat, size: nat): (r: nat)
    requires size > 0 && end > 0
    ensures r < end && r % size == 0 && end <= r + size
  {
    var q := (end - 1) / size;
    MultipleBelow(end, size, q);
    q * size
  }

  lemma SameStart(start: nat, end: nat, size: nat)
    requires size > 0 && start % size == 0 && start < end <= start + size
    ensures BlockStart(end, size) == start
  {
    DivModSplit(start, size);
    DivModUnique(end - 1, start / size, end - 1 - start, size);
  }

  /** Moving past one block adds exactly one keyed prefix. */
  lemma Advance(served: seq<seq<int>>, r: seq<int>, o: nat, e: nat, size: nat, p: seq<int>)
    requires size > 0 && o < e <= |r| && o % size == 0 && e == Min(o + size, |r|)
    ensures Seen(served + [r[..e]], size, p) <==> Seen(served + [r[..o]], size, p) || p == r[..e]
  {
    hide Seen, Boundary;
    SeenLast(served, r[..e], size, p);
    SeenLast(served, r[..o], size, p);
    NextBoundary(r, o, e, size, p);
  }

  lemma NextBoundary(r: seq<int>, o: nat, e: nat, size: nat, p: seq<int>)
    requires size > 0 && o < e <= |r| && o % size == 0 && e == Min(o + size, |r|)
    ensures Boundary(p, r[..e], size) <==> Boundary(p, r[..o], size) || p == r[..e]
    ensures Boundary(p, r, size) && |p| < e ==> |p| <= o
    ensures Boundary(r[..e], r, size)
  {
    if p != [] && |p| < e && |p| % size == 0 { NoneBetween(o, |p|, size); }
    if e == o + size { DivModSplit(o, size); DivModUnique(e, o / size + 1, 0, size); }
    assert p <= r[..o] ==> p <= r[..e];
    assert p <= r[..e] && |p| <= o ==> p <= r[..o];
  }

  lemma NoneBetween(o: nat, n: nat, size: nat)
    requires size > 0 && o % size == 0 && n % size == 0 && n < o + size
    ensures n <= o
  {
    DivModSplit(o, size);
    DivModSplit(n, size);
    MulLe(o / size + 1, n / size, size);
  }

  lemma SeenLast(served: seq<seq<int>>, r: seq<int>, size: nat, p: seq<int>)
    requires size > 0
    ensures Seen(served + [r], size, p) <==> Seen(served, size, p) || Boundary(p, r, size)
  {
    var all := served + [r];
    if Seen(served, size, p) {
      var j :| 0 <= j < |served| && Boundary(p, served[j], size);
      assert all[j] == served[j];
    }
    assert all[|served|] == r;
  }

  /** A boundary prefix of a request that another request also reaches is a boundary prefix there too. */
  lemma SharedBoundary(requests: seq<seq<int>>, r: seq<int>, size: nat, q: seq<int>, p: seq<int>)
    requires size > 0 && Boundary(q, r, size) && Boundary(p, r, size) && |q| <= |p| && Seen(requests, size, p)
    ensures Seen(requests, size, q)
  {
    var j :| 0 <= j < |requests| && Boundary(p, requests[j], size);
    if |q| == |p| {
      assert q == p;
    } else {
      assert q == r[..|q|] == p[..|q|];
      assert Boundary(q, requests[j], size);
    }
  }

  /** How much of r is covered by boundary prefixes that were seen: none is longer. */
  ghost predicate LongestSeen(served: seq<seq<int>>, size: nat, r: seq<int>, n: nat)
    requires size > 0
  {
    && n <= |r|
    && (n > 0 ==> Boundary(r[..n], r, size) && Seen(served, size, r[..n]))
    && forall p :: Boundary(p, r, size) && Seen(served, size, p) ==> |p| <= n
  }

  /** The store holds nothing but keyed prefixes of the requests, each with what recomputing it gives. */
  ghost predicate Sound<KV>(hash: seq<int> -> Key, prefill: (seq<int>, nat) -> KV, size: nat,
                            store: map<Key, KV>, origin: map<Key, seq<int>>, requests: seq<seq<int>>)
    requires size > 0
  {
    forall k :: k in store ==>
      k in origin && hash(origin[k]) == k && Seen(requests, size, origin[k]) && origin[k] != [] &&
      store[k] == BlockKv(prefill, size, origin[k])
  }

  /** The store holds every keyed prefix of the requests. */
  ghost predicate Complete<KV>(hash: seq<int> -> Key, size: nat, store: map<Key, KV>, requests: seq<seq<int>>)
    requires size > 0
  {
    forall p {:trigger hash(p)} :: Seen(requests, size, p) ==> hash(p) in store
  }

  lemma FewerRequests(hash: seq<int> -> Key, size: nat, served: seq<seq<int>>, r: seq<int>, o: nat)
    requires size > 0 && o <= |r| && CollisionFree(hash, size, served + [r]) && (o == 0 || Boundary(r[..o], r, size))
    ensures CollisionFree(hash, size, served + [r[..o]])
    ensures CollisionFree(hash, size, served)
  {
    forall p ensures Seen(served + [r[..o]], size, p) ==> Seen(served + [r], size, p)
             ensures Seen(served, size, p) ==> Seen(served + [r[..o]], size, p)
    {
      SeenLast(served, r[..o], size, p);
      SeenLast(served, r, size, p);
    }
  }

  /** A key that is found stands for this very prefix, so its entry is what recomputing would store. */
  lemma HitIsRecompute<KV>(hash: seq<int> -> Key, prefill: (seq<int>, nat) -> KV, size: nat, store: map<Key, KV>,
                           origin: map<Key, seq<int>>, served: seq<seq<int>>, r: seq<int>, o: nat, e: nat)
    requires size > 0 && o < e <= |r| && o % size == 0 && e == Min(o + size, |r|)
    requires CollisionFree(hash, size, served + [r[..e]])
    requires Sound(hash, prefill, size, store, origin, served + [r[..o]]) && hash(r[..e]) in store
    ensures store[hash(r[..e])] == BlockKv(prefill, size, r[..e]) && Seen(served, size, r[..e])
  {
    var p := origin[hash(r[..e])];
    Advance(served, r, o, e, size, p);
    Advance(served, r, o, e, size, r[..e]);
    assert p == r[..e];
    SeenLast(served, r[..o], size, p);
  }

  /** The no-cache baseline: every block computed at its own position. */
  function FreshKvs<KV>(prefill: (seq<int>, nat) -> KV, size: nat, r: seq<int>, o: nat): seq<KV>
    requires size > 0 && o <= |r|
    decreases |r| - o
  {
    if o == |r| then [] else
      var e := Min(o + size, |r|);
      [prefill(r[o..e], o)] + FreshKvs(prefill, size, r, e)
  }

  /** One block served and some entries lost: the store stays sound, and complete if none was lost. */
  lemma BlockKeeps<KV>(hash: seq<int> -> Key, prefill: (seq<int>, nat) -> KV, size: nat, store: map<Key, KV>,
                       origin: map<Key, seq<int>>, served: seq<seq<int>>, r: seq<int>, o: nat, e: nat,
                       store2: map<Key, KV>, origin2: map<Key, seq<int>>, drop: set<Key>)
    requires size > 0 && o < e <= |r| && o % size == 0 && e == Min(o + size, |r|)
    requires Sound(hash, prefill, size, store, origin, served + [r[..o]])
    requires var k := hash(r[..e]);
             && store2 == (if k in store then store else store[k := prefill(r[o..e], o)])
             && origin2 == (if k in store then origin else origin[k := r[..e]])
    ensures Sound(hash, prefill, size, store2 - drop, origin2, served + [r[..e]])
    ensures drop == {} && Complete(hash, size, store, served + [r[..o]]) ==>
              Complete(hash, size, store2 - drop, served + [r[..e]])
  {
    hide Seen;
    SameStart(o, e, size);
    assert r[..e][o..] == r[o..e];
    forall k | k in store2 - drop
      ensures k in origin2 && hash(origin2[k]) == k && Seen(served + [r[..e]], size, origin2[k]) && origin2[k] != []
      ensures store2[k] == BlockKv(prefill, size, origin2[k])
    {
      Advance(served, r, o, e, size, origin2[k]);
    }
    if drop == {} && Complete(hash, size, store, served + [r[..o]]) {
      forall p | Seen(served + [r[..e]], size, p) ensures hash(p) in store2 {
        Advance(served, r, o, e, size, p);
      }
    }
  }

  /** A miss in a store that lost nothing means that nothing longer was seen. */
  lemma MissIsLongest(hash: seq<int> -> Key, size: nat, keys: set<Key>, served: seq<seq<int>>, r: seq<int>, o: nat,
                      e: nat)
    requires size > 0 && o < e <= |r| && o % size == 0 && e == Min(o + size, |r|)
    requires forall p {:trigger hash(p)} :: Seen(served, size, p) ==> hash(p) in keys
    requires hash(r[..e]) !in keys
    requires o > 0 ==> Boundary(r[..o], r, size) && Seen(served, size, r[..o])
    ensures LongestSeen(served, size, r, o)
  {
    hide Seen;
    forall p | Boundary(p, r, size) && Seen(served, size, p) ensures |p| <= o {
      NextBoundary(r, o, e, size, p);
      if |p| >= e {
        SharedBoundary(served, r, size, r[..e], p);
      }
    }
  }

  datatype RequestResult = RequestResult(tokens: nat, blocks: nat, reusedTokens: nat, recomputedTokens: nat,
                                         reusedBlocks: nat, recomputedBlocks: nat)

  class LMCacheStrategy<KV> {
    const blockSize: nat
    const hash: seq<int> -> Key
    const prefill: (seq<int>, nat) -> KV
    var store: map<Key, KV>
    var results: seq<RequestResult>
    var totalTokens: nat
    var reusedTokens: nat
    var recomputedTokens: nat
    /** Every request so far, the prefix each key was stored for, and whether the store ever lost an entry. */
    ghost var served: seq<seq<int>>
    ghost var origin: map<Key, seq<int>>
    ghost var lossy: bool

    ghost predicate Valid()
      reads this
    {
      && blockSize > 0
      && |results| == |served|
      && totalTokens == reusedTokens + recomputedTokens
      && Sound(hash, prefill, blockSize, store, origin, served)
      && (!lossy ==> Complete(hash, blockSize, store, served))
    }

    constructor (blockSize: nat, hash: seq<int> -> Key, prefill: (seq<int>, nat) -> KV)
      requires blockSize > 0
      ensures Valid() && served == [] && !lossy && store == map[]
      ensures this.blockSize == blockSize && this.hash == hash && this.prefill == prefill
    {
      this.blockSize, this.hash, this.prefill := blockSize, hash, prefill;
      store, results := map[], [];
      totalTokens, reusedTokens, recomputedTokens := 0, 0, 0;
      served, origin, lossy := [], map[], false;
    }

    /** Loads the block's entry, or computes the block and puts it unless its key is already there. */
    method ServeBlock(r: seq<int>, o: nat, block: seq<int>, diverged: bool) returns (hit: bool, kv: KV)
      requires blockSize > 0 && o + |block| <= |r|
      modifies this`store, this`origin
      ensures var k := hash(r[..o + |block|]);
              && hit == (!diverged && k in old(store))
              && kv == (if hit then old(store)[k] else prefill(block, o))
              && store == (if k in old(store) then old(store) else old(store)[k := prefill(block, o)])
              && origin == (if k in old(store) then old(origin) else old(origin)[k := r[..o + |block|]])
    {
      var end := o + |block|;
      var key := hash(r[..end]);
      hit := !diverged && key in store;
      if hit {
        kv := store[key];
      } else {
        kv := prefill(block, o);
        if key !in store {
          store := store[key := kv];
          origin := origin[key := r[..end]];
        }
      }
    }

    /** The store agrees with the requests so far and the first o tokens of this one. */
    ghost predicate Ready(r: seq<int>, o: nat)
      requires o <= |r|
      reads this
    {
      && blockSize > 0
      && Sound(hash, prefill, blockSize, store, origin, served + [r[..o]])
      && (!lossy ==> Complete(hash, blockSize, store, served + [r[..o]]))
    }

    /** One block, followed by whatever the tiered store evicts after it. */
    method ServeAndEvict(r: seq<int>, o: nat, ghost e: nat, block: seq<int>, diverged: bool, drop: set<Key>)
      returns (hit: bool, kv: KV)
      requires o < e <= |r| && Ready(r, o) && o % blockSize == 0 && e == Min(o + blockSize, |r|) && block == r[o..e]
      modifies this`store, this`origin, this`lossy
      ensures Ready(r, e) && lossy == (old(lossy) || drop != {}) && (diverged ==> !hit)
      ensures CollisionFree(hash, blockSize, served + [r]) ==>
                kv == prefill(r[o..e], o) && (hit ==> Boundary(r[..e], r, blockSize) && Seen(served, blockSize, r[..e]))
      ensures !old(lossy) && !diverged && !hit && Reached(served, blockSize, r, o) ==>
              LongestSeen(served, blockSize, r, o)
    {
      hide Sound, Complete, CollisionFree, LongestSeen, Seen, Boundary;
      ghost var store1, origin1 := store, origin;
      hit, kv := ServeBlock(r, o, block, diverged);
      if CollisionFree(hash, blockSize, served + [r]) {
        ServedAsFresh(hash, prefill, blockSize, store1, origin1, served, r, o, e, hit, kv);
      }
      if !diverged && !hit && !lossy && Reached(served, blockSize, r, o) {
        KnownKeys(hash, blockSize, store1, served, r[..o]);
        MissIsLongest(hash, blockSize, store1.Keys, served, r, o, e);
      }
      BlockKeeps(hash, prefill, blockSize, store1, origin1, served, r, o, e, store, origin, drop);
      store := store - drop;
      if drop != {} { lossy := true; }
    }

    /** The block loop. drops(i) is what the store evicts after block i; kvs is what each block is served with. */
    method ServeBlocks(r: seq<int>, blocks: seq<seq<int>>, drops: nat -> set<Key>)
      returns (reused: nat, recomputed: nat, hits: nat, misses: nat, ghost kvs: seq<KV>)
      requires blockSize > 0 && Valid() && blocks == Chunks(r, blockSize)
      modifies this`store, this`origin, this`lossy
      ensures reused + recomputed == |r| && hits + misses == |blocks|
      ensures LeadingBlocks(hits, reused, |r|, blockSize) && BlocksOf(|blocks|, |r|, blockSize)
      ensures lossy == (old(lossy) || AnyDrop(drops, |blocks|))
      ensures Ready(r, |r|)
      ensures CollisionFree(hash, blockSize, served + [r]) ==> kvs == FreshKvs(prefill, blockSize, r, 0)
      ensures CollisionFree(hash, blockSize, served + [r]) && !lossy ==> LongestSeen(served, blockSize, r, reused)
    {
      hide *;
      reused, recomputed, hits, misses, kvs := 0, 0, 0, 0, [];
      var diverged := false;
      var offset: nat := 0;
      StartClean(this, r);
      NoDropYet(drops);
      NoBlocks(blockSize, r);
      ghost var baseline := FreshKvs(prefill, blockSize, r, 0);
      ghost var apart := CollisionFree(hash, blockSize, served + [r]);
      for i := 0 to |blocks|
        invariant offset <= |r| && CutAt(blocks, i, r, offset, blockSize)
        invariant reused + recomputed == offset && hits + misses == i
        invariant BlocksOf(i, offset, blockSize)
        invariant LeadingBlocks(hits, reused, |r|, blockSize) && (!diverged ==> hits == i)
        invariant lossy == (old(lossy) || AnyDrop(drops, i))
        invariant Ready(r, offset)
        invariant apart ==> baseline == kvs + FreshKvs(prefill, blockSize, r, offset)
        invariant !diverged ==> reused == offset && (apart ==> Reached(served, blockSize, r, offset))
        invariant apart && !lossy && diverged ==> LongestSeen(served, blockSize, r, reused)
      {
        ghost var e := Min(offset + blockSize, |r|);
        var block := blocks[i];
        BlockOf(blocks, i, r, offset, e, blockSize);
        OneBlockMore(i, offset, e, |r|, blockSize);
        FreshStep(prefill, blockSize, r, offset, e, kvs);
        var hit, kv := ServeAndEvict(r, offset, e, block, diverged, drops(i));
        if hit {
          reused, hits := reused + |block|, hits + 1;
          if apart { ReachedStep(served, blockSize, r, e); }
        } else {
          diverged := true;
          recomputed, misses := recomputed + |block|, misses + 1;
        }
        AnyDropStep(drops, i);
        kvs := kvs + [kv];
        offset := offset + |block|;
      }
      Finish(prefill, served, blocks, blockSize, r, offset, diverged);
      assert kvs + [] == kvs;
    }

    /** Serves one request and adds it to the running totals. */
    method Process(r: seq<int>, drops: nat -> set<Key>) returns (res: RequestResult, ghost kvs: seq<KV>)
      requires Valid()
      modifies this
      ensures Valid() && served == old(served) + [r] && results == old(results) + [res]
      ensures res.tokens == |r| == res.reusedTokens + res.recomputedTokens
      ensures res.blocks == |Chunks(r, blockSize)| == res.reusedBlocks + res.recomputedBlocks
      ensures BlocksOf(res.blocks, |r|, blockSize)
      ensures LeadingBlocks(res.reusedBlocks, res.reusedTokens, |r|, blockSize)
      ensures totalTokens == old(totalTokens) + |r| && reusedTokens == old(reusedTokens) + res.reusedTokens
      ensures recomputedTokens == old(recomputedTokens) + res.recomputedTokens
      ensures lossy == (old(lossy) || AnyDrop(drops, res.blocks))
      ensures CollisionFree(hash, blockSize, served) ==> kvs == FreshKvs(prefill, blockSize, r, 0)
      ensures CollisionFree(hash, blockSize, served) && !lossy ==>
                LongestSeen(old(served), blockSize, r, res.reusedTokens)
    {
      hide Sound, Complete, CollisionFree, LongestSeen, Seen, Boundary, BlockKv, Chunks, FreshKvs, LeadingBlocks,
          BlocksOf;
      var blocks := Chunks(r, blockSize);
      var reused, recomputed, hits, misses;
      reused, recomputed, hits, misses, kvs := ServeBlocks(r, blocks, drops);
      assert r[..|r|] == r;
      res := RequestResult(|r|, |blocks|, reused, recomputed, hits, misses);
      served := served + [r];
      results := results + [res];
      totalTokens, reusedTokens := totalTokens + |r|, reusedTokens + reused;
      recomputedTokens := recomputedTokens + recomputed;
    }
  }

  /** n blocks are just enough for a text of this length. */
  predicate BlocksOf(n: nat, length: nat, size: nat) {
    length <= n * size && (n > 0 ==> (n - 1) * size < length)
  }

  /** The first n blocks of a text of this length hold so many tokens. */
  predicate LeadingBlocks(n: nat, tokens: nat, length: nat, size: nat) { tokens == Min(n * size, length) }

  lemma NoBlocks(size: nat, r: seq<int>)
    ensures BlocksOf(0, 0, size) && LeadingBlocks(0, 0, |r|, size)
  {}

  /** Another block of a longer text. */
  lemma OneBlockMore(i: nat, o: nat, e: nat, length: nat, size: nat)
    requires size > 0 && BlocksOf(i, o, size) && o < e <= length && o % size == 0 && e == Min(o + size, length)
    ensures BlocksOf(i + 1, e, size) && LeadingBlocks(i + 1, e, length, size)
  {
    DivModSplit(o, size);
    MulStep(i, size);
    MulStep(i - 1, size);
    MulLe(o / size + 1, i, size);
  }

  /** Some block before the n-th was followed by an eviction. */
  predicate AnyDrop(drops: nat -> set<Key>, n: nat) {
    n > 0 && (drops(n - 1) != {} || AnyDrop(drops, n - 1))
  }

  lemma NoDropYet(drops: nat -> set<Key>)
    ensures !AnyDrop(drops, 0)
  {}

  lemma AnyDropStep(drops: nat -> set<Key>, n: nat)
    ensures AnyDrop(drops, n + 1) <==> AnyDrop(drops, n) || drops(n) != {}
  {}

  /** The first o tokens are nothing or a prefix that was seen. */
  ghost predicate Reached(served: seq<seq<int>>, size: nat, r: seq<int>, o: nat)
    requires size > 0 && o <= |r|
  {
    o > 0 ==> Boundary(r[..o], r, size) && Seen(served, size, r[..o])
  }

  lemma ReachedStep(served: seq<seq<int>>, size: nat, r: seq<int>, e: nat)
    requires size > 0 && e <= |r| && Boundary(r[..e], r, size) && Seen(served, size, r[..e])
    ensures Reached(served, size, r, e)
  {}

  lemma FreshStep<KV>(prefill: (seq<int>, nat) -> KV, size: nat, r: seq<int>, o: nat, e: nat, kvs: seq<KV>)
    requires size > 0 && o < e <= |r| && e == Min(o + size, |r|)
    ensures kvs + FreshKvs(prefill, size, r, o) == kvs + [prefill(r[o..e], o)] + FreshKvs(prefill, size, r, e)
  {}

  lemma StartClean<KV>(c: LMCacheStrategy<KV>, r: seq<int>)
    requires c.Valid()
    ensures c.Ready(r, 0) && CutAt(Chunks(r, c.blockSize), 0, r, 0, c.blockSize) && Reached(c.served, c.blockSize, r, 0)
  {
    hide Seen;
    assert r[0..] == r && Chunks(r, c.blockSize)[0..] == Chunks(r, c.blockSize);
    forall p ensures Seen(c.served + [r[..0]], c.blockSize, p) <==> Seen(c.served, c.blockSize, p) {
      SeenLast(c.served, r[..0], c.blockSize, p);
    }
  }

  /** When no block is left, the whole request is accounted for. */
  lemma Finish<KV>(prefill: (seq<int>, nat) -> KV, served: seq<seq<int>>, blocks: seq<seq<int>>, size: nat, r: seq<int>,
                   o: nat, diverged: bool)
    requires size > 0 && o <= |r| && CutAt(blocks, |blocks|, r, o, size)
    ensures o == |r| && FreshKvs(prefill, size, r, o) == []
    ensures !diverged && Reached(served, size, r, o) ==> LongestSeen(served, size, r, o)
  {
    assert r[..|r|] == r;
  }

  /** The blocks from i on are those of the request from o on. */
  ghost predicate CutAt(blocks: seq<seq<int>>, i: nat, r: seq<int>, o: nat, size: nat)
    requires size > 0 && o <= |r| && i <= |blocks|
  {
    blocks[i..] == Chunks(r[o..], size) && (o % size == 0 || o == |r|)
  }

  lemma BlockOf(blocks: seq<seq<int>>, i: nat, r: seq<int>, o: nat, e: nat, size: nat)
    requires size > 0 && o <= |r| && i < |blocks| && CutAt(blocks, i, r, o, size) && e == Min(o + size, |r|)
    ensures o < e <= |r| && o % size == 0 && blocks[i] == r[o..e]
    ensures CutAt(blocks, i + 1, r, e, size)
  {
    assert blocks[i..][0] == blocks[i] && blocks[i..][1..] == blocks[i + 1..];
    assert r[o..][..e - o] == r[o..e] && r[o..][e - o..] == r[e..];
    if e == o + size { DivModSplit(o, size); DivModUnique(e, o / size + 1, 0, size); }
  }

  lemma KnownKeys<KV>(hash: seq<int> -> Key, size: nat, store: map<Key, KV>, served: seq<seq<int>>, part: seq<int>)
    requires size > 0 && Complete(hash, size, store, served + [part])
    ensures forall p {:trigger hash(p)} :: Seen(served, size, p) ==> hash(p) in store.Keys
  {
    hide Seen;
    forall p | Seen(served, size, p) ensures hash(p) in store.Keys { SeenLast(served, part, size, p); }
  }

  /** Hit or miss, the block is served with what computing it gives; a hit means the prefix was seen. */
  lemma ServedAsFresh<KV>(hash: seq<int> -> Key, prefill: (seq<int>, nat) -> KV, size: nat, store: map<Key, KV>,
                          origin: map<Key, seq<int>>, served: seq<seq<int>>, r: seq<int>, o: nat, e: nat, hit: bool,
                              kv: KV)
    requires size > 0 && o < e <= |r| && o % size == 0 && e == Min(o + size, |r|)
    requires CollisionFree(hash, size, served + [r])
    requires Sound(hash, prefill, size, store, origin, served + [r[..o]])
    requires hit ==> hash(r[..e]) in store && kv == store[hash(r[..e])]
    requires !hit ==> kv == prefill(r[o..e], o)
    ensures kv == prefill(r[o..e], o)
    ensures hit ==> Seen(served, size, r[..e]) && Boundary(r[..e], r, size)
  {
    hide Sound, CollisionFree, Seen, Boundary;
    NextBoundary(r, o, e, size, r[..e]);
    FewerRequests(hash, size, served, r, e);
    SameStart(o, e, size);
    assert r[..e][o..] == r[o..e];
    if hit { HitIsRecompute(hash, prefill, size, store, origin, served, r, o, e); }
  }

  /** A request that was served before is loaded whole. */
  lemma ReserveLoadsAll(served: seq<seq<int>>, size: nat, r: seq<int>, n: nat)
    requires size > 0 && r in served && LongestSeen(served, size, r, n)
    ensures n == |r|
  {
    if r != [] {
      var j :| 0 <= j < |served| && served[j] == r;
      assert Boundary(r, served[j], size);
    }
  }
}
