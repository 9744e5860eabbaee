/**
 The decode over a full or a compact cache: layers are built to one physical length, every layer's attention
 module carries its bias rows for the duration of the forward, and positions continue at the logical length.
 The network around attention is a parameter.
 */
module PaddedDecode {
  import opened PaddedAttention
  import opened Wrappers

  /** H is the hidden state of the new tokens; project and combine are one layer before and after attention. */
  datatype Net<!H> = Net(
    spec: Spec,
    kernel: Kernel,
    embed: (seq<int>, nat) -> H,
    project: (nat, H, nat) -> Projection,
    combine: (nat, H, seq<seq<Vec>>) -> H)

  ghost predicate ProjectsWell<H(!new)>(net: Net<H>) {
    forall li: nat, h, n: nat {:trigger net.project(li, h, n)} :: net.project(li, h, n).Shaped(net.spec, n)
  }

  // ---------------------------------------------------------------- contexts and their caches

  datatype Context = Raw(raw: seq<RawLayer>, seqLen: nat) | Compact(layers: seq<CompactLayer>, logicalLength: nat)

  ghost predicate ValidContext(s: Spec, c: Context) {
    match c
    case Raw(raw, n) => forall l :: 0 <= l < |raw| ==> raw[l].Shaped(s.kvHeads, n)
    case Compact(layers, _) => forall l :: 0 <= l < |layers| ==> layers[l].Shaped(s.kvHeads)
  }

  function Depth(c: Context): nat {
    if c.Raw? then |c.raw| else |c.layers|
  }

  function LogicalLen(c: Context): nat {
    if c.Raw? then c.seqLen else c.logicalLength
  }

  function HeadLengths(l: CompactLayer): (r: seq<nat>)
    ensures |r| == |l.keys| && forall h :: 0 <= h < |r| ==> r[h] == |l.keys[h]|
  {
    seq(|l.keys|, h requires 0 <= h < |l.keys| => |l.keys[h]|)
  }

  function AllLengths(layers: seq<CompactLayer>): seq<nat> {
    if layers == [] then [] else AllLengths(layers[..|layers| - 1]) + HeadLengths(layers[|layers| - 1])
  }

  function Physical(c: Context): nat {
    if c.Raw? then c.seqLen else PhysicalLen(AllLengths(c.layers))
  }

  lemma {:induction false} LengthsListed(layers: seq<CompactLayer>, l: nat, h: nat)
    requires l < |layers| && h < |layers[l].keys|
    ensures |layers[l].keys[h]| in AllLengths(layers)
  {
    var m := |layers| - 1;
    if l < m {
      LengthsListed(layers[..m], l, h);
    } else {
      assert HeadLengths(layers[m])[h] in HeadLengths(layers[m]);
    }
  }

  lemma {:induction false} LengthsFromHeads(layers: seq<CompactLayer>, n: nat)
    requires forall l, h :: 0 <= l < |layers| && 0 <= h < |layers[l].keys| ==> |layers[l].keys[h]| == n
    ensures forall x :: x in AllLengths(layers) ==> x == n
  {
    if layers != [] { LengthsFromHeads(layers[..|layers| - 1], n); }
  }

  lemma LayersFit(s: Spec, c: Context)
    requires c.Compact? && ValidContext(s, c)
    ensures forall l :: 0 <= l < |c.layers| ==> Fits(c.layers[l], s.kvHeads, Physical(c))
  {
    forall l, h | 0 <= l < |c.layers| && 0 <= h < s.kvHeads ensures |c.layers[l].keys[h]| <= Physical(c) {
      LengthsListed(c.layers, l, h);
      var lengths := AllLengths(c.layers);
      var j :| 0 <= j < |lengths| && lengths[j] == |c.layers[l].keys[h]|;
    }
  }

  /** A full cache's layer: its keys and values as they are, with bias 0 at every cached token. */
  function RawBuilt(s: Spec, l: RawLayer, phys: nat): Built
    requires s.Grouped() && l.Shaped(s.kvHeads, phys)
  {
    Built(l.key, l.value, seq(s.qHeads, _ => seq(phys, _ => Fin(0.0))))
  }

  function CacheOf(s: Spec, c: Context): (r: seq<Built>)
    requires s.Grouped() && ValidContext(s, c)
    ensures |r| == Depth(c)
    ensures forall l :: 0 <= l < |r| ==> BuiltFits(s, r[l], Physical(c))
  {
    if c.Raw? then
      seq(|c.raw|, l requires 0 <= l < |c.raw| => RawBuilt(s, c.raw[l], c.seqLen))
    else
      LayersFit(s, c);
      assert forall l :: 0 <= l < |c.layers| ==> BuiltFits(s, PadLayer(s, c.layers[l], Physical(c)), Physical(c)) by {
        forall l | 0 <= l < |c.layers| ensures BuiltFits(s, PadLayer(s, c.layers[l], Physical(c)), Physical(c)) {
          PadLayerFits(s, c.layers[l], Physical(c));
        }
      }
      seq(|c.layers|, l requires 0 <= l < |c.layers| => PadLayer(s, c.layers[l], Physical(c)))
  }

  method BuildCache(s: Spec, c: Context) returns (r: seq<Built>)
    requires s.Grouped() && ValidContext(s, c)
    ensures r == CacheOf(s, c)
  {
    r := [];
    for l := 0 to Depth(c)
      invariant r == CacheOf(s, c)[..l]
    {
      match c
      case Raw(raw, n) =>
        r := r + [RawBuilt(s, raw[l], n)];
      case Compact(layers, _) =>
        LayersFit(s, c);
        var b := BuildCompact(s, layers[l], PhysicalLen(AllLengths(layers)));
        r := r + [b];
    }
  }

  // ---------------------------------------------------------------- the forward

  /** One attention module; beta is set only while a decode runs. */
  class SelfAttention {
    var beta: Option<seq<seq<Logit>>>

    constructor ()
      ensures beta == None
    {
      beta := None;
    }
  }

  /** All layers from li on, each attending over the built cache with its bias rows. */
  function PaddedForward<H(!new)>(net: Net<H>, built: seq<Built>, phys: nat, h: H, n: nat, li: nat): H
    requires net.spec.Grouped() && ProjectsWell(net) && li <= |built|
    requires forall l :: 0 <= l < |built| ==> BuiltFits(net.spec, built[l], phys)
    decreases |built| - li
  {
    if li == |built| then h else
      var out := EagerAttention(net.spec, net.kernel, built[li], Some(BetaFull(built[li].beta, n)),
                                net.project(li, h, n), phys, n);
      PaddedForward(net, built, phys, net.combine(li, h, out), n, li + 1)
  }

  /** All layers from li on, each head attending to its own kept tokens and the new tokens so far. */
  function OwnForward<H(!new)>(net: Net<H>, layers: seq<CompactLayer>, h: H, n: nat, li: nat): H
    requires net.spec.Grouped() && ProjectsWell(net) && li <= |layers|
    requires forall l :: 0 <= l < |layers| ==> layers[l].Shaped(net.spec.kvHeads)
    decreases |layers| - li
  {
    if li == |layers| then h else
      var out := OwnAttention(net.spec, net.kernel, layers[li], net.project(li, h, n), n);
      OwnForward(net, layers, net.combine(li, h, out), n, li + 1)
  }

  /** Sets every module's bias rows, runs the layers, and clears the modules again. */
  method DecodeHidden<H(!new)>(net: Net<H>, c: Context, ids: seq<int>, modules: seq<SelfAttention>) returns (h: H)
    requires net.spec.Grouped() && ProjectsWell(net) && ValidContext(net.spec, c)
    requires |modules| == Depth(c) && forall a, b :: 0 <= a < b < |modules| ==> modules[a] != modules[b]
    modifies modules
    ensures var start := if c.Raw? then c.seqLen else c.logicalLength;
            h == PaddedForward(net, CacheOf(net.spec, c), Physical(c), net.embed(ids, start), |ids|, 0)
    ensures forall m :: m in modules ==> m.beta == None
  {
    hide EagerAttention, CacheOf, BuiltFits;
    var phys, n := Physical(c), |ids|;
    var built := BuildCache(net.spec, c);
    for l := 0 to |modules|
      invariant forall a :: 0 <= a < l ==> modules[a].beta == Some(BetaFull(built[a].beta, n))
    {
      modules[l].beta := Some(BetaFull(built[l].beta, n));
    }
    h := net.embed(ids, LogicalLen(c));
    for l := 0 to |modules|
      invariant forall a :: 0 <= a < |modules| ==> modules[a].beta == Some(BetaFull(built[a].beta, n))
      invariant PaddedForward(net, built, phys, net.embed(ids, LogicalLen(c)), n, 0) ==
                PaddedForward(net, built, phys, h, n, l)
    {
      BetaShape(net.spec, built[l], phys, n);
      var out := EagerAttention(net.spec, net.kernel, built[l], modules[l].beta, net.project(l, h, n), phys, n);
      h := net.combine(l, h, out);
    }
    for l := 0 to |modules|
      invariant forall a :: 0 <= a < l ==> modules[a].beta == None
    {
      modules[l].beta := None;
    }
  }

  lemma BetaShape(s: Spec, b: Built, phys: nat, n: nat)
    requires BuiltFits(s, b, phys)
    ensures |BetaFull(b.beta, n)| == s.qHeads
    ensures forall r :: 0 <= r < s.qHeads ==> |BetaFull(b.beta, n)[r]| == phys + n
  {}

  /** The padded decode of a compact cache is the ragged one. */
  lemma {:induction false} PaddedForwardIsOwn<H(!new)>(net: Net<H>, c: Context, h: H, n: nat, li: nat)
    requires net.spec.Grouped() && ProjectsWell(net) && ValidContext(net.spec, c) && c.Compact? && li <= |c.layers|
    ensures PaddedForward(net, CacheOf(net.spec, c), Physical(c), h, n, li) == OwnForward(net, c.layers, h, n, li)
    decreases |c.layers| - li
  {
    if li < |c.layers| {
      var p := net.project(li, h, n);
      LayerIsOwn(net.spec, net.kernel, c, li, p, n);
      PaddedForwardIsOwn(net, c, net.combine(li, h, OwnAttention(net.spec, net.kernel, c.layers[li], p, n)), n, li + 1);
    }
  }

  lemma LayerIsOwn(s: Spec, k: Kernel, c: Context, li: nat, p: Projection, n: nat)
    requires s.Grouped() && ValidContext(s, c) && c.Compact? && li < |c.layers| && p.Shaped(s, n)
    ensures var b := CacheOf(s, c)[li];
            && BuiltFits(s, b, Physical(c))
            && EagerAttention(s, k, b, Some(BetaFull(b.beta, n)), p, Physical(c), n)
                == OwnAttention(s, k, c.layers[li], p, n)
  {
    hide EagerMix, OwnMix;
    LayersFit(s, c);
    var b := CacheOf(s, c)[li];
    assert b == PadLayer(s, c.layers[li], Physical(c));
    forall q, i | 0 <= q < s.qHeads && 0 <= i < n
      ensures EagerMix(s, k, b, Some(BetaFull(b.beta, n)), p, Physical(c), n, q, i)
              == OwnMix(s, k, c.layers[li], p, n, q, i)
    {
      PaddedIsOwn(s, k, c.layers[li], Physical(c), p, n, q, i);
    }
    BetaShape(s, b, Physical(c), n);
    var eager := EagerAttention(s, k, b, Some(BetaFull(b.beta, n)), p, Physical(c), n);
    var own := OwnAttention(s, k, c.layers[li], p, n);
    forall q | 0 <= q < s.qHeads ensures eager[q] == own[q] {
      assert forall i :: 0 <= i < n ==> eager[q][i] == own[q][i];
    }
  }

  // ---------------------------------------------------------------- keeping everything

  function Insert(x: nat, s: seq<nat>): seq<nat> {
    if s == [] || x <= s[0] then [x] + s else [s[0]] + Insert(x, s[1..])
  }

  function Sorted(s: seq<nat>): seq<nat> {
    if s == [] then [] else Insert(s[0], Sorted(s[1..]))
  }

  lemma {:induction false} SortedIsFixed(s: seq<nat>)
    requires forall a, b :: 0 <= a < b < |s| ==> s[a] <= s[b]
    ensures Sorted(s) == s
  {
    if s != [] {
      SortedIsFixed(s[1..]);
      if |s| > 1 { assert s[0] <= s[1] == s[1..][0]; }
    }
  }

  lemma {:induction false} InsertElements(x: nat, s: seq<nat>)
    ensures multiset(Insert(x, s)) == multiset(s) + multiset{x}
  {
    if s != [] && x > s[0] {
      InsertElements(x, s[1..]);
      assert s == [s[0]] + s[1..];
    }
  }

  lemma {:induction false} SortedElements(s: seq<nat>)
    ensures multiset(Sorted(s)) == multiset(s)
  {
    if s != [] {
      SortedElements(s[1..]);
      InsertElements(s[0], Sorted(s[1..]));
      assert s == [s[0]] + s[1..];
    }
  }

  lemma {:induction false} InsertAscends(x: nat, s: seq<nat>)
    requires forall a, b :: 0 <= a < b < |s| ==> s[a] <= s[b]
    ensures forall a, b :: 0 <= a < b < |Insert(x, s)| ==> Insert(x, s)[a] <= Insert(x, s)[b]
  {
    if s != [] && x > s[0] {
      InsertAscends(x, s[1..]);
      InsertElements(x, s[1..]);
      forall b | 0 <= b < |Insert(x, s[1..])| ensures s[0] <= Insert(x, s[1..])[b] {
        assert Insert(x, s[1..])[b] in multiset(s[1..]) + multiset{x};
      }
    }
  }

  lemma {:induction false} SortedAscends(s: seq<nat>)
    ensures forall a, b :: 0 <= a < b < |Sorted(s)| ==> Sorted(s)[a] <= Sorted(s)[b]
  {
    if s != [] {
      SortedAscends(s[1..]);
      InsertAscends(s[0], Sorted(s[1..]));
    }
  }

  lemma SortedInRange(s: seq<nat>, n: nat)
    requires forall a :: 0 <= a < |s| ==> s[a] < n
    ensures |Sorted(s)| == |s| && forall a :: 0 <= a < |s| ==> Sorted(s)[a] < n
  {
    SortedElements(s);
    assert |Sorted(s)| == |multiset(Sorted(s))| == |multiset(s)| == |s|;
    forall a | 0 <= a < |s| ensures Sorted(s)[a] < n {
      assert Sorted(s)[a] in multiset(s);
    }
  }

  /** The rows of one head at the selected tokens, in position order. */
  function Gather(rows: seq<Vec>, sel: seq<nat>): seq<Vec>
    requires forall a :: 0 <= a < |sel| ==> sel[a] < |rows|
  {
    SortedInRange(sel, |rows|);
    seq(|sel|, a requires 0 <= a < |sel| => rows[Sorted(sel)[a]])
  }

  /** keys and values are the rows at the selected positions, each as often as selected, in position order. */
  ghost predicate KeptInOrder(key: seq<Vec>, value: seq<Vec>, sel: seq<nat>, keys: seq<Vec>, values: seq<Vec>) {
    exists at: seq<nat> ::
      && multiset(at) == multiset(sel) && |keys| == |values| == |at|
      && (forall a, b :: 0 <= a < b < |at| ==> at[a] <= at[b])
      && forall a :: 0 <= a < |at| ==>
           at[a] < |key| && at[a] < |value| && keys[a] == key[at[a]] && values[a] == value[at[a]]
  }

  lemma GatherKeepsOrder(key: seq<Vec>, value: seq<Vec>, sel: seq<nat>)
    requires |key| == |value| && forall a :: 0 <= a < |sel| ==> sel[a] < |key|
    ensures KeptInOrder(key, value, sel, Gather(key, sel), Gather(value, sel))
  {
    hide Sorted;
    SortedAscends(sel);
    SortedElements(sel);
    SortedInRange(sel, |key|);
    var at := Sorted(sel);
    assert multiset(at) == multiset(sel);
  }

  /** A selection-only layer: each head keeps its selected tokens with bias 0. */
  method MakeLayer(l: RawLayer, heads: nat, length: nat, sel: seq<seq<nat>>) returns (r: CompactLayer)
    requires l.Shaped(heads, length) && |sel| == heads
    requires forall h, a :: 0 <= h < heads && 0 <= a < |sel[h]| ==> sel[h][a] < length
    ensures r.Shaped(heads)
    ensures forall h :: 0 <= h < heads ==>
              r.keys[h] == Gather(l.key[h], sel[h]) && r.values[h] == Gather(l.value[h], sel[h]) &&
              forall a :: 0 <= a < |r.biases[h]| ==> r.biases[h][a] == 0.0
    ensures forall h :: 0 <= h < heads ==> KeptInOrder(l.key[h], l.value[h], sel[h], r.keys[h], r.values[h])
  {
    hide KeptInOrder;
    var keys, values, biases := [], [], [];
    for h := 0 to heads
      invariant |keys| == |values| == |biases| == h
      invariant forall g :: 0 <= g < h ==>
                  keys[g] == Gather(l.key[g], sel[g]) && values[g] == Gather(l.value[g], sel[g]) &&
                  |biases[g]| == |sel[g]| && forall a :: 0 <= a < |sel[g]| ==> biases[g][a] == 0.0
      invariant forall g :: 0 <= g < h ==> KeptInOrder(l.key[g], l.value[g], sel[g], keys[g], values[g])
    {
      GatherKeepsOrder(l.key[h], l.value[h], sel[h]);
      keys := keys + [Gather(l.key[h], sel[h])];
      values := values + [Gather(l.value[h], sel[h])];
      biases := biases + [seq(|sel[h]|, _ => 0.0)];
    }
    r := CompactLayer(keys, values, biases);
  }

  /** What keeping every token of a layer must produce. */
  ghost predicate KeepsAll(r: CompactLayer, l: RawLayer) {
    && r.keys == l.key && r.values == l.value && |r.biases| == |r.keys|
    && forall h :: 0 <= h < |r.biases| ==> r.biases[h] == seq(|r.keys[h]|, _ => 0.0)
  }

  function Everything(n: nat): (r: seq<nat>)
    ensures |r| == n && forall a :: 0 <= a < n ==> r[a] == a
  {
    seq(n, a requires 0 <= a < n => a)
  }

  lemma GatherEverything(rows: seq<Vec>)
    ensures Gather(rows, Everything(|rows|)) == rows
  {
    SortedIsFixed(Everything(|rows|));
  }

  /** The compactor that compacts nothing. */
  method FullKv(s: Spec, raw: seq<RawLayer>, seqLen: nat) returns (c: Context)
    requires ValidContext(s, Raw(raw, seqLen))
    ensures c.Compact? && c.logicalLength == seqLen && ValidContext(s, c) && |c.layers| == |raw|
    ensures forall l :: 0 <= l < |raw| ==> KeepsAll(c.layers[l], raw[l])
  {
    var layers := [];
    for l := 0 to |raw|
      invariant |layers| == l
      invariant forall g :: 0 <= g < l ==> KeepsAll(layers[g], raw[g]) && layers[g].Shaped(s.kvHeads)
    {
      var layer := MakeLayer(raw[l], s.kvHeads, seqLen, seq(s.kvHeads, _ => Everything(seqLen)));
      forall h | 0 <= h < s.kvHeads
        ensures layer.keys[h] == raw[l].key[h] && layer.values[h] == raw[l].value[h]
      {
        GatherEverything(raw[l].key[h]);
        GatherEverything(raw[l].value[h]);
      }
      layers := layers + [layer];
    }
    c := Compact(layers, seqLen);
  }

  /** Keeping everything builds exactly the cache of the raw context. */
  lemma FullKvIsRaw(s: Spec, raw: seq<RawLayer>, seqLen: nat, c: Context)
    requires s.Grouped() && ValidContext(s, Raw(raw, seqLen)) && raw != []
    requires c.Compact? && c.logicalLength == seqLen && ValidContext(s, c) && |c.layers| == |raw|
    requires forall l :: 0 <= l < |raw| ==> KeepsAll(c.layers[l], raw[l])
    ensures Physical(c) == Physical(Raw(raw, seqLen)) && LogicalLen(c) == LogicalLen(Raw(raw, seqLen))
    ensures CacheOf(s, c) == CacheOf(s, Raw(raw, seqLen))
  {
    LengthsFromHeads(c.layers, seqLen);
    LengthsListed(c.layers, 0, 0);
    LayersFit(s, c);
    forall l | 0 <= l < |raw| ensures PadLayer(s, c.layers[l], seqLen) == RawBuilt(s, raw[l], seqLen) {
      PadsToItself(s, c.layers[l], raw[l], seqLen);
    }
  }

  /** Every decode over it gives what decoding over the raw context gives, and that is plain causal attention. */
  lemma FullKvDecodesAlike<H(!new)>(net: Net<H>, raw: seq<RawLayer>, seqLen: nat, c: Context, ids: seq<int>)
    requires net.spec.Grouped() && ProjectsWell(net) && ValidContext(net.spec, Raw(raw, seqLen))
    requires c.Compact? && c.logicalLength == seqLen && ValidContext(net.spec, c) && |c.layers| == |raw|
    requires forall l :: 0 <= l < |raw| ==> KeepsAll(c.layers[l], raw[l])
    ensures var r := Raw(raw, seqLen);
            && PaddedForward(net, CacheOf(net.spec, c), Physical(c), net.embed(ids, LogicalLen(c)), |ids|, 0)
               == PaddedForward(net, CacheOf(net.spec, r), Physical(r), net.embed(ids, LogicalLen(r)), |ids|, 0)
               == OwnForward(net, c.layers, net.embed(ids, seqLen), |ids|, 0)
  {
    if raw != [] { FullKvIsRaw(net.spec, raw, seqLen, c); }
    PaddedForwardIsOwn(net, c, net.embed(ids, seqLen), |ids|, 0);
  }

  lemma PadsToItself(s: Spec, l: CompactLayer, raw: RawLayer, n: nat)
    requires s.Grouped() && raw.Shaped(s.kvHeads, n) && l.Shaped(s.kvHeads) && KeepsAll(l, raw)
    ensures PadLayer(s, l, n) == RawBuilt(s, raw, n)
  {
    PadLayerFits(s, l, n);
    var b := PadLayer(s, l, n);
    forall h | 0 <= h < s.kvHeads ensures b.keys[h] == raw.key[h] && b.values[h] == raw.value[h] {
      assert Padded(raw.key[h], n, Zeros(s.headDim)) == raw.key[h];
      assert Padded(raw.value[h], n, Zeros(s.headDim)) == raw.value[h];
    }
    assert b.keys == raw.key && b.values == raw.value;
    forall q | 0 <= q < s.qHeads ensures b.beta[q] == seq(n, _ => Fin(0.0)) {
      assert b.beta[q] == Padded(Biases(l.biases[s.KvHeadOf(q)]), n, Out);
    }
    assert b.beta == RawBuilt(s, raw, n).beta;
  }
}
