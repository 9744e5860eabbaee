/**
 Decoding over a compact cache whose heads keep different numbers of tokens: every layer is padded to one
 physical length, padded slots carry a sentinel bias, and one causal mask serves all layers.
 The kernel (scaled product and exponential) is a parameter; the sentinel is a score of weight zero.
 */
module PaddedAttention {
  import opened Arith
  import opened Wrappers

  type Vec = seq<real>

  /** A pre-softmax score; Out stands for one that the sentinel was added to. */
  datatype Logit = Fin(x: real) | Out

  function Plus(a: Logit, b: Logit): Logit {
    if a.Fin? && b.Fin? then Fin(a.x + b.x) else Out
  }

  datatype Kernel = Kernel(dot: (Vec, Vec) -> real, exp: real -> real, dim: nat) {
    ghost predicate Positive() {
      forall x {:trigger exp(x)} :: exp(x) > 0.0
    }

    function Weight(l: Logit): real {
      if l.Fin? then exp(l.x) else 0.0
    }

    function Mass(logits: seq<Logit>): real {
      if logits == [] then 0.0 else Mass(logits[..|logits| - 1]) + Weight(logits[|logits| - 1])
    }

    function Sum(logits: seq<Logit>, values: seq<Vec>, c: nat): real
      requires |logits| == |values|
    {
      if logits == [] then 0.0
      else Sum(logits[..|logits| - 1], values[..|values| - 1], c) +
           Weight(logits[|logits| - 1]) * Coordinate(values[|values| - 1], c)
    }

    /** The softmax-weighted mean of the values. */
    function Mix(logits: seq<Logit>, values: seq<Vec>): Vec
      requires |logits| == |values|
    {
      seq(dim, c requires 0 <= c => if Mass(logits) == 0.0 then 0.0 else Sum(logits, values, c) / Mass(logits))
    }
  }

  function Coordinate(v: Vec, c: nat): real {
    if c < |v| then v[c] else 0.0
  }

  // ---------------------------------------------------------------- sums

  lemma {:induction false} SumsConcat(k: Kernel, a: seq<Logit>, b: seq<Logit>, va: seq<Vec>, vb: seq<Vec>, c: nat)
    requires |a| == |va| && |b| == |vb|
    ensures k.Mass(a + b) == k.Mass(a) + k.Mass(b)
    ensures k.Sum(a + b, va + vb, c) == k.Sum(a, va, c) + k.Sum(b, vb, c)
  {
    if b == [] {
      assert a + b == a && va + vb == va;
    } else {
      var m := |b| - 1;
      SumsConcat(k, a, b[..m], va, vb[..m], c);
      assert (a + b)[..|a + b| - 1] == a + b[..m];
      assert (va + vb)[..|va + vb| - 1] == va + vb[..m];
    }
  }

  /** Entries whose scores are out contribute nothing, whatever their values are. */
  lemma {:induction false} OutIsNothing(k: Kernel, a: seq<Logit>, va: seq<Vec>, c: nat)
    requires |a| == |va| && forall j :: 0 <= j < |a| ==> a[j].Out?
    ensures k.Mass(a) == 0.0 && k.Sum(a, va, c) == 0.0
  {
    if a != [] { OutIsNothing(k, a[..|a| - 1], va[..|a| - 1], c); }
  }

  lemma {:induction false} MassPositive(k: Kernel, a: seq<Logit>)
    requires k.Positive()
    ensures k.Mass(a) >= 0.0
    ensures a != [] && a[|a| - 1].Fin? ==> k.Mass(a) > 0.0
  {
    if a != [] {
      MassPositive(k, a[..|a| - 1]);
      if a[|a| - 1].Fin? { assert k.exp(a[|a| - 1].x) > 0.0; }
    }
  }

  /** Two stretches with sentinel scores drop out of the weighted mean. */
  lemma GapsDropOut(k: Kernel, a: seq<Logit>, gap: seq<Logit>, b: seq<Logit>, tail: seq<Logit>,
                    va: seq<Vec>, vgap: seq<Vec>, vb: seq<Vec>, vtail: seq<Vec>)
    requires |a| == |va| && |gap| == |vgap| && |b| == |vb| && |tail| == |vtail|
    requires forall j :: 0 <= j < |gap| ==> gap[j].Out?
    requires forall j :: 0 <= j < |tail| ==> tail[j].Out?
    ensures k.Mix(a + gap + b + tail, va + vgap + vb + vtail) == k.Mix(a + b, va + vb)
  {
    hide Kernel.Mass, Kernel.Sum;
    GapsAt(k, a, gap, b, tail, va, vgap, vb, vtail, 0);
    forall c: nat | c < k.dim
      ensures k.Sum(a + gap + b + tail, va + vgap + vb + vtail, c) == k.Sum(a + b, va + vb, c)
    {
      GapsAt(k, a, gap, b, tail, va, vgap, vb, vtail, c);
    }
  }

  lemma GapsAt(k: Kernel, a: seq<Logit>, gap: seq<Logit>, b: seq<Logit>, tail: seq<Logit>,
               va: seq<Vec>, vgap: seq<Vec>, vb: seq<Vec>, vtail: seq<Vec>, c: nat)
    requires |a| == |va| && |gap| == |vgap| && |b| == |vb| && |tail| == |vtail|
    requires forall j :: 0 <= j < |gap| ==> gap[j].Out?
    requires forall j :: 0 <= j < |tail| ==> tail[j].Out?
    ensures k.Mass(a + gap + b + tail) == k.Mass(a + b)
    ensures k.Sum(a + gap + b + tail, va + vgap + vb + vtail, c) == k.Sum(a + b, va + vb, c)
  {
    SumsConcat(k, a + gap + b, tail, va + vgap + vb, vtail, c);
    SumsConcat(k, a + gap, b, va + vgap, vb, c);
    SumsConcat(k, a, gap, va, vgap, c);
    SumsConcat(k, a, b, va, vb, c);
    OutIsNothing(k, gap, vgap, c);
    OutIsNothing(k, tail, vtail, c);
  }

  // ---------------------------------------------------------------- the mix is a softmax

  function Total(w: seq<real>): real {
    if w == [] then 0.0 else Total(w[..|w| - 1]) + w[|w| - 1]
  }

  /** Coordinate c of the sum of the values, each times its weight. */
  function Weighted(w: seq<real>, values: seq<Vec>, c: nat): real
    requires |w| == |values|
  {
    if w == [] then 0.0
    else Weighted(w[..|w| - 1], values[..|w| - 1], c) + w[|w| - 1] * Coordinate(values[|w| - 1], c)
  }

  lemma {:induction false} MassOfFinite(k: Kernel, a: seq<Logit>, j: nat)
    requires k.Positive() && j < |a| && a[j].Fin?
    ensures k.Mass(a) > 0.0
  {
    MassPositive(k, a);
    if j < |a| - 1 {
      MassOfFinite(k, a[..|a| - 1], j);
      if a[|a| - 1].Fin? { assert k.exp(a[|a| - 1].x) > 0.0; }
    }
  }

  lemma {:induction false} SharesAddUp(k: Kernel, a: seq<Logit>, va: seq<Vec>, w: seq<real>, mass: real, c: nat)
    requires |a| == |va| == |w| && mass > 0.0
    requires forall j :: 0 <= j < |a| ==> w[j] * mass == k.Weight(a[j])
    ensures Total(w) * mass == k.Mass(a) && Weighted(w, va, c) * mass == k.Sum(a, va, c)
  {
    if a != [] {
      var m := |a| - 1;
      SharesAddUp(k, a[..m], va[..m], w[..m], mass, c);
      Share(w[m], Coordinate(va[m], c), mass);
      assert Total(w) * mass == Total(w[..m]) * mass + w[m] * mass;
      assert Weighted(w, va, c) * mass ==
             Weighted(w[..m], va[..m], c) * mass + (w[m] * Coordinate(va[m], c)) * mass;
    }
  }

  lemma Share(w: real, x: real, mass: real)
    ensures (w * x) * mass == (w * mass) * x
  {}

  /**
   The mix is the mean of the values under softmax weights: they sum to one, a score of the sentinel weighs nothing,
   and any two others weigh as the exponentials of their scores.
   */
  lemma MixIsSoftmax(k: Kernel, logits: seq<Logit>, values: seq<Vec>, j: nat) returns (w: seq<real>)
    requires k.Positive() && |logits| == |values| && j < |logits| && logits[j].Fin?
    ensures |w| == |logits| && Total(w) == 1.0
    ensures forall i :: 0 <= i < |w| ==> if logits[i].Fin? then w[i] > 0.0 else w[i] == 0.0
    ensures forall a, b :: 0 <= a < |w| && 0 <= b < |w| && logits[a].Fin? && logits[b].Fin? ==>
              w[a] * k.exp(logits[b].x) == w[b] * k.exp(logits[a].x)
    ensures |k.Mix(logits, values)| == k.dim
    ensures forall c: nat :: c < k.dim ==> k.Mix(logits, values)[c] == Weighted(w, values, c)
  {
    hide *;
    MassOfFinite(k, logits, j);
    w := Shares(k, logits);
    SharesCompare(k, logits, w, k.Mass(logits));
    SharesSum(k, logits, values, w, k.Mass(logits));
    MixSize(k, logits, values);
    forall c: nat | c < k.dim ensures k.Mix(logits, values)[c] == Weighted(w, values, c) {
      MixCoordinate(k, logits, values, w, k.Mass(logits), c);
    }
  }

  /** Each score's share of the mass. */
  function Shares(k: Kernel, logits: seq<Logit>): (w: seq<real>)
    requires k.Mass(logits) > 0.0
    ensures |w| == |logits| && forall i :: 0 <= i < |w| ==> w[i] * k.Mass(logits) == k.Weight(logits[i])
  {
    seq(|logits|, i requires 0 <= i < |logits| => k.Weight(logits[i]) / k.Mass(logits))
  }

  lemma SharesCompare(k: Kernel, a: seq<Logit>, w: seq<real>, mass: real)
    requires k.Positive() && |w| == |a| && mass > 0.0
    requires forall i :: 0 <= i < |a| ==> w[i] * mass == k.Weight(a[i])
    ensures forall i :: 0 <= i < |w| ==> if a[i].Fin? then w[i] > 0.0 else w[i] == 0.0
    ensures forall i, j :: 0 <= i < |w| && 0 <= j < |w| && a[i].Fin? && a[j].Fin? ==>
              w[i] * k.exp(a[j].x) == w[j] * k.exp(a[i].x)
  {
    forall i | 0 <= i < |w| && a[i].Fin? ensures w[i] > 0.0 {
      assert k.exp(a[i].x) > 0.0;
    }
    forall i, j | 0 <= i < |w| && 0 <= j < |w| && a[i].Fin? && a[j].Fin?
      ensures w[i] * k.exp(a[j].x) == w[j] * k.exp(a[i].x)
    {
      Share(w[i], w[j], mass);
    }
  }

  lemma SharesSum(k: Kernel, a: seq<Logit>, va: seq<Vec>, w: seq<real>, mass: real)
    requires |a| == |va| == |w| && mass == k.Mass(a) > 0.0
    requires forall i :: 0 <= i < |a| ==> w[i] * mass == k.Weight(a[i])
    ensures Total(w) == 1.0
  {
    hide *;
    SharesAddUp(k, a, va, w, mass, 0);
    One(Total(w), mass, k.Mass(a));
  }

  lemma MixSize(k: Kernel, logits: seq<Logit>, values: seq<Vec>)
    requires |logits| == |values|
    ensures |k.Mix(logits, values)| == k.dim
  {}

  lemma MixCoordinate(k: Kernel, a: seq<Logit>, va: seq<Vec>, w: seq<real>, mass: real, c: nat)
    requires |a| == |va| == |w| && mass == k.Mass(a) > 0.0 && c < k.dim
    requires forall i :: 0 <= i < |a| ==> w[i] * mass == k.Weight(a[i])
    ensures c < |k.Mix(a, va)| && k.Mix(a, va)[c] == Weighted(w, va, c)
  {
    hide Kernel.Mass, Kernel.Sum, Weighted;
    SharesAddUp(k, a, va, w, mass, c);
    Quotient(Weighted(w, va, c), mass, k.Sum(a, va, c));
  }

  lemma One(q: real, mass: real, n: real)
    requires mass > 0.0 && q * mass == n && n == mass
    ensures q == 1.0
  {}

  lemma Quotient(q: real, mass: real, n: real)
    requires mass > 0.0 && q * mass == n
    ensures n / mass == q
  {}

  // ---------------------------------------------------------------- caches

  /** One layer of a compact cache: kept keys, values and biases of each kv head. */
  datatype CompactLayer = CompactLayer(keys: seq<seq<Vec>>, values: seq<seq<Vec>>, biases: seq<seq<real>>) {
    ghost predicate Shaped(heads: nat) {
      && |keys| == |values| == |biases| == heads
      && forall h :: 0 <= h < heads ==> |keys[h]| == |values[h]| == |biases[h]|
    }
  }

  /** One layer of a full cache: keys and values of every token, per kv head. */
  datatype RawLayer = RawLayer(key: seq<seq<Vec>>, value: seq<seq<Vec>>) {
    ghost predicate Shaped(heads: nat, length: nat) {
      && |key| == |value| == heads
      && forall h :: 0 <= h < heads ==> |key[h]| == |value[h]| == length
    }
  }

  /** What a layer is given to attend over: padded keys and values per kv head, bias rows per q head. */
  datatype Built = Built(keys: seq<seq<Vec>>, values: seq<seq<Vec>>, beta: seq<seq<Logit>>)

  datatype Spec = Spec(qHeads: nat, kvHeads: nat, headDim: nat) {
    /** Every group of q heads shares one kv head. */
    predicate Grouped() {
      kvHeads > 0 && qHeads % kvHeads == 0 && qHeads > 0
    }

    function GroupSize(): nat
      requires kvHeads > 0
    {
      qHeads / kvHeads
    }

    function KvHeadOf(q: nat): nat
      requires Grouped() && q < qHeads
    {
      GroupPositive(this);
      q / GroupSize()
    }
  }

  lemma GroupPositive(s: Spec)
    requires s.Grouped()
    ensures s.GroupSize() > 0 && s.kvHeads * s.GroupSize() == s.qHeads
  {}

  lemma KvHeadInRange(s: Spec, q: nat)
    requires s.Grouped() && q < s.qHeads
    ensures s.KvHeadOf(q) < s.kvHeads
  {
    GroupPositive(s);
    var g := s.GroupSize();
    var h := q / g;
    DivModSplit(q, g);
    MulLe(s.kvHeads, h, g);
  }

  /** Each row `times` times in a row, as np.repeat and repeat_kv lay them out. */
  function Repeat<T>(rows: seq<T>, times: nat): seq<T> {
    if rows == [] then []
    else Repeat(rows[..|rows| - 1], times) + seq(times, _ => rows[|rows| - 1])
  }

  lemma {:induction false} RepeatLength<T>(rows: seq<T>, times: nat)
    ensures |Repeat(rows, times)| == |rows| * times
  {
    if rows != [] {
      RepeatLength(rows[..|rows| - 1], times);
      MulStep(|rows| - 1, times);
    }
  }

  /** The o-th copy of row h. */
  lemma {:induction false} RepeatRow<T>(rows: seq<T>, times: nat, h: nat, o: nat)
    requires h < |rows| && o < times
    ensures h * times + o < |Repeat(rows, times)| && Repeat(rows, times)[h * times + o] == rows[h]
  {
    var m := |rows| - 1;
    RepeatLength(rows, times);
    RepeatLength(rows[..m], times);
    MulStep(m, times);
    if h < m { RepeatRow(rows[..m], times, h, o); }
  }

  /** Row q of the repetition is the row of q's group. */
  lemma RepeatAt<T>(rows: seq<T>, times: nat, q: nat)
    requires times > 0 && q < |rows| * times
    ensures q / times < |rows| && q < |Repeat(rows, times)| && Repeat(rows, times)[q] == rows[q / times]
  {
    hide Repeat;
    var h, o := q / times, q % times;
    DivModSplit(q, times);
    MulLe(|rows|, h, times);
    RepeatRow(rows, times, h, o);
  }

  function Padded<T>(s: seq<T>, phys: nat, pad: T): (r: seq<T>)
    requires |s| <= phys
    ensures |r| == phys
  {
    s + seq(phys - |s|, _ => pad)
  }

  function Biases(b: seq<real>): (r: seq<Logit>)
    ensures |r| == |b|
  {
    seq(|b|, j requires 0 <= j < |b| => Fin(b[j]))
  }

  function Zeros(n: nat): Vec {
    seq(n, _ => 0.0)
  }

  ghost predicate Fits(l: CompactLayer, heads: nat, phys: nat) {
    l.Shaped(heads) && forall h :: 0 <= h < heads ==> |l.keys[h]| <= phys
  }

  function PadLayer(s: Spec, l: CompactLayer, phys: nat): Built
    requires s.Grouped() && Fits(l, s.kvHeads, phys)
  {
    var biases := seq(s.kvHeads, h requires 0 <= h < s.kvHeads => Biases(l.biases[h]));
    Built(PadRows(l.keys, phys, Zeros(s.headDim)), PadRows(l.values, phys, Zeros(s.headDim)),
          Repeat(PadRows(biases, phys, Out), s.GroupSize()))
  }

  /** The longest kept length of any head in any layer, and 0 for a cache without heads. */
  function PhysicalLen(lengths: seq<nat>): (r: nat)
    ensures forall j :: 0 <= j < |lengths| ==> lengths[j] <= r
    ensures if lengths == [] then r == 0 else r in lengths
  {
    if lengths == [] then 0 else Max(PhysicalLen(lengths[..|lengths| - 1]), lengths[|lengths| - 1])
  }

  /** The first h rows hold the given data from the left; everything else is still padding. */
  ghost predicate Filled<T>(a: array2<T>, data: seq<seq<T>>, h: nat, pad: T)
    reads a
  {
    && a.Length0 == |data| && h <= |data|
    && (forall g :: 0 <= g < |data| ==> |data[g]| <= a.Length1)
    && forall g, j :: 0 <= g < |data| && 0 <= j < a.Length1 ==>
         a[g, j] == if g < h && j < |data[g]| then data[g][j] else pad
  }

  method CopyRow<T>(a: array2<T>, data: seq<seq<T>>, h: nat, ghost pad: T)
    requires h < |data| && Filled(a, data, h, pad)
    modifies a
    ensures Filled(a, data, h + 1, pad)
  {
    forall j | 0 <= j < |data[h]| { a[h, j] := data[h][j]; }
  }

  function PadRows<T>(data: seq<seq<T>>, phys: nat, pad: T): seq<seq<T>>
    requires forall g :: 0 <= g < |data| ==> |data[g]| <= phys
  {
    seq(|data|, h requires 0 <= h < |data| => Padded(data[h], phys, pad))
  }

  /** Reads a filled buffer back as rows. */
  method Rows<T>(a: array2<T>, ghost data: seq<seq<T>>, ghost pad: T) returns (r: seq<seq<T>>)
    requires Filled(a, data, |data|, pad)
    ensures r == PadRows(data, a.Length1, pad)
  {
    r := [];
    for h := 0 to a.Length0
      invariant |r| == h && forall g :: 0 <= g < h ==> r[g] == Padded(data[g], a.Length1, pad)
    {
      var row := seq(a.Length1, j requires 0 <= j < a.Length1 reads a => a[h, j]);
      assert row == Padded(data[h], a.Length1, pad);
      r := r + [row];
    }
  }

  /** Fills the zeroed buffers head by head; the bias buffer starts out full of sentinels. */
  method BuildCompact(s: Spec, l: CompactLayer, phys: nat) returns (b: Built)
    requires s.Grouped() && Fits(l, s.kvHeads, phys)
    ensures b == PadLayer(s, l, phys)
  {
    hide Filled, PadRows;
    var zero := Zeros(s.headDim);
    var biases := seq(s.kvHeads, h requires 0 <= h < s.kvHeads => Biases(l.biases[h]));
    var kFull := new Vec[s.kvHeads, phys]((_, _) => zero);
    var vFull := new Vec[s.kvHeads, phys]((_, _) => zero);
    var betaKv := new Logit[s.kvHeads, phys]((_, _) => Out);
    StartsFilled(kFull, l.keys, zero);
    StartsFilled(vFull, l.values, zero);
    StartsFilled(betaKv, biases, Out);
    for h := 0 to s.kvHeads
      invariant Filled(kFull, l.keys, h, zero) && Filled(vFull, l.values, h, zero) && Filled(betaKv, biases, h, Out)
    {
      CopyRow(kFull, l.keys, h, zero);
      CopyRow(vFull, l.values, h, zero);
      CopyRow(betaKv, biases, h, Out);
    }
    var keys := Rows(kFull, l.keys, zero);
    var values := Rows(vFull, l.values, zero);
    var beta := Rows(betaKv, biases, Out);
    b := Built(keys, values, Repeat(beta, s.GroupSize()));
  }

  lemma StartsFilled<T>(a: array2<T>, data: seq<seq<T>>, pad: T)
    requires a.Length0 == |data| && forall g :: 0 <= g < |data| ==> |data[g]| <= a.Length1
    requires forall g, j :: 0 <= g < a.Length0 && 0 <= j < a.Length1 ==> a[g, j] == pad
    ensures Filled(a, data, 0, pad)
  {}

  // ---------------------------------------------------------------- attention of one layer

  /** What a layer projects for the new tokens: queries per q head, keys and values per kv head. */
  datatype Projection = Projection(queries: seq<seq<Vec>>, keys: seq<seq<Vec>>, values: seq<seq<Vec>>) {
    ghost predicate Shaped(s: Spec, n: nat) {
      && |queries| == s.qHeads && |keys| == |values| == s.kvHeads
      && (forall q :: 0 <= q < s.qHeads ==> |queries[q]| == n)
      && (forall h :: 0 <= h < s.kvHeads ==> |keys[h]| == |values[h]| == n)
    }
  }

  /** Scores of the tokens a head kept, each with its bias. */
  function KeptLogits(k: Kernel, x: Vec, keys: seq<Vec>, biases: seq<real>): seq<Logit>
    requires |keys| == |biases|
  {
    seq(|keys|, j requires 0 <= j < |keys| => Fin(k.dot(x, keys[j]) + biases[j]))
  }

  function NewLogits(k: Kernel, x: Vec, keys: seq<Vec>): seq<Logit> {
    seq(|keys|, j requires 0 <= j < |keys| => Fin(k.dot(x, keys[j])))
  }

  /** The reference: new token i of q head q attends to its kv head's kept tokens and to new tokens 0..i. */
  function OwnMix(s: Spec, k: Kernel, l: CompactLayer, p: Projection, n: nat, q: nat, i: nat): Vec
    requires s.Grouped() && l.Shaped(s.kvHeads) && p.Shaped(s, n) && q < s.qHeads && i < n
  {
    KvHeadInRange(s, q);
    var h := s.KvHeadOf(q);
    var x := p.queries[q][i];
    k.Mix(KeptLogits(k, x, l.keys[h], l.biases[h]) + NewLogits(k, x, p.keys[h][..i + 1]),
          l.values[h] + p.values[h][..i + 1])
  }

  function OwnAttention(s: Spec, k: Kernel, l: CompactLayer, p: Projection, n: nat): seq<seq<Vec>>
    requires s.Grouped() && l.Shaped(s.kvHeads) && p.Shaped(s, n)
  {
    seq(s.qHeads, q requires 0 <= q < s.qHeads => seq(n, i requires 0 <= i < n => OwnMix(s, k, l, p, n, q, i)))
  }

  /** Row i of the mask all layers share: every cached column is open, new columns are causal. */
  function MaskRow(phys: nat, n: nat, i: nat): (r: seq<Logit>)
    ensures |r| == phys + n
  {
    seq(phys, _ => Fin(0.0)) + seq(n, j => if j > i then Out else Fin(0.0))
  }

  /** The bias rows over cached and new columns. */
  function BetaFull(beta: seq<seq<Logit>>, n: nat): (r: seq<seq<Logit>>)
    ensures |r| == |beta| && forall q :: 0 <= q < |beta| ==> r[q] == beta[q] + seq(n, _ => Fin(0.0))
  {
    seq(|beta|, q requires 0 <= q < |beta| => beta[q] + seq(n, _ => Fin(0.0)))
  }

  function Score(k: Kernel, x: Vec, key: Vec, mask: Logit, beta: Option<Logit>): Logit {
    var masked := Plus(Fin(k.dot(x, key)), mask);
    if beta.Some? then Plus(masked, beta.value) else masked
  }

  function Scores(k: Kernel, x: Vec, keys: seq<Vec>, mask: seq<Logit>, beta: Option<seq<Logit>>): (r: seq<Logit>)
    requires |keys| == |mask| && (beta.Some? ==> |keys| == |beta.value|)
    ensures |r| == |keys|
    ensures forall j :: 0 <= j < |keys| ==>
              r[j] == Score(k, x, keys[j], mask[j], if beta.Some? then Some(beta.value[j]) else None)
  {
    seq(|keys|, j requires 0 <= j < |keys| =>
      Score(k, x, keys[j], mask[j], if beta.Some? then Some(beta.value[j]) else None))
  }

  function Joined(cached: seq<seq<Vec>>, added: seq<seq<Vec>>): seq<seq<Vec>>
    requires |cached| == |added|
  {
    seq(|cached|, h requires 0 <= h < |cached| => cached[h] + added[h])
  }

  ghost predicate BuiltFits(s: Spec, b: Built, phys: nat) {
    && |b.keys| == |b.values| == s.kvHeads && |b.beta| == s.qHeads
    && (forall h :: 0 <= h < s.kvHeads ==> |b.keys[h]| == |b.values[h]| == phys)
    && (forall q :: 0 <= q < s.qHeads ==> |b.beta[q]| == phys)
  }

  lemma JoinedRow(s: Spec, cached: seq<seq<Vec>>, added: seq<seq<Vec>>, q: nat)
    requires s.Grouped() && |cached| == |added| == s.kvHeads && q < s.qHeads
    ensures s.KvHeadOf(q) < s.kvHeads
    ensures |Repeat(Joined(cached, added), s.GroupSize())| == s.qHeads
    ensures Repeat(Joined(cached, added), s.GroupSize())[q] == cached[s.KvHeadOf(q)] + added[s.KvHeadOf(q)]
  {
    KvHeadInRange(s, q);
    GroupPositive(s);
    RepeatLength(Joined(cached, added), s.GroupSize());
    RepeatAt(Joined(cached, added), s.GroupSize(), q);
  }

  /** The attention the model runs: heads repeated to the q heads, one mask, and the layer's bias if it is set. */
  function EagerMix(s: Spec, k: Kernel, b: Built, beta: Option<seq<seq<Logit>>>, p: Projection, phys: nat, n: nat,
                    q: nat, i: nat): Vec
    requires s.Grouped() && BuiltFits(s, b, phys) && p.Shaped(s, n) && q < s.qHeads && i < n
    requires beta.Some? ==> |beta.value| == s.qHeads && forall r :: 0 <= r < s.qHeads ==> |beta.value[r]| == phys + n
  {
    JoinedRow(s, b.keys, p.keys, q);
    JoinedRow(s, b.values, p.values, q);
    var keyStates := Repeat(Joined(b.keys, p.keys), s.GroupSize());
    var valueStates := Repeat(Joined(b.values, p.values), s.GroupSize());
    var betaRow := if beta.Some? then Some(beta.value[q]) else None;
    k.Mix(Scores(k, p.queries[q][i], keyStates[q], MaskRow(phys, n, i), betaRow), valueStates[q])
  }

  function EagerAttention(s: Spec, k: Kernel, b: Built, beta: Option<seq<seq<Logit>>>, p: Projection, phys: nat, n: nat)
    : seq<seq<Vec>>
    requires s.Grouped() && BuiltFits(s, b, phys) && p.Shaped(s, n)
    requires beta.Some? ==> |beta.value| == s.qHeads && forall r :: 0 <= r < s.qHeads ==> |beta.value[r]| == phys + n
  {
    seq(s.qHeads, q requires 0 <= q < s.qHeads =>
      seq(n, i requires 0 <= i < n => EagerMix(s, k, b, beta, p, phys, n, q, i)))
  }

  lemma PadLayerFits(s: Spec, l: CompactLayer, phys: nat)
    requires s.Grouped() && Fits(l, s.kvHeads, phys)
    ensures BuiltFits(s, PadLayer(s, l, phys), phys)
    ensures forall q: nat :: q < s.qHeads ==>
              s.KvHeadOf(q) < s.kvHeads &&
              PadLayer(s, l, phys).beta[q] == Padded(Biases(l.biases[s.KvHeadOf(q)]), phys, Out)
  {
    var biases := seq(s.kvHeads, h requires 0 <= h < s.kvHeads => Biases(l.biases[h]));
    GroupPositive(s);
    RepeatLength(PadRows(biases, phys, Out), s.GroupSize());
    forall q: nat | q < s.qHeads
      ensures s.KvHeadOf(q) < s.kvHeads
      ensures PadLayer(s, l, phys).beta[q] == Padded(Biases(l.biases[s.KvHeadOf(q)]), phys, Out)
    {
      KvHeadInRange(s, q);
      RepeatAt(PadRows(biases, phys, Out), s.GroupSize(), q);
    }
  }

  /** The score row of one query over padded keys splits into kept, padding, causal and future columns. */
  lemma ScoresSplit(k: Kernel, x: Vec, kept: seq<Vec>, biases: seq<real>, added: seq<Vec>, pad: Vec, phys: nat, i: nat)
    requires |kept| == |biases| <= phys && i < |added|
    ensures Scores(k, x, Padded(kept, phys, pad) + added, MaskRow(phys, |added|, i),
                   Some(Padded(Biases(biases), phys, Out) + seq(|added|, _ => Fin(0.0)))) ==
            KeptLogits(k, x, kept, biases) + seq(phys - |kept|, _ => Out) +
            NewLogits(k, x, added[..i + 1]) + seq(|added| - i - 1, _ => Out)
  {
    var t, n := |kept|, |added|;
    var keys := Padded(kept, phys, pad) + added;
    var mask := MaskRow(phys, n, i);
    var beta := Padded(Biases(biases), phys, Out) + seq(n, _ => Fin(0.0));
    var scores := Scores(k, x, keys, mask, Some(beta));
    hide Scores;
    var split := KeptLogits(k, x, kept, biases) + seq(phys - t, _ => Out) +
                 NewLogits(k, x, added[..i + 1]) + seq(n - i - 1, _ => Out);
    assert |scores| == |split|;
    forall j | 0 <= j < phys + n ensures scores[j] == split[j] {
      if j < t {
        assert keys[j] == kept[j] && mask[j] == Fin(0.0) && beta[j] == Fin(biases[j]);
      } else if j < phys {
        assert mask[j] == Fin(0.0) && beta[j] == Out;
      } else {
        assert keys[j] == added[j - phys] && beta[j] == Fin(0.0);
        assert mask[j] == if j - phys > i then Out else Fin(0.0);
      }
    }
  }

  /** Padding, sentinel biases and the shared mask leave each head attending to exactly its own tokens. */
  lemma PaddedIsOwn(s: Spec, k: Kernel, l: CompactLayer, phys: nat, p: Projection, n: nat, q: nat, i: nat)
    requires s.Grouped() && Fits(l, s.kvHeads, phys) && p.Shaped(s, n) && q < s.qHeads && i < n
    ensures BuiltFits(s, PadLayer(s, l, phys), phys)
    ensures var b := PadLayer(s, l, phys);
            EagerMix(s, k, b, Some(BetaFull(b.beta, n)), p, phys, n, q, i) == OwnMix(s, k, l, p, n, q, i)
  {
    hide Kernel.Mix, Scores, KeptLogits, NewLogits, Repeat, Joined, MaskRow;
    PadLayerFits(s, l, phys);
    var b := PadLayer(s, l, phys);
    KvHeadInRange(s, q);
    var h := s.KvHeadOf(q);
    var x := p.queries[q][i];
    JoinedRow(s, b.keys, p.keys, q);
    JoinedRow(s, b.values, p.values, q);
    var zero := Zeros(s.headDim);
    ScoresSplit(k, x, l.keys[h], l.biases[h], p.keys[h], zero, phys, i);
    KeptSize(k, x, l.keys[h], l.biases[h], p.keys[h][..i + 1]);
    var vgap := seq(phys - |l.keys[h]|, _ => zero);
    GapsDropOut(k, KeptLogits(k, x, l.keys[h], l.biases[h]), seq(phys - |l.keys[h]|, _ => Out),
                NewLogits(k, x, p.keys[h][..i + 1]), seq(n - i - 1, _ => Out),
                l.values[h], vgap, p.values[h][..i + 1], p.values[h][i + 1..]);
    assert b.values[h] + p.values[h] == l.values[h] + vgap + p.values[h][..i + 1] + p.values[h][i + 1..];
  }

  lemma KeptSize(k: Kernel, x: Vec, keys: seq<Vec>, biases: seq<real>, added: seq<Vec>)
    requires |keys| == |biases|
    ensures |KeptLogits(k, x, keys, biases)| == |keys| && |NewLogits(k, x, added)| == |added|
  {}

  /** Every new token attends at least to itself, so no weighted mean divides by zero. */
  lemma OwnMassPositive(k: Kernel, x: Vec, keys: seq<Vec>, biases: seq<real>, added: seq<Vec>)
    requires k.Positive() && |keys| == |biases| && added != []
    ensures k.Mass(KeptLogits(k, x, keys, biases) + NewLogits(k, x, added)) > 0.0
  {
    MassPositive(k, KeptLogits(k, x, keys, biases) + NewLogits(k, x, added));
  }
}
