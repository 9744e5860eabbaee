/**
 Moving a cartridge's keys and values into paged serving blocks: heads-major storage becomes token-major layers,
 and each layer is cut into fixed-size blocks with a zero-padded tail.
 */
module PagedBlocks {
  import opened Arith
  import opened Wrappers

  /** One head's key or value at one token. */
  type Vec = seq<real>

  /** Storage layout: cell[layer][head][token]. */
  datatype Stored = Stored(layers: nat, heads: nat, tokens: nat, dim: nat, cell: seq<seq<seq<Vec>>>) {
    ghost predicate Valid() {
      && |cell| == layers
      && (forall l :: 0 <= l < layers ==> |cell[l]| == heads)
      && (forall l, h :: 0 <= l < layers && 0 <= h < heads ==> |cell[l][h]| == tokens)
      && (forall l, h, i :: 0 <= l < layers && 0 <= h < heads && 0 <= i < tokens ==> |cell[l][h][i]| == dim)
    }
  }

  /** One layer, token-major: cell[token][head]. */
  datatype TokenMajor = TokenMajor(tokens: nat, heads: nat, dim: nat, cell: seq<seq<Vec>>) {
    ghost predicate Valid() {
      && |cell| == tokens
      && (forall i :: 0 <= i < tokens ==> |cell[i]| == heads)
      && (forall i, h :: 0 <= i < tokens && 0 <= h < heads ==> |cell[i][h]| == dim)
    }

    predicate SameShape(o: TokenMajor) {
      tokens == o.tokens && heads == o.heads && dim == o.dim
    }
  }

  // ---------------------------------------------------------------- the two transposes

  function ToTokenMajor(s: Stored, l: nat): (r: TokenMajor)
    requires s.Valid() && l < s.layers
    ensures r.Valid() && r.tokens == s.tokens && r.heads == s.heads && r.dim == s.dim
    ensures forall i, h :: 0 <= i < s.tokens && 0 <= h < s.heads ==> r.cell[i][h] == s.cell[l][h][i]
  {
    TokenMajor(s.tokens, s.heads, s.dim,
               seq(s.tokens, i requires 0 <= i < s.tokens =>
                 seq(s.heads, h requires 0 <= h < s.heads => s.cell[l][h][i])))
  }

  function CartridgeToTokenMajor(keys: Stored, values: Stored): (r: Result<(seq<TokenMajor>, seq<TokenMajor>), string>)
    requires keys.Valid() && values.Valid()
    ensures r.Ok? ==> |r.value.0| == keys.layers && |r.value.1| == values.layers &&
                      (forall l :: 0 <= l < keys.layers ==> r.value.0[l] == ToTokenMajor(keys, l)) &&
                      (forall l :: 0 <= l < values.layers ==> r.value.1[l] == ToTokenMajor(values, l))
  {
    if keys.layers != values.layers || keys.heads != values.heads
       || keys.tokens != values.tokens || keys.dim != values.dim then
      Err("keys/values shape mismatch")
    else
      Ok((seq(keys.layers, l requires 0 <= l < keys.layers => ToTokenMajor(keys, l)),
          seq(values.layers, l requires 0 <= l < values.layers => ToTokenMajor(values, l))))
  }

  /** Stacking refuses an empty list and layers of different shapes. */
  function Stack(ls: seq<TokenMajor>): (r: Result<Stored, string>)
    requires forall l :: 0 <= l < |ls| ==> ls[l].Valid()
    ensures r.Ok? <==> ls != [] && forall l :: 0 <= l < |ls| ==> ls[l].SameShape(ls[0])
    ensures r.Ok? ==> r.value.Valid() && r.value.layers == |ls|
  {
    if ls == [] then Err("need at least one array to stack")
    else if exists l :: 0 <= l < |ls| && !ls[l].SameShape(ls[0]) then Err("all input arrays must have the same shape")
    else
      assert forall l :: 0 <= l < |ls| ==> ls[l].SameShape(ls[0]);
      Ok(Stored(|ls|, ls[0].heads, ls[0].tokens, ls[0].dim,
                seq(|ls|, l requires 0 <= l < |ls| => HeadsMajor(ls[l]))))
  }

  function HeadsMajor(t: TokenMajor): (r: seq<seq<Vec>>)
    requires t.Valid()
    ensures |r| == t.heads && (forall h :: 0 <= h < t.heads ==> |r[h]| == t.tokens)
    ensures forall h, i :: 0 <= h < t.heads && 0 <= i < t.tokens ==> r[h][i] == t.cell[i][h] && |r[h][i]| == t.dim
  {
    seq(t.heads, h requires 0 <= h < t.heads => seq(t.tokens, i requires 0 <= i < t.tokens => t.cell[i][h]))
  }

  function TokenMajorToCartridge(ks: seq<TokenMajor>, vs: seq<TokenMajor>): Result<(Stored, Stored), string>
    requires forall l :: 0 <= l < |ks| ==> ks[l].Valid()
    requires forall l :: 0 <= l < |vs| ==> vs[l].Valid()
  {
    if |ks| != |vs| then Err("k_layers/v_layers length mismatch")
    else
      match (Stack(ks), Stack(vs))
      case (Ok(k), Ok(v)) => Ok((k, v))
      case (Err(e), _) => Err(e)
      case (_, Err(e)) => Err(e)
  }

  lemma StackInverts(s: Stored, ls: seq<TokenMajor>)
    requires s.Valid() && s.layers > 0 && |ls| == s.layers
    requires forall l :: 0 <= l < s.layers ==> ls[l] == ToTokenMajor(s, l) && ls[l].Valid()
    ensures Stack(ls) == Ok(s)
  {
    var r := Stack(ls).value;
    forall l | 0 <= l < s.layers ensures r.cell[l] == s.cell[l] {
      forall h | 0 <= h < s.heads ensures r.cell[l][h] == s.cell[l][h] {
        assert forall i :: 0 <= i < s.tokens ==> r.cell[l][h][i] == s.cell[l][h][i];
      }
    }
    assert r.cell == s.cell;
  }

  /** The transposes are inverse, except that a cartridge of no layers cannot be stacked again. */
  lemma TransposeRoundTrip(keys: Stored, values: Stored)
    requires keys.Valid() && values.Valid() && CartridgeToTokenMajor(keys, values).Ok?
    ensures var tm := CartridgeToTokenMajor(keys, values).value;
            TokenMajorToCartridge(tm.0, tm.1) == Ok((keys, values)) <==> keys.layers > 0
  {
    var tm := CartridgeToTokenMajor(keys, values).value;
    if keys.layers > 0 {
      StackInverts(keys, tm.0);
      StackInverts(values, tm.1);
    }
  }

  lemma MajorInverts(s: Stored, ls: seq<TokenMajor>, l: nat)
    requires (forall k :: 0 <= k < |ls| ==> ls[k].Valid()) && Stack(ls) == Ok(s) && l < |ls|
    ensures s.Valid() && s.layers == |ls| && s.tokens == ls[0].tokens && s.heads == ls[0].heads && s.dim == ls[0].dim
    ensures ToTokenMajor(s, l) == ls[l]
  {
    assert ls[l].SameShape(ls[0]);
    var t := ToTokenMajor(s, l);
    forall i | 0 <= i < ls[l].tokens ensures t.cell[i] == ls[l].cell[i] {
      assert forall h :: 0 <= h < ls[l].heads ==> t.cell[i][h] == ls[l].cell[i][h];
    }
    assert t.cell == ls[l].cell;
  }

  /** All layers of keys and of values have one shape, and there is at least one. */
  ghost predicate OneShape(ks: seq<TokenMajor>, vs: seq<TokenMajor>) {
    && |ks| == |vs| && ks != []
    && forall l :: 0 <= l < |ks| ==> ks[l].SameShape(ks[0]) && vs[l].SameShape(ks[0])
  }

  lemma OneShapeStacks(ks: seq<TokenMajor>, vs: seq<TokenMajor>)
    requires (forall l :: 0 <= l < |ks| ==> ks[l].Valid()) && forall l :: 0 <= l < |vs| ==> vs[l].Valid()
    requires OneShape(ks, vs)
    ensures Stack(ks).Ok? && Stack(vs).Ok? && vs[0].SameShape(ks[0])
  {
    assert vs[0].SameShape(ks[0]);
  }

  /** The other way round: stacking can be undone exactly when keys and values share one shape. */
  lemma StackRoundTrip(ks: seq<TokenMajor>, vs: seq<TokenMajor>)
    requires (forall l :: 0 <= l < |ks| ==> ks[l].Valid()) && forall l :: 0 <= l < |vs| ==> vs[l].Valid()
    ensures var r := TokenMajorToCartridge(ks, vs);
            (r.Ok? && r.value.0.Valid() && r.value.1.Valid() &&
             CartridgeToTokenMajor(r.value.0, r.value.1) == Ok((ks, vs))) <==> OneShape(ks, vs)
  {
    if OneShape(ks, vs) { OneShapeStacks(ks, vs); }
    var r := TokenMajorToCartridge(ks, vs);
    if r.Ok? {
      var (k, v) := r.value;
      forall l | 0 <= l < |ks| ensures ToTokenMajor(k, l) == ks[l] && ToTokenMajor(v, l) == vs[l] {
        MajorInverts(k, ks, l);
        MajorInverts(v, vs, l);
      }
      MajorInverts(k, ks, 0);
      MajorInverts(v, vs, 0);
      if OneShape(ks, vs) {
        assert vs[0].SameShape(ks[0]);
        var tm := CartridgeToTokenMajor(k, v).value;
        assert tm.0 == ks && tm.1 == vs;
      } else {
        assert forall l :: 0 <= l < |ks| ==> ks[l].SameShape(ks[0]) && vs[l].SameShape(vs[0]);
        assert !vs[0].SameShape(ks[0]);
      }
    }
  }

  /** Keys of dimension 1 and values of dimension 2: stacked without complaint, refused on the way back. */
  lemma StackMisses()
    ensures var ks, vs := [TokenMajor(0, 1, 1, [])], [TokenMajor(0, 1, 2, [])];
            && ks[0].Valid() && vs[0].Valid()
            && TokenMajorToCartridge(ks, vs).Ok?
            && var r := TokenMajorToCartridge(ks, vs).value;
               r.0.Valid() && r.1.Valid() && CartridgeToTokenMajor(r.0, r.1).Err?
  {
    var ks, vs := [TokenMajor(0, 1, 1, [])], [TokenMajor(0, 1, 2, [])];
    assert ks[0].SameShape(ks[0]) && vs[0].SameShape(vs[0]);
    var r := TokenMajorToCartridge(ks, vs).value;
    MajorInverts(r.0, ks, 0);
    MajorInverts(r.1, vs, 0);
  }

  // ---------------------------------------------------------------- blocks

  /** cell[block][offset][head] of one layer. */
  datatype Paged = Paged(blocks: nat, blockSize: nat, heads: nat, dim: nat, cell: seq<seq<seq<Vec>>>)

  function ZeroRow(heads: nat, dim: nat): (r: seq<Vec>)
    ensures |r| == heads
  {
    seq(heads, _ => seq(dim, _ => 0.0))
  }

  /** Just enough blocks; slot i is token i, and every slot after the last token is zero. */
  ghost predicate Packs(t: TokenMajor, size: nat, p: Paged)
    requires t.Valid() && size > 0
  {
    && p.blockSize == size && p.heads == t.heads && p.dim == t.dim && |p.cell| == p.blocks
    && (p.blocks - 1) * size < t.tokens <= p.blocks * size
    && (forall b :: 0 <= b < p.blocks ==> |p.cell[b]| == size)
    && forall b, o :: 0 <= b < p.blocks && 0 <= o < size ==>
         p.cell[b][o] == if b * size + o < t.tokens then t.cell[b * size + o] else ZeroRow(t.heads, t.dim)
  }

  /** The slots as one row: the token rows first, zeros after. */
  ghost predicate Laid(t: TokenMajor, slots: seq<seq<Vec>>) {
    t.Valid() && |slots| >= t.tokens &&
    forall i :: 0 <= i < |slots| ==> slots[i] == if i < t.tokens then t.cell[i] else ZeroRow(t.heads, t.dim)
  }

  method PackIntoBlocks(t: TokenMajor, blockSize: int) returns (r: Result<Paged, string>)
    requires t.Valid()
    ensures r.Err? <==> blockSize <= 0
    ensures r.Ok? ==> Packs(t, blockSize, r.value)
  {
    if blockSize <= 0 { return Err("block_size must be positive"); }
    var size: nat := blockSize;
    var n := (t.tokens + size - 1) / size;
    CeilDiv(t.tokens, size);
    assert n * size < t.tokens + size && (n - 1) * size == n * size - size;
    var out := new seq<Vec>[n * size](_ => ZeroRow(t.heads, t.dim));
    forall i | 0 <= i < t.tokens { out[i] := t.cell[i]; }
    var cell := Reshape(t, out[..], n, size);
    r := Ok(Paged(n, size, t.heads, t.dim, cell));
  }

  /** The same slots seen as blocks. */
  method Reshape(ghost t: TokenMajor, slots: seq<seq<Vec>>, n: nat, size: nat) returns (cell: seq<seq<seq<Vec>>>)
    requires |slots| == n * size && Laid(t, slots)
    ensures |cell| == n && forall b :: 0 <= b < n ==> |cell[b]| == size
    ensures forall b, o :: 0 <= b < n && 0 <= o < size ==>
              cell[b][o] == if b * size + o < t.tokens then t.cell[b * size + o] else ZeroRow(t.heads, t.dim)
  {
    cell := [];
    for b := 0 to n
      invariant |cell| == b && forall c :: 0 <= c < b ==> |cell[c]| == size
      invariant forall c, o :: 0 <= c < b && 0 <= o < size ==>
                  cell[c][o] == if c * size + o < t.tokens then t.cell[c * size + o] else ZeroRow(t.heads, t.dim)
    {
      MulLe(b + 1, n, size);
      assert (b + 1) * size == b * size + size;
      var block := slots[b * size..(b + 1) * size];
      assert forall o :: 0 <= o < size ==> block[o] == slots[b * size + o];
      cell := cell + [block];
    }
  }

  /** Reading slot i at block i / size, offset i % size. */
  function Slot(p: Paged, i: nat): seq<Vec>
    requires p.blockSize > 0 && i / p.blockSize < |p.cell| && i % p.blockSize < |p.cell[i / p.blockSize]|
  {
    p.cell[i / p.blockSize][i % p.blockSize]
  }

  lemma SlotExists(blocks: nat, size: nat, i: nat)
    requires size > 0 && i < blocks * size
    ensures i / size < blocks && i % size < size && i == (i / size) * size + i % size
  {
    DivModSplit(i, size);
    MulLe(blocks, i / size, size);
  }

  lemma SlotAt(t: TokenMajor, size: nat, p: Paged, b: nat, o: nat, i: nat)
    requires t.Valid() && size > 0 && Packs(t, size, p) && b < p.blocks && o < size && i == b * size + o
    ensures p.blockSize == size && |p.cell| == p.blocks && |p.cell[b]| == size && (i < t.tokens ==> i < |t.cell|)
    ensures p.cell[b][o] == if i < t.tokens then t.cell[i] else ZeroRow(t.heads, t.dim)
  {}

  lemma SlotIs(t: TokenMajor, size: nat, p: Paged, i: nat)
    requires t.Valid() && size > 0 && Packs(t, size, p) && i < p.blocks * size
    ensures p.blockSize == size && i / size < |p.cell| && i % size < |p.cell[i / size]|
    ensures i < t.tokens ==> i < |t.cell|
    ensures Slot(p, i) == if i < t.tokens then t.cell[i] else ZeroRow(t.heads, t.dim)
  {
    hide Packs, TokenMajor.Valid;
    SlotExists(p.blocks, size, i);
    SlotAt(t, size, p, i / size, i % size, i);
  }

  /** Packing determines the blocks: there is only one way to page a layer. */
  lemma PacksUnique(t: TokenMajor, size: nat, p: Paged, q: Paged)
    requires t.Valid() && size > 0 && Packs(t, size, p) && Packs(t, size, q)
    ensures p == q
  {
    MulLe(p.blocks, q.blocks - 1, size);
    MulLe(q.blocks, p.blocks - 1, size);
    forall b | 0 <= b < p.blocks ensures p.cell[b] == q.cell[b] {
      assert forall o :: 0 <= o < size ==> p.cell[b][o] == q.cell[b][o];
    }
    assert p.cell == q.cell;
  }

  /** The first `tokens` slots read back as a token-major layer. */
  function Unpack(p: Paged, tokens: nat): TokenMajor
    requires p.blockSize > 0 && tokens <= p.blocks * p.blockSize
    requires |p.cell| == p.blocks && forall b :: 0 <= b < p.blocks ==> |p.cell[b]| == p.blockSize
  {
    TokenMajor(tokens, p.heads, p.dim,
               seq(tokens, i requires 0 <= i < tokens =>
                 SlotExists(p.blocks, p.blockSize, i);
                 Slot(p, i)))
  }

  lemma UnpackInverts(t: TokenMajor, size: nat, p: Paged)
    requires t.Valid() && size > 0 && Packs(t, size, p)
    ensures Unpack(p, t.tokens) == t
  {
    hide Slot;
    forall i | 0 <= i < t.tokens ensures Unpack(p, t.tokens).cell[i] == t.cell[i] {
      SlotIs(t, size, p, i);
    }
  }

  ghost predicate AllPacked(s: Stored, size: nat, ps: seq<Paged>)
    requires s.Valid() && size > 0
  {
    |ps| == s.layers && forall l :: 0 <= l < s.layers ==> Packs(ToTokenMajor(s, l), size, ps[l])
  }

  function UnpackAll(ps: seq<Paged>, tokens: nat, size: nat): seq<TokenMajor>
    requires size > 0
    requires forall l :: 0 <= l < |ps| ==>
               ps[l].blockSize == size && tokens <= ps[l].blocks * size && |ps[l].cell| == ps[l].blocks &&
               forall b :: 0 <= b < ps[l].blocks ==> |ps[l].cell[b]| == size
  {
    seq(|ps|, l requires 0 <= l < |ps| => Unpack(ps[l], tokens))
  }

  /** From storage through blocks and back: every key and value returns, for every shape and block size. */
  lemma PagedRoundTrip(keys: Stored, values: Stored, size: nat, kp: seq<Paged>, vp: seq<Paged>)
    requires keys.Valid() && values.Valid() && CartridgeToTokenMajor(keys, values).Ok? && keys.layers > 0
    requires size > 0 && AllPacked(keys, size, kp) && AllPacked(values, size, vp)
    ensures var ks, vs := UnpackAll(kp, keys.tokens, size), UnpackAll(vp, values.tokens, size);
            && (forall l :: 0 <= l < |ks| ==> ks[l].Valid())
            && (forall l :: 0 <= l < |vs| ==> vs[l].Valid())
            && TokenMajorToCartridge(ks, vs) == Ok((keys, values))
  {
    hide Packs, Unpack, Stack;
    UnpackAllInverts(keys, size, kp);
    UnpackAllInverts(values, size, vp);
    StackInverts(keys, UnpackAll(kp, keys.tokens, size));
    StackInverts(values, UnpackAll(vp, values.tokens, size));
  }

  lemma UnpackAllInverts(s: Stored, size: nat, ps: seq<Paged>)
    requires s.Valid() && size > 0 && AllPacked(s, size, ps)
    ensures forall l :: 0 <= l < |ps| ==>
              ps[l].blockSize == size && s.tokens <= ps[l].blocks * size && |ps[l].cell| == ps[l].blocks &&
              forall b :: 0 <= b < ps[l].blocks ==> |ps[l].cell[b]| == size
    ensures |UnpackAll(ps, s.tokens, size)| == s.layers
    ensures forall l :: 0 <= l < s.layers ==> UnpackAll(ps, s.tokens, size)[l] == ToTokenMajor(s, l)
  {
    forall l | 0 <= l < s.layers ensures Unpack(ps[l], s.tokens) == ToTokenMajor(s, l) {
      UnpackInverts(ToTokenMajor(s, l), size, ps[l]);
    }
  }
}
