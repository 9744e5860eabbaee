/**
 The memory-mapped blob: magic, header length, header, padding to the alignment, then every layer's keys and
 every layer's values in storage precision. The writer packs the payload in parallel, the loader maps it back.
 */
module Blob {
  import opened Arith
  import opened FloatCodec
  import opened Wrappers

  type Byte = b: nat | b < 256

  // ---------------------------------------------------------------- little-endian words

  function ToLittle(n: nat, k: nat): (r: seq<Byte>)
    ensures |r| == k
  {
    if k == 0 then [] else [n % 256] + ToLittle(n / 256, k - 1)
  }

  function FromLittle(s: seq<Byte>): nat {
    if s == [] then 0 else s[0] + 256 * FromLittle(s[1..])
  }

  function Range(k: nat): nat {
    if k == 0 then 1 else 256 * Range(k - 1)
  }

  lemma {:induction false} LittleRoundTrip(n: nat, k: nat)
    requires n < Range(k)
    ensures FromLittle(ToLittle(n, k)) == n
  {
    if k > 0 {
      LittleRoundTrip(n / 256, k - 1);
      assert ToLittle(n, k)[1..] == ToLittle(n / 256, k - 1);
    }
  }

  /** Byte i of the word is the i-th from the low end. */
  lemma {:induction false} LittleByte(n: nat, k: nat, i: nat)
    requires i < k
    ensures Range(i) > 0 && ToLittle(n, k)[i] == (n / Range(i)) % 256
  {
    if i > 0 {
      LittleByte(n / 256, k - 1, i - 1);
      DivTwice(n, 256, Range(i - 1));
    }
  }

  lemma DivTwice(n: nat, a: nat, b: nat)
    requires a > 0 && b > 0
    ensures a * b > 0 && (n / a) / b == n / (a * b)
  {
    var q, x := n / a, n % a;
    var p, y := q / b, q % b;
    DivModSplit(n, a);
    DivModSplit(q, b);
    MulLe(y + 1, b, a);
    assert n == p * (a * b) + (y * a + x) by {
      assert q * a == (p * b) * a + y * a;
      assert (p * b) * a == p * (a * b);
    }
    assert y * a + x < a * b by { assert (y + 1) * a == y * a + a; }
    DivModUnique(n, p, y * a + x, a * b);
  }

  lemma Ranges()
    ensures Range(2) == TWO16 && Range(4) == TWO32 && Range(8) == TWO32 * TWO32
  {
    assert Range(4) == 256 * Range(3) && Range(3) == 256 * Range(2);
    assert Range(8) == 256 * Range(7) && Range(7) == 256 * Range(6) && Range(6) == 256 * Range(5);
  }

  // ---------------------------------------------------------------- storage precision

  function ElemSize(dtype: string): Result<nat, string> {
    if dtype == "float32" then Ok(4)
    else if dtype == "float16" || dtype == "bfloat16" then Ok(2)
    else Err("unknown store_dtype")
  }

  predicate Known(dtype: string) { ElemSize(dtype).Ok? }

  function Width(dtype: string): (r: nat)
    requires Known(dtype)
    ensures r == if dtype == "float32" then 4 else 2
  {
    ElemSize(dtype).value
  }

  /** The stored word of one element. */
  function Store(dtype: string, v: Bits32): nat {
    if dtype == "float32" then v
    else if dtype == "float16" then Sign(v) * 0x8000 + HalfMagnitude(Magnitude(v))
    else F32ToBf16Bits(v)
  }

  /** The 32-bit pattern that the loader widens a stored word to. */
  function Widen(dtype: string, w: nat): nat
    requires Known(dtype)
  {
    if dtype == "float32" then w
    else if dtype == "float16" then w / 0x8000 * TWO31 + WidenHalfMagnitude(w % 0x8000)
    else w * TWO16
  }

  lemma StoreFits(dtype: string, v: Bits32)
    requires Known(dtype)
    ensures Store(dtype, v) < Range(Width(dtype))
  {
    Ranges();
    hide RoundEven, Range;
    var m := Magnitude(v);
    if 113 * TWO23 <= m < 143 * TWO23 { RoundBelow(m - 112 * TWO23, 8192, 0x7bff); }
  }

  lemma RoundBelow(m: nat, block: nat, q: nat)
    requires block > 0 && m < (q + 1) * block
    ensures RoundEven(m, block) <= q + 1
  {
    DivModSplit(m, block);
    MulLe(q + 1, m / block, block);
  }

  /** The stored word keeps the sign and rounds the magnitude to the nearest number of the format, ties to even: always
      for bf16, and for half precision exactly outside the magnitudes that it flushes to zero. */
  lemma StoreRounds(dtype: string, v: Bits32)
    requires Known(dtype)
    ensures dtype == "float32" ==> Store(dtype, v) == v
    ensures dtype == "bfloat16" && Magnitude(v) < F32_INF ==>
              Store(dtype, v) / 0x8000 == Sign(v) &&
              CorrectlyRounded(ValueBf16, BF16_INF, Value32(Magnitude(v)), Store(dtype, v) % 0x8000)
    ensures dtype == "float16" ==>
              && Store(dtype, v) / 0x8000 == Sign(v)
              && (Magnitude(v) < F32_INF ==>
                  (CorrectlyRounded(ValueHalf, HALF_INF, Value32(Magnitude(v)), Store(dtype, v) % 0x8000) <==>
                   Magnitude(v) <= 102 * TWO23 || Magnitude(v) >= 113 * TWO23))
              && (102 * TWO23 < Magnitude(v) < 113 * TWO23 ==> Store(dtype, v) % 0x8000 == 0)
              && (Magnitude(v) >= F32_INF ==> Store(dtype, v) % 0x8000 == HALF_INF)
  {
    hide CorrectlyRounded, RoundEven;
    if dtype == "bfloat16" && Magnitude(v) < F32_INF { Bf16Rounds(v); }
    if dtype == "float16" {
      HalfWord(v);
      if Magnitude(v) < F32_INF { HalfRoundsIff(v); }
    }
  }

  /** Sign and magnitude of a stored half. */
  lemma HalfWord(v: Bits32)
    ensures HalfMagnitude(Magnitude(v)) <= HALF_INF
    ensures Store("float16", v) / 0x8000 == Sign(v) && Store("float16", v) % 0x8000 == HalfMagnitude(Magnitude(v))
  {
    hide HalfMagnitude;
    WidenUndoesHalfIff(Magnitude(v));
    DivModUnique(Store("float16", v), Sign(v), HalfMagnitude(Magnitude(v)), 0x8000);
  }

  /** Values that the format holds exactly: every float32, a bf16 with its low bits zero, zeros, infinities and normal
      numbers of half precision. */
  predicate Holds(dtype: string, v: Bits32)
    requires Known(dtype)
  {
    if dtype == "float32" then true else if dtype == "float16" then IsHalf(Magnitude(v)) else v % TWO16 == 0
  }

  /** Widening gives the input back exactly on the values that the format holds. */
  lemma WidenInverts(dtype: string, v: Bits32)
    requires Known(dtype)
    ensures Widen(dtype, Store(dtype, v)) == v <==> Holds(dtype, v)
  {
    hide HalfMagnitude, WidenHalfMagnitude, IsHalf, F32ToBf16Bits;
    if dtype == "bfloat16" {
      if v % TWO16 == 0 {
        DivModSplit(v, TWO16);
        Bf16Identity(v / TWO16);
      } else {
        DivModUnique(F32ToBf16Bits(v) * TWO16, F32ToBf16Bits(v), 0, TWO16);
      }
    } else if dtype == "float16" {
      HalfWord(v);
      WidenUndoesHalfIff(Magnitude(v));
      DivModSplit(v, TWO31);
    }
  }

  function PackOne(dtype: string, v: Bits32): (r: seq<Byte>)
    requires Known(dtype)
    ensures |r| == Width(dtype)
  {
    ToLittle(Store(dtype, v), Width(dtype))
  }

  function Pack(dtype: string, s: seq<Bits32>): (r: seq<Byte>)
    requires Known(dtype)
    ensures |r| == |s| * Width(dtype)
  {
    if s == [] then [] else Pack(dtype, s[..|s| - 1]) + PackOne(dtype, s[|s| - 1])
  }

  /** Element k of a packed run is its own chunk. */
  lemma {:induction false} PackAt(dtype: string, s: seq<Bits32>, k: nat)
    requires Known(dtype) && k < |s|
    ensures 0 <= k * Width(dtype) <= (k + 1) * Width(dtype) <= |s| * Width(dtype)
    ensures Pack(dtype, s)[k * Width(dtype)..(k + 1) * Width(dtype)] == PackOne(dtype, s[k])
  {
    var w, m := Width(dtype), |s| - 1;
    MulLe(k + 1, |s|, w);
    MulLe(k, k + 1, w);
    if k < m {
      PackAt(dtype, s[..m], k);
      assert Pack(dtype, s)[..m * w] == Pack(dtype, s[..m]);
    }
  }

  // ---------------------------------------------------------------- slabs

  function Flat<T>(slabs: seq<seq<T>>): seq<T> {
    if slabs == [] then [] else Flat(slabs[..|slabs| - 1]) + slabs[|slabs| - 1]
  }

  /** Index of a slab's first element in the payload. */
  function Start<T>(slabs: seq<seq<T>>, i: nat): (r: nat)
    requires i <= |slabs|
  {
    |Flat(slabs[..i])|
  }

  lemma {:induction false} FlatConcat<T>(a: seq<seq<T>>, b: seq<seq<T>>)
    ensures Flat(a + b) == Flat(a) + Flat(b)
  {
    if b == [] {
      assert a + b == a;
    } else {
      var m := |b| - 1;
      FlatConcat(a, b[..m]);
      assert (a + b)[..|a + b| - 1] == a + b[..m];
    }
  }

  /** The regions of the slabs follow one another and lie inside the payload. */
  lemma RegionsDisjoint<T>(slabs: seq<seq<T>>, i: nat, j: nat)
    requires i < j <= |slabs|
    ensures Start(slabs, i) + |slabs[i]| == Start(slabs, i + 1) <= Start(slabs, j) <= |Flat(slabs)|
  {
    assert slabs[..i + 1][..i] == slabs[..i];
    assert slabs[..j] == slabs[..i + 1] + slabs[i + 1..j];
    FlatConcat(slabs[..i + 1], slabs[i + 1..j]);
    assert slabs == slabs[..j] + slabs[j..];
    FlatConcat(slabs[..j], slabs[j..]);
  }

  lemma FlatRegion<T>(slabs: seq<seq<T>>, i: nat)
    requires i < |slabs|
    ensures Start(slabs, i) + |slabs[i]| <= |Flat(slabs)|
    ensures Flat(slabs)[Start(slabs, i)..Start(slabs, i) + |slabs[i]|] == slabs[i]
  {
    RegionsDisjoint(slabs, i, i + 1);
    assert slabs == slabs[..i + 1] + slabs[i + 1..];
    FlatConcat(slabs[..i + 1], slabs[i + 1..]);
    assert slabs[..i + 1][..i] == slabs[..i];
  }

  /** Every payload element lies in one of the regions. */
  lemma {:induction false} Locate<T>(slabs: seq<seq<T>>, k: nat) returns (i: nat, j: nat)
    requires k < |Flat(slabs)|
    ensures i < |slabs| && j < |slabs[i]| && k == Start(slabs, i) + j
  {
    var m := |slabs| - 1;
    if k < |Flat(slabs[..m])| {
      i, j := Locate(slabs[..m], k);
      assert slabs[..m][..i] == slabs[..i];
    } else {
      i, j := m, k - |Flat(slabs[..m])|;
    }
  }

  // ---------------------------------------------------------------- the parallel packing

  /** One unit of parallel work: element `elem` of slab `slab`. */
  datatype Chunk = Chunk(slab: nat, elem: nat)

  /** A schedule does every chunk at least once, in whatever order the workers take them. */
  ghost predicate Covers(schedule: seq<Chunk>, slabs: seq<seq<Bits32>>) {
    && (forall t :: t in schedule ==> t.slab < |slabs| && t.elem < |slabs[t.slab]|)
    && forall i, j :: 0 <= i < |slabs| && 0 <= j < |slabs[i]| ==> Chunk(i, j) in schedule
  }

  function Place(slabs: seq<seq<Bits32>>, t: Chunk, width: nat): nat
    requires t.slab < |slabs|
  {
    (Start(slabs, t.slab) + t.elem) * width
  }

  lemma ChunkInTarget(dtype: string, slabs: seq<seq<Bits32>>, t: Chunk)
    requires Known(dtype) && t.slab < |slabs| && t.elem < |slabs[t.slab]|
    ensures var at, w := Place(slabs, t, Width(dtype)), Width(dtype);
            at + w <= |Flat(slabs)| * w && Pack(dtype, Flat(slabs))[at..at + w] == PackOne(dtype, slabs[t.slab][t.elem])
  {
    hide Flat, Pack, PackOne, Width, Start;
    var from := Start(slabs, t.slab);
    FlatRegion(slabs, t.slab);
    assert Flat(slabs)[from + t.elem] == Flat(slabs)[from..from + |slabs[t.slab]|][t.elem];
    PackAt(dtype, Flat(slabs), from + t.elem);
    MulStep(from + t.elem, Width(dtype));
  }

  /** The part of the payload that a chunk writes holds its final bytes. */
  ghost predicate Written(payload: seq<Byte>, target: seq<Byte>, at: nat, width: nat) {
    at + width <= |payload| == |target| && payload[at..at + width] == target[at..at + width]
  }

  /** Overwriting with final bytes keeps every finished chunk finished. */
  lemma WriteKeeps(before: seq<Byte>, after: seq<Byte>, target: seq<Byte>, at: nat, width: nat, other: nat)
    requires Written(before, target, other, width) && |after| == |target|
    requires forall p :: 0 <= p < |target| ==> after[p] == before[p] || after[p] == target[p]
    ensures Written(after, target, other, width)
  {
    assert forall p :: other <= p < other + width ==> before[p] == before[other..other + width][p - other];
    forall p | other <= p < other + width ensures after[p] == target[p] {
      assert target[p] == target[other..other + width][p - other];
    }
  }

  /** All chunks finished means every byte is final. */
  lemma AllWritten(dtype: string, slabs: seq<seq<Bits32>>, schedule: seq<Chunk>, payload: seq<Byte>)
    requires Known(dtype) && Covers(schedule, slabs)
    requires |payload| == |Flat(slabs)| * Width(dtype)
    requires forall t :: t in schedule ==>
             Written(payload, Pack(dtype, Flat(slabs)), Place(slabs, t, Width(dtype)), Width(dtype))
    ensures payload == Pack(dtype, Flat(slabs))
  {
    hide Pack, Flat, Covers, Written;
    forall p | 0 <= p < |payload| ensures payload[p] == Pack(dtype, Flat(slabs))[p] {
      ByteWritten(dtype, slabs, schedule, payload, p);
    }
  }

  lemma ByteWritten(dtype: string, slabs: seq<seq<Bits32>>, schedule: seq<Chunk>, payload: seq<Byte>, p: nat)
    requires Known(dtype) && Covers(schedule, slabs)
    requires p < |payload| == |Flat(slabs)| * Width(dtype)
    requires forall t :: t in schedule ==>
             Written(payload, Pack(dtype, Flat(slabs)), Place(slabs, t, Width(dtype)), Width(dtype))
    ensures payload[p] == Pack(dtype, Flat(slabs))[p]
  {
    hide Pack, Flat, Width, Start;
    var target, w := Pack(dtype, Flat(slabs)), Width(dtype);
    DivModSplit(p, w);
    MulLe(|Flat(slabs)|, p / w, w);
    var i, j := Locate(slabs, p / w);
    var t := Chunk(i, j);
    assert t in schedule;
    var at := Place(slabs, t, w);
    assert at == (p / w) * w;
    assert Written(payload, target, at, w);
    assert payload[p] == payload[at..at + w][p - at] && target[p] == target[at..at + w][p - at];
  }

  /** Packs the slabs into their regions of the zeroed buffer, chunk by chunk in the order of the schedule. */
  method PackRegions(dtype: string, slabs: seq<seq<Bits32>>, payload: array<Byte>, schedule: seq<Chunk>)
    requires Known(dtype) && Covers(schedule, slabs) && payload.Length == |Flat(slabs)| * Width(dtype)
    modifies payload
    ensures payload[..] == Pack(dtype, Flat(slabs))
  {
    hide Pack, Written, Place;
    var w := Width(dtype);
    ghost var target := Pack(dtype, Flat(slabs));
    for n := 0 to |schedule|
      invariant forall t :: t in schedule[..n] ==> Written(payload[..], target, Place(slabs, t, w), w)
    {
      ghost var before := payload[..];
      var t := schedule[n];
      PackChunk(dtype, slabs, t, payload);
      forall u | u in schedule[..n + 1] ensures Written(payload[..], target, Place(slabs, u, w), w) {
        if u != t {
          assert u in schedule[..n];
          WriteKeeps(before, payload[..], target, Place(slabs, t, w), w, Place(slabs, u, w));
        }
      }
    }
    assert schedule[..|schedule|] == schedule;
    AllWritten(dtype, slabs, schedule, payload[..]);
  }

  /** One chunk: the bytes of one element, at its place in its region. */
  method PackChunk(dtype: string, slabs: seq<seq<Bits32>>, t: Chunk, payload: array<Byte>)
    requires Known(dtype) && payload.Length == |Flat(slabs)| * Width(dtype)
    requires t.slab < |slabs| && t.elem < |slabs[t.slab]|
    modifies payload
    ensures var target := Pack(dtype, Flat(slabs));
            && Written(payload[..], target, Place(slabs, t, Width(dtype)), Width(dtype))
            && forall p :: 0 <= p < payload.Length ==> payload[p] == old(payload[p]) || payload[p] == target[p]
  {
    var w := Width(dtype);
    var at := Place(slabs, t, w);
    var chunk := PackOne(dtype, slabs[t.slab][t.elem]);
    ChunkInTarget(dtype, slabs, t);
    ghost var target := Pack(dtype, Flat(slabs));
    hide Pack, PackOne, Place, Flat;
    assert forall b :: 0 <= b < w ==> chunk[b] == target[at..at + w][b];
    forall b | 0 <= b < w { payload[at + b] := chunk[b]; }
    ghost var got := payload[at..at + w];
    forall b | 0 <= b < w ensures got[b] == chunk[b] {
      assert payload[at + b] == chunk[b];
    }
    assert got == chunk;
  }

  // ---------------------------------------------------------------- the file

  /** The writer's padding after `written` bytes. */
  function Pad(written: nat, align: nat): nat
    requires align > 0
  {
    (align - written % align) % align
  }

  /** The loader's padding, by the remainder of a negative number. */
  function LoaderPad(off: int, align: nat): (r: nat)
    requires align > 0
  {
    (-off) % align
  }

  /** The payload starts on the next multiple of the alignment, which is also where the loader looks. */
  lemma PadAligns(written: nat, align: nat)
    requires align > 0
    ensures 0 <= Pad(written, align) < align
    ensures (written + Pad(written, align)) % align == 0
    ensures Pad(written, align) == LoaderPad(written, align)
  {
    var q, r := written / align, written % align;
    DivModSplit(written, align);
    if r == 0 {
      DivModUnique(align, 1, 0, align);
      DivModUnique(written, q, 0, align);
      DivModUnique(0 - written as int, -q, 0, align);
    } else {
      DivModUnique(align - r, 0, align - r, align);
      DivModUnique(written + align - r, q + 1, 0, align);
      DivModUnique(0 - written as int, -q - 1, align - r, align);
    }
  }

  function Layout(magic: seq<Byte>, header: seq<Byte>, payload: seq<Byte>, align: nat): seq<Byte>
    requires align > 0
  {
    var front := magic + ToLittle(|header|, 8) + header;
    front + seq(Pad(|front|, align), _ => 0) + payload
  }

  /** Packs under any schedule and lays the file out; an unknown storage type writes nothing. */
  method SaveBlob(magic: seq<Byte>, header: seq<Byte>, dtype: string, keys: seq<seq<Bits32>>, values: seq<seq<Bits32>>,
                  align: nat, schedule: seq<Chunk>)
    returns (r: Result<seq<Byte>, string>)
    requires align > 0 && Covers(schedule, keys + values)
    ensures r.Err? <==> dtype !in {"float32", "float16", "bfloat16"}
    ensures r.Ok? ==> r.value == Layout(magic, header, Pack(dtype, Flat(keys + values)), align)
  {
    var size := ElemSize(dtype);
    if size.Err? { return Err(size.error); }
    var slabs := keys + values;
    var total := 0;
    for i := 0 to |slabs|
      invariant total == Start(slabs, i)
    {
      RegionsDisjoint(slabs, i, i + 1);
      total := total + |slabs[i]|;
    }
    assert slabs[..|slabs|] == slabs;
    var payload := new Byte[total * size.value](_ => 0);
    PackRegions(dtype, slabs, payload, schedule);
    var file := magic;
    file := file + ToLittle(|header|, 8);
    file := file + header;
    var pad := (align - |file| % align) % align;
    if pad > 0 { file := file + seq(pad, _ => 0); }
    file := file + payload[..];
    r := Ok(file);
  }

  // ---------------------------------------------------------------- the loader

  /** What the header says about the payload. */
  datatype Shape = Shape(dtype: string, layers: nat, perLayer: nat)

  /** The stored words of every layer's keys and values. */
  datatype Loaded = Loaded(header: seq<Byte>, keys: seq<seq<nat>>, values: seq<seq<nat>>)

  function Words(bytes: seq<Byte>, width: nat, count: nat): (r: seq<nat>)
    requires |bytes| == count * width
    ensures |r| == count
  {
    seq(count, k requires 0 <= k < count =>
      MulLe(k, k + 1, width);
      MulLe(k + 1, count, width);
      FromLittle(bytes[k * width..(k + 1) * width]))
  }

  function Rows<T>(flat: seq<T>, layers: nat, perLayer: nat): seq<seq<T>>
    requires |flat| == layers * perLayer
  {
    seq(layers, l requires 0 <= l < layers =>
      MulLe(l, l + 1, perLayer);
      MulLe(l + 1, layers, perLayer);
      flat[l * perLayer..(l + 1) * perLayer])
  }

  /** describe is the header's text format, which only its writer and reader need to agree on. */
  function Load(file: seq<Byte>, magic: seq<Byte>, align: nat, describe: seq<Byte> -> Option<Shape>)
    : Result<Loaded, string>
    requires align > 0 && |magic| == 8
  {
    if |file| < 8 || file[..8] != magic then Err("not a blob")
    else if |file| < 16 || |file| < 16 + FromLittle(file[8..16]) then Err("truncated header")
    else
      var off := 16 + FromLittle(file[8..16]);
      var header := file[16..off];
      match describe(header)
      case None => Err("bad header")
      case Some(shape) =>
        var half := shape.layers * shape.perLayer;
        var start: nat := off + LoaderPad(off, align);
        match ElemSize(shape.dtype)
        case Err(e) => Err(e)
        case Ok(w) =>
          if |file| < start + (half + half) * w then Err("truncated payload")
          else
            var words := Words(file[start..start + (half + half) * w], w, half + half);
            Ok(Loaded(header, Rows(words[..half], shape.layers, shape.perLayer),
                      Rows(words[half..], shape.layers, shape.perLayer)))
  }

  /** A file is loaded exactly if it starts with the magic, holds the header that it announces, the header is understood
      and names a known format, and the whole payload follows the next multiple of the alignment. */
  lemma LoadsIff(file: seq<Byte>, magic: seq<Byte>, align: nat, describe: seq<Byte> -> Option<Shape>)
    requires align > 0 && |magic| == 8
    ensures Load(file, magic, align, describe).Ok? <==>
            && magic <= file && |file| >= 16 && |file| >= 16 + FromLittle(file[8..16])
            && var off := 16 + FromLittle(file[8..16]);
               var shape := describe(file[16..off]);
               && shape.Some? && shape.value.dtype in {"float32", "float16", "bfloat16"}
               && |file| >= off + Pad(off, align) +
                            2 * (shape.value.layers * shape.value.perLayer) * Width(shape.value.dtype)
  {
    hide FromLittle, Words, Rows;
    if |file| >= 16 { PadAligns(16 + FromLittle(file[8..16]), align); }
  }

  function StoreAll(dtype: string, s: seq<Bits32>): (r: seq<nat>)
    ensures |r| == |s|
  {
    seq(|s|, k requires 0 <= k < |s| => Store(dtype, s[k]))
  }

  function StoreSlabs(dtype: string, slabs: seq<seq<Bits32>>): (r: seq<seq<nat>>)
    ensures |r| == |slabs|
  {
    seq(|slabs|, i requires 0 <= i < |slabs| => StoreAll(dtype, slabs[i]))
  }

  /** Reading packed words gives back what was stored. */
  lemma WordsOfPack(dtype: string, s: seq<Bits32>)
    requires Known(dtype)
    ensures Words(Pack(dtype, s), Width(dtype), |s|) == StoreAll(dtype, s)
  {
    hide Pack, Store, Range;
    var w := Width(dtype);
    var words := Words(Pack(dtype, s), w, |s|);
    forall k | 0 <= k < |s| ensures words[k] == Store(dtype, s[k]) {
      PackAt(dtype, s, k);
      StoreFits(dtype, s[k]);
      LittleRoundTrip(Store(dtype, s[k]), w);
    }
  }

  lemma {:induction false} UniformSize<T>(slabs: seq<seq<T>>, p: nat)
    requires forall i :: 0 <= i < |slabs| ==> |slabs[i]| == p
    ensures |Flat(slabs)| == |slabs| * p
  {
    if slabs != [] {
      UniformSize(slabs[..|slabs| - 1], p);
      MulStep(|slabs| - 1, p);
    }
  }

  /** Cutting a flat run of equal slabs gives the slabs back. */
  lemma RowsOfFlat(dtype: string, slabs: seq<seq<Bits32>>, p: nat)
    requires forall i :: 0 <= i < |slabs| ==> |slabs[i]| == p
    ensures |Flat(slabs)| == |slabs| * p
    ensures Rows(StoreAll(dtype, Flat(slabs)), |slabs|, p) == StoreSlabs(dtype, slabs)
  {
    hide Store, StoreAll, Flat;
    UniformSize(slabs, p);
    forall l | 0 <= l < |slabs|
      ensures Rows(StoreAll(dtype, Flat(slabs)), |slabs|, p)[l] == StoreAll(dtype, slabs[l])
    {
      RowOfFlat(dtype, slabs, p, l);
    }
  }

  lemma RowOfFlat(dtype: string, slabs: seq<seq<Bits32>>, p: nat, l: nat)
    requires l < |slabs| && forall i :: 0 <= i < |slabs| ==> |slabs[i]| == p
    ensures 0 <= l * p <= (l + 1) * p <= |Flat(slabs)|
    ensures StoreAll(dtype, Flat(slabs))[l * p..(l + 1) * p] == StoreAll(dtype, slabs[l])
  {
    hide Store, Flat;
    UniformSize(slabs[..l], p);
    FlatRegion(slabs, l);
    var at := l * p;
    assert (l + 1) * p == at + p;
    assert at == Start(slabs, l);
    forall j | 0 <= j < p ensures StoreAll(dtype, Flat(slabs))[at..at + p][j] == StoreAll(dtype, slabs[l])[j] {
      assert Flat(slabs)[at..at + p][j] == slabs[l][j];
    }
  }

  lemma StoreAllSplit(dtype: string, a: seq<Bits32>, b: seq<Bits32>)
    ensures StoreAll(dtype, a + b)[..|a|] == StoreAll(dtype, a)
    ensures StoreAll(dtype, a + b)[|a|..] == StoreAll(dtype, b)
  {
    hide Store;
  }

  /** The fields of a laid-out file are where the loader reads them. */
  lemma LayoutFields(magic: seq<Byte>, header: seq<Byte>, payload: seq<Byte>, align: nat)
    requires align > 0 && |magic| == 8 && |header| < Range(8)
    ensures var file, off := Layout(magic, header, payload, align), 16 + |header|;
            var start := off + LoaderPad(off, align);
            && |file| == start + |payload| && file[..8] == magic && FromLittle(file[8..16]) == |header|
            && file[16..off] == header && file[start..] == payload
            && forall p :: off <= p < start ==> file[p] == 0
  {
    hide ToLittle, FromLittle, Range;
    var off := 16 + |header|;
    LittleRoundTrip(|header|, 8);
    PadAligns(off, align);
    var length := ToLittle(|header|, 8);
    var front := magic + length + header;
    assert |front| == off;
    var file := Layout(magic, header, payload, align);
    assert file[..off] == front;
    assert file[8..16] == front[8..16] == length;
    assert file[16..off] == front[16..] == header;
  }

  /** Print then parse: every header and every uniform set of slabs comes back, keys before values. */
  lemma LoadSaved(magic: seq<Byte>, header: seq<Byte>, shape: Shape, keys: seq<seq<Bits32>>, values: seq<seq<Bits32>>,
                  align: nat, describe: seq<Byte> -> Option<Shape>)
    requires align > 0 && |magic| == 8 && |header| < Range(8)
    requires describe(header) == Some(shape) && Known(shape.dtype)
    requires |keys| == |values| == shape.layers
    requires forall i :: 0 <= i < shape.layers ==> |keys[i]| == |values[i]| == shape.perLayer
    ensures Load(Layout(magic, header, Pack(shape.dtype, Flat(keys + values)), align), magic, align, describe) ==
            Ok(Loaded(header, StoreSlabs(shape.dtype, keys), StoreSlabs(shape.dtype, values)))
  {
    hide Layout, Pack, Flat, StoreAll, StoreSlabs, Words, Rows, FromLittle, Range;
    var payload := Pack(shape.dtype, Flat(keys + values));
    LayoutFields(magic, header, payload, align);
    FlatConcat(keys, values);
    RowsOfFlat(shape.dtype, keys, shape.perLayer);
    RowsOfFlat(shape.dtype, values, shape.perLayer);
    WordsOfPack(shape.dtype, Flat(keys + values));
    StoreAllSplit(shape.dtype, Flat(keys), Flat(values));
    var file := Layout(magic, header, payload, align);
    var off := 16 + |header|;
    var start := off + LoaderPad(off, align);
    assert file[start..start + |payload|] == file[start..];
  }

  // ---------------------------------------------------------------- saved and loaded

  function WidenSlab(dtype: string, words: seq<nat>): (r: seq<nat>)
    requires Known(dtype)
    ensures |r| == |words|
  {
    seq(|words|, k requires 0 <= k < |words| => Widen(dtype, words[k]))
  }

  function WidenSlabs(dtype: string, slabs: seq<seq<nat>>): (r: seq<seq<nat>>)
    requires Known(dtype)
    ensures |r| == |slabs|
  {
    seq(|slabs|, i requires 0 <= i < |slabs| => WidenSlab(dtype, slabs[i]))
  }

  /** The storage type holds every element as it is. */
  ghost predicate Lossless(dtype: string, slabs: seq<seq<Bits32>>) {
    Known(dtype) && forall i, k :: 0 <= i < |slabs| && 0 <= k < |slabs[i]| ==> Holds(dtype, slabs[i][k])
  }

  lemma WidenStored(dtype: string, slabs: seq<seq<Bits32>>)
    requires Lossless(dtype, slabs)
    ensures WidenSlabs(dtype, StoreSlabs(dtype, slabs)) == slabs
  {
    hide Widen, Store, Holds;
    var wide := WidenSlabs(dtype, StoreSlabs(dtype, slabs));
    forall i | 0 <= i < |slabs| ensures wide[i] == slabs[i] {
      forall k | 0 <= k < |slabs[i]| ensures wide[i][k] == slabs[i][k] {
        WidenInverts(dtype, slabs[i][k]);
      }
    }
  }

  /** Saved under any schedule, loaded and widened, the slabs are the inputs. */
  method SaveThenLoad(magic: seq<Byte>, header: seq<Byte>, shape: Shape, keys: seq<seq<Bits32>>,
                      values: seq<seq<Bits32>>, align: nat, schedule: seq<Chunk>,
                      describe: seq<Byte> -> Option<Shape>)
    returns (keys': seq<seq<nat>>, values': seq<seq<nat>>)
    requires align > 0 && |magic| == 8 && |header| < Range(8) && Covers(schedule, keys + values)
    requires describe(header) == Some(shape) && |keys| == |values| == shape.layers
    requires forall i :: 0 <= i < shape.layers ==> |keys[i]| == |values[i]| == shape.perLayer
    requires Lossless(shape.dtype, keys) && Lossless(shape.dtype, values)
    ensures keys' == keys && values' == values
  {
    hide Layout, Pack, Flat, StoreSlabs, WidenSlabs, Load, Covers, Range;
    var file := SaveBlob(magic, header, shape.dtype, keys, values, align, schedule);
    LoadSaved(magic, header, shape, keys, values, align, describe);
    var loaded := Load(file.value, magic, align, describe).value;
    WidenStored(shape.dtype, keys);
    WidenStored(shape.dtype, values);
    keys' := WidenSlabs(shape.dtype, loaded.keys);
    values' := WidenSlabs(shape.dtype, loaded.values);
  }
}
