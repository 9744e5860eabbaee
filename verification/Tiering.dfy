/**
 Where an idle session's cache should live: a measured profile, interpolated over the context size, gives each
 storage tier a break-even idle time. Two implementations, one in Python and one in TypeScript, over the reals.
 Sizes are reals, so that every token count is covered and continuity can be stated.
 */
module Tiering {

  datatype Profile = Profile(kvGb: real, prefillMs: real, restoreCpuMs: real, restoreNvmeMs: real) {
    function Scale(f: real): Profile {
      Profile(kvGb * f, prefillMs * f, restoreCpuMs * f, restoreNvmeMs * f)
    }

    function Lerp(b: Profile, f: real): Profile {
      Profile(Climb(kvGb, b.kvGb, f), Climb(prefillMs, b.prefillMs, f),
              Climb(restoreCpuMs, b.restoreCpuMs, f), Climb(restoreNvmeMs, b.restoreNvmeMs, f))
    }
  }

  function Climb(a: real, b: real, f: real): real { a + f * (b - a) }

  const ROWS := 4

  function Key(i: nat): real
    requires i < ROWS
  {
    if i == 0 then 4096.0 else if i == 1 then 16384.0 else if i == 2 then 32768.0 else 65536.0
  }

  function Row(i: nat): Profile
    requires i < ROWS
  {
    if i == 0 then Profile(0.23, 296.0, 25.0, 246.0)
    else if i == 1 then Profile(0.94, 1321.0, 115.0, 390.0)
    else if i == 2 then Profile(1.88, 3167.0, 182.0, 646.0)
    else Profile(3.76, 8567.0, 297.0, 1228.0)
  }

  const GPU_USD_HR := 1.80
  const RAM_USD_GB_HR := 0.006
  const NVME_USD_GB_HR := 0.0002
  const GPU_USABLE_GB := 60.0
  const GPU_USD_S := GPU_USD_HR / 3600.0

  // ---------------------------------------------------------------- the profile

  /** The Python lookup: the first row that is large enough ends the search. */
  function ProfileFor(tokens: real): Profile {
    if tokens <= Key(0) then Row(0).Scale(tokens / Key(0)) else Between(tokens, 0)
  }

  function Between(tokens: real, i: nat): Profile
    requires i < ROWS
    decreases ROWS - i
  {
    if i + 1 == ROWS then Row(i).Scale(tokens / Key(i))
    else if tokens <= Key(i + 1) then Row(i).Lerp(Row(i + 1), (tokens - Key(i)) / (Key(i + 1) - Key(i)))
    else Between(tokens, i + 1)
  }

  /** The TypeScript lookup: both ends first, then a loop over the rows. */
  method ProfileForTs(tokens: real) returns (p: Profile)
    ensures p == ProfileFor(tokens)
  {
    if tokens <= Key(0) {
      var r := Row(0);
      p := Profile(r.kvGb * tokens / Key(0), r.prefillMs * tokens / Key(0),
                   r.restoreCpuMs * tokens / Key(0), r.restoreNvmeMs * tokens / Key(0));
    } else if tokens >= Key(ROWS - 1) {
      var r := Row(ROWS - 1);
      p := Profile(r.kvGb * tokens / Key(ROWS - 1), r.prefillMs * tokens / Key(ROWS - 1),
                   r.restoreCpuMs * tokens / Key(ROWS - 1), r.restoreNvmeMs * tokens / Key(ROWS - 1));
      assert Between(tokens, 0) == Between(tokens, 2);
    } else {
      var i := 0;
      while tokens > Key(i + 1)
        invariant i + 1 < ROWS && Key(i) < tokens < Key(ROWS - 1)
        invariant ProfileFor(tokens) == Between(tokens, i)
        decreases ROWS - i
      {
        i := i + 1;
      }
      var f := (tokens - Key(i)) / (Key(i + 1) - Key(i));
      p := Row(i).Lerp(Row(i + 1), f);
    }
  }

  /** b exceeds a in every component, by no more than d. */
  ghost predicate RisesWithin(a: Profile, b: Profile, d: real) {
    && 0.0 < b.kvGb - a.kvGb <= d
    && 0.0 < b.prefillMs - a.prefillMs <= d
    && 0.0 < b.restoreCpuMs - a.restoreCpuMs <= d
    && 0.0 < b.restoreNvmeMs - a.restoreNvmeMs <= d
  }

  /** The piece a size belongs to: 0 up to the first row, i between rows i-1 and i, 4 beyond the last. */
  function Piece(x: real): nat {
    if x <= Key(0) then 0 else if x <= Key(1) then 1 else if x <= Key(2) then 2 else if x <= Key(3) then 3 else 4
  }

  /** The line of each piece, extended to all sizes. */
  function Line(k: nat, x: real): Profile
    requires k <= ROWS
  {
    if k == 0 then Row(0).Scale(x / Key(0))
    else if k < ROWS then Row(k - 1).Lerp(Row(k), (x - Key(k - 1)) / (Key(k) - Key(k - 1)))
    else Row(3).Scale(x / Key(3))
  }

  lemma OnItsLine(x: real)
    ensures ProfileFor(x) == Line(Piece(x), x)
  {}

  /** A line that climbs from u to v over a width of at least v - u climbs at most t over t. */
  lemma Slope(u: real, v: real, w: real, x: real, y: real, lo: real)
    requires 0.0 < v - u <= w && x < y
    ensures 0.0 < Climb(u, v, (y - lo) / w) - Climb(u, v, (x - lo) / w) <= y - x
  {
    var f, g := (x - lo) / w, (y - lo) / w;
    var q := g - f;
    assert q * w == y - x by { assert f * w == x - lo && g * w == y - lo; }
    assert q > 0.0;
    assert Climb(u, v, g) - Climb(u, v, f) == q * (v - u);
    KeepsOrder(v - u, w, q);
    assert q * (v - u) > 0.0;
  }

  lemma KeepsOrder(x: real, y: real, c: real)
    requires c > 0.0
    ensures x <= y ==> x * c <= y * c
  {}

  lemma LerpRises(a: Profile, b: Profile, lo: real, w: real, x: real, y: real)
    requires RisesWithin(a, b, w) && w > 0.0 && x < y
    ensures RisesWithin(a.Lerp(b, (x - lo) / w), a.Lerp(b, (y - lo) / w), y - x)
  {
    hide Climb;
    Slope(a.kvGb, b.kvGb, w, x, y, lo);
    Slope(a.prefillMs, b.prefillMs, w, x, y, lo);
    Slope(a.restoreCpuMs, b.restoreCpuMs, w, x, y, lo);
    Slope(a.restoreNvmeMs, b.restoreNvmeMs, w, x, y, lo);
  }

  lemma ScaleIsLerp(a: Profile, f: real)
    ensures a.Scale(f) == Profile(0.0, 0.0, 0.0, 0.0).Lerp(a, f)
  {}

  lemma LineRises(k: nat, x: real, y: real)
    requires k <= ROWS && x < y
    ensures RisesWithin(Line(k, x), Line(k, y), y - x)
  {
    if k == 0 || k == ROWS {
      var i := if k == 0 then 0 else 3;
      ScaleIsLerp(Row(i), x / Key(i));
      ScaleIsLerp(Row(i), y / Key(i));
      LerpRises(Profile(0.0, 0.0, 0.0, 0.0), Row(i), 0.0, Key(i), x, y);
    } else {
      LerpRises(Row(k - 1), Row(k), Key(k - 1), Key(k) - Key(k - 1), x, y);
    }
  }

  /** Neighbouring lines meet at the row between them. */
  lemma LinesMeet(k: nat)
    requires k < ROWS
    ensures Line(k, Key(k)) == Row(k) == Line(k + 1, Key(k))
  {}

  lemma RiseJoins(a: Profile, b: Profile, c: Profile, d: real, e: real)
    requires RisesWithin(a, b, d) && RisesWithin(b, c, e)
    ensures RisesWithin(a, c, d + e)
  {}

  /** Strictly increasing and continuous (Lipschitz with constant 1) in every component, at every size. */
  lemma {:induction false} ProfileRises(x: real, y: real)
    requires x < y
    ensures RisesWithin(ProfileFor(x), ProfileFor(y), y - x)
    decreases Piece(y)
  {
    hide ProfileFor, Line, RisesWithin;
    OnItsLine(x);
    OnItsLine(y);
    var k := Piece(y);
    if Piece(x) == k {
      LineRises(k, x, y);
    } else {
      var knot := Key(k - 1);
      LinesMeet(k - 1);
      OnItsLine(knot);
      LineRises(k, knot, y);
      if x < knot {
        ProfileRises(x, knot);
        RiseJoins(ProfileFor(x), ProfileFor(knot), ProfileFor(y), knot - x, y - knot);
      }
    }
  }

  /** What the measurements promise at every positive size: restoring is far cheaper than prefilling. */
  ghost predicate Worthwhile(p: Profile) {
    && p.kvGb > 0.0 && p.restoreCpuMs > 0.0 && p.restoreNvmeMs > 0.0
    && 5.0 * p.restoreCpuMs < 4.0 * p.prefillMs
    && 30.0 * p.restoreNvmeMs < 29.0 * p.prefillMs + p.restoreCpuMs
  }

  lemma RowsWorthwhile(i: nat)
    requires i < ROWS
    ensures Worthwhile(Row(i))
  {}

  lemma LerpWorthwhile(a: Profile, b: Profile, f: real)
    requires Worthwhile(a) && Worthwhile(b) && 0.0 <= f <= 1.0
    ensures Worthwhile(a.Lerp(b, f))
  {
    var p := a.Lerp(b, f);
    var g := 1.0 - f;
    assert p.kvGb == g * a.kvGb + f * b.kvGb;
    assert p.prefillMs == g * a.prefillMs + f * b.prefillMs;
    assert p.restoreCpuMs == g * a.restoreCpuMs + f * b.restoreCpuMs;
    assert p.restoreNvmeMs == g * a.restoreNvmeMs + f * b.restoreNvmeMs;
    Mixed(f, a.kvGb, b.kvGb);
    Mixed(f, a.restoreCpuMs, b.restoreCpuMs);
    Mixed(f, a.restoreNvmeMs, b.restoreNvmeMs);
    Mixed(f, 4.0 * a.prefillMs - 5.0 * a.restoreCpuMs, 4.0 * b.prefillMs - 5.0 * b.restoreCpuMs);
    Mixed(f, 29.0 * a.prefillMs + a.restoreCpuMs - 30.0 * a.restoreNvmeMs,
          29.0 * b.prefillMs + b.restoreCpuMs - 30.0 * b.restoreNvmeMs);
  }

  lemma Mixed(f: real, u: real, v: real)
    requires 0.0 <= f <= 1.0 && u > 0.0 && v > 0.0
    ensures (1.0 - f) * u + f * v > 0.0
  {
    if f > 0.0 { assert f * v > 0.0; }
    assert (1.0 - f) * u >= 0.0;
  }

  lemma ScaleWorthwhile(a: Profile, f: real)
    requires Worthwhile(a) && f > 0.0
    ensures Worthwhile(a.Scale(f))
  {
    var p := a.Scale(f);
    assert f * (4.0 * a.prefillMs - 5.0 * a.restoreCpuMs) > 0.0;
    assert f * (29.0 * a.prefillMs + a.restoreCpuMs - 30.0 * a.restoreNvmeMs) > 0.0;
  }

  lemma ProfileWorthwhile(x: real)
    requires x > 0.0
    ensures Worthwhile(ProfileFor(x))
  {
    hide ProfileFor, Worthwhile;
    OnItsLine(x);
    var k := Piece(x);
    if k == 0 || k == ROWS {
      var i := if k == 0 then 0 else 3;
      RowsWorthwhile(i);
      ScaleWorthwhile(Row(i), x / Key(i));
    } else {
      RowsWorthwhile(k - 1);
      RowsWorthwhile(k);
      LerpWorthwhile(Row(k - 1), Row(k), (x - Key(k - 1)) / (Key(k) - Key(k - 1)));
    }
  }

  // ---------------------------------------------------------------- break-evens

  /** A floating-point quotient that may divide by zero. */
  datatype Seconds = Finite(s: real) | Infinite | NotANumber

  predicate AtMost(idle: real, s: Seconds) {
    match s
    case Finite(v) => idle <= v
    case Infinite => true
    case NotANumber => false
  }

  datatype Breakevens = Breakevens(warm: Seconds, ram: Seconds, nvme: Seconds)

  function Prefill(p: Profile): real { p.prefillMs / 1000.0 * GPU_USD_S }
  function RestoreCpu(p: Profile): real { p.restoreCpuMs / 1000.0 * GPU_USD_S }
  function RestoreNvme(p: Profile): real { p.restoreNvmeMs / 1000.0 * GPU_USD_S }
  function WarmHr(p: Profile): real { p.kvGb / GPU_USABLE_GB * GPU_USD_HR }
  function RamHr(p: Profile): real { p.kvGb * RAM_USD_GB_HR }
  function NvmeHr(p: Profile): real { p.kvGb * NVME_USD_GB_HR }

  /** Python: a zero storage price gives an infinite break-even. */
  function GuardedQuotient(saved: real, hourly: real): Seconds {
    if hourly != 0.0 then Finite(saved / hourly * 3600.0) else Infinite
  }

  function BreakevensPy(tokens: real): Breakevens {
    var p := ProfileFor(tokens);
    Breakevens(GuardedQuotient(Prefill(p), WarmHr(p)),
               GuardedQuotient(Prefill(p) - RestoreCpu(p), RamHr(p)),
               GuardedQuotient(Prefill(p) - RestoreNvme(p), NvmeHr(p)))
  }

  /** TypeScript: the bare quotient, infinite above zero and not a number at zero over zero. */
  function BareQuotient(saved: real, hourly: real): Seconds {
    if hourly != 0.0 then Finite(saved / hourly * 3600.0)
    else if saved > 0.0 then Infinite
    else NotANumber
  }

  method BreakevensTs(tokens: real) returns (b: Breakevens)
    ensures tokens != 0.0 ==> b == BreakevensPy(tokens)
    ensures tokens == 0.0 ==> b == Breakevens(NotANumber, NotANumber, NotANumber)
  {
    hide ProfileFor;
    SizeZeroOnly(tokens);
    var p := ProfileForTs(tokens);
    var prefill := p.prefillMs / 1000.0 * GPU_USD_S;
    var rCpu := p.restoreCpuMs / 1000.0 * GPU_USD_S;
    var rNvme := p.restoreNvmeMs / 1000.0 * GPU_USD_S;
    var warmHr := p.kvGb / GPU_USABLE_GB * GPU_USD_HR;
    var ramHr := p.kvGb * RAM_USD_GB_HR;
    var nvmeHr := p.kvGb * NVME_USD_GB_HR;
    b := Breakevens(BareQuotient(prefill, warmHr),
                    BareQuotient(prefill - rCpu, ramHr),
                    BareQuotient(prefill - rNvme, nvmeHr));
  }

  // ---------------------------------------------------------------- decisions

  datatype Tier = Warm | Ram | Nvme | Drop {
    /** Colder tiers rank higher. */
    function Rank(): nat {
      match this
      case Warm => 0
      case Ram => 1
      case Nvme => 2
      case Drop => 3
    }
  }

  function Decide(idle: real, b: Breakevens): Tier {
    if AtMost(idle, b.warm) then Warm
    else if AtMost(idle, b.ram) then Ram
    else if AtMost(idle, b.nvme) then Nvme
    else Drop
  }

  function DecidePy(idle: real, tokens: real): Tier {
    Decide(idle, BreakevensPy(tokens))
  }

  /** The guarded quotients keep an empty session warm for any idle time. */
  lemma ZeroIsWarm(idle: real)
    ensures DecidePy(idle, 0.0) == Warm
  {
    hide ProfileFor;
    ZeroProfile();
  }

  method DecideTs(idle: real, tokens: real) returns (t: Tier)
    ensures tokens != 0.0 ==> t == DecidePy(idle, tokens)
    ensures tokens == 0.0 ==> t == Drop && DecidePy(idle, tokens) == Warm
  {
    hide ProfileFor, BreakevensPy;
    if tokens == 0.0 { ZeroIsWarm(idle); }
    var be := BreakevensTs(tokens);
    if AtMost(idle, be.warm) { t := Warm; }
    else if AtMost(idle, be.ram) { t := Ram; }
    else if AtMost(idle, be.nvme) { t := Nvme; }
    else { t := Drop; }
  }

  lemma SizeZeroOnly(tokens: real)
    ensures ProfileFor(tokens).kvGb == 0.0 <==> tokens == 0.0
    ensures tokens == 0.0 ==> ProfileFor(tokens) == Profile(0.0, 0.0, 0.0, 0.0)
  {
    hide ProfileFor;
    ZeroProfile();
    if tokens < 0.0 { ProfileRises(tokens, 0.0); }
    if tokens > 0.0 { ProfileRises(0.0, tokens); }
  }

  lemma ZeroProfile()
    ensures ProfileFor(0.0) == Profile(0.0, 0.0, 0.0, 0.0)
  {}

  /** A colder tier is worth keeping for longer. */
  lemma BreakevensOrdered(tokens: real)
    requires tokens > 0.0
    ensures var b := BreakevensPy(tokens);
            b.warm.Finite? && b.ram.Finite? && b.nvme.Finite? && 0.0 < b.warm.s < b.ram.s < b.nvme.s
  {
    hide ProfileFor;
    ProfileWorthwhile(tokens);
    var p := ProfileFor(tokens);
    QuotientsOrdered(Prefill(p), WarmHr(p), Prefill(p) - RestoreCpu(p), RamHr(p), 5.0);
    QuotientsOrdered(Prefill(p) - RestoreCpu(p), RamHr(p), Prefill(p) - RestoreNvme(p), NvmeHr(p), 30.0);
  }

  lemma QuotientsOrdered(a: real, b: real, c: real, d: real, k: real)
    requires a > 0.0 && b > 0.0 && d > 0.0 && k > 0.0 && b == k * d && a < k * c
    ensures 0.0 < a / b < c / d
  {
    assert (a / b) * b == a && (c / d) * d == c;
    assert (c / d) * b == k * c;
    KeepsOrder(c / d, a / b, b);
  }

  /** What a turn costs after an idle time on a tier: storage for that time and the restore; Drop pays the prefill. */
  function Cost(t: Tier, idle: real, p: Profile): real {
    match t
    case Warm => idle / 3600.0 * WarmHr(p)
    case Ram => idle / 3600.0 * RamHr(p) + RestoreCpu(p)
    case Nvme => idle / 3600.0 * NvmeHr(p) + RestoreNvme(p)
    case Drop => Prefill(p)
  }

  lemma QuotientMeans(idle: real, saved: real, hourly: real)
    requires hourly > 0.0
    ensures AtMost(idle, GuardedQuotient(saved, hourly)) <==> idle / 3600.0 * hourly <= saved
  {
    var q := saved / hourly;
    assert q * hourly == saved;
    var h := idle / 3600.0;
    if h <= q { assert h * hourly <= q * hourly; }
    if h > q { assert h * hourly > q * hourly; }
  }

  /** Up to its break-even a tier costs no more than dropping, past it more. */
  lemma BreakevenMeans(idle: real, tokens: real)
    requires tokens > 0.0
    ensures var b, p := BreakevensPy(tokens), ProfileFor(tokens);
            && (AtMost(idle, b.warm) <==> Cost(Warm, idle, p) <= Cost(Drop, idle, p))
            && (AtMost(idle, b.ram) <==> Cost(Ram, idle, p) <= Cost(Drop, idle, p))
            && (AtMost(idle, b.nvme) <==> Cost(Nvme, idle, p) <= Cost(Drop, idle, p))
  {
    hide ProfileFor, AtMost, GuardedQuotient;
    ProfileWorthwhile(tokens);
    var p := ProfileFor(tokens);
    QuotientMeans(idle, Prefill(p), WarmHr(p));
    QuotientMeans(idle, Prefill(p) - RestoreCpu(p), RamHr(p));
    QuotientMeans(idle, Prefill(p) - RestoreNvme(p), NvmeHr(p));
  }

  /** The choice is the warmest tier that costs no more than re-prefilling; Drop only when every tier costs more. */
  lemma DecisionIsWarmestWorthwhile(idle: real, tokens: real)
    requires tokens > 0.0
    ensures var t, p := DecidePy(idle, tokens), ProfileFor(tokens);
            && Cost(t, idle, p) <= Cost(Drop, idle, p)
            && forall u: Tier :: u.Rank() < t.Rank() ==> Cost(u, idle, p) > Cost(Drop, idle, p)
  {
    hide ProfileFor, Cost, BreakevensPy;
    BreakevenMeans(idle, tokens);
  }

  /** Longer idling never moves a session to a warmer tier, and each tier is chosen on one interval. */
  lemma ColderWithIdle(idle: real, longer: real, tokens: real)
    requires tokens > 0.0 && idle <= longer
    ensures DecidePy(idle, tokens).Rank() <= DecidePy(longer, tokens).Rank()
    ensures var b := BreakevensPy(tokens);
            DecidePy(idle, tokens) == (if idle <= b.warm.s then Warm else if idle <= b.ram.s then Ram
                                       else if idle <= b.nvme.s then Nvme else Drop)
  {
    hide BreakevensPy;
    BreakevensOrdered(tokens);
  }
}
