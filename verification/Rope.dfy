/**
 Rotary position embedding in the half-split convention, and re-phasing a cached key by a
 position delta. Of cosine and sine only the angle-addition identities are used.
 */
module Rope {
  /** Cosine and sine of the angle of a position at a frequency. */
  datatype Trig = Trig(cos: (int, nat) -> real, sin: (int, nat) -> real)

  ghost predicate AngleAddition(t: Trig) {
    forall a: int, b: int, f: nat ::
      && t.cos(a + b, f) == t.cos(a, f) * t.cos(b, f) - t.sin(a, f) * t.sin(b, f)
      && t.sin(a + b, f) == t.sin(a, f) * t.cos(b, f) + t.cos(a, f) * t.sin(b, f)
  }

  function RotateHalf(x: seq<real>): (y: seq<real>)
    requires |x| % 2 == 0
    ensures |y| == |x|
    ensures forall i :: 0 <= i < |x| ==> y[i] == if i < |x| / 2 then -x[|x| / 2 + i] else x[i - |x| / 2]
  {
    seq(|x|, i requires 0 <= i < |x| => if i < |x| / 2 then -x[|x| / 2 + i] else x[i - |x| / 2])
  }

  /** keys * cos + rotate_half(keys) * sin */
  function Rephase(x: seq<real>, cos: seq<real>, sin: seq<real>): (y: seq<real>)
    requires |x| % 2 == 0 && |cos| == |sin| == |x|
    ensures |y| == |x|
  {
    var h := RotateHalf(x);
    seq(|x|, i requires 0 <= i < |x| => x[i] * cos[i] + h[i] * sin[i])
  }

  /** The cosines (sines) of a position for d coordinates: the frequencies repeat over the two halves. */
  function CosRow(t: Trig, p: int, d: nat): (r: seq<real>)
    requires d % 2 == 0
    ensures |r| == d
    ensures forall i :: 0 <= i < d ==> r[i] == t.cos(p, if i < d / 2 then i else i - d / 2)
  {
    seq(d, i requires 0 <= i < d => t.cos(p, if i < d / 2 then i else i - d / 2))
  }

  function SinRow(t: Trig, p: int, d: nat): (r: seq<real>)
    requires d % 2 == 0
    ensures |r| == d
    ensures forall i :: 0 <= i < d ==> r[i] == t.sin(p, if i < d / 2 then i else i - d / 2)
  {
    seq(d, i requires 0 <= i < d => t.sin(p, if i < d / 2 then i else i - d / 2))
  }

  /** Rotate a key vector by a position (or a position delta). */
  function Rot(t: Trig, delta: int, x: seq<real>): (y: seq<real>)
    requires |x| % 2 == 0
    ensures |y| == |x|
  {
    Rephase(x, CosRow(t, delta, |x|), SinRow(t, delta, |x|))
  }

  /** The two coordinates of one frequency turn as a plane vector. */
  lemma RotAt(t: Trig, delta: int, x: seq<real>, i: nat)
    requires |x| % 2 == 0 && i < |x| / 2
    ensures Rot(t, delta, x)[i] == x[i] * t.cos(delta, i) - x[|x| / 2 + i] * t.sin(delta, i)
    ensures Rot(t, delta, x)[|x| / 2 + i] == x[|x| / 2 + i] * t.cos(delta, i) + x[i] * t.sin(delta, i)
  {
    RephaseAt(x, CosRow(t, delta, |x|), SinRow(t, delta, |x|), i);
    hide CosRow, SinRow, Rephase, RotateHalf;
  }

  lemma RephaseAt(x: seq<real>, c: seq<real>, s: seq<real>, i: nat)
    requires |x| % 2 == 0 && |c| == |s| == |x| && i < |x| / 2
    ensures Rephase(x, c, s)[i] == x[i] * c[i] - x[|x| / 2 + i] * s[i]
    ensures Rephase(x, c, s)[|x| / 2 + i] == x[|x| / 2 + i] * c[|x| / 2 + i] + x[i] * s[|x| / 2 + i]
  {
    hide RotateHalf;
    NegMul(RotateHalf(x)[i], x[|x| / 2 + i], s[i]);
  }

  lemma NegMul(h: real, u: real, v: real)
    requires h == -u
    ensures h * v == -(u * v)
  {}

  /** The coordinates of a plane vector after a turn with the given cosine and sine. */
  function TurnX(u: real, v: real, c: real, s: real): real { u * c - v * s }
  function TurnY(u: real, v: real, c: real, s: real): real { v * c + u * s }

  /** Two turns are one turn by the sum of their angles, whose cosine and sine are c and s. */
  lemma PlaneTurn(u: real, v: real, ca: real, sa: real, cb: real, sb: real, c: real, s: real)
    requires c == ca * cb - sa * sb && s == sa * cb + ca * sb
    ensures TurnX(TurnX(u, v, cb, sb), TurnY(u, v, cb, sb), ca, sa) == TurnX(u, v, c, s)
    ensures TurnY(TurnX(u, v, cb, sb), TurnY(u, v, cb, sb), ca, sa) == TurnY(u, v, c, s)
  {}

  lemma RotIsTurn(t: Trig, delta: int, x: seq<real>, i: nat)
    requires |x| % 2 == 0 && i < |x| / 2
    ensures Rot(t, delta, x)[i] == TurnX(x[i], x[|x| / 2 + i], t.cos(delta, i), t.sin(delta, i))
    ensures Rot(t, delta, x)[|x| / 2 + i] == TurnY(x[i], x[|x| / 2 + i], t.cos(delta, i), t.sin(delta, i))
  {
    hide Rot;
    RotAt(t, delta, x, i);
  }

  lemma Angles(t: Trig, a: int, b: int, i: nat)
    requires AngleAddition(t)
    ensures t.cos(a + b, i) == t.cos(a, i) * t.cos(b, i) - t.sin(a, i) * t.sin(b, i)
    ensures t.sin(a + b, i) == t.sin(a, i) * t.cos(b, i) + t.cos(a, i) * t.sin(b, i)
  {}

  lemma PairCompose(t: Trig, a: int, b: int, x: seq<real>, i: nat)
    requires AngleAddition(t) && |x| % 2 == 0 && i < |x| / 2
    ensures Rot(t, a, Rot(t, b, x))[i] == Rot(t, a + b, x)[i]
    ensures Rot(t, a, Rot(t, b, x))[|x| / 2 + i] == Rot(t, a + b, x)[|x| / 2 + i]
  {
    hide Rot, TurnX, TurnY, AngleAddition;
    Angles(t, a, b, i);
    RotIsTurn(t, b, x, i);
    RotIsTurn(t, a, Rot(t, b, x), i);
    RotIsTurn(t, a + b, x, i);
    PlaneTurn(x[i], x[|x| / 2 + i], t.cos(a, i), t.sin(a, i), t.cos(b, i), t.sin(b, i),
              t.cos(a + b, i), t.sin(a + b, i));
  }

  /** Rotations compose: re-phasing a key cached at position b by a gives the key at a+b. */
  lemma RotCompose(t: Trig, a: int, b: int, x: seq<real>)
    requires AngleAddition(t) && |x| % 2 == 0
    ensures Rot(t, a, Rot(t, b, x)) == Rot(t, a + b, x)
  {
    hide Rot, AngleAddition;
    forall i | 0 <= i < |x| ensures Rot(t, a, Rot(t, b, x))[i] == Rot(t, a + b, x)[i] {
      PairCompose(t, a, b, x, if i < |x| / 2 then i else i - |x| / 2);
    }
  }
}
