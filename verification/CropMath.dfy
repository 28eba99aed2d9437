/** Moving points between the sensor's and the image's coordinates (hwnode/MyUtils.h) in whole numbers. */
module CropMath {
  /** Division as C++ has it: towards zero. */
  function Quotient(n: int, d: int): int
    requires d != 0
  {
    if n >= 0 then (if d > 0 then n / d else -(n / -d))
    else if d > 0 then -(-n / d)
    else -n / -d
  }

  function Abs(x: int): nat {
    if x >= 0 then x else -x
  }

  function DivRound(numerator: int, denominator: int): int
    requires denominator != 0
  {
    if (numerator < 0) != (denominator < 0)
    then Quotient(numerator - Quotient(denominator, 2), denominator)
    else Quotient(numerator + Quotient(denominator, 2), denominator)
  }

  predicate Fits32(x: int) {
    -0x8000_0000 <= x < 0x8000_0000
  }

  lemma HalfUp(n: nat, d: nat)
    requires d > 0
    ensures 2 * Abs(d * ((n + d / 2) / d) - n) <= d
  {
    var q := (n + d / 2) / d;
    assert d * q <= n + d / 2 < d * q + d;
  }

  lemma QuotientBySign(n: int, d: int)
    requires d != 0
    ensures Quotient(n, d) == if (n < 0) != (d < 0) then -1 * (Abs(n) / Abs(d)) else Abs(n) / Abs(d)
  {
    if n == 0 {
      assert 0 / Abs(d) == 0;
    }
  }

  /** The quotient of the magnitudes, with the sign of the division. */
  lemma DivRoundBySign(n: int, d: int)
    requires d != 0
    ensures var q := (Abs(n) + Abs(d) / 2) / Abs(d); DivRound(n, d) == if (n < 0) != (d < 0) then -1 * q else q
  {
    var h := Abs(d) / 2;
    QuotientBySign(d, 2);
    var sum := if n < 0 then n - h else n + h;
    assert DivRound(n, d) == Quotient(sum, d);
    assert Abs(sum) == Abs(n) + h;
    QuotientBySign(sum, d);
  }

  /** div_round is within half a unit of the exact quotient, for every sign of both numbers. */
  lemma DivRoundIsNearest(n: int, d: int)
    requires d != 0
    ensures 2 * Abs(d * DivRound(n, d) - n) <= Abs(d)
  {
    var q := Magnitude(n, d);
    SignsDoNotMatter(n, d, q, DivRound(n, d), Abs(d) * q);
  }

  lemma Magnitude(n: int, d: int) returns (q: nat)
    requires d != 0
    ensures DivRound(n, d) == if (n < 0) != (d < 0) then -1 * q else q
    ensures 2 * Abs(Abs(d) * q - Abs(n)) <= Abs(d)
  {
    q := (Abs(n) + Abs(d) / 2) / Abs(d);
    DivRoundBySign(n, d);
    HalfUp(Abs(n), Abs(d));
  }

  lemma SignsDoNotMatter(n: int, d: int, q: nat, r: int, product: nat)
    requires d != 0 && r == (if (n < 0) != (d < 0) then -1 * q else q) && product == Abs(d) * q
    ensures Abs(d * r - n) == Abs(product - Abs(n))
  {
    ProductBySign(d, q);
  }

  lemma ProductBySign(d: int, q: int)
    ensures d * q == if d < 0 then -(Abs(d) * q) else Abs(d) * q
    ensures d * (-1 * q) == if d < 0 then Abs(d) * q else -(Abs(d) * q)
  {}

  /** Every value on the way stays in 32 bits exactly if the numerator leaves room for half the denominator. */
  lemma DivRoundStaysIn32(n: int, d: int)
    requires d != 0 && Fits32(n) && Fits32(d)
    ensures var sum := if (n < 0) != (d < 0) then n - Quotient(d, 2) else n + Quotient(d, 2);
            && Abs(sum) == Abs(n) + Abs(d) / 2
            && (Fits32(sum) <==> if n < 0 then Abs(n) + Abs(d) / 2 <= 0x8000_0000 else Abs(n) + Abs(d) / 2 < 0x8000_0000)
  {
    assert Quotient(d, 2) == if d < 0 then -(Abs(d) / 2) else Abs(d) / 2;
  }

  // ---------------------------------------------------------------- transforms

  datatype Point = Point(x: int, y: int)

  datatype Size = Size(w: int, h: int)

  datatype SimpleTransform = SimpleTransform(tarOrigin: Point, oldScale: Size, newScale: Size)

  function Transform(t: SimpleTransform, p: Point): Point
    requires t.oldScale.w != 0 && t.oldScale.h != 0
  {
    Point(DivRound((p.x - t.tarOrigin.x) * t.newScale.w, t.oldScale.w),
          DivRound((p.y - t.tarOrigin.y) * t.newScale.h, t.oldScale.h))
  }

  function InvTransform(t: SimpleTransform, p: Point): Point
    requires t.newScale.w != 0 && t.newScale.h != 0
  {
    Point(DivRound(p.x * t.oldScale.w, t.newScale.w) + t.tarOrigin.x,
          DivRound(p.y * t.oldScale.h, t.newScale.h) + t.tarOrigin.y)
  }

  lemma Scaled(a: int, k: int)
    requires k > 0
    ensures Abs(k * a) == k * Abs(a)
  {
    if a < 0 {
      assert k * a == -(k * -a);
    }
  }

  /** Two roundings in a row, in whole units. */
  lemma TwoRoundings(x: int, was: int, now: int, q: int, r: int)
    requires was > 0 && now > 0
    requires 2 * Abs(was * q - x * now) <= was && 2 * Abs(now * r - q * was) <= now
    ensures 2 * (now * Abs(r - x)) <= was + now
  {
    var toQ, toR := was * q - x * now, now * r - q * was;
    Spread(now, r, x);
    assert now * (r - x) == toR + toQ;
    Scaled(r - x, now);
  }

  lemma Spread(k: int, a: int, b: int)
    ensures k * (a - b) == k * a - b * k
  {}

  lemma SameScale(x: int, k: int, q: int)
    requires k > 0 && 2 * Abs(k * q - x * k) <= k
    ensures q == x
  {
    Spread(k, q, x);
    Scaled(q - x, k);
    SmallIsZero(Abs(q - x), k, k);
  }

  lemma AtLeast(k: int, a: nat)
    requires k > 0 && a >= 1
    ensures k * a >= k
  {
    assert k * a == k + k * (a - 1);
  }

  lemma SmallIsZero(a: nat, k: int, bound: int)
    requires k > 0 && 2 * (k * a) <= bound < 2 * k
    ensures a == 0
  {
    if a >= 1 {
      AtLeast(k, a);
    }
  }

  /** One axis, there and back. */
  lemma AxisThereAndBack(x: int, was: int, now: int)
    requires was > 0 && now > 0
    ensures var e := DivRound(DivRound(x * now, was) * was, now) - x;
            2 * (now * Abs(e)) <= was + now && (now >= was ==> e == 0)
  {
    var q := DivRound(x * now, was);
    var r := DivRound(q * was, now);
    DivRoundIsNearest(x * now, was);
    DivRoundIsNearest(q * was, now);
    TwoRoundings(x, was, now, q, r);
    if now > was {
      SmallIsZero(Abs(r - x), now, was + now);
    } else if now == was {
      SameScale(x, now, q);
      SameScale(q, now, r);
    }
  }

  /** A point that is transformed and transformed back is itself if the new scale is no smaller than the old one, and
      otherwise off, in each axis, by no more than half of old / new + 1. */
  lemma TransformRoundTrip(t: SimpleTransform, p: Point)
    requires t.oldScale.w > 0 && t.oldScale.h > 0 && t.newScale.w > 0 && t.newScale.h > 0
    ensures var r := InvTransform(t, Transform(t, p));
            && 2 * (t.newScale.w * Abs(r.x - p.x)) <= t.oldScale.w + t.newScale.w
            && 2 * (t.newScale.h * Abs(r.y - p.y)) <= t.oldScale.h + t.newScale.h
            && (t.newScale.w >= t.oldScale.w ==> r.x == p.x)
            && (t.newScale.h >= t.oldScale.h ==> r.y == p.y)
  {
    AxisThereAndBack(p.x - t.tarOrigin.x, t.oldScale.w, t.newScale.w);
    AxisThereAndBack(p.y - t.tarOrigin.y, t.oldScale.h, t.newScale.h);
  }

  /** One axis: the origin is mapped to zero and the far end to the far end, both ways. */
  lemma AxisEnds(was: int, now: int)
    requires was > 0 && now > 0
    ensures DivRound(0 * now, was) == 0 && DivRound(was * now, was) == now
  {
    DivRoundIsNearest(0, was);
    SameScale(0, was, DivRound(0, was));
    DivRoundIsNearest(was * now, was);
    assert was * now == now * was;
    SameScale(now, was, DivRound(was * now, was));
  }

  /** The transform maps the origin and the far corner of the old area to those of the new one, and the inverse maps them
      back. */
  lemma CornersToCorners(t: SimpleTransform)
    requires t.oldScale.w > 0 && t.oldScale.h > 0 && t.newScale.w > 0 && t.newScale.h > 0
    ensures var far, zero := Point(t.tarOrigin.x + t.oldScale.w, t.tarOrigin.y + t.oldScale.h), Point(0, 0);
            && Transform(t, t.tarOrigin) == zero && InvTransform(t, zero) == t.tarOrigin
            && Transform(t, far) == Point(t.newScale.w, t.newScale.h)
            && InvTransform(t, Point(t.newScale.w, t.newScale.h)) == far
  {
    AxisEnds(t.oldScale.w, t.newScale.w);
    AxisEnds(t.oldScale.h, t.newScale.h);
    AxisEnds(t.newScale.w, t.oldScale.w);
    AxisEnds(t.newScale.h, t.oldScale.h);
  }
}
