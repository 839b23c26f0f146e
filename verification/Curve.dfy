/** The bonding curve in 128-bit arithmetic. Main results: `Cost` is the exact
    integral rounded up or refused exactly when it does not fit; `Minted` buys the
    most a payment can buy; and `SplittingIsNeverCheaper`.
 */
module Curve {
  import opened Outcomes
  import opened Arithmetic
  import opened Words

  const MAX_CAP: int := 0x4_0000_0000_0000

  datatype Curve = Curve(d: int64, cap: int64)

  predicate Built(c: Curve) { 1 <= c.d <= MAX / 2 && 1 <= c.cap <= MAX_CAP }

  /** The area under the price from s0 to s1, times 2d. */
  function Area(s0: nat, s1: nat): (n: nat)
    requires s0 <= s1
  {
    SquareLe(s0, s1);
    s1 * s1 - s0 * s0
  }

  predicate InRange(c: Curve, from: int64, delta: int64) { 0 <= from && 0 <= delta && from + delta <= c.cap }

  /** The price of a move, as the curve is meant: the integral, rounded up. */
  function Price(c: Curve, from: int64, delta: int64): nat
    requires Built(c) && InRange(c, from, delta)
  {
    Up(Area(from, from + delta), 2 * c.d)
  }

  lemma CapSquared(c: Curve, s: nat)
    requires Built(c) && s <= c.cap
    ensures s * s <= c.cap * c.cap <= 0x10_0000_0000_0000_0000_0000_0000
  {
    SquareLe(s, c.cap);
    SquareLe(c.cap, MAX_CAP);
    assert MAX_CAP * MAX_CAP == 0x10_0000_0000_0000_0000_0000_0000;
  }

  // ---------------------------------------------------------------------------- cost

  method Cost(c: Curve, from: int64, delta: int64) returns (coin: int64, ok: bool)
    requires Built(c)
    ensures ok <==> InRange(c, from, delta) && Price(c, from, delta) <= MAX
    ensures ok ==> coin == Price(c, from, delta)
    ensures !ok ==> coin == 0
  {
    if from < 0 || delta < 0 || from > c.cap {
      return 0, false;
    }
    if from + delta > MAX || from + delta > c.cap {
      return 0, false;
    }
    var s1: int64 := from + delta;
    CapSquared(c, s1);
    SquareLe(from, s1);
    ghost var area := Area(from, s1);
    var x1, x0 := Mul64(s1, s1), Mul64(from, from);
    var low := Sub64(x1.1, x0.1, 0);
    var high := Sub64(x1.0, x0.0, low.1);
    Difference(s1 * s1, from * from, x1, x0, low, high);
    var m: uint64 := 2 * c.d;
    var low2 := Add64(low.0, m - 1, 0);
    var hi2 := Plus(high.0, low2.1);
    Sum(area, m, high.0, low.0, low2, hi2);
    if hi2 >= m {
      TooMuch(area, m, hi2, low2.0);
      return 0, false;
    }
    var q := Div64(hi2, low2.0, m);
    assert q.0 == Up(area, m);
    if q.0 > MAX {
      return 0, false;
    }
    return q.0, true;
  }

  lemma Difference(x: nat, y: nat, xs: (uint64, uint64), ys: (uint64, uint64), low: (uint64, uint64), high: (uint64, uint64))
    requires y <= x && Wide(xs.0, xs.1) == x && Wide(ys.0, ys.1) == y
    requires low.0 - low.1 * WORD == xs.1 - ys.1 && low.1 <= 1
    requires high.0 - high.1 * WORD == xs.0 - ys.0 - low.1 && high.1 <= 1
    ensures Wide(high.0, low.0) == x - y
  {
    assert high.0 * WORD + low.0 == x - y + high.1 * (WORD * WORD);
  }

  lemma Sum(area: nat, m: uint64, hi: uint64, lo: uint64, low2: (uint64, uint64), hi2: uint64)
    requires m > 0 && Wide(hi, lo) == area <= 0x10_0000_0000_0000_0000_0000_0000
    requires low2.1 * WORD + low2.0 == lo + (m - 1) && low2.1 <= 1 && hi2 == Plus(hi, low2.1)
    ensures Wide(hi2, low2.0) == area + m - 1
  {
    assert hi < 0x10_0000_0001;
  }

  lemma TooMuch(area: nat, m: uint64, hi2: uint64, lo2: uint64)
    requires m > 0 && Wide(hi2, lo2) == area + m - 1 && hi2 >= m
    ensures Up(area, m) > MAX
  {
    MulLe(m, hi2, WORD);
    assert m * (WORD - 1) < area;
    MulLe(MAX, WORD - 1, m);
    UpLe(area, m, MAX);
  }

  // ---------------------------------------------------------------------------- root

  method Isqrt128(hi: uint64, lo: uint64) returns (ans: uint64)
    ensures ans <= 0x8000_0000_0000_0000 && ans * ans <= Wide(hi, lo)
    ensures ans == 0x8000_0000_0000_0000 || Wide(hi, lo) < (ans + 1) * (ans + 1)
  {
    ghost var x := Wide(hi, lo);
    ans := 0;
    var low: uint64, high: uint64 := 0, 0x8000_0000_0000_0000;
    while low <= high
      invariant 0 <= low <= high + 1 && high <= 0x8000_0000_0000_0000 && ans <= 0x8000_0000_0000_0000
      invariant ans * ans <= x && (low == 0 ==> ans == 0) && (low > 0 ==> ans == low - 1)
      invariant high == 0x8000_0000_0000_0000 || x < (high + 1) * (high + 1)
      decreases high + 1 - low
    {
      var mid: uint64 := low + (high - low) / 2;
      var sq := Mul64(mid, mid);
      Compare(sq.0, sq.1, hi, lo);
      if sq.0 < hi || (sq.0 == hi && sq.1 <= lo) {
        ans := mid;
        if mid == 0xFFFF_FFFF_FFFF_FFFF { break; }
        low := mid + 1;
      } else {
        if mid == 0 { break; }
        high := mid - 1;
      }
    }
  }

  lemma Compare(a: uint64, b: uint64, hi: uint64, lo: uint64)
    ensures (a < hi || (a == hi && b <= lo)) == (Wide(a, b) <= Wide(hi, lo))
  {
  }

  // -------------------------------------------------------------------------- minting

  ghost predicate Affordable(c: Curve, from: int64, coin: int64, s: int)
    requires Built(c) && 0 <= from
  {
    from <= s <= c.cap && Price(c, from, s - from) <= coin
  }

  lemma AffordableBelow(c: Curve, from: int64, coin: int64, s: int, t: int)
    requires Built(c) && 0 <= from <= t <= s && Affordable(c, from, coin, s)
    ensures Affordable(c, from, coin, t)
  {
    SquareLe(t, s);
    UpMono(Area(from, t), Area(from, s), 2 * c.d);
  }

  /** A position is affordable exactly up to the root of the operand. */
  lemma AffordableIff(c: Curve, from: int64, coin: int64, s: int)
    requires Built(c) && 0 <= from <= s <= c.cap && 0 <= coin
    ensures Affordable(c, from, coin, s) <==> s * s <= from * from + 2 * c.d * coin
  {
    UpLe(Area(from, s), 2 * c.d, coin);
    assert coin * (2 * c.d) == 2 * c.d * coin;
  }

  /** Past the short cut the operand is below the cap's square. */
  lemma OperandIsSmall(c: Curve, from: int64, coin: int64)
    requires Built(c) && 0 <= from < c.cap && 0 < coin && !Affordable(c, from, coin, c.cap)
    ensures from * from + 2 * c.d * coin < c.cap * c.cap <= 0x10_0000_0000_0000_0000_0000_0000
  {
    AffordableIff(c, from, coin, c.cap);
    CapSquared(c, c.cap);
  }

  /** The candidate: the largest affordable position, before any correction. */
  method Candidate(c: Curve, from: int64, coin: int64) returns (s1: int64)
    requires Built(c) && 0 <= from < c.cap && 0 < coin && !Affordable(c, from, coin, c.cap)
    ensures from <= s1 < c.cap && Affordable(c, from, coin, s1) && !Affordable(c, from, coin, s1 + 1)
  {
    ghost var x := from * from + 2 * c.d * coin;
    OperandIsSmall(c, from, coin);
    var f, p := Mul64(from, from), Mul64(2 * c.d, coin);
    var low := Add64(f.1, p.1, 0);
    var hi: uint64 := Plus(Plus(f.0, p.0), low.1);
    OperandIs(x, f, p, low, hi, from * from, 2 * c.d * coin);
    var r := Isqrt128(hi, low.0);
    RootIsBelow(r, c.cap, x);
    if r > c.cap { s1 := c.cap; } else { s1 := r; }
    RootIsFrom(r, from, x);
    AffordableIff(c, from, coin, r);
    AffordableIff(c, from, coin, r + 1);
  }

  lemma OperandIs(x: nat, f: (uint64, uint64), p: (uint64, uint64), low: (uint64, uint64), hi: uint64, a: nat, b: nat)
    requires x == a + b < 0x10_0000_0000_0000_0000_0000_0000 && Wide(f.0, f.1) == a && Wide(p.0, p.1) == b
    requires low.1 * WORD + low.0 == f.1 + p.1 && low.1 <= 1 && hi == Plus(Plus(f.0, p.0), low.1)
    ensures Wide(hi, low.0) == x
  {
    assert f.0 < 0x10_0000_0000 && p.0 < 0x10_0000_0000;
  }

  lemma RootIsBelow(r: nat, cap: nat, x: nat)
    requires r * r <= x < cap * cap && cap <= MAX_CAP
    ensures r < cap && r != 0x8000_0000_0000_0000
  {
    SquareLt(r, cap);
  }

  lemma RootIsFrom(r: nat, from: nat, x: nat)
    requires x < (r + 1) * (r + 1) && from * from <= x
    ensures from <= r
  {
    SquareLt(from, r + 1);
  }

  /** Step a candidate down and then up: from any position at all it ends at the
      largest affordable one, so a wrong root could not issue too much. */
  method Corrected(c: Curve, from: int64, coin: int64, start: int64) returns (s1: int64)
    requires Built(c) && 0 <= from <= start <= c.cap && 0 < coin
    ensures Affordable(c, from, coin, s1)
    ensures forall s: int :: s > s1 ==> !Affordable(c, from, coin, s)
  {
    s1 := start;
    NothingIsFree(c, from, coin);
    while s1 > from
      invariant from <= s1 <= c.cap
    {
      var cost, fits := Cost(c, from, s1 - from);
      if fits && cost <= coin { break; }
      s1 := s1 - 1;
    }
    assert Affordable(c, from, coin, s1);
    while s1 < c.cap
      invariant from <= s1 <= c.cap && Affordable(c, from, coin, s1)
      invariant s1 < c.cap || !Affordable(c, from, coin, s1 + 1)
    {
      var cost, fits := Cost(c, from, s1 + 1 - from);
      if !fits || cost > coin { break; }
      s1 := s1 + 1;
    }
    NoneBeyond(c, from, coin, s1);
  }

  lemma NothingIsFree(c: Curve, from: int64, coin: int64)
    requires Built(c) && 0 <= from <= c.cap && 0 <= coin
    ensures Price(c, from, 0) == 0 && Affordable(c, from, coin, from)
  {
    UpLe(0, 2 * c.d, 0);
  }

  lemma NoneBeyond(c: Curve, from: int64, coin: int64, s1: int64)
    requires Built(c) && 0 <= from <= s1 && !Affordable(c, from, coin, s1 + 1)
    ensures forall s: int :: s > s1 ==> !Affordable(c, from, coin, s)
  {
    forall s: int | s > s1 ensures !Affordable(c, from, coin, s) {
      if Affordable(c, from, coin, s) { AffordableBelow(c, from, coin, s, s1 + 1); }
    }
  }

  /** The most whole units a payment buys, and what they cost. */
  method Minted(c: Curve, from: int64, coin: int64) returns (delta: int64, spent: int64)
    requires Built(c)
    ensures from < 0 || from >= c.cap || coin <= 0 ==> delta == 0 && spent == 0
    ensures 0 <= from < c.cap && 0 < coin ==>
              (&& 0 <= delta && Affordable(c, from, coin, from + delta)
               && (forall s: int :: s > from + delta ==> !Affordable(c, from, coin, s))
               && spent == Price(c, from, delta))
  {
    if from < 0 || from >= c.cap || coin <= 0 {
      return 0, 0;
    }
    var full, ok := Cost(c, from, c.cap - from);
    if ok && coin >= full {
      return c.cap - from, full;
    }
    var s1 := Candidate(c, from, coin);
    s1 := Corrected(c, from, coin, s1);
    delta := s1 - from;
    NothingIsFree(c, from, coin);
    if delta <= 0 {
      return 0, 0;
    }
    spent, ok := Cost(c, from, delta);
  }

  /** The candidate is already what correcting it gives: no step is ever taken. */
  lemma CorrectionNeverSteps(c: Curve, from: int64, coin: int64, candidate: int64, answer: int64)
    requires Built(c) && 0 <= from <= candidate < c.cap && 0 < coin
    requires Affordable(c, from, coin, candidate) && !Affordable(c, from, coin, candidate + 1)
    requires Affordable(c, from, coin, answer) && forall s: int :: s > answer ==> !Affordable(c, from, coin, s)
    ensures answer == candidate
  {
    NoneBeyond(c, from, coin, candidate);
  }

  /** Buying for exactly a move's price gets at least that move, and costs that price. */
  lemma PriceBuysTheMove(c: Curve, from: int64, delta: int64, got: int64)
    requires Built(c) && InRange(c, from, delta) && InRange(c, from, got) && Price(c, from, delta) <= MAX
    requires Affordable(c, from, Price(c, from, delta), from + got)
    requires forall s: int :: s > from + got ==> !Affordable(c, from, Price(c, from, delta), s)
    ensures got >= delta && Price(c, from, got) == Price(c, from, delta)
  {
    var coin: int64 := Price(c, from, delta);
    assert Affordable(c, from, coin, from + delta);
    SquareLe(from + delta, from + got);
    UpMono(Area(from, from + delta), Area(from, from + got), 2 * c.d);
  }

  // ------------------------------------------------------------- several purchases

  /** The positions after each purchase never fall. */
  predicate Rising(stops: seq<nat>) { forall i :: 0 < i < |stops| ==> stops[i - 1] <= stops[i] }

  /** What a run of purchases burns, each rounded up on its own. */
  function Burned(stops: seq<nat>, m: nat): nat
    requires m > 0 && Rising(stops)
  {
    if |stops| <= 1 then 0
    else Burned(stops[..|stops| - 1], m) + Up(Area(stops[|stops| - 2], stops[|stops| - 1]), m)
  }

  /** What rounding up adds, in units of 1 / m. */
  function Padding(n: nat, m: nat): (p: nat)
    requires m > 0
    ensures p < m
  {
    UpIs(n, m);
    Up(n, m) * m - n
  }

  function Padded(stops: seq<nat>, m: nat): nat
    requires m > 0 && Rising(stops)
  {
    if |stops| <= 1 then 0
    else Padded(stops[..|stops| - 1], m) + Padding(Area(stops[|stops| - 2], stops[|stops| - 1]), m)
  }

  lemma {:induction false} RisingEnds(stops: seq<nat>)
    requires Rising(stops) && stops != []
    ensures stops[0] <= stops[|stops| - 1]
  {
    if |stops| > 1 { RisingEnds(stops[..|stops| - 1]); }
  }

  lemma AreasAdd(a: nat, b: nat, c: nat)
    requires a <= b <= c
    ensures Area(a, b) + Area(b, c) == Area(a, c)
  {
  }

  /** The integral and the padding together are what was burned. */
  lemma {:induction false} BurnedIs(stops: seq<nat>, m: nat)
    requires m > 0 && Rising(stops) && stops != []
    ensures stops[0] <= stops[|stops| - 1]
    ensures Burned(stops, m) * m == Area(stops[0], stops[|stops| - 1]) + Padded(stops, m)
  {
    hide Up, Padding;
    RisingEnds(stops);
    var k := |stops| - 1;
    if k > 0 {
      var init := stops[..k];
      var n := Area(stops[k - 1], stops[k]);
      RisingEnds(init);
      BurnedIs(init, m);
      AreasAdd(stops[0], stops[k - 1], stops[k]);
      PaddingIs(n, m);
      Distribute(Burned(init, m), Up(n, m), m);
    }
  }

  lemma PaddingIs(n: nat, m: nat)
    requires m > 0
    ensures Up(n, m) * m == n + Padding(n, m)
  {
    UpIs(n, m);
  }

  lemma {:induction false} PaddedIsSmall(stops: seq<nat>, m: nat)
    requires m > 0 && Rising(stops) && stops != []
    ensures Padded(stops, m) <= (|stops| - 1) * (m - 1)
  {
    hide Up, Area;
    if |stops| > 1 {
      PaddedIsSmall(stops[..|stops| - 1], m);
      Distribute(|stops| - 2, 1, m - 1);
    }
  }

  /** Splitting a purchase never makes it cheaper, and each extra purchase adds one at
      most; the burn is what one purchase would cost exactly when the paddings of
      them all stay below one coin. */
  lemma SplittingIsNeverCheaper(stops: seq<nat>, m: nat)
    requires m > 0 && Rising(stops) && |stops| > 1
    ensures stops[0] <= stops[|stops| - 1]
    ensures var whole := Up(Area(stops[0], stops[|stops| - 1]), m);
            && whole <= Burned(stops, m) <= whole + |stops| - 2
            && (Burned(stops, m) == whole <==> Padded(stops, m) < m)
  {
    hide Up, Padded, Burned, Area;
    BurnedIs(stops, m);
    PaddedIsSmall(stops, m);
    var n, b, p := Area(stops[0], stops[|stops| - 1]), Burned(stops, m), Padded(stops, m);
    UpIs(n, m);
    UpLe(n, m, b);
    Between(n, m, Up(n, m), b, p, |stops| - 1);
  }

  lemma Between(n: nat, m: nat, whole: nat, b: nat, p: nat, k: nat)
    requires m > 0 && k > 0 && n <= whole * m < n + m && b * m == n + p && p <= k * (m - 1) && whole <= b
    ensures b <= whole + k - 1 && (b == whole <==> p < m)
  {
    Distribute(whole, k, m);
    Distribute(whole, 1, m);
    assert k * (m - 1) == k * m - k;
    Cancel(b, whole + k, m);
    if p < m { Cancel(b, whole + 1, m); } else { Cancel(whole, b, m); }
  }

  /** The check on a court's burn: negate, divide rounding down, negate. */
  function CeilDiv(n: int, d: int): int
    requires d > 0
  {
    -((-n) / d)
  }

  lemma CeilDivIsUp(n: nat, d: nat)
    requires d > 0
    ensures CeilDiv(n, d) == Up(n, d)
  {
    hide Up;
    var u: int, z: int := Up(n, d), n;
    UpIs(n, d);
    Distribute(u, -u, d);
    DivIs(-z, d, -u);
  }

  /** A court's burn passes the check exactly when its paddings stay below one coin. */
  lemma BurnPassesIff(stops: seq<nat>)
    requires Rising(stops) && |stops| > 1 && stops[0] == 0
    ensures var minted := stops[|stops| - 1];
            Burned(stops, 2000000000) == CeilDiv(minted * minted, 2000000000) <==> Padded(stops, 2000000000) < 2000000000
  {
    var minted := stops[|stops| - 1];
    SplittingIsNeverCheaper(stops, 2000000000);
    SquareLe(0, minted);
    CeilDivIsUp(minted * minted, 2000000000);
  }
}
