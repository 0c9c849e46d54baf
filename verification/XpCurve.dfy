/** The XP curve and the prestige thresholds (lib/progression-engine.ts:21-64, 145-178).
    floor(100 * n^1.5) is taken over exact arithmetic, as the integer square root of 10000 * n^3. */
module XpCurve {

  const MAX_LEVEL := 999
  const MAX_PRESTIGE_RANK := 10

  function Isqrt(n: nat): (s: nat)
    ensures s * s <= n < (s + 1) * (s + 1)
  {
    if n == 0 then 0 else
      var s := Isqrt(n - 1);
      if (s + 1) * (s + 1) <= n then s + 1 else s
  }

  function Cube(n: nat): nat { n * n * n }

  function XpForLevel(level: int): nat {
    if level <= 1 then 0 else Isqrt(10000 * Cube(level - 1))
  }

  // ----- The curve is strictly increasing -----

  lemma SquareMonotone(a: nat, b: nat)
    requires a * a <= b * b
    ensures a <= b
  {
    if a > b {
      Grow(b, a);
      assert false;
    }
  }

  lemma Grow(a: nat, b: nat)
    requires a < b
    ensures a * a < b * b
  {
    assert b * b == a * a + (b - a) * (a + b);
    assert (b - a) * (a + b) > 0;
  }

  /** isqrt(10000 n^3) <= 100 n^2, so one more level always adds more than 2 isqrt + 1. */
  lemma RootBound(n: nat, s: nat)
    requires n >= 1 && s * s <= 10000 * Cube(n)
    ensures s <= 100 * (n * n)
  {
    var q := n * n;
    assert Cube(n) <= q * q by {
      assert q * q == n * Cube(n);
      assert n * Cube(n) >= Cube(n);
    }
    assert (100 * q) * (100 * q) == 10000 * (q * q);
    SquareMonotone(s, 100 * q);
  }

  lemma RootStep(n: nat, s: nat, r: nat)
    requires n >= 1 && s * s <= 10000 * Cube(n) && 10000 * Cube(n + 1) < (r + 1) * (r + 1)
    ensures s < r
  {
    RootBound(n, s);
    var q := n * n;
    assert Cube(n + 1) == Cube(n) + 3 * q + 3 * n + 1;
    assert (s + 1) * (s + 1) == s * s + 2 * s + 1;
    assert (s + 1) * (s + 1) <= 10000 * Cube(n + 1);
    if r <= s {
      if r < s { Grow(r + 1, s + 1); }
      assert false;
    }
  }

  lemma ExactRoot(n: nat, s: nat)
    requires n == s * s
    ensures Isqrt(n) == s
  {
    var r := Isqrt(n);
    SquareMonotone(r, s);
    if r < s {
      if r + 1 < s { Grow(r + 1, s); }
      assert false;
    }
  }

  lemma FirstLevels()
    ensures XpForLevel(1) == 0 && XpForLevel(2) == 100
  {
    var n := 10000 * Cube(2 - 1);
    assert n == 100 * 100;
    ExactRoot(n, 100);
  }

  lemma StepUp(level: int)
    requires level >= 1
    ensures XpForLevel(level) < XpForLevel(level + 1)
  {
    if level == 1 {
      FirstLevels();
    } else {
      RootStep(level - 1, XpForLevel(level), XpForLevel(level + 1));
    }
  }

  /** From level 1 on, a higher level needs strictly more XP. */
  lemma {:induction false} StrictlyIncreasing(a: int, b: int)
    requires 1 <= a < b
    ensures XpForLevel(a) < XpForLevel(b)
    decreases b - a
  {
    StepUp(b - 1);
    if a < b - 1 { StrictlyIncreasing(a, b - 1); }
  }

  // ----- Scanning any increasing table of thresholds -----

  ghost predicate Increasing(t: int -> nat) {
    t(1) == 0 && forall a, b :: 1 <= a < b ==> t(a) < t(b)
  }

  /** `l` is the level of `xp`: its threshold is met and the next one is not (999 has no next). */
  ghost predicate InBand(t: int -> nat, l: int, xp: int) {
    1 <= l <= MAX_LEVEL && t(l) <= xp && (l < MAX_LEVEL ==> xp < t(l + 1))
  }

  /** The scan of levelFromXp over the table `t`, continued from `level`. */
  function Scan(t: int -> nat, xp: int, level: nat): nat
    requires 1 <= level <= MAX_LEVEL
    decreases MAX_LEVEL - level, xp
  {
    if level < MAX_LEVEL && t(level + 1) <= xp then Scan(t, xp, level + 1) else level
  }

  lemma {:induction false} ScanFindsBand(t: int -> nat, xp: int, level: nat)
    requires 1 <= level <= MAX_LEVEL && t(level) <= xp
    ensures InBand(t, Scan(t, xp, level), xp)
    decreases MAX_LEVEL - level
  {
    if level < MAX_LEVEL && t(level + 1) <= xp { ScanFindsBand(t, xp, level + 1); }
  }

  lemma BandIsUnique(t: int -> nat, xp: int, l: int, m: int)
    requires Increasing(t) && InBand(t, l, xp) && InBand(t, m, xp)
    ensures l == m
  {
  }

  lemma BandMonotone(t: int -> nat, x: int, l: int, y: int, m: int)
    requires Increasing(t) && x <= y && InBand(t, l, x) && InBand(t, m, y)
    ensures l <= m
  {
  }

  // ----- Level from XP -----

  lemma CurveIncreases()
    ensures Increasing(XpForLevel)
  {
    FirstLevels();
    forall a, b | 1 <= a < b ensures XpForLevel(a) < XpForLevel(b) { StrictlyIncreasing(a, b); }
  }

  function LevelFromXp(xp: int): nat {
    if xp < 0 then 1 else Scan(XpForLevel, xp, 1)
  }

  method ComputeLevel(xp: int) returns (level: nat)
    ensures level == LevelFromXp(xp)
  {
    if xp < 0 { return 1; }
    level := 1;
    while XpForLevel(level + 1) <= xp
      invariant 1 <= level < MAX_LEVEL
      invariant Scan(XpForLevel, xp, level) == Scan(XpForLevel, xp, 1)
      decreases MAX_LEVEL - level
    {
      level := level + 1;
      if level >= MAX_LEVEL { break; }
    }
  }

  /** The level of a non-negative amount is the one level whose XP band contains it. */
  lemma LevelIsUnique(xp: int, l: int)
    requires 0 <= xp
    ensures l == LevelFromXp(xp) <==> InBand(XpForLevel, l, xp)
  {
    CurveIncreases();
    ScanFindsBand(XpForLevel, xp, 1);
    if InBand(XpForLevel, l, xp) { BandIsUnique(XpForLevel, xp, l, LevelFromXp(xp)); }
  }

  lemma LevelBounds(xp: int)
    ensures 1 <= LevelFromXp(xp) <= MAX_LEVEL
    ensures 0 <= xp ==> XpForLevel(LevelFromXp(xp)) <= xp
  {
    if 0 <= xp { LevelIsUnique(xp, LevelFromXp(xp)); }
  }

  /** The threshold of a level is exactly where that level starts. */
  lemma LevelInvertsThreshold(l: nat)
    requires 1 <= l <= MAX_LEVEL
    ensures LevelFromXp(XpForLevel(l)) == l
  {
    StepUp(l);
    LevelIsUnique(XpForLevel(l), l);
  }

  lemma LevelMonotone(x: int, y: int)
    requires x <= y
    ensures LevelFromXp(x) <= LevelFromXp(y)
  {
    LevelBounds(y);
    if 0 <= x {
      CurveIncreases();
      ScanFindsBand(XpForLevel, x, 1);
      ScanFindsBand(XpForLevel, y, 1);
      BandMonotone(XpForLevel, x, LevelFromXp(x), y, LevelFromXp(y));
    }
  }

  /** An amount has reached a level of the scale exactly when it meets that level's threshold. */
  lemma ReachesLevel(xp: int, l: nat)
    requires 0 <= xp && 1 <= l <= MAX_LEVEL
    ensures LevelFromXp(xp) >= l <==> XpForLevel(l) <= xp
  {
    LevelBounds(xp);
    if XpForLevel(l) <= xp {
      LevelMonotone(XpForLevel(l), xp);
      LevelInvertsThreshold(l);
    } else if LevelFromXp(xp) > l {
      StrictlyIncreasing(l, LevelFromXp(xp));
    }
  }

  /** The curve is floor(100 * n^1.5) for the n levels above the first, so its square lies next to 10000 * n^3. */
  lemma CurveIs(n: nat)
    ensures var xp := XpForLevel(n + 1); xp * xp <= 10_000 * (n * n * n) < (xp + 1) * (xp + 1)
  {
    assert n == 0 ==> XpForLevel(n + 1) == 0;
    assert Cube(n) == n * n * n;
  }

  /** Level 999 is the highest, and every amount from its threshold on has it. */
  lemma TopLevel(xp: int, top: nat)
    requires top == 999
    ensures LevelFromXp(xp) <= top && (xp >= XpForLevel(top) ==> LevelFromXp(xp) == top)
  {
    LevelBounds(xp);
    if xp >= XpForLevel(top) { ReachesLevel(xp, top); }
  }

  // ----- Progress within a level -----

  datatype Progress = Progress(required: int, remaining: int, pct: int)

  /** Math.round(x) is floor(x + 1/2). */
  function RoundedPercent(part: int, whole: int): int
    requires whole > 0
  {
    (200 * part + whole) / (2 * whole)
  }

  /** The nearest whole percentage, the higher one of two. */
  ghost predicate IsNearestPercent(pct: int, part: int, whole: int) {
    200 * part - whole < 2 * (pct * whole) <= 200 * part + whole
  }

  lemma RoundedIsNearest(part: int, whole: int)
    requires whole > 0
    ensures IsNearestPercent(RoundedPercent(part, whole), part, whole)
  {
    var pct, rest := (200 * part + whole) / (2 * whole), (200 * part + whole) % (2 * whole);
    assert 200 * part + whole == pct * (2 * whole) + rest;
    assert pct * (2 * whole) == 2 * (pct * whole);
  }

  function ProgressBetween(xp: int, threshold: int, next: int): Progress {
    var required := next - threshold;
    var pct := if required > 0 then
                 var rounded := RoundedPercent(xp - threshold, required);
                 if rounded < 100 then rounded else 100
               else 100;
    Progress(required, next - xp, pct)
  }

  function LevelProgress(xp: int): Progress {
    var current := LevelFromXp(xp);
    ProgressBetween(xp, XpForLevel(current), XpForLevel(current + 1))
  }

  lemma Distribute(d: int, q: int, k: int)
    ensures d * (q - k) == d * q - d * k
  {
  }

  lemma TimesAtLeast(d: int, e: int)
    requires d > 0
    ensures e >= 0 ==> d * e >= 0
    ensures e < 0 ==> d * e <= -d
  {
    Distribute(d, 0, -e - 1);
  }

  lemma QuotientAtLeast(q: int, r: int, d: int, k: int)
    requires 0 <= r < d
    ensures q >= k <==> d * q + r >= d * k
  {
    Distribute(d, q, k);
    TimesAtLeast(d, q - k);
  }

  lemma FloorDivision(a: int, d: int, k: int)
    requires d > 0
    ensures a / d >= k <==> a >= d * k
  {
    QuotientAtLeast(a / d, a % d, d, k);
  }

  lemma BetweenRange(xp: int, threshold: int, next: int)
    requires threshold < next
    ensures xp >= threshold ==> 0 <= ProgressBetween(xp, threshold, next).pct <= 100
    ensures xp >= next ==> ProgressBetween(xp, threshold, next).pct == 100
    ensures xp < threshold && next - threshold <= 100 ==> ProgressBetween(xp, threshold, next).pct < 0
  {
    var part, whole := xp - threshold, next - threshold;
    FloorDivision(200 * part + whole, 2 * whole, 0);
    FloorDivision(200 * part + whole, 2 * whole, 100);
  }

  /** The percentage stays in 0..100 exactly for non-negative XP. */
  lemma ProgressInRange(xp: int)
    ensures 0 <= LevelProgress(xp).pct <= 100 <==> 0 <= xp
    ensures LevelProgress(xp).required > 0
  {
    var l := LevelFromXp(xp);
    LevelBounds(xp);
    StepUp(l);
    BetweenRange(xp, XpForLevel(l), XpForLevel(l + 1));
    FirstLevels();
  }

  lemma BetweenIs(xp: int, from: int, to: int)
    requires from <= xp < to
    ensures var p := ProgressBetween(xp, from, to);
      p == Progress(to - from, to - xp, p.pct) && IsNearestPercent(p.pct, xp - from, to - from)
  {
    RoundedIsNearest(xp - from, to - from);
    FloorDivision(200 * (xp - from) + (to - from), 2 * (to - from), 101);
    assert ProgressBetween(xp, from, to).pct == RoundedPercent(xp - from, to - from);
  }

  /** Within a level, the bar counts from its threshold to the next one, in the nearest percentage. */
  lemma ProgressIs(xp: int, l: int)
    requires InBand(XpForLevel, l, xp) && l < MAX_LEVEL
    ensures var p, from, to := LevelProgress(xp), XpForLevel(l), XpForLevel(l + 1);
      p == Progress(to - from, to - xp, p.pct) && IsNearestPercent(p.pct, xp - from, to - from)
  {
    LevelIsUnique(xp, l);
    BetweenIs(xp, XpForLevel(l), XpForLevel(l + 1));
  }

  lemma BelowCap(xp: int, l: int, top: int)
    requires top == MAX_LEVEL + 1 && InBand(XpForLevel, l, xp)
    ensures XpForLevel(l + 1) > xp <==> xp < XpForLevel(top)
    ensures xp >= XpForLevel(top) ==> xp >= XpForLevel(l + 1)
  {
    if l < MAX_LEVEL { StrictlyIncreasing(l + 1, top); }
  }

  /** XP is still missing exactly below the threshold of level 1000; from there on the bar is full. */
  lemma ProgressAtCap(xp: int, top: int)
    requires top == MAX_LEVEL + 1 && 0 <= xp
    ensures LevelProgress(xp).remaining > 0 <==> xp < XpForLevel(top)
    ensures xp >= XpForLevel(top) ==> LevelProgress(xp).pct == 100
  {
    var l := LevelFromXp(xp);
    LevelIsUnique(xp, l);
    BelowCap(xp, l, top);
    StepUp(l);
    BetweenRange(xp, XpForLevel(l), XpForLevel(l + 1));
  }

  // ----- Prestige thresholds -----

  function PrestigeLevelRequirement(rank: int): int { 20 + rank * 5 }

  function PrestigeXpRequirement(rank: int): nat { XpForLevel(PrestigeLevelRequirement(rank)) }

  predicate IsPrestigeEligible(level: int, rank: int, lifetimeXp: int) {
    level >= PrestigeLevelRequirement(rank) && lifetimeXp >= PrestigeXpRequirement(rank)
  }
}
