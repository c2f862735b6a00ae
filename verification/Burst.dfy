/** Burst-on-hold: the oscillator that gates a held action, as a schedule of cycles. */
module Burst {
  import opened Samples

  /** The settings of one action. */
  datatype Cadence = Cadence(hz: real, duty: real, jitter: real, dutyJitter: real, skipProb: real)

  /** The per-cycle draws of one action, functions of the cycle index: the two lognormal multipliers
      and the uniform of the skip lottery. */
  datatype Draws = Draws(interval: int -> real, duty: int -> real, skip: int -> real)

  const CYCLES := 4096

  function Base(c: Cadence): int
    requires c.hz > 0.0
  {
    Trunc(1000000000.0 / c.hz)
  }

  function Duty(c: Cadence): real {
    if c.duty <= 0.0 then 0.5 else if c.duty > 1.0 then 1.0 else c.duty
  }

  /** The width of a cycle: the nominal one times a multiplier kept in [1/4, 4], at least 1 ns. */
  function Width(c: Cadence, d: Draws, base: int, ci: int): (w: int)
    ensures w >= 1
  {
    var w := Scale(base, Multiplier(c, d, ci));
    if w <= 0 then 1 else w
  }

  function Multiplier(c: Cadence, d: Draws, ci: int): real {
    if c.jitter > 0.0 then Clamp(d.interval(ci), 0.25, 4.0) else 1.0
  }

  /** `(int64_t)(n * x)`. */
  function Scale(n: int, x: real): int {
    Trunc(n as real * x)
  }

  function Clamp(x: real, lo: real, hi: real): real {
    if x < lo then lo else if x > hi then hi else x
  }

  predicate Skipped(c: Cadence, d: Draws, ci: int) {
    c.skipProb > 0.0 && d.skip(ci) < c.skipProb
  }

  function OnTime(c: Cadence, d: Draws, base: int, ci: int): int {
    Scale(Width(c, d, base, ci), EffectiveDuty(c, d, ci))
  }

  function EffectiveDuty(c: Cadence, d: Draws, ci: int): (r: real)
    ensures 0.05 <= r <= 0.95
  {
    Clamp(if c.dutyJitter > 0.0 then Duty(c) * d.duty(ci) else Duty(c), 0.05, 0.95)
  }

  /** Where cycle k starts. */
  function Start(c: Cadence, d: Draws, base: int, k: nat): int {
    if k == 0 then 0 else Start(c, d, base, k - 1) + Width(c, d, base, k - 1)
  }

  predicate InCycle(c: Cadence, d: Draws, base: int, since: int, ci: nat) {
    Start(c, d, base, ci) <= since < Start(c, d, base, ci + 1)
  }

  /** The action is on at `since`: its cycle is not dropped, and `since` is in its first part. */
  predicate OnInCycle(c: Cadence, d: Draws, base: int, since: int, ci: nat) {
    !Skipped(c, d, ci) && since - Start(c, d, base, ci) < OnTime(c, d, base, ci)
  }

  predicate Clockwork(c: Cadence, base: int, since: int)
    requires base > 0
  {
    since % base < Scale(base, Duty(c))
  }

  predicate Plain(c: Cadence) {
    c.jitter <= 0.0 && c.dutyJitter <= 0.0 && c.skipProb <= 0.0
  }

  /** The schedule is on at `since`. */
  ghost predicate OnAt(c: Cadence, d: Draws, base: int, since: int) {
    exists ci: nat :: InCycle(c, d, base, since, ci) && OnInCycle(c, d, base, since, ci)
  }

  /** What `is_active` answers for a held action `since` ns into the press. */
  ghost predicate Active(c: Cadence, d: Draws, since: int)
    requires since >= 0
  {
    if c.hz <= 0.0 || Base(c) <= 0 then true
    else if Plain(c) || since >= Start(c, d, Base(c), CYCLES) then Clockwork(c, Base(c), since)
    else OnAt(c, d, Base(c), since)
  }

  // ----------------------------------------------------------- what settings mean

  /** n is the whole part of x. */
  predicate WholePart(n: int, x: real) {
    n as real <= x < (n + 1) as real
  }

  /** r is x, or the end of [lo, hi] that x lies beyond. */
  predicate Kept(r: real, x: real, lo: real, hi: real) {
    (lo <= x <= hi ==> r == x) && (x < lo ==> r == lo) && (x > hi ==> r == hi)
  }

  lemma TruncIsWholePart(x: real)
    requires x >= 0.0
    ensures WholePart(Trunc(x), x)
  {}

  lemma WholePartUnique(m: int, n: int, x: real)
    requires WholePart(m, x) && WholePart(n, x)
    ensures m == n
  {}

  /** A product, named so that proofs can treat it as one quantity. */
  function Times(a: real, b: real): real {
    a * b
  }

  lemma TimesOrder(a: real, b: real, k: real)
    requires k > 0.0
    ensures (a <= b ==> Times(a, k) <= Times(b, k)) && (a < b ==> Times(a, k) < Times(b, k))
  {}

  lemma TimesNatural(n: int, x: real)
    requires n >= 0 && x >= 0.0
    ensures Times(n as real, x) >= 0.0
  {}

  lemma QuotientTimes(n: real, k: real)
    requires k > 0.0 && n >= 0.0
    ensures Times(n / k, k) == n && n / k >= 0.0
  {}

  lemma ScaleIsWholePart(n: int, x: real)
    requires n >= 0 && x >= 0.0
    ensures WholePart(Scale(n, x), Times(n as real, x))
  {
    TimesNatural(n, x);
    assert Scale(n, x) == Trunc(Times(n as real, x));
    hide Scale, Times, Trunc, WholePart;
    TruncIsWholePart(Times(n as real, x));
  }

  /** p nanoseconds is the longest whole period of which hz fit into a second. */
  predicate PeriodAt(hz: real, p: int) {
    Times(p as real, hz) <= 1000000000.0 < Times((p + 1) as real, hz)
  }

  lemma PeriodOfRate(c: Cadence)
    requires c.hz > 0.0
    ensures PeriodAt(c.hz, Base(c))
  {
    var q := 1000000000.0 / c.hz;
    QuotientTimes(1000000000.0, c.hz);
    assert Base(c) == Trunc(q);
    hide Base, Times, Trunc;
    TruncIsWholePart(q);
    TimesOrder(Base(c) as real, q, c.hz);
    TimesOrder(q, (Base(c) + 1) as real, c.hz);
  }

  lemma OnePeriod(hz: real, p: int, q: int)
    requires hz > 0.0 && PeriodAt(hz, p) && PeriodAt(hz, q)
    ensures p == q
  {
    hide Times;
    if p < q { TimesOrder((p + 1) as real, q as real, hz); }
    if q < p { TimesOrder((q + 1) as real, p as real, hz); }
  }

  /** The share of a period that the action is on: one half when it is not set, and at most all of it. */
  predicate ShareOf(c: Cadence, r: real) {
    if c.duty <= 0.0 then r == 0.5 else Kept(r, c.duty, 0.0, 1.0)
  }

  lemma ShareIsDuty(c: Cadence, r: real)
    requires ShareOf(c, r)
    ensures r == Duty(c) && r >= 0.0
  {}

  /** A plain action is on in the first part of every period of `p` ns: the whole part of its share. So
      is any other once its schedule has run for 4096 cycles. */
  lemma ClockworkLaw(c: Cadence, d: Draws, since: int, p: int, share: real, on: int)
    requires c.hz > 0.0 && since >= 0 && p > 0 && PeriodAt(c.hz, p)
    requires Plain(c) || since >= Start(c, d, p, 4096)
    requires ShareOf(c, share) && WholePart(on, Times(p as real, share))
    ensures Active(c, d, since) <==> since % p < on
  {
    hide Base, OnAt, Start, PeriodAt, Times, Scale, WholePart, Duty, ShareOf;
    PeriodOfRate(c);
    OnePeriod(c.hz, p, Base(c));
    ShareIsDuty(c, share);
    ScaleIsWholePart(p, share);
    WholePartUnique(on, Scale(p, share), Times(p as real, share));
  }

  /** Before that, an action that is not plain follows its cycles. */
  lemma CyclesLaw(c: Cadence, d: Draws, since: int, p: int)
    requires c.hz > 0.0 && since >= 0 && p > 0 && PeriodAt(c.hz, p)
    requires !Plain(c) && since < Start(c, d, p, 4096)
    ensures Active(c, d, since) <==> OnAt(c, d, p, since)
  {
    hide Base, OnAt, Start, PeriodAt;
    PeriodOfRate(c);
    OnePeriod(c.hz, p, Base(c));
  }

  /** Without a rate, or with more than a thousand million presses a second, a held action is always on. */
  lemma SteadyLaw(c: Cadence, d: Draws, since: int)
    requires since >= 0 && (c.hz <= 0.0 || c.hz > 1000000000.0)
    ensures Active(c, d, since)
  {
    if c.hz > 0.0 {
      NoPeriod(c.hz);
      PeriodOfRate(c);
      OnePeriod(c.hz, 0, Base(c));
    }
  }

  lemma NoPeriod(hz: real)
    requires hz > 1000000000.0
    ensures PeriodAt(hz, 0)
  {}

  /** A cycle is as wide as the period times its draw, kept in [1/4, 4]: the whole part, and at least
      1 ns. */
  lemma WidthLaw(c: Cadence, d: Draws, base: int, ci: int, draw: real, n: int)
    requires base >= 1 && WholePart(n, Times(base as real, draw))
    requires if c.jitter > 0.0 then Kept(draw, d.interval(ci), 0.25, 4.0) else draw == 1.0
    ensures Width(c, d, base, ci) == if n >= 1 then n else 1
  {
    assert draw == Multiplier(c, d, ci) >= 0.25;
    hide Multiplier, Times, Scale, WholePart;
    ScaleIsWholePart(base, draw);
    WholePartUnique(n, Scale(base, draw), Times(base as real, draw));
  }

  /** A cycle is dropped exactly when its lottery draw is below the probability. Otherwise the action is
      on in it for the whole part of its share, drawn anew for every cycle and kept in [0.05, 0.95]. */
  lemma OnPartLaw(c: Cadence, d: Draws, base: int, k: nat, share: real, drawn: real, on: int)
    requires ShareOf(c, share) && Kept(drawn, if c.dutyJitter > 0.0 then Times(share, d.duty(k)) else share, 0.05, 0.95)
    requires WholePart(on, Times(Width(c, d, base, k) as real, drawn))
    ensures OnPart(c, d, base, k) == if c.skipProb > 0.0 && d.skip(k) < c.skipProb then 0 else on
  {
    hide Width, Scale, WholePart;
    ShareIsDuty(c, share);
    assert drawn == EffectiveDuty(c, d, k) >= 0.05 by { hide Duty, ShareOf; }
    hide Times, EffectiveDuty, Duty, ShareOf;
    var w := Width(c, d, base, k);
    ScaleIsWholePart(w, drawn);
    WholePartUnique(on, Scale(w, drawn), Times(w as real, drawn));
  }

  // ---------------------------------------------------------------- partition

  lemma {:induction false} StartGrows(c: Cadence, d: Draws, base: int, i: nat, k: nat)
    requires i <= k
    ensures Start(c, d, base, i) + (k - i) <= Start(c, d, base, k)
    decreases k
  {
    if i < k { StartGrows(c, d, base, i, k - 1); }
  }

  /** No instant is in two cycles. */
  lemma CycleUnique(c: Cadence, d: Draws, base: int, since: int, i: nat, k: nat)
    requires InCycle(c, d, base, since, i) && InCycle(c, d, base, since, k)
    ensures i == k
  {
    hide Width;
    if i < k { StartGrows(c, d, base, i + 1, k); }
    if k < i { StartGrows(c, d, base, k + 1, i); }
  }

  /** The first cycle, from `from` on, that ends after `since`. */
  lemma {:induction false} CycleFrom(c: Cadence, d: Draws, base: int, since: int, from: nat) returns (ci: nat)
    requires Start(c, d, base, from) <= since
    ensures InCycle(c, d, base, since, ci)
    decreases since - Start(c, d, base, from)
  {
    if since < Start(c, d, base, from + 1) {
      ci := from;
    } else {
      ci := CycleFrom(c, d, base, since, from + 1);
    }
  }

  /** The cycles partition time: every instant is in exactly one of them. */
  lemma CyclesPartition(c: Cadence, d: Draws, base: int, since: int)
    requires since >= 0
    ensures exists ci: nat :: InCycle(c, d, base, since, ci)
    ensures forall i: nat, k: nat :: InCycle(c, d, base, since, i) && InCycle(c, d, base, since, k) ==> i == k
  {
    var ci := CycleFrom(c, d, base, since, 0);
    forall i: nat, k: nat | InCycle(c, d, base, since, i) && InCycle(c, d, base, since, k) ensures i == k {
      CycleUnique(c, d, base, since, i, k);
    }
  }

  // ------------------------------------------------------------------- bounds

  lemma Scaled(b: real, x: real, y: real)
    requires b >= 0.0 && x <= y
    ensures b * x <= b * y
  {}

  lemma Quarter(base: int)
    requires base >= 1
    ensures (base / 4) as real <= base as real * 0.25
  {
    var q := base / 4;
    assert 4 * q <= base;
    assert (4 * q) as real <= base as real;
  }

  lemma ScaledBounds(base: int, mult: real)
    requires base >= 1 && 0.25 <= mult <= 4.0
    ensures base / 4 <= Scale(base, mult) <= 4 * base
  {
    Quarter(base);
    Scaled(base as real, 0.25, mult);
    Scaled(base as real, mult, 4.0);
    assert (4 * base) as real == base as real * 4.0;
    Between(base as real * mult, base / 4, 4 * base);
  }

  lemma Between(p: real, lo: int, hi: int)
    requires 0 <= lo && lo as real <= p <= hi as real
    ensures lo <= Trunc(p) <= hi
  {}

  lemma WidthBounds(c: Cadence, d: Draws, base: int, ci: int)
    requires base >= 1
    ensures (if base / 4 >= 1 then base / 4 else 1) <= Width(c, d, base, ci) <= 4 * base
  {
    hide Scale;
    ScaledBounds(base, Multiplier(c, d, ci));
  }

  /** Cycle k starts between k shortest and k longest widths: so the fallback behind the 4096th
      cycle is not reached before 4096 quarter periods, and is reached by 4096 times four. */
  lemma {:induction false} StartBounds(c: Cadence, d: Draws, base: int, k: nat)
    requires base >= 1
    ensures k * (if base / 4 >= 1 then base / 4 else 1) <= Start(c, d, base, k) <= k * (4 * base)
  {
    hide Width;
    if k > 0 {
      var lo, hi := if base / 4 >= 1 then base / 4 else 1, 4 * base;
      StartBounds(c, d, base, k - 1);
      WidthBounds(c, d, base, k - 1);
      assert k * lo == (k - 1) * lo + lo && k * hi == (k - 1) * hi + hi;
    }
  }

  // ----------------------------------------------------------------- on-count

  /** The instants before t at which the schedule is on. */
  ghost function OnInstants(c: Cadence, d: Draws, base: int, t: int): set<int> {
    set s | 0 <= s < t && OnAt(c, d, base, s)
  }

  predicate Within(s: int, lo: int, hi: int) {
    lo <= s < hi
  }

  function Interval(lo: int, hi: int): set<int> {
    set s | lo <= s < hi && Within(s, lo, hi)
  }

  lemma {:induction false} IntervalSize(lo: int, hi: int)
    requires lo <= hi
    ensures |Interval(lo, hi)| == hi - lo
    decreases hi - lo
  {
    if lo < hi {
      IntervalSize(lo, hi - 1);
      assert Interval(lo, hi) == Interval(lo, hi - 1) + {hi - 1};
    } else {
      assert Interval(lo, hi) == {};
    }
  }

  lemma OnTimeFits(c: Cadence, d: Draws, base: int, ci: int)
    ensures 0 <= OnTime(c, d, base, ci) < Width(c, d, base, ci)
  {
    hide Width, Scale, EffectiveDuty;
    ShareBounds(Width(c, d, base, ci), EffectiveDuty(c, d, ci));
  }

  lemma ShareBounds(w: int, x: real)
    requires w >= 1 && 0.05 <= x <= 0.95
    ensures 0 <= Scale(w, x) < w
  {
    var b := w as real;
    Scaled(b, 0.0, x);
    Scaled(b, x, 0.95);
    assert b * 0.95 < b;
    assert b * 0.0 == 0.0;
    assert 0.0 <= b * x;
    assert b * x < b;
    Below(w as real * x, w);
  }

  lemma Below(p: real, w: int)
    requires 0.0 <= p < w as real
    ensures 0 <= Trunc(p) < w
  {}

  /** The total of the on-parts of the first k cycles. */
  function OnSum(c: Cadence, d: Draws, base: int, k: nat): int {
    if k == 0 then 0 else OnSum(c, d, base, k - 1) + OnPart(c, d, base, k - 1)
  }

  /** How long the action is on in cycle k. */
  function OnPart(c: Cadence, d: Draws, base: int, k: nat): int {
    if Skipped(c, d, k) then 0 else OnTime(c, d, base, k)
  }

  /** The on-instants of one cycle are exactly its first part, or none when it is dropped. */
  lemma OnPartOfCycle(c: Cadence, d: Draws, base: int, k: nat, s: int)
    requires InCycle(c, d, base, s, k)
    ensures OnAt(c, d, base, s) <==> s < Start(c, d, base, k) + OnPart(c, d, base, k)
  {
    hide Width, Start, OnTime, Skipped, OnAt;
    OnByCycle(c, d, base, s, k);
    assert s >= Start(c, d, base, k);
  }

  lemma StartAtLeast(c: Cadence, d: Draws, base: int, k: nat)
    ensures Start(c, d, base, k) >= 0
  {
    StartGrows(c, d, base, 0, k);
  }

  lemma OnStep(c: Cadence, d: Draws, base: int, k: nat)
    ensures var a := Start(c, d, base, k);
            OnInstants(c, d, base, Start(c, d, base, k + 1)) == OnInstants(c, d, base, a) + Interval(a, a + OnPart(c, d, base, k))
    ensures OnPart(c, d, base, k) >= 0
  {
    var a, b, w := Start(c, d, base, k), Start(c, d, base, k + 1), Width(c, d, base, k);
    assert b == a + w;
    OnTimeFits(c, d, base, k);
    StartAtLeast(c, d, base, k);
    hide Start, Width, OnTime, OnAt, InCycle;
    forall s | a <= s < b ensures OnAt(c, d, base, s) <==> s < a + OnPart(c, d, base, k) {
      InCycleHere(c, d, base, k, s);
      OnPartOfCycle(c, d, base, k, s);
    }
  }

  lemma Disjoint(c: Cadence, d: Draws, base: int, a: int, b: int)
    requires a <= b
    ensures |OnInstants(c, d, base, a) + Interval(a, b)| == |OnInstants(c, d, base, a)| + (b - a)
  {
    hide OnAt;
    IntervalSize(a, b);
    assert OnInstants(c, d, base, a) !! Interval(a, b);
  }

  /** In its first k cycles the action is on for exactly the sum of their on-parts. */
  lemma {:induction false} OnCount(c: Cadence, d: Draws, base: int, k: nat)
    ensures |OnInstants(c, d, base, Start(c, d, base, k))| == OnSum(c, d, base, k)
  {
    hide OnPart, OnAt;
    if k == 0 {
      assert OnInstants(c, d, base, 0) == {};
    } else {
      OnCount(c, d, base, k - 1);
      OnCountStep(c, d, base, k - 1);
    }
  }

  lemma OnCountStep(c: Cadence, d: Draws, base: int, k: nat)
    ensures |OnInstants(c, d, base, Start(c, d, base, k + 1))| == |OnInstants(c, d, base, Start(c, d, base, k))| + OnPart(c, d, base, k)
  {
    hide Start, OnPart, OnInstants, Interval;
    var a := Start(c, d, base, k);
    OnStep(c, d, base, k);
    Disjoint(c, d, base, a, a + OnPart(c, d, base, k));
  }

  lemma InCycleHere(c: Cadence, d: Draws, base: int, k: nat, s: int)
    requires Start(c, d, base, k) <= s < Start(c, d, base, k + 1)
    ensures InCycle(c, d, base, s, k)
  {}

  // ---------------------------------------------- the slow path and clockwork

  lemma {:induction false} EvenStarts(c: Cadence, d: Draws, base: int, k: nat)
    requires base >= 1 && c.jitter <= 0.0
    ensures Start(c, d, base, k) == k * base
    ensures Width(c, d, base, k) == base
  {
    if k > 0 {
      EvenStarts(c, d, base, k - 1);
      assert k * base == (k - 1) * base + base;
    }
  }

  lemma EvenOnTime(c: Cadence, d: Draws, base: int, k: nat)
    requires base >= 1 && c.jitter <= 0.0 && c.dutyJitter <= 0.0
    ensures OnTime(c, d, base, k) == Scale(base, Clamp(Duty(c), 0.05, 0.95))
  {
    EvenStarts(c, d, base, k);
  }

  lemma DivisionCycle(base: int, since: int)
    requires base >= 1 && since >= 0
    ensures since / base >= 0 && (since / base) * base <= since < (since / base + 1) * base
    ensures since - (since / base) * base == since % base
  {
    assert (since / base + 1) * base == (since / base) * base + base;
  }

  /** With no jitter the schedule is the clockwork one, with dropped cycles masked out and the duty
      kept in [0.05, 0.95]. */
  lemma EvenSchedule(c: Cadence, d: Draws, base: int, since: int)
    requires base >= 1 && since >= 0 && c.jitter <= 0.0 && c.dutyJitter <= 0.0
    ensures OnAt(c, d, base, since) <==>
      !Skipped(c, d, since / base) && since % base < Scale(base, Clamp(Duty(c), 0.05, 0.95))
  {
    hide Width, Start, Skipped, Scale, Clamp, Duty;
    DivisionCycle(base, since);
    var q: nat := since / base;
    EvenStarts(c, d, base, q);
    EvenStarts(c, d, base, q + 1);
    assert InCycle(c, d, base, since, q);
    EvenOnTime(c, d, base, q);
    OnByCycle(c, d, base, since, q);
  }

  lemma OnByCycle(c: Cadence, d: Draws, base: int, since: int, q: nat)
    requires InCycle(c, d, base, since, q)
    ensures OnAt(c, d, base, since) <==> OnInCycle(c, d, base, since, q)
  {
    hide OnInCycle, InCycle;
    forall ci: nat | InCycle(c, d, base, since, ci) ensures ci == q { CycleUnique(c, d, base, since, ci, q); }
  }

  /** With only the skip lottery on and a duty in range, the walk is the clockwork formula masked
      by the lottery of cycle `since / base`; from 4096 periods on it is the formula alone. */
  lemma SlowPathIsMaskedClockwork(c: Cadence, d: Draws, since: int)
    requires c.hz > 0.0 && Base(c) > 0 && since >= 0
    requires c.jitter <= 0.0 && c.dutyJitter <= 0.0 && c.skipProb > 0.0 && 0.05 <= c.duty <= 0.95
    ensures Active(c, d, since) <==>
      Clockwork(c, Base(c), since) && (since < CYCLES * Base(c) ==> !Skipped(c, d, since / Base(c)))
  {
    hide Start, Skipped, Scale, OnAt, Base, Width;
    EvenStarts(c, d, Base(c), CYCLES);
    EvenSchedule(c, d, Base(c), since);
  }

  // ------------------------------------------------------------------ the loop

  /** `is_active` for a held action: the fast path, then the walk over the cycles. */
  method IsOn(c: Cadence, d: Draws, since: int) returns (on: bool)
    requires since >= 0
    ensures on <==> Active(c, d, since)
  {
    hide Width, OnTime, Skipped, Clockwork, OnAt;
    if c.hz <= 0.0 { return true; }
    var base := Base(c);
    if base <= 0 { return true; }
    if c.jitter <= 0.0 && c.dutyJitter <= 0.0 && c.skipProb <= 0.0 {
      return Clockwork(c, base, since);
    }
    var cum, ci := 0, 0;
    while ci < CYCLES
      invariant 0 <= ci <= CYCLES
      invariant cum == Start(c, d, base, ci) <= since
    {
      var next := cum + Width(c, d, base, ci);
      if since < next {
        OnByCycle(c, d, base, since, ci);
        WithinStarts(c, d, base, since, ci);
        if Skipped(c, d, ci) { return false; }
        return since - cum < OnTime(c, d, base, ci);
      }
      cum := next;
      ci := ci + 1;
    }
    return Clockwork(c, base, since);
  }

  lemma WithinStarts(c: Cadence, d: Draws, base: int, since: int, ci: nat)
    requires InCycle(c, d, base, since, ci) && ci < CYCLES
    ensures since < Start(c, d, base, CYCLES)
  {
    hide Width;
    StartGrows(c, d, base, ci + 1, CYCLES);
  }
}
