/** The right stick: mouse velocity through the saturation, the rotation debt and the response
    curve. Doubles are reals; the square root and `pow` are parameters. */
module Stick {
  import opened DaemonConfig

  const CENTER := 128

  datatype Debt = Debt(x: real, y: real)

  /** One tick's input: the velocity in counts per ms, and the magnitude `sqrt` returned. */
  datatype Input = Input(vx: real, vy: real, mag: real)

  /** A `uint8_t`. */
  type Octet = n: int | 0 <= n < 256

  datatype Output = Output(debt: Debt, rx: Octet, ry: Octet)

  predicate IsRoot(mag: real, x: real, y: real) {
    mag >= 0.0 && mag * mag == x * x + y * y
  }

  function Sens(c: Config): (s: real)
    ensures s > 0.0
  {
    if c.sensCountsMs > 0.0 then c.sensCountsMs else 1.0
  }

  function Nx(c: Config, d: Debt, i: Input): real {
    i.vx / Sens(c) + d.x
  }

  function Ny(c: Config, d: Debt, i: Input): real {
    i.vy / Sens(c) + d.y
  }

  /** One tick's input with the magnitude that `sqrt` returns for it. */
  function Measured(c: Config, d: Debt, vx: real, vy: real, sqrt: real -> real): Input {
    var i := Input(vx, vy, 0.0);
    Input(vx, vy, sqrt(Nx(c, d, i) * Nx(c, d, i) + Ny(c, d, i) * Ny(c, d, i)))
  }

  /** `lrint`: to the nearest integer, ties to even. */
  function Rint(x: real): int {
    var f := x.Floor;
    var r := x - f as real;
    if r < 0.5 then f else if r > 0.5 then f + 1 else if f % 2 == 0 then f else f + 1
  }

  function ClampByte(n: int): Octet {
    if n < 0 then 0 else if n > 255 then 255 else n
  }

  /** The share of the deflection that goes to one axis. */
  function Portion(dir: real, out: real): real {
    dir * out
  }

  function StickByte(dir: real, out: real): Octet {
    ClampByte(Rint(CENTER as real + Portion(dir, out) * 127.0))
  }

  /** The magnitude sent out, for a saturated magnitude and the value `pow` gave for it. */
  function OutMag(c: Config, curved: real): real {
    var out := c.antiDeadzone + (c.outerSat - c.antiDeadzone) * curved;
    var capped := if out > c.outerSat then c.outerSat else out;
    if capped < 0.0 then 0.0 else capped
  }

  function Times(d: Debt, k: real): Debt {
    Debt(d.x * k, d.y * k)
  }

  const TINY: real := 0.000000001

  /** `mouse_to_stick`, given the response curve. */
  function Tick(c: Config, curve: real -> real, d: Debt, i: Input): Output {
    if i.mag <= TINY then Output(Debt(0.0, 0.0), CENTER, CENTER)
    else
      var dirx, diry := Nx(c, d, i) / i.mag, Ny(c, d, i) / i.mag;
      var saturated := i.mag > c.outerSat;
      var debt := if saturated then Times(Debt(dirx, diry), i.mag - c.outerSat) else Times(d, 1.0 - c.debtDrain);
      var out := OutMag(c, curve(if saturated then c.outerSat else i.mag));
      Output(debt, StickByte(dirx, out), StickByte(diry, out))
  }

  // ------------------------------------------------------------- conservation

  /** The debt after a run of ticks. */
  function DebtAfter(c: Config, curve: real -> real, d: Debt, run: seq<Input>): Debt {
    if run == [] then d else Tick(c, curve, DebtAfter(c, curve, d, run[..|run| - 1]), run[|run| - 1]).debt
  }

  /** Every tick of the run was given the square root of its own vector. */
  predicate Rooted(c: Config, curve: real -> real, d: Debt, run: seq<Input>) {
    forall n :: 0 <= n < |run| ==>
      var dn := DebtAfter(c, curve, d, run[..n]);
      IsRoot(run[n].mag, Nx(c, dn, run[n]), Ny(c, dn, run[n]))
  }

  predicate AllSaturated(c: Config, run: seq<Input>) {
    forall n :: 0 <= n < |run| ==> run[n].mag > c.outerSat && run[n].mag > TINY
  }

  function Plus(a: Debt, b: Debt): Debt {
    Debt(a.x + b.x, a.y + b.y)
  }

  /** The normalised velocity of one tick. */
  function Incoming(c: Config, i: Input): Debt {
    Debt(i.vx / Sens(c), i.vy / Sens(c))
  }

  /** The full push `outer_sat * dir` of a saturated tick. */
  function Push(c: Config, d: Debt, i: Input): Debt
    requires i.mag > TINY
  {
    Debt(c.outerSat * (Nx(c, d, i) / i.mag), c.outerSat * (Ny(c, d, i) / i.mag))
  }

  function SumIn(c: Config, run: seq<Input>): Debt {
    if run == [] then Debt(0.0, 0.0) else Plus(SumIn(c, run[..|run| - 1]), Incoming(c, run[|run| - 1]))
  }

  /** The sum of the full pushes `outer_sat * dir` of a saturated run. */
  function SumPush(c: Config, curve: real -> real, d: Debt, run: seq<Input>): Debt
    requires AllSaturated(c, run)
  {
    if run == [] then Debt(0.0, 0.0)
    else
      var init := run[..|run| - 1];
      Plus(SumPush(c, curve, d, init), Push(c, DebtAfter(c, curve, d, init), run[|run| - 1]))
  }

  lemma SplitVector(n: real, mag: real, sat: real)
    requires mag > 0.0
    ensures n / mag * (mag - sat) == n - sat * (n / mag)
  {
    var q := n / mag;
    assert q * mag == n;
    assert q * (mag - sat) == q * mag - q * sat;
  }

  /** One saturated tick: what came in is what was pushed plus the new debt less the old. */
  lemma TickConserves(c: Config, curve: real -> real, d: Debt, i: Input)
    requires i.mag > c.outerSat && i.mag > TINY
    ensures Plus(Incoming(c, i), d) == Plus(Push(c, d, i), Tick(c, curve, d, i).debt)
  {
    SplitVector(Nx(c, d, i), i.mag, c.outerSat);
    SplitVector(Ny(c, d, i), i.mag, c.outerSat);
  }

  /** Over saturated runs no motion is lost or invented. */
  lemma {:induction false} DebtConserves(c: Config, curve: real -> real, d: Debt, run: seq<Input>)
    requires AllSaturated(c, run)
    ensures Plus(SumIn(c, run), d) == Plus(SumPush(c, curve, d, run), DebtAfter(c, curve, d, run))
  {
    hide Tick, Push, Incoming;
    if run != [] {
      var init, i := run[..|run| - 1], run[|run| - 1];
      DebtConserves(c, curve, d, init);
      TickConserves(c, curve, DebtAfter(c, curve, d, init), i);
    }
  }

  // ---------------------------------------------------------------- deflection

  lemma SquareGrows(a: real, b: real)
    requires a > b >= 0.0
    ensures a * a > b * b
  {
    assert a * a - b * b == (a - b) * (a + b);
    Positive(a - b, a + b);
  }

  lemma Positive(p: real, q: real)
    requires p > 0.0 && q > 0.0
    ensures p * q > 0.0
  {}

  lemma NotLarger(a: real, b: real)
    requires a >= 0.0 && b >= 0.0 && a * a <= b * b
    ensures a <= b
  {
    if a > b { SquareGrows(a, b); }
  }

  /** No coordinate is longer than the vector. */
  lemma Leg(mag: real, x: real, y: real)
    requires IsRoot(mag, x, y)
    ensures -mag <= x <= mag
  {
    assert y * y >= 0.0;
    if x >= 0.0 {
      NotLarger(x, mag);
    } else {
      assert (-x) * (-x) == x * x;
      NotLarger(-x, mag);
    }
  }

  lemma OutMagBounds(c: Config, curved: real)
    requires c.outerSat >= 0.0
    ensures 0.0 <= OutMag(c, curved) <= c.outerSat
  {}

  /** The direction component of a leg. */
  lemma Direction(x: real, mag: real)
    requires mag > 0.0 && -mag <= x <= mag
    ensures -1.0 <= x / mag <= 1.0 && (x >= 0.0 ==> x / mag >= 0.0) && (x <= 0.0 ==> x / mag <= 0.0)
  {
    assert x / mag * mag == x;
  }

  lemma PortionOrder(a: real, b: real, out: real)
    requires a <= b && out >= 0.0
    ensures Portion(a, out) <= Portion(b, out)
  {}

  lemma PortionUnits(out: real)
    ensures Portion(-1.0, out) == -out && Portion(0.0, out) == 0.0 && Portion(1.0, out) == out
  {}

  lemma Share(dir: real, out: real)
    requires -1.0 <= dir <= 1.0 && out >= 0.0
    ensures -out <= Portion(dir, out) <= out
    ensures (dir >= 0.0 ==> Portion(dir, out) >= 0.0) && (dir <= 0.0 ==> Portion(dir, out) <= 0.0)
  {
    hide Portion;
    PortionUnits(out);
    PortionOrder(-1.0, dir, out);
    PortionOrder(dir, 1.0, out);
    if dir >= 0.0 { PortionOrder(0.0, dir, out); }
    if dir <= 0.0 { PortionOrder(dir, 0.0, out); }
  }

  /** A stick byte lies on the side its direction points to, at most `out` away from the centre. */
  lemma ByteNear(dir: real, out: real)
    requires -1.0 <= dir <= 1.0 && out >= 0.0
    ensures var e := StickByte(dir, out) - CENTER;
            && -(127.0 * out + 0.5) <= e as real <= 127.0 * out + 0.5
            && (dir >= 0.0 ==> e >= 0) && (dir <= 0.0 ==> e <= 0)
  {
    hide Rint, ClampByte, Portion;
    Share(dir, out);
    PushNear(Portion(dir, out), out);
  }

  lemma PushNear(p: real, out: real)
    requires -out <= p <= out
    ensures var e := ClampByte(Rint(CENTER as real + p * 127.0)) - CENTER;
            && -(127.0 * out + 0.5) <= e as real <= 127.0 * out + 0.5
            && (p >= 0.0 ==> e >= 0) && (p <= 0.0 ==> e <= 0)
  {
    hide Rint, ClampByte;
    var x, bound := CENTER as real + p * 127.0, 127.0 * out + 0.5;
    RintNear(x);
    assert CENTER as real - 127.0 * out <= x <= CENTER as real + 127.0 * out;
    assert CENTER as real - bound <= Rint(x) as real <= CENTER as real + bound;
    ClampNear(Rint(x), bound);
  }

  lemma ClampNear(n: int, bound: real)
    requires bound >= 0.0 && CENTER as real - bound <= n as real <= CENTER as real + bound
    ensures -bound <= (ClampByte(n) - CENTER) as real <= bound
    ensures (n >= CENTER ==> ClampByte(n) >= CENTER) && (n <= CENTER ==> ClampByte(n) <= CENTER)
  {}

  lemma RintNear(x: real)
    ensures -0.5 <= Rint(x) as real - x <= 0.5
    ensures x >= CENTER as real ==> Rint(x) >= CENTER
    ensures x <= CENTER as real ==> Rint(x) <= CENTER
  {}

  /** The stick never turns the motion round and never leaves the square of half-width `outer_sat`,
      whatever the response curve. */
  lemma DeflectionBounded(c: Config, curve: real -> real, d: Debt, i: Input)
    requires IsRoot(i.mag, Nx(c, d, i), Ny(c, d, i)) && c.outerSat >= 0.0
    ensures var o := Tick(c, curve, d, i);
            && -(127.0 * c.outerSat + 0.5) <= (o.rx - CENTER) as real <= 127.0 * c.outerSat + 0.5
            && -(127.0 * c.outerSat + 0.5) <= (o.ry - CENTER) as real <= 127.0 * c.outerSat + 0.5
            && (Nx(c, d, i) >= 0.0 ==> o.rx >= CENTER) && (Nx(c, d, i) <= 0.0 ==> o.rx <= CENTER)
            && (Ny(c, d, i) >= 0.0 ==> o.ry >= CENTER) && (Ny(c, d, i) <= 0.0 ==> o.ry <= CENTER)
  {
    hide Nx, Ny, StickByte, OutMag;
    if i.mag > TINY {
      var out := OutMag(c, curve(if i.mag > c.outerSat then c.outerSat else i.mag));
      OutMagBounds(c, curve(if i.mag > c.outerSat then c.outerSat else i.mag));
      Leg(i.mag, Nx(c, d, i), Ny(c, d, i));
      Leg(i.mag, Ny(c, d, i), Nx(c, d, i));
      Direction(Nx(c, d, i), i.mag);
      Direction(Ny(c, d, i), i.mag);
      ByteNear(Nx(c, d, i) / i.mag, out);
      ByteNear(Ny(c, d, i) / i.mag, out);
    }
  }

  // ------------------------------------------------------------------ draining

  lemma RootUnique(a: real, b: real, x: real, y: real)
    requires IsRoot(a, x, y) && IsRoot(b, x, y)
    ensures a == b
  {
    assert (a - b) * (a + b) == a * a - b * b;
    ZeroProduct(a - b, a + b);
  }

  lemma ZeroProduct(p: real, q: real)
    requires p * q == 0.0
    ensures p == 0.0 || q == 0.0
  {}

  /** The share of the debt an unsaturated tick takes away: above 1 the drain overshoots and turns the
      debt round, which leaves `drain - 1` of it. */
  function Loss(c: Config): real {
    if c.debtDrain <= 1.0 then c.debtDrain else 2.0 - c.debtDrain
  }

  /** How the size of the debt moves in a tick without mouse motion. */
  function NextSize(c: Config, r: real): real {
    if r <= TINY then 0.0
    else if r > c.outerSat then r - c.outerSat
    else (1.0 - Loss(c)) * r
  }

  predicate Drains(c: Config) {
    c.outerSat > 0.0 && 0.0 < c.debtDrain < 2.0
  }

  lemma LossInRange(c: Config)
    requires Drains(c)
    ensures 0.0 < Loss(c) <= 1.0
  {}

  predicate Still(i: Input) {
    i.vx == 0.0 && i.vy == 0.0
  }

  lemma ScaledRoot(r: real, x: real, y: real, k: real)
    requires IsRoot(r, x, y)
    ensures IsRoot(Abs(k) * r, k * x, k * y)
  {
    assert Abs(k) * Abs(k) == k * k;
    assert Abs(k) * r >= 0.0;
    calc {
      (Abs(k) * r) * (Abs(k) * r);
      (Abs(k) * Abs(k)) * (r * r);
      (k * k) * (r * r);
      (k * k) * (x * x + y * y);
      (k * k) * (x * x) + (k * k) * (y * y);
      (k * x) * (k * x) + (k * y) * (k * y);
    }
  }

  /** The factor by which a motionless tick scales the debt. */
  function Factor(c: Config, r: real): real
    requires r > TINY
  {
    if r > c.outerSat then (r - c.outerSat) / r else 1.0 - c.debtDrain
  }

  lemma StillVector(c: Config, d: Debt, i: Input)
    requires Still(i)
    ensures Nx(c, d, i) == d.x && Ny(c, d, i) == d.y
  {
    assert 0.0 / Sens(c) == 0.0;
  }

  function Abs(x: real): real {
    if x < 0.0 then -x else x
  }

  lemma FactorLaw(c: Config, r: real)
    requires Drains(c) && r > TINY
    ensures Abs(Factor(c, r)) < 1.0 && NextSize(c, r) == Abs(Factor(c, r)) * r
    ensures c.debtDrain <= 1.0 ==> Factor(c, r) >= 0.0
  {
    if r > c.outerSat {
      ShareOfMagnitude(0.0, r, c.outerSat);
      ShareBelowOne(r, c.outerSat);
    }
  }

  lemma StillDebt(c: Config, curve: real -> real, d: Debt, i: Input)
    requires Drains(c) && Still(i) && i.mag > TINY
    ensures var k := Factor(c, i.mag); Tick(c, curve, d, i).debt == Debt(k * d.x, k * d.y)
  {
    hide Nx, Ny, Tick, Factor;
    TickDebt(c, curve, d, i);
    StillVector(c, d, i);
    FactorOf(c, i.mag, d.x);
    FactorOf(c, i.mag, d.y);
  }

  lemma FactorOf(c: Config, r: real, x: real)
    requires Drains(c) && r > TINY
    ensures r > c.outerSat ==> x / r * (r - c.outerSat) == Factor(c, r) * x
    ensures r <= c.outerSat ==> (1.0 - c.debtDrain) * x == Factor(c, r) * x
  {
    if r > c.outerSat { ShareOfMagnitude(x, r, c.outerSat); }
  }

  lemma TickDebt(c: Config, curve: real -> real, d: Debt, i: Input)
    requires i.mag > TINY
    ensures Tick(c, curve, d, i).debt
         == if i.mag > c.outerSat then Debt(Nx(c, d, i) / i.mag * (i.mag - c.outerSat), Ny(c, d, i) / i.mag * (i.mag - c.outerSat))
            else Debt((1.0 - c.debtDrain) * d.x, (1.0 - c.debtDrain) * d.y)
  {
    hide Nx, Ny, OutMag, StickByte;
  }

  /** A motionless tick scales the debt and moves its size as `NextSize` says: less one full
      deflection while saturated, by the factor `1 - drain` afterwards. It keeps the direction, unless
      the drain is above 1. */
  lemma StillTick(c: Config, curve: real -> real, d: Debt, i: Input)
    requires Drains(c) && Still(i) && IsRoot(i.mag, d.x, d.y)
    ensures var e := Tick(c, curve, d, i).debt;
            && IsRoot(NextSize(c, i.mag), e.x, e.y)
            && (i.mag > TINY ==> e == Debt(Factor(c, i.mag) * d.x, Factor(c, i.mag) * d.y))
            && (i.mag > TINY && c.debtDrain <= 1.0 ==> Factor(c, i.mag) >= 0.0)
            && (i.mag <= TINY ==> e == Debt(0.0, 0.0))
  {
    hide Tick, NextSize, Factor;
    if i.mag > TINY {
      var k := Factor(c, i.mag);
      StillDebt(c, curve, d, i);
      FactorLaw(c, i.mag);
      ScaledRoot(i.mag, d.x, d.y, k);
      SameRoot(Abs(k) * i.mag, k * d.x, k * d.y, NextSize(c, i.mag), Tick(c, curve, d, i).debt);
    } else {
      TinyTick(c, curve, d, i);
    }
  }

  lemma SameRoot(r: real, x: real, y: real, r': real, e: Debt)
    requires IsRoot(r, x, y) && r == r' && x == e.x && y == e.y
    ensures IsRoot(r', e.x, e.y)
  {}

  lemma TinyTick(c: Config, curve: real -> real, d: Debt, i: Input)
    requires i.mag <= TINY
    ensures Tick(c, curve, d, i) == Output(Debt(0.0, 0.0), CENTER, CENTER)
    ensures NextSize(c, i.mag) == 0.0 && IsRoot(0.0, 0.0, 0.0)
  {}

  lemma ShareOfMagnitude(x: real, r: real, sat: real)
    requires r > 0.0
    ensures x / r * (r - sat) == (r - sat) / r * x
    ensures (r - sat) / r * r == r - sat
  {
    var q := 1.0 / r;
    assert q * r == 1.0;
    assert x / r == x * q by { assert x * q * r == x * (q * r); }
    assert (r - sat) / r == (r - sat) * q by { assert (r - sat) * q * r == (r - sat) * (q * r); }
  }

  lemma ShareBelowOne(r: real, sat: real)
    requires r > sat > 0.0
    ensures 0.0 <= (r - sat) / r < 1.0
  {
    var q := 1.0 / r;
    assert q * r == 1.0 && q > 0.0;
    ShareOfMagnitude(r - sat, r, sat);
    assert (r - sat) / r == (r - sat) * q == 1.0 - sat * q;
    assert (r - sat) * q >= 0.0 && sat * q > 0.0;
  }

  /** The size after n motionless ticks. */
  function SizeAfter(c: Config, r: real, n: nat): real {
    if n == 0 then r else NextSize(c, SizeAfter(c, r, n - 1))
  }

  /** The ticks spent saturated, and the ticks of decay that bring one deflection under the
      threshold. */
  function SaturatedTicks(c: Config, r: real): nat
    requires Drains(c) && r >= 0.0
  {
    (r / c.outerSat).Floor
  }

  function DecayTicks(c: Config): nat
    requires Drains(c)
  {
    LossInRange(c);
    (c.outerSat / (TINY * Loss(c))).Floor + 1
  }

  lemma {:induction false} SizeNonNegative(c: Config, r: real, n: nat)
    requires Drains(c) && r >= 0.0
    ensures SizeAfter(c, r, n) >= 0.0
  {
    if n > 0 {
      SizeNonNegative(c, r, n - 1);
      NextSizeShrinks(c, SizeAfter(c, r, n - 1));
    }
  }

  /** While saturated the size falls by one full deflection a tick. */
  lemma {:induction false} SaturatedPhase(c: Config, r: real, n: nat)
    requires Drains(c) && r >= 0.0
    ensures SizeAfter(c, r, n) > c.outerSat ==> SizeAfter(c, r, n) <= r - n as real * c.outerSat
    ensures (c.outerSat > TINY && forall k :: 0 <= k < n ==> SizeAfter(c, r, k) > c.outerSat) ==>
              SizeAfter(c, r, n) == r - n as real * c.outerSat
  {
    if n > 0 {
      SaturatedPhase(c, r, n - 1);
      SizeNonNegative(c, r, n - 1);
      NextSizeShrinks(c, SizeAfter(c, r, n - 1));
      OneMore(n, c.outerSat);
      NextSaturated(c, SizeAfter(c, r, n - 1));
      hide NextSize;
    }
  }

  lemma OneMore(n: nat, w: real)
    requires n > 0
    ensures n as real * w == (n - 1) as real * w + w
  {}

  lemma NextSaturated(c: Config, s: real)
    requires Drains(c) && s >= 0.0
    ensures s <= c.outerSat ==> NextSize(c, s) <= c.outerSat
    ensures s > c.outerSat ==> NextSize(c, s) <= s - c.outerSat || s <= TINY
    ensures s > c.outerSat > TINY ==> NextSize(c, s) == s - c.outerSat
    ensures NextSize(c, s) > c.outerSat ==> s > c.outerSat && NextSize(c, s) == s - c.outerSat
  {
    NextSizeShrinks(c, s);
  }

  lemma PartOf(x: real, r: real)
    requires 0.0 <= x <= 1.0 && r >= 0.0
    ensures 0.0 <= x * r <= r
  {}

  lemma NextSizeShrinks(c: Config, r: real)
    requires Drains(c) && r >= 0.0
    ensures 0.0 <= NextSize(c, r) <= r
  {
    LossInRange(c);
    hide Loss;
    PartOf(1.0 - Loss(c), r);
  }

  /** The saturated phase is over after `SaturatedTicks`. */
  lemma SaturationEnds(c: Config, r: real)
    requires Drains(c) && r >= 0.0
    ensures SizeAfter(c, r, SaturatedTicks(c, r)) <= c.outerSat
  {
    hide SizeAfter;
    SaturatedPhase(c, r, SaturatedTicks(c, r));
    Remainder(r, c.outerSat, r / c.outerSat, SaturatedTicks(c, r) as real);
  }

  lemma Remainder(r: real, sat: real, q: real, n: real)
    requires sat > 0.0 && q == r / sat && q - n <= 1.0
    ensures r - n * sat <= sat
  {
    assert q * sat == r;
    assert (q - n) * sat <= sat;
    assert (q - n) * sat == q * sat - n * sat;
  }

  /** The inequality of Bernoulli, one step: decay by 1 - d outruns 1/(1 + n d). */
  lemma DecayStep(s: real, n: real, d: real, bound: real)
    requires s >= 0.0 && n >= 0.0 && 0.0 < d <= 1.0 && s * (1.0 + n * d) <= bound
    ensures (1.0 - d) * s * (1.0 + (n + 1.0) * d) <= bound
  {
    calc {
      (1.0 - d) * s * (1.0 + (n + 1.0) * d);
      s * ((1.0 - d) * (1.0 + (n + 1.0) * d));
      { assert (1.0 - d) * (1.0 + (n + 1.0) * d) == 1.0 + n * d - (n + 1.0) * d * d; }
      s * (1.0 + n * d - (n + 1.0) * d * d);
      s * (1.0 + n * d) - s * ((n + 1.0) * d * d);
    }
    assert (n + 1.0) * d * d >= 0.0;
    assert s * ((n + 1.0) * d * d) >= 0.0;
  }

  lemma {:induction false} DecayPhase(c: Config, r: real, n: nat)
    requires Drains(c) && 0.0 <= r <= c.outerSat
    ensures 0.0 <= SizeAfter(c, r, n) <= c.outerSat
    ensures SizeAfter(c, r, n) * (1.0 + n as real * Loss(c)) <= c.outerSat
  {
    hide Loss, NextSize;
    if n > 0 {
      DecayPhase(c, r, n - 1);
      NextDecays(c, SizeAfter(c, r, n - 1), (n - 1) as real);
      assert (n - 1) as real + 1.0 == n as real;
    } else {
      assert r * (1.0 + 0.0 * Loss(c)) == r by { assert 0.0 * Loss(c) == 0.0; }
    }
  }

  lemma NextDecays(c: Config, s: real, n: real)
    requires Drains(c) && 0.0 <= s <= c.outerSat && n >= 0.0 && s * (1.0 + n * Loss(c)) <= c.outerSat
    ensures 0.0 <= NextSize(c, s) <= c.outerSat && NextSize(c, s) * (1.0 + (n + 1.0) * Loss(c)) <= c.outerSat
  {
    NextSizeShrinks(c, s);
    LossInRange(c);
    hide Loss;
    if s <= TINY {
      assert 0.0 * (1.0 + (n + 1.0) * Loss(c)) == 0.0;
    } else {
      DecayStep(s, n, Loss(c), c.outerSat);
    }
  }

  /** One deflection has decayed below the threshold after `DecayTicks`. */
  lemma DecayEnds(c: Config, r: real)
    requires Drains(c) && 0.0 <= r <= c.outerSat
    ensures SizeAfter(c, r, DecayTicks(c)) <= TINY
  {
    hide SizeAfter;
    DecayPhase(c, r, DecayTicks(c));
    LossInRange(c);
    var q := c.outerSat / (TINY * Loss(c));
    assert TINY * Loss(c) > 0.0;
    assert DecayTicks(c) as real > q;
    DecayBound(c.outerSat, Loss(c), TINY, DecayTicks(c) as real, SizeAfter(c, r, DecayTicks(c)));
  }

  lemma DecayBound(sat: real, d: real, t: real, n: real, s: real)
    requires sat > 0.0 && d > 0.0 && t > 0.0 && t * d > 0.0 && n > sat / (t * d) && n > 0.0
    requires s * (1.0 + n * d) <= sat
    ensures s <= t
  {
    var q, w := sat / (t * d), 1.0 + n * d;
    assert q * (t * d) == sat;
    MoreThanShare(n, q, t * d);
    assert n * (t * d) == t * (n * d);
    assert t * w == t + t * (n * d);
    assert n * d > 0.0;
    CancelFactor(s, t, w);
  }

  lemma CancelFactor(s: real, t: real, w: real)
    requires w > 0.0 && s * w <= t * w
    ensures s <= t
  {
    if s > t { MoreThanShare(s, t, w); }
  }

  lemma MoreThanShare(n: real, q: real, w: real)
    requires n > q && w > 0.0
    ensures n * w > q * w
  {}

  lemma {:induction false} SizeCompose(c: Config, r: real, m: nat, n: nat)
    ensures SizeAfter(c, SizeAfter(c, r, m), n) == SizeAfter(c, r, m + n)
  {
    if n > 0 { SizeCompose(c, r, m, n - 1); }
  }

  lemma {:induction false} SizeStaysTiny(c: Config, r: real, m: nat, n: nat)
    requires Drains(c) && r >= 0.0 && m <= n && SizeAfter(c, r, m) <= TINY
    ensures SizeAfter(c, r, n) <= TINY
    decreases n
  {
    if m < n {
      SizeStaysTiny(c, r, m, n - 1);
      SizeNonNegative(c, r, n - 1);
      NextSizeShrinks(c, SizeAfter(c, r, n - 1));
    }
  }

  /** The number of motionless ticks after which a debt of size r is gone. */
  function TicksToCenter(c: Config, r: real): nat
    requires Drains(c) && r >= 0.0
  {
    SaturatedTicks(c, r) + DecayTicks(c)
  }

  lemma SizeVanishes(c: Config, r: real, n: nat)
    requires Drains(c) && r >= 0.0 && n >= TicksToCenter(c, r)
    ensures SizeAfter(c, r, n) <= TINY
  {
    var m := SaturatedTicks(c, r);
    SaturationEnds(c, r);
    SizeNonNegative(c, r, m);
    DecayEnds(c, SizeAfter(c, r, m));
    SizeCompose(c, r, m, DecayTicks(c));
    SizeStaysTiny(c, r, TicksToCenter(c, r), n);
  }

  /** Along a motionless run the magnitudes seen are the sizes computed. */
  lemma {:induction false} RunSizes(c: Config, curve: real -> real, d: Debt, r: real, run: seq<Input>)
    requires Drains(c) && IsRoot(r, d.x, d.y) && Rooted(c, curve, d, run)
    requires forall n :: 0 <= n < |run| ==> Still(run[n])
    ensures var e := DebtAfter(c, curve, d, run); IsRoot(SizeAfter(c, r, |run|), e.x, e.y)
    ensures forall n :: 0 <= n < |run| ==> run[n].mag == SizeAfter(c, r, n)
  {
    hide Tick, IsRoot, NextSize;
    if run != [] {
      var k := |run| - 1;
      var init, i := run[..k], run[k];
      forall n | 0 <= n < k
        ensures var dn := DebtAfter(c, curve, d, init[..n]); IsRoot(init[n].mag, Nx(c, dn, init[n]), Ny(c, dn, init[n]))
      {
        assert init[..n] == run[..n];
      }
      RunSizes(c, curve, d, r, init);
      var dk := DebtAfter(c, curve, d, init);
      StillVector(c, dk, i);
      RootUnique(i.mag, SizeAfter(c, r, k), dk.x, dk.y);
      StillTick(c, curve, dk, i);
      forall n | 0 <= n < |run| ensures run[n].mag == SizeAfter(c, r, n) {
        if n < k { assert init[n] == run[n]; }
      }
    }
  }

  function Turned(d: Debt): Debt {
    Debt(-d.x, -d.y)
  }

  lemma EdgeTick(c: Config, curve: real -> real, d: Debt, i: Input)
    requires Still(i) && TINY < i.mag <= c.outerSat
    ensures c.debtDrain == 0.0 ==> Tick(c, curve, d, i).debt == d
    ensures c.debtDrain == 2.0 ==> Tick(c, curve, d, i).debt == Turned(d)
  {
    hide Tick;
    TickDebt(c, curve, d, i);
  }

  lemma TurnedRoot(r: real, d: Debt)
    requires IsRoot(r, d.x, d.y)
    ensures IsRoot(r, Turned(d).x, Turned(d).y) && Turned(Turned(d)) == d
  {}

  /** At the two ends of the range nothing drains: 0 leaves a debt of at most one deflection as it is
      for ever, and 2 only turns it round. */
  lemma {:induction false} NeverDrains(c: Config, curve: real -> real, d: Debt, r: real, run: seq<Input>)
    requires (c.debtDrain == 0.0 || c.debtDrain == 2.0) && IsRoot(r, d.x, d.y) && TINY < r <= c.outerSat
    requires Rooted(c, curve, d, run) && forall n :: 0 <= n < |run| ==> Still(run[n])
    ensures var e := DebtAfter(c, curve, d, run); e == d || (c.debtDrain == 2.0 && e == Turned(d))
  {
    hide Tick, IsRoot, Nx, Ny, Turned;
    if run != [] {
      var k := |run| - 1;
      var init, i := run[..k], run[k];
      forall n | 0 <= n < k
        ensures var dn := DebtAfter(c, curve, d, init[..n]); IsRoot(init[n].mag, Nx(c, dn, init[n]), Ny(c, dn, init[n]))
      {
        assert init[..n] == run[..n];
      }
      NeverDrains(c, curve, d, r, init);
      var dk := DebtAfter(c, curve, d, init);
      TurnedRoot(r, d);
      StillVector(c, dk, i);
      RootUnique(i.mag, r, dk.x, dk.y);
      EdgeTick(c, curve, dk, i);
    }
  }

  /** Once the mouse rests, the debt drains and the stick comes back to its exact centre: from the
      tick number `TicksToCenter` on, both bytes are 128 and no debt is left. */
  lemma DrainsToCenter(c: Config, curve: real -> real, d: Debt, r: real, run: seq<Input>)
    requires Drains(c) && IsRoot(r, d.x, d.y) && Rooted(c, curve, d, run)
    requires forall n :: 0 <= n < |run| ==> Still(run[n])
    ensures forall n :: TicksToCenter(c, r) <= n < |run| ==>
              Tick(c, curve, DebtAfter(c, curve, d, run[..n]), run[n]) == Output(Debt(0.0, 0.0), 128, 128)
  {
    hide IsRoot;
    assert r >= 0.0 by { RootIsNonNegative(r, d.x, d.y); }
    RunSizes(c, curve, d, r, run);
    forall n | TicksToCenter(c, r) <= n < |run|
      ensures Tick(c, curve, DebtAfter(c, curve, d, run[..n]), run[n]) == Output(Debt(0.0, 0.0), 128, 128)
    {
      SizeVanishes(c, r, n);
      TinyTick(c, curve, DebtAfter(c, curve, d, run[..n]), run[n]);
    }
  }

  lemma RootIsNonNegative(r: real, x: real, y: real)
    requires IsRoot(r, x, y)
    ensures r >= 0.0
  {}
}
