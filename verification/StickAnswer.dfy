/** What the right stick answers to mouse motion: the exact deflection, the least one, and how it grows
    with speed. */
module StickAnswer {
  import opened DaemonConfig
  import opened Stick

  /** b is an integer nearest to x, or the end of the byte's range that x lies beyond. */
  predicate NearestByte(b: int, x: real) {
    && 0 <= b <= 255
    && (b as real - x <= 0.5 || b == 0)
    && (x - b as real <= 0.5 || b == 255)
  }

  lemma RintIsNearest(x: real)
    ensures -0.5 <= Rint(x) as real - x <= 0.5
  {}

  lemma ByteIsNearest(x: real)
    ensures NearestByte(ClampByte(Rint(x)), x)
  {
    hide Rint;
    RintIsNearest(x);
  }

  /** The centre plus 127 times the share of the deflection that falls on an axis. */
  function Place(share: real, out: real): real {
    128.0 + 127.0 * (share * out)
  }

  lemma PlaceIs(share: real, out: real)
    ensures Place(share, out) == CENTER as real + Portion(share, out) * 127.0
  {}

  lemma StickByteIsNearest(dir: real, out: real)
    ensures NearestByte(StickByte(dir, out), Place(dir, out))
  {
    hide NearestByte, Rint, ClampByte, Place, Portion;
    PlaceIs(dir, out);
    ByteIsNearest(CENTER as real + Portion(dir, out) * 127.0);
  }

  /** The normalised velocity on one axis: counts per ms over the sensitivity, plus the debt. */
  function Demand(c: Config, v: real, debt: real): real {
    v / (if c.sensCountsMs > 0.0 then c.sensCountsMs else 1.0) + debt
  }

  lemma DemandIs(c: Config, d: Debt, i: Input)
    ensures Nx(c, d, i) == Demand(c, i.vx, d.x) && Ny(c, d, i) == Demand(c, i.vy, d.y)
  {}

  /** A product, named so that proofs can treat it as one quantity. */
  function Product(a: real, b: real): real {
    a * b
  }

  /** The size of the deflection: from the dead zone to the saturation as the curve's value goes from 0
      to 1, and never outside [0, saturation]. */
  predicate DeflectsBy(c: Config, k: real, out: real) {
    var straight := c.antiDeadzone + Product(c.outerSat - c.antiDeadzone, k);
    && (0.0 <= straight <= c.outerSat ==> out == straight)
    && (straight > c.outerSat ==> out == c.outerSat)
    && (straight < 0.0 ==> out == 0.0)
  }

  lemma OutMagDeflects(c: Config, k: real)
    requires c.outerSat >= 0.0
    ensures DeflectsBy(c, k, OutMag(c, k))
  {}

  /** The curve is asked at the magnitude, cut at the saturation. */
  function Asked(c: Config, mag: real): real {
    if mag > c.outerSat then c.outerSat else mag
  }

  lemma TickBytes(c: Config, curve: real -> real, d: Debt, i: Input)
    requires i.mag > TINY
    ensures var o, out := Tick(c, curve, d, i), OutMag(c, curve(Asked(c, i.mag)));
            && o.rx == StickByte(Demand(c, i.vx, d.x) / i.mag, out)
            && o.ry == StickByte(Demand(c, i.vy, d.y) / i.mag, out)
  {
    hide Nx, Ny, OutMag, StickByte, Demand, Times;
    DemandIs(c, d, i);
  }

  /** The answer to any motion: each byte is an integer nearest to the centre plus 127 times its share of
      the deflection, along the demanded direction. */
  lemma Answer(c: Config, curve: real -> real, d: Debt, i: Input) returns (out: real)
    requires i.mag > TINY && c.outerSat >= 0.0
    ensures DeflectsBy(c, curve(Asked(c, i.mag)), out)
    ensures var o := Tick(c, curve, d, i);
            && NearestByte(o.rx, Place(Demand(c, i.vx, d.x) / i.mag, out))
            && NearestByte(o.ry, Place(Demand(c, i.vy, d.y) / i.mag, out))
  {
    hide Tick, Demand, NearestByte, OutMag, DeflectsBy, StickByte, Place;
    out := OutMag(c, curve(Asked(c, i.mag)));
    OutMagDeflects(c, curve(Asked(c, i.mag)));
    TickBytes(c, curve, d, i);
    StickByteIsNearest(Demand(c, i.vx, d.x) / i.mag, out);
    StickByteIsNearest(Demand(c, i.vy, d.y) / i.mag, out);
  }

  // ------------------------------------------------------- the least deflection

  lemma ProductShare(w: real, k: real)
    requires w >= 0.0 && 0.0 <= k <= 1.0
    ensures 0.0 <= Product(w, k) <= w && 0.0 <= Product(k, w) <= w
  {
    PartOf(k, w);
  }

  lemma ProductSum(a: real, b: real, w: real)
    ensures Product(a + b, w) == Product(a, w) + Product(b, w) && Product(w, a + b) == Product(w, a) + Product(w, b)
  {}

  lemma ProductSign(a: real, w: real)
    ensures Product(-a, w) == -Product(a, w) && Product(w, -a) == -Product(w, a) && Product(a, w) == Product(w, a)
    ensures Product(1.0, w) == w && Product(0.0, w) == 0.0
  {}

  lemma ProductGroup(a: real, b: real, w: real)
    ensures Product(Product(a, b), w) == Product(a, Product(b, w))
  {}

  lemma SquareShare(p: real, mag: real, x: real)
    requires Product(p, mag) == x
    ensures Product(Product(p, p), Product(mag, mag)) == Product(x, x)
  {
    hide Product;
    ProductGroup(p, p, Product(mag, mag));
    ProductGroup(p, mag, mag);
    ProductGroup(p, x, mag);
    ProductGroup(x, p, mag);
    ProductSign(p, x);
  }

  lemma RootProducts(mag: real, x: real, y: real)
    requires IsRoot(mag, x, y)
    ensures Product(mag, mag) == Product(x, x) + Product(y, y)
  {}

  lemma Quotient(x: real, mag: real)
    requires mag > 0.0
    ensures Product(x / mag, mag) == x
  {}

  lemma UnitVector(mag: real, x: real, y: real)
    requires mag > 0.0 && IsRoot(mag, x, y)
    ensures Product(x / mag, x / mag) + Product(y / mag, y / mag) == 1.0
  {
    hide Product, IsRoot;
    var p, q, w := x / mag, y / mag, Product(mag, mag);
    Quotient(x, mag);
    Quotient(y, mag);
    SquareShare(p, mag, x);
    SquareShare(q, mag, y);
    RootProducts(mag, x, y);
    ProductSum(Product(p, p), Product(q, q), w);
    assert w > 0.0 by { ProductPositive(mag, mag); }
    Cancel(Product(p, p) + Product(q, q), w);
  }

  lemma ProductPositive(a: real, b: real)
    requires a > 0.0 && b > 0.0
    ensures Product(a, b) > 0.0
  {}

  lemma Cancel(s: real, w: real)
    requires w > 0.0 && Product(s, w) == w
    ensures s == 1.0
  {
    ZeroFactor(s - 1.0, w) by {
      hide Product;
      ProductSum(s, -1.0, w);
      ProductSign(1.0, w);
    }
  }

  lemma ZeroFactor(s: real, w: real)
    requires w > 0.0 && Product(s, w) == 0.0
    ensures s == 0.0
  {}

  /** An error of at most a half on each axis moves the length along a unit vector by at most one. */
  lemma SmallError(e: real, p: real)
    requires -1.0 <= p <= 1.0 && -0.5 <= e <= 0.5
    ensures -0.5 <= Product(e, p) <= 0.5
  {
    hide Product;
    var a, b := if p >= 0.0 then p else -p, if e >= 0.0 then e else -e;
    ProductShare(b, a);
    ProductSign(e, p);
    ProductSign(p, e);
    ProductSign(-e, p);
    ProductSign(p, -e);
  }

  /** A byte nearest to a deflection of at most 127 is off by at most a half. */
  lemma NearByte(b: int, x: real)
    requires NearestByte(b, x) && 1.0 <= x <= 255.0
    ensures -0.5 <= b as real - x <= 0.5
  {}

  /** The length of the deflection along the direction (p, q). */
  function Along(o: Output, p: real, q: real): real {
    Product((o.rx - 128) as real, p) + Product((o.ry - 128) as real, q)
  }

  /** One axis: the deflection along p is its share of `out`, up to a half. */
  lemma AxisAlong(b: int, p: real, out: real)
    requires -1.0 <= p <= 1.0 && 0.0 <= out <= 1.0 && NearestByte(b, Place(p, out))
    ensures Product((b - 128) as real, p) >= 127.0 * Product(Product(p, p), out) - 0.5
  {
    hide Product, Place, NearestByte, Portion;
    Share(p, out);
    PlaceIs(p, out);
    PortionIsProduct(p, out);
    NearByte(b, Place(p, out));
    var u := Product(p, out);
    var e := (b - 128) as real - 127.0 * u;
    SmallError(e, p);
    ProductSum(127.0 * u, e, p);
    Product127(u, p);
    ProductSign(u, p);
    ProductGroup(p, p, out);
  }

  lemma PortionIsProduct(p: real, out: real)
    ensures Portion(p, out) == Product(p, out)
  {}

  lemma Product127(u: real, p: real)
    ensures Product(127.0 * u, p) == 127.0 * Product(u, p)
  {}

  /** Any motion pushes the stick at least the dead zone along its direction, up to the rounding of the
      two bytes. */
  lemma AtLeastDeadzone(c: Config, curve: real -> real, d: Debt, i: Input)
    requires i.mag > TINY && IsRoot(i.mag, Demand(c, i.vx, d.x), Demand(c, i.vy, d.y))
    requires 0.0 <= c.antiDeadzone <= c.outerSat <= 1.0 && 0.0 <= curve(Asked(c, i.mag)) <= 1.0
    ensures Along(Tick(c, curve, d, i), Demand(c, i.vx, d.x) / i.mag, Demand(c, i.vy, d.y) / i.mag)
            >= 127.0 * c.antiDeadzone - 1.0
  {
    hide Tick, Demand, NearestByte, Asked, Place, Product, IsRoot;
    var out := Answer(c, curve, d, i);
    ProductShare(c.outerSat - c.antiDeadzone, curve(Asked(c, i.mag)));
    var x, y, o := Demand(c, i.vx, d.x), Demand(c, i.vy, d.y), Tick(c, curve, d, i);
    Leg(i.mag, x, y);
    IsRootSwap(i.mag, x, y);
    Leg(i.mag, y, x);
    var p, q := x / i.mag, y / i.mag;
    Direction(x, i.mag);
    Direction(y, i.mag);
    UnitVector(i.mag, x, y);
    AxisAlong(o.rx, p, out);
    AxisAlong(o.ry, q, out);
    ProductSum(Product(p, p), Product(q, q), out);
    ProductSign(1.0, out);
  }

  lemma IsRootSwap(mag: real, x: real, y: real)
    requires IsRoot(mag, x, y)
    ensures IsRoot(mag, y, x)
  {}

  // ------------------------------------------------------------------- growing

  lemma RintOrder(x: real, y: real)
    requires x <= y
    ensures Rint(x) <= Rint(y)
  {}

  lemma ByteOrder(dir: real, a: real, b: real)
    requires 0.0 <= a <= b
    ensures dir >= 0.0 ==> StickByte(dir, a) <= StickByte(dir, b)
    ensures dir <= 0.0 ==> StickByte(dir, a) >= StickByte(dir, b)
  {
    hide Rint, Portion;
    PortionGrows(dir, a, b);
    var u, v := CENTER as real + Portion(dir, a) * 127.0, CENTER as real + Portion(dir, b) * 127.0;
    if dir >= 0.0 { RintOrder(u, v); }
    if dir <= 0.0 { RintOrder(v, u); }
  }

  lemma PortionGrows(dir: real, a: real, b: real)
    requires a <= b
    ensures dir >= 0.0 ==> Portion(dir, a) <= Portion(dir, b)
    ensures dir <= 0.0 ==> Portion(dir, a) >= Portion(dir, b)
  {}

  lemma OutMagOrder(c: Config, j: real, k: real)
    requires 0.0 <= c.antiDeadzone <= c.outerSat && j <= k
    ensures 0.0 <= OutMag(c, j) <= OutMag(c, k)
  {
    hide Product;
    ProductOrder(c.outerSat - c.antiDeadzone, j, k);
    OutMagDeflects(c, j);
    OutMagDeflects(c, k);
    hide OutMag;
  }

  lemma ProductOrder(w: real, j: real, k: real)
    requires w >= 0.0 && j <= k
    ensures Product(w, j) <= Product(w, k)
  {}

  ghost predicate Rises(curve: real -> real) {
    forall a, b :: 0.0 <= a <= b ==> curve(a) <= curve(b)
  }

  /** With a rising curve, more speed in the same direction never deflects less, on either axis. */
  lemma FasterDeflectsMore(c: Config, curve: real -> real, d: Debt, i: Input, e: Debt, j: Input)
    requires TINY < i.mag <= j.mag && 0.0 <= c.antiDeadzone <= c.outerSat && Rises(curve)
    requires Demand(c, i.vx, d.x) / i.mag == Demand(c, j.vx, e.x) / j.mag
    requires Demand(c, i.vy, d.y) / i.mag == Demand(c, j.vy, e.y) / j.mag
    ensures var p, q, o, u := Demand(c, i.vx, d.x) / i.mag, Demand(c, i.vy, d.y) / i.mag, Tick(c, curve, d, i), Tick(c, curve, e, j);
            && (p >= 0.0 ==> o.rx <= u.rx) && (p <= 0.0 ==> o.rx >= u.rx)
            && (q >= 0.0 ==> o.ry <= u.ry) && (q <= 0.0 ==> o.ry >= u.ry)
  {
    hide Tick, Demand, OutMag, StickByte;
    TickBytes(c, curve, d, i);
    TickBytes(c, curve, e, j);
    var a, b := curve(Asked(c, i.mag)), curve(Asked(c, j.mag));
    assert 0.0 <= Asked(c, i.mag) <= Asked(c, j.mag);
    OutMagOrder(c, a, b);
    ByteOrder(Demand(c, i.vx, d.x) / i.mag, OutMag(c, a), OutMag(c, b));
    ByteOrder(Demand(c, i.vy, d.y) / i.mag, OutMag(c, a), OutMag(c, b));
  }

  /** The debt after any tick: what lies beyond the saturation, in the demanded direction, or else the
      old debt less its drained share. */
  lemma DebtAnswer(c: Config, curve: real -> real, d: Debt, i: Input)
    requires i.mag > TINY
    ensures var x, y, e := Demand(c, i.vx, d.x), Demand(c, i.vy, d.y), Tick(c, curve, d, i).debt;
            if i.mag > c.outerSat then e == Debt(x / i.mag * (i.mag - c.outerSat), y / i.mag * (i.mag - c.outerSat))
            else e == Debt((1.0 - c.debtDrain) * d.x, (1.0 - c.debtDrain) * d.y)
  {
    hide Tick, Demand, Nx, Ny;
    TickDebt(c, curve, d, i);
    DemandIs(c, d, i);
  }
}
