/** The 64-byte DualSense report: what its bytes say about the pressed and active actions, the right
    stick, the report counter and the clock. */
module InputReport {
  import opened Actions
  import opened Samples
  import opened DaemonConfig
  import opened Stick

  newtype byte = x: int | 0 <= x < 256

  const LENGTH := 64

  /** `(uint8_t)n`. */
  function Byte(n: int): byte {
    (n % 256) as byte
  }

  lemma NextByte(n: int)
    ensures Byte(Byte(n) as int + 1) == Byte(n + 1)
  {}

  // --------------------------------------------------------------- left stick

  function Sign(neg: bool, pos: bool): int {
    (if pos then 1 else 0) - (if neg then 1 else 0)
  }

  /** `left_stick_axis`, as an offset from the centre. */
  function Axis(neg: bool, pos: bool): int {
    (if neg then -127 else 0) + (if pos then 127 else 0)
  }

  /** `stick_clamp_pair`, given the square root. */
  function ClampPair(sqrt: real -> real, dx: int, dy: int): (int, int) {
    var mag := sqrt((dx * dx + dy * dy) as real);
    if mag > 127.0 then
      var s := 127.0 / mag;
      (Rint(dx as real * s), Rint(dy as real * s))
    else (dx, dy)
  }

  function LeftStick(sqrt: real -> real, pressed: set<nat>): (int, int) {
    ClampPair(sqrt, Axis(LSTICK_LEFT in pressed, LSTICK_RIGHT in pressed), Axis(LSTICK_UP in pressed, LSTICK_DOWN in pressed))
  }

  predicate RootOf(sqrt: real -> real, n: int) {
    var r := sqrt(n as real);
    r >= 0.0 && r * r == n as real
  }

  lemma PositiveFactor(p: real, q: real)
    requires p * q > 0.0 && q > 0.0
    ensures p > 0.0
  {}

  lemma LargerSquare(a: real, b: real)
    requires a >= 0.0 && b >= 0.0 && a + b > 0.0 && a * a > b * b
    ensures a > b
  {
    assert (a - b) * (a + b) == a * a - b * b;
    PositiveFactor(a - b, a + b);
  }

  /** The length of a diagonal deflection, before it is cut. */
  lemma DiagonalRoot(r: real)
    requires r >= 0.0 && r * r == 32258.0
    ensures 179.0 < r < 180.0
  {
    LargerSquare(r, 179.0);
    LargerSquare(180.0, r);
  }

  lemma DiagonalShare(r: real)
    requires 179.0 < r < 180.0
    ensures 89.5 < 127.0 * (127.0 / r) < 90.5
  {
    var s := 127.0 / r;
    assert s * r == 127.0;
    assert (127.0 * s - 89.5) * r == 127.0 * (s * r) - 89.5 * r;
    PositiveFactor(127.0 * s - 89.5, r);
    assert (90.5 - 127.0 * s) * r == 90.5 * r - 127.0 * (s * r);
    PositiveFactor(90.5 - 127.0 * s, r);
  }

  lemma RintHalves(x: real)
    requires 89.5 < x < 90.5
    ensures Rint(x) == 90 && Rint(-x) == -90
  {}

  lemma StraightRoot(r: real)
    requires r >= 0.0 && r * r == 16129.0
    ensures r == 127.0
  {
    RootUnique(r, 127.0, 127.0, 0.0);
  }

  /** The left stick is deflected along the held directions: fully on one axis, by 90 on a diagonal,
      and not at all where both directions of an axis are held. */
  lemma LeftStickLaw(sqrt: real -> real, pressed: set<nat>)
    requires RootOf(sqrt, 0) && RootOf(sqrt, 16129) && RootOf(sqrt, 32258)
    ensures var x, y := Sign(LSTICK_LEFT in pressed, LSTICK_RIGHT in pressed), Sign(LSTICK_UP in pressed, LSTICK_DOWN in pressed);
            LeftStick(sqrt, pressed) == if x == 0 || y == 0 then (127 * x, 127 * y) else (90 * x, 90 * y)
  {
    hide Rint;
    var r := sqrt(32258.0);
    DiagonalRoot(r);
    DiagonalShare(r);
    RintHalves(127.0 * (127.0 / r));
    assert -127.0 * (127.0 / r) == -(127.0 * (127.0 / r));
    StraightRoot(sqrt(16129.0));
    assert sqrt(0.0) == 0.0 by { RootUnique(sqrt(0.0), 0.0, 0.0, 0.0); }
  }

  /** The deflection is within 127 of the centre exactly when at most one axis is deflected: the
      normalised diagonal is rounded up to (90, 90), a little outside the circle. */
  lemma DiagonalLeavesCircle(sqrt: real -> real, pressed: set<nat>)
    requires RootOf(sqrt, 0) && RootOf(sqrt, 16129) && RootOf(sqrt, 32258)
    ensures var (x, y) := LeftStick(sqrt, pressed);
            x * x + y * y <= 127 * 127 <==>
              Sign(LSTICK_LEFT in pressed, LSTICK_RIGHT in pressed) == 0 || Sign(LSTICK_UP in pressed, LSTICK_DOWN in pressed) == 0
  {
    hide LeftStick;
    LeftStickLaw(sqrt, pressed);
  }

  // -------------------------------------------------------------- right stick

  function SensScale(c: Config, pressed: set<nat>): real {
    (if c.adsAction != NONE && c.adsAction in pressed then c.adsSensScale else 1.0)
    * (if c.recoilAction != NONE && c.recoilAction in pressed then c.fireSensScale else 1.0)
  }

  function ClampInt(n: int, lo: int, hi: int): int {
    if n < lo then lo else if n > hi then hi else n
  }

  /** `(int)(n * scale)`. */
  function Scaled(n: int, scale: real): int {
    Trunc(n as real * scale)
  }

  /** Scaling around the centre, truncating towards it. */
  function ScaleAxis(scale: real, b: int): int {
    if scale == 1.0 then b else ClampInt(Scaled(b - CENTER, scale), -128, 127) + CENTER
  }

  predicate Recoils(c: Config, pressed: set<nat>) {
    c.recoilAction != NONE && (c.recoilX != 0.0 || c.recoilY != 0.0) && c.recoilAction in pressed
  }

  function Bias(c: Config, pressed: set<nat>, share: real, b: int): int {
    if Recoils(c, pressed) then ClampInt(b + Trunc(share * 127.0), 0, 255) else b
  }

  function RightAxis(c: Config, pressed: set<nat>, share: real, b: int): int {
    Bias(c, pressed, share, ScaleAxis(SensScale(c, pressed), b))
  }

  /** The configuration without recoil compensation. */
  function WithoutRecoil(c: Config): Config {
    c.(recoilX := 0.0, recoilY := 0.0)
  }

  /** Which scale applies: the aiming scale while the aiming action is held, the firing scale while the
      recoil action is, both together as a product, and none otherwise. */
  lemma ScaleChoice(c: Config, pressed: set<nat>, share: real, b: int)
    ensures var e := RightAxis(WithoutRecoil(c), pressed, share, b);
            var aims, fires := c.adsAction != 0 && c.adsAction in pressed, c.recoilAction != 0 && c.recoilAction in pressed;
            && (!aims && !fires ==> e == b)
            && (aims && !fires ==> e == ScaleAxis(c.adsSensScale, b))
            && (!aims && fires ==> e == ScaleAxis(c.fireSensScale, b))
            && (aims && fires ==> e == ScaleAxis(c.adsSensScale * c.fireSensScale, b))
  {
    hide ScaleAxis, SensScale, Trunc;
    SensScaleIs(c, pressed);
    NoRecoilLeft(c, pressed, share, b);
    assert ScaleAxis(1.0, b) == b by { ScaleByOne(b); }
  }

  lemma NoRecoilLeft(c: Config, pressed: set<nat>, share: real, b: int)
    ensures RightAxis(WithoutRecoil(c), pressed, share, b) == ScaleAxis(SensScale(c, pressed), b)
  {
    hide ScaleAxis, SensScale, Trunc;
    SameScale(c, pressed);
  }

  lemma SensScaleIs(c: Config, pressed: set<nat>)
    ensures var aims, fires := c.adsAction != 0 && c.adsAction in pressed, c.recoilAction != 0 && c.recoilAction in pressed;
            SensScale(c, pressed) == if aims && fires then c.adsSensScale * c.fireSensScale
                                     else if aims then c.adsSensScale else if fires then c.fireSensScale else 1.0
  {
    NeutralScale(c.adsSensScale);
    NeutralScale(c.fireSensScale);
  }

  lemma NeutralScale(k: real)
    ensures k * 1.0 == k && 1.0 * k == k
  {}

  lemma ScaleByOne(b: int)
    ensures ScaleAxis(1.0, b) == b
  {}

  /** Scaling multiplies the deflection and truncates it towards the centre, short of overflow. */
  lemma ScaleTruncates(scale: real, d: int)
    requires -128 <= d <= 127 && -128 <= Scaled(d, scale) <= 127
    ensures var e, x := ScaleAxis(scale, CENTER + d) - CENTER, d as real * scale;
            (x >= 0.0 ==> e as real <= x < (e + 1) as real) && (x <= 0.0 ==> (e - 1) as real < x <= e as real)
  {
    TruncatesTowardsZero(d as real * scale);
    if scale == 1.0 { NeutralScale(d as real); }
  }

  lemma TruncatesTowardsZero(x: real)
    ensures var n := Trunc(x);
            (x >= 0.0 ==> n as real <= x < (n + 1) as real) && (x <= 0.0 ==> (n - 1) as real < x <= n as real)
  {}

  /** Recoil compensation comes on top of the player's own deflection: it adds its share of 127, within
      the byte, while the recoil action is held, and nothing otherwise. */
  lemma RecoilAdds(c: Config, pressed: set<nat>, share: real, b: int)
    requires 0 <= b <= 255
    ensures var own, e := RightAxis(WithoutRecoil(c), pressed, share, b), RightAxis(c, pressed, share, b);
            if c.recoilAction != 0 && c.recoilAction in pressed && (c.recoilX != 0.0 || c.recoilY != 0.0) then
              var x := own + Trunc(share * 127.0);
              (0 <= x <= 255 ==> e == x) && (x < 0 ==> e == 0) && (x > 255 ==> e == 255)
            else e == own
  {
    hide ScaleAxis, SensScale, Trunc;
    assert SensScale(WithoutRecoil(c), pressed) == SensScale(c, pressed) by { SameScale(c, pressed); }
  }

  lemma SameScale(c: Config, pressed: set<nat>)
    ensures SensScale(WithoutRecoil(c), pressed) == SensScale(c, pressed)
  {}

  lemma RightAxisInRange(c: Config, pressed: set<nat>, share: real, b: int)
    requires 0 <= b <= 255
    ensures 0 <= RightAxis(c, pressed, share, b) <= 255
  {
    hide SensScale, Scaled, Trunc;
  }

  /** Without recoil a centred stick stays centred, whatever the scale; with recoil it goes exactly
      where the bias points. */
  lemma CenterKept(c: Config, pressed: set<nat>, share: real)
    requires -1.0 <= share <= 1.0
    ensures RightAxis(c, pressed, share, CENTER) == if Recoils(c, pressed) then CENTER + Trunc(share * 127.0) else CENTER
  {
    hide SensScale, Recoils;
    assert 0.0 * SensScale(c, pressed) == 0.0;
    assert -127.0 <= share * 127.0 <= 127.0;
  }

  lemma TruncOdd(x: real, y: real)
    requires y == -x
    ensures Trunc(y) == -Trunc(x)
  {}

  lemma NegatedProduct(x: real, y: real, k: real)
    requires y == -x
    ensures y * k == -(x * k)
  {}

  lemma MirroredProduct(d: int, scale: real)
    ensures Scaled(-d, scale) == -Scaled(d, scale)
  {
    NegatedProduct(d as real, (-d) as real, scale);
    TruncOdd(d as real * scale, (-d) as real * scale);
  }

  /** Scaling treats left and right (up and down) alike exactly when it does not overflow: the byte
      has one more step on the low side. */
  lemma ScaleSymmetric(scale: real, d: int)
    requires scale != 1.0
    ensures ScaleAxis(scale, CENTER + d) - CENTER == -(ScaleAxis(scale, CENTER - d) - CENTER)
      <==> -127 <= Trunc(d as real * scale) <= 127
  {
    MirroredProduct(d, scale);
    assert Scaled(d, scale) == Trunc(d as real * scale);
    hide Scaled, Trunc;
  }

  /** A scale of at most one never adds deflection and never turns it round. */
  lemma ScaleDampens(scale: real, d: int)
    requires 0.0 <= scale <= 1.0 && -128 <= d <= 127
    ensures var e := ScaleAxis(scale, CENTER + d) - CENTER;
            if d >= 0 then 0 <= e <= d else d <= e <= 0
  {
    hide Scaled;
    if d >= 0 {
      DampedProduct(d, scale);
    } else {
      MirroredProduct(d, scale);
      DampedProduct(-d, scale);
    }
  }

  lemma Portion(x: real, scale: real)
    requires x >= 0.0 && 0.0 <= scale <= 1.0
    ensures 0.0 <= x * scale <= x
  {}

  lemma DampedProduct(d: int, scale: real)
    requires d >= 0 && 0.0 <= scale <= 1.0
    ensures 0 <= Scaled(d, scale) <= d
  {
    Portion(d as real, scale);
    TruncSign(d as real * scale, d);
  }

  lemma TruncSign(x: real, n: int)
    requires 0.0 <= x <= n as real
    ensures 0 <= Trunc(x) <= n
  {}

  // ----------------------------------------------------------------- buttons

  /** `dpad_from_state`: the hat code, clockwise from north, 8 when released. */
  function Hat(u: bool, d: bool, l: bool, r: bool): bv8 {
    if u && r then 1 else if u && l then 7 else if d && r then 3 else if d && l then 5
    else if u then 0 else if d then 4 else if l then 6 else if r then 2
    else 8
  }

  /** The direction a hat code stands for. */
  function HatX(h: bv8): int {
    if h == 1 || h == 2 || h == 3 then 1 else if h == 5 || h == 6 || h == 7 then -1 else 0
  }

  function HatY(h: bv8): int {
    if h == 7 || h == 0 || h == 1 then -1 else if h == 3 || h == 4 || h == 5 then 1 else 0
  }

  /** The hat points where the held keys point exactly when no two opposite ones are held. */
  lemma HatPointsLikeKeys(u: bool, d: bool, l: bool, r: bool)
    ensures HatX(Hat(u, d, l, r)) == Sign(l, r) && HatY(Hat(u, d, l, r)) == Sign(u, d) <==> !(u && d) && !(l && r)
  {}

  /** `if (on) b |= mask`. */
  function With(b: bv8, on: bool, mask: bv8): bv8 {
    if on then b | mask else b
  }

  function HatOf(pressed: set<nat>): bv8 {
    Hat(DPAD_UP in pressed, DPAD_DOWN in pressed, DPAD_LEFT in pressed, DPAD_RIGHT in pressed)
  }

  function Buttons0(pressed: set<nat>, on: set<nat>): bv8 {
    With(With(With(With(HatOf(pressed), SQUARE in on, 0x10), CROSS in on, 0x20), CIRCLE in on, 0x40), TRIANGLE in on, 0x80)
  }

  function Buttons1(on: set<nat>): bv8 {
    var low := With(With(With(With(0, L1 in on, 0x01), R1 in on, 0x02), L2 in on, 0x04), R2 in on, 0x08);
    With(With(With(With(low, CREATE in on, 0x10), OPTIONS in on, 0x20), L3 in on, 0x40), R3 in on, 0x80)
  }

  function Buttons2(on: set<nat>): bv8 {
    With(With(With(0, PS in on, 0x01), TOUCHPAD in on, 0x02), MUTE in on, 0x04)
  }

  predicate Has(w: bv8, mask: bv8) {
    w & mask != 0
  }

  /** The face buttons and the hat share a byte and do not disturb each other. */
  lemma Buttons0Law(pressed: set<nat>, on: set<nat>)
    ensures var b := Buttons0(pressed, on);
            && b & 0x0f == HatOf(pressed)
            && (Has(b, 0x10) <==> SQUARE in on) && (Has(b, 0x20) <==> CROSS in on)
            && (Has(b, 0x40) <==> CIRCLE in on) && (Has(b, 0x80) <==> TRIANGLE in on)
  {
    HatRange(pressed);
    var h := HatOf(pressed);
    hide HatOf;
    Nibbles(h, SQUARE in on, CROSS in on, CIRCLE in on, TRIANGLE in on);
  }

  lemma HatRange(pressed: set<nat>)
    ensures HatOf(pressed) & 0x0f == HatOf(pressed)
  {}

  lemma Nibbles(h: bv8, a: bool, b: bool, c: bool, d: bool)
    requires h & 0x0f == h
    ensures var w := With(With(With(With(h, a, 0x10), b, 0x20), c, 0x40), d, 0x80);
            && w & 0x0f == h
            && (Has(w, 0x10) <==> a) && (Has(w, 0x20) <==> b) && (Has(w, 0x40) <==> c) && (Has(w, 0x80) <==> d)
  {}

  /** Each button of the second byte is up exactly when its action is active. */
  lemma Buttons1Law(on: set<nat>)
    ensures var b := Buttons1(on);
            && (Has(b, 0x01) <==> L1 in on) && (Has(b, 0x02) <==> R1 in on)
            && (Has(b, 0x04) <==> L2 in on) && (Has(b, 0x08) <==> R2 in on)
            && (Has(b, 0x10) <==> CREATE in on) && (Has(b, 0x20) <==> OPTIONS in on)
            && (Has(b, 0x40) <==> L3 in on) && (Has(b, 0x80) <==> R3 in on)
  {
    EightFlags(L1 in on, R1 in on, L2 in on, R2 in on, CREATE in on, OPTIONS in on, L3 in on, R3 in on);
  }

  lemma EightFlags(a: bool, b: bool, c: bool, d: bool, e: bool, f: bool, g: bool, h: bool)
    ensures var low := With(With(With(With(0, a, 0x01), b, 0x02), c, 0x04), d, 0x08);
            var w := With(With(With(With(low, e, 0x10), f, 0x20), g, 0x40), h, 0x80);
            && (Has(w, 0x01) <==> a) && (Has(w, 0x02) <==> b) && (Has(w, 0x04) <==> c) && (Has(w, 0x08) <==> d)
            && (Has(w, 0x10) <==> e) && (Has(w, 0x20) <==> f) && (Has(w, 0x40) <==> g) && (Has(w, 0x80) <==> h)
  {}

  /** The reserved bits of the third byte stay clear. */
  lemma Buttons2Law(on: set<nat>)
    ensures var b := Buttons2(on);
            && (Has(b, 0x01) <==> PS in on) && (Has(b, 0x02) <==> TOUCHPAD in on) && (Has(b, 0x04) <==> MUTE in on)
            && b & 0xf8 == 0
  {}

  // --------------------------------------------------------------- timestamp

  /** C's division: towards zero. */
  function Quotient(n: int, d: int): int
    requires d > 0
  {
    if n >= 0 then n / d else -((-n) / d)
  }

  const WORD := 0x1_0000_0000

  /** `(uint32_t)((now / 1000) / 333)`. */
  function Stamp(now: int): int {
    Quotient(Quotient(now, 1000), 333) % WORD
  }

  /** The four bytes of a 32-bit word, low byte first. */
  function Low(n: int, k: nat): byte
    decreases k
  {
    if k == 0 then Byte(n) else Low(n / 256, k - 1)
  }

  function Joined(b0: byte, b1: byte, b2: byte, b3: byte): int {
    b0 as int + 0x100 * b1 as int + 0x1_0000 * b2 as int + 0x100_0000 * b3 as int
  }

  lemma Peel(n: int)
    requires n >= 0
    ensures Byte(n) as int + 256 * (n / 256) == n
  {}

  lemma StampBytes(n: int)
    requires 0 <= n < WORD
    ensures Joined(Low(n, 0), Low(n, 1), Low(n, 2), Low(n, 3)) == n
  {
    hide Byte;
    var n1 := n / 256;
    var n2 := n1 / 256;
    var n3 := n2 / 256;
    LowBytes(n);
    Peel(n);
    Peel(n1);
    Peel(n2);
    Peel(n3);
    assert n3 / 256 == 0;
  }

  lemma LowBytes(n: int)
    ensures Low(n, 0) == Byte(n) && Low(n, 1) == Byte(n / 256) && Low(n, 2) == Byte(n / 256 / 256)
    ensures Low(n, 3) == Byte(n / 256 / 256 / 256)
  {
    hide Byte;
  }

  /** The clock the host reads: the time in units of 333 us, modulo 2^32. */
  lemma StampLaw(now: int)
    requires now >= 0
    ensures var n := Stamp(now);
            Joined(Low(n, 0), Low(n, 1), Low(n, 2), Low(n, 3)) == (now / 333000) % WORD
  {
    hide Low, Joined;
    NestedDivision(now);
    StampBytes(Stamp(now));
  }

  lemma NestedDivision(n: int)
    requires n >= 0
    ensures (n / 1000) / 333 == n / 333000
  {}

  // -------------------------------------------------------------- the report

  /** The fields the mapper drives. */
  datatype Fields = Fields(lx: byte, ly: byte, rx: byte, ry: byte, l2: bool, r2: bool, number: byte, btn0: bv8, btn1: bv8, btn2: bv8)

  function OfBits(b: bv8): byte {
    b as byte
  }

  /** The layout of the report; what follows the clock stays zero. */
  predicate Holds(b: seq<byte>, f: Fields, now: int) {
    && |b| >= LENGTH
    && b[0] == 1 && b[1] == f.lx && b[2] == f.ly && b[3] == f.rx && b[4] == f.ry
    && b[5] == (if f.l2 then 255 else 0) && b[6] == (if f.r2 then 255 else 0) && b[7] == f.number
    && b[8] == OfBits(f.btn0) && b[9] == OfBits(f.btn1) && b[10] == OfBits(f.btn2)
    && b[11] == Low(Stamp(now), 0) && b[12] == Low(Stamp(now), 1) && b[13] == Low(Stamp(now), 2) && b[14] == Low(Stamp(now), 3)
    && forall i :: 15 <= i < |b| ==> b[i] == 0
  }

  /** The bytes written one by one, in the order of their offsets. */
  function Head(f: Fields, ts: int): (h: seq<byte>)
    ensures |h| == 15
  {
    [1, f.lx, f.ly, f.rx, f.ry, if f.l2 then 255 else 0, if f.r2 then 255 else 0, f.number,
     OfBits(f.btn0), OfBits(f.btn1), OfBits(f.btn2), Low(ts, 0), Low(ts, 1), Low(ts, 2), Low(ts, 3)]
  }

  method Assemble(buf: array<byte>, f: Fields, now: int)
    requires buf.Length >= LENGTH
    modifies buf
    ensures Holds(buf[..], f, now)
  {
    hide Stamp, Low, OfBits, Head, Holds;
    var head := Head(f, Stamp(now));
    forall i | 0 <= i < buf.Length { buf[i] := if i < 15 then head[i] else 0; }
    HeadHolds(buf[..], f, now);
  }

  lemma HeadHolds(b: seq<byte>, f: Fields, now: int)
    requires |b| >= LENGTH && (forall i :: 0 <= i < 15 ==> b[i] == Head(f, Stamp(now))[i])
    requires forall i :: 15 <= i < |b| ==> b[i] == 0
    ensures Holds(b, f, now)
  {
    hide Stamp, Low, OfBits;
  }

  /** What the fields say, for the pressed and active actions, the right stick and the number of
      reports built before. */
  function FieldsOf(c: Config, sqrt: real -> real, pressed: set<nat>, on: set<nat>, right: Output, built: nat): Fields {
    var (x, y) := LeftStick(sqrt, pressed);
    RightAxisInRange(c, pressed, c.recoilX, right.rx);
    RightAxisInRange(c, pressed, c.recoilY, right.ry);
    Fields(Byte(CENTER + x), Byte(CENTER + y),
           RightAxis(c, pressed, c.recoilX, right.rx) as byte, RightAxis(c, pressed, c.recoilY, right.ry) as byte,
           L2 in on, R2 in on, Byte(built), Buttons0(pressed, on), Buttons1(on), Buttons2(on))
  }

  // --------------------------------------------------------- reading it back

  /** Where a host looks for a button: the offset and the bit. */
  function ButtonAt(a: nat): (nat, bv8) {
    if a == SQUARE then (8, 0x10) else if a == CROSS then (8, 0x20)
    else if a == CIRCLE then (8, 0x40) else if a == TRIANGLE then (8, 0x80)
    else if a == L1 then (9, 0x01) else if a == R1 then (9, 0x02) else if a == L2 then (9, 0x04) else if a == R2 then (9, 0x08)
    else if a == CREATE then (9, 0x10) else if a == OPTIONS then (9, 0x20) else if a == L3 then (9, 0x40) else if a == R3 then (9, 0x80)
    else if a == PS then (10, 0x01) else if a == TOUCHPAD then (10, 0x02) else (10, 0x04)
  }

  /** The bits of byte k. */
  function BitsAt(b: seq<byte>, k: nat): bv8
    requires k < |b|
  {
    b[k] as bv8
  }

  predicate ReadsButton(b: seq<byte>, a: nat)
    requires |b| >= LENGTH
  {
    Has(BitsAt(b, ButtonAt(a).0), ButtonAt(a).1)
  }

  function ReadsHat(b: seq<byte>): bv8
    requires |b| >= LENGTH
  {
    BitsAt(b, 8) & 0x0f
  }

  lemma BitsBack(b: seq<byte>, k: nat, w: bv8)
    requires k < |b| && b[k] == OfBits(w)
    ensures BitsAt(b, k) == w
  {}

  lemma FaceButtonsBack(b: seq<byte>, pressed: set<nat>, on: set<nat>, a: nat)
    requires |b| >= LENGTH && CROSS <= a <= TRIANGLE && BitsAt(b, 8) == Buttons0(pressed, on)
    ensures ReadsButton(b, a) <==> a in on
  {
    hide Has, BitsAt, Buttons0, HatOf;
    Buttons0Law(pressed, on);
  }

  lemma ShoulderButtonsBack(b: seq<byte>, on: set<nat>, a: nat)
    requires |b| >= LENGTH && L1 <= a <= OPTIONS && BitsAt(b, 9) == Buttons1(on)
    ensures ReadsButton(b, a) <==> a in on
  {
    hide Has, BitsAt, Buttons1;
    Buttons1Law(on);
    if a <= R1 { assert ButtonAt(a) == if a == L1 then (9, 0x01) else (9, 0x02); }
    else if a <= R2 { assert ButtonAt(a) == if a == L2 then (9, 0x04) else (9, 0x08); }
    else if a <= R3 { assert ButtonAt(a) == if a == L3 then (9, 0x40) else (9, 0x80); }
    else { assert ButtonAt(a) == if a == CREATE then (9, 0x10) else (9, 0x20); }
  }

  lemma LastButtonsBack(b: seq<byte>, on: set<nat>, a: nat)
    requires |b| >= LENGTH && PS <= a <= MUTE && BitsAt(b, 10) == Buttons2(on)
    ensures ReadsButton(b, a) <==> a in on
  {
    hide Has, BitsAt, Buttons2;
    Buttons2Law(on);
  }

  /** Every button action has its own bit, and that bit is the action's. */
  lemma ButtonsReadBack(b: seq<byte>, pressed: set<nat>, on: set<nat>, a: nat)
    requires |b| >= LENGTH && CROSS <= a <= MUTE
    requires BitsAt(b, 8) == Buttons0(pressed, on) && BitsAt(b, 9) == Buttons1(on) && BitsAt(b, 10) == Buttons2(on)
    ensures ReadsButton(b, a) <==> a in on
  {
    hide BitsAt, Buttons0, Buttons1, Buttons2, ReadsButton;
    if a <= TRIANGLE { FaceButtonsBack(b, pressed, on, a); }
    else if a <= OPTIONS { ShoulderButtonsBack(b, on, a); }
    else { LastButtonsBack(b, on, a); }
  }

  lemma HatReadsBack(b: seq<byte>, pressed: set<nat>, on: set<nat>)
    requires |b| >= LENGTH && BitsAt(b, 8) == Buttons0(pressed, on)
    ensures ReadsHat(b) == HatOf(pressed)
  {
    hide Has, BitsAt, Buttons0, HatOf;
    Buttons0Law(pressed, on);
  }

  /** A host that takes a report apart finds the left stick deflected along the held directions (fully on
      one axis, by 90 on a diagonal), the two answers of the right stick each on its own axis, every
      button down exactly when its action is active, the triggers likewise, a hat that points where the D-pad keys point unless opposite ones are held,
      the number of the report modulo 256, and the time in units of 333 us modulo 2^32. */
  lemma ReportReadsBack(b: seq<byte>, c: Config, sqrt: real -> real, pressed: set<nat>, on: set<nat>, right: Output, built: nat, now: int)
    requires Holds(b, FieldsOf(c, sqrt, pressed, on, right, built), now)
    ensures forall a: nat :: CROSS <= a <= MUTE ==> (ReadsButton(b, a) <==> a in on)
    ensures (b[5] == 255 <==> L2 in on) && (b[6] == 255 <==> R2 in on)
    ensures HatX(ReadsHat(b)) == Sign(DPAD_LEFT in pressed, DPAD_RIGHT in pressed)
            && HatY(ReadsHat(b)) == Sign(DPAD_UP in pressed, DPAD_DOWN in pressed)
      <==> !(DPAD_UP in pressed && DPAD_DOWN in pressed) && !(DPAD_LEFT in pressed && DPAD_RIGHT in pressed)
    ensures b[0] == 1 && b[7] as int == built % 256
    ensures RootOf(sqrt, 0) && RootOf(sqrt, 16129) && RootOf(sqrt, 32258) ==>
              var x, y := Sign(LSTICK_LEFT in pressed, LSTICK_RIGHT in pressed), Sign(LSTICK_UP in pressed, LSTICK_DOWN in pressed);
              var full := if x == 0 || y == 0 then 127 else 90;
              b[1] as int == 128 + full * x && b[2] as int == 128 + full * y
    ensures b[3] as int == RightAxis(c, pressed, c.recoilX, right.rx) && b[4] as int == RightAxis(c, pressed, c.recoilY, right.ry)
    ensures !(c.adsAction != 0 && c.adsAction in pressed) && !(c.recoilAction != 0 && c.recoilAction in pressed) ==>
              b[3] as int == right.rx && b[4] as int == right.ry
    ensures now >= 0 ==> Joined(b[11], b[12], b[13], b[14]) == (now / 333000) % WORD
  {
    hide Stamp, Low, Joined, OfBits, LeftStick, RightAxis, Buttons0, Buttons1, Buttons2, Hat, HatX, HatY, Byte, BitsAt, ReadsButton, ReadsHat;
    BitsBack(b, 8, Buttons0(pressed, on));
    BitsBack(b, 9, Buttons1(on));
    BitsBack(b, 10, Buttons2(on));
    forall a: nat | CROSS <= a <= MUTE ensures ReadsButton(b, a) <==> a in on { ButtonsReadBack(b, pressed, on, a); }
    HatReadsBack(b, pressed, on);
    HatPointsLikeKeys(DPAD_UP in pressed, DPAD_DOWN in pressed, DPAD_LEFT in pressed, DPAD_RIGHT in pressed);
    NumberByte(built);
    if RootOf(sqrt, 0) && RootOf(sqrt, 16129) && RootOf(sqrt, 32258) { LeftBytes(sqrt, pressed); }
    NeitherScale(c, pressed, c.recoilX, right.rx);
    NeitherScale(c, pressed, c.recoilY, right.ry);
    if now >= 0 { StampLaw(now); }
  }

  lemma LeftBytes(sqrt: real -> real, pressed: set<nat>)
    requires RootOf(sqrt, 0) && RootOf(sqrt, 16129) && RootOf(sqrt, 32258)
    ensures var x, y := Sign(LSTICK_LEFT in pressed, LSTICK_RIGHT in pressed), Sign(LSTICK_UP in pressed, LSTICK_DOWN in pressed);
            var full := if x == 0 || y == 0 then 127 else 90;
            var (u, v) := LeftStick(sqrt, pressed);
            Byte(CENTER + u) as int == 128 + full * x && Byte(CENTER + v) as int == 128 + full * y
  {
    hide LeftStick, RootOf;
    LeftStickLaw(sqrt, pressed);
  }

  lemma NeitherScale(c: Config, pressed: set<nat>, share: real, b: int)
    requires 0 <= b <= 255
    ensures !(c.adsAction != 0 && c.adsAction in pressed) && !(c.recoilAction != 0 && c.recoilAction in pressed) ==>
              RightAxis(c, pressed, share, b) == b
  {
    hide RightAxis;
    ScaleChoice(c, pressed, share, b);
    RecoilAdds(c, pressed, share, b);
  }

  lemma NumberByte(n: nat)
    ensures Byte(n) as int == n % 256
  {}
}
