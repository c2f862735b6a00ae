/** The mapper object: the fields of `struct mapper`, updated in place by events and report ticks.
    Its invariant ties every field to the whole history of events and ticks. */
module Mapper {
  import opened Actions
  import opened Samples
  import opened DaemonConfig
  import opened MapperInput
  import Burst
  import Stick
  import opened InputReport
  import opened Motion

  /** The cadence of action a. */
  function CadenceOf(c: Config, a: nat): Burst.Cadence
    requires Sized(c) && a < ACTIONS
  {
    Burst.Cadence(c.burstHz[a], c.burstDuty[a], c.burstJitter[a], c.burstDutyJitter[a], c.burstSkipProb[a])
  }

  const NO_DEBT := Stick.Debt(0.0, 0.0)

  class Mapper {
    const cfg: Config
    const maths: Maths
    var pressed: bv64
    var pendingDx: int
    var pendingDy: int
    const ring: array<Sample>
    var ringHead: nat
    var ringCount: nat
    var debt: Stick.Debt
    const pressedSince: array<int>
    var seqNo: byte

    ghost var events: seq<Event>
    ghost var ticks: seq<Tick>
    ghost var moments: seq<Moment>
    ghost var built: nat

    ghost function Input(): MapperInput.Input
      requires Sized(cfg)
      reads this`events
    {
      InputAfter(cfg, events)
    }

    /** The ring holds the last 256 committed samples, sample k in slot k mod 256. */
    ghost predicate RingHolds(h: seq<Sample>)
      reads this`ringHead, this`ringCount, ring
    {
      && ring.Length == RING && ringHead == Slot(|h|)
      && ringCount == (if |h| <= RING then |h| else RING)
      && forall k :: |h| - ringCount <= k < |h| ==> ring[Slot(k)] == h[k]
    }

    ghost predicate Valid()
      reads this`events, this`ticks, this`built, this`pressed, this`pendingDx, this`pendingDy, this`ringHead, this`ringCount, this`seqNo
      reads this`debt, this`moments, ring, pressedSince
    {
      && Sized(cfg)
      && PressedSet(pressed) == Input().pressed
      && pendingDx == Input().dx && pendingDy == Input().dy
      && RingHolds(Input().samples)
      && pressedSince.Length == ACTIONS
      && (forall a :: 1 <= a < ACTIONS ==> pressedSince[a] == SinceAfter(ticks, a))
      && debt == DebtOver(cfg, maths, NO_DEBT, moments)
      && seqNo == Byte(built)
    }

    /** `mapper_init`. */
    constructor (c: Config, m: Maths)
      requires Sized(c)
      ensures Valid() && fresh(ring) && fresh(pressedSince) && cfg == c && maths == m
      ensures events == [] && ticks == [] && moments == [] && built == 0
    {
      cfg, maths := c, m;
      pressed := 0;
      pendingDx, pendingDy := 0, 0;
      ring := new Sample[RING](_ => Sample(0, 0, 0));
      ringHead, ringCount := 0, 0;
      debt := NO_DEBT;
      pressedSince := new int[ACTIONS](_ => 0);
      seqNo := 0;
      events, ticks, moments, built := [], [], [], 0;
      new;
      NothingPressed();
    }

    /** `mapper_handle_event`. */
    method HandleEvent(e: Event)
      requires Valid()
      modifies this`pressed, this`pendingDx, this`pendingDy, this`ringHead, this`ringCount, this`events, ring
      ensures Valid() && events == old(events) + [e]
    {
      hide InputAfter, PressedSet, SetWord, RingHolds;
      InputStep(cfg, events, e);
      ghost var h := Input().samples;
      events := events + [e];
      match e.kind {
        case Key =>
          var down := e.value != 0;
          if e.code >= KEYTABLE { return; }
          var a := if BTN_MOUSE <= e.code < BTN_MOUSE + 16 then cfg.btnAction[e.code % 256] else cfg.keyAction[e.code];
          SetWordLaw(pressed, a, down);
          pressed := SetWord(pressed, a, down);
        case Rel =>
          if e.code == REL_X { pendingDx := pendingDx + e.value; }
          else if e.code == REL_Y { pendingDy := pendingDy + e.value; }
        case Syn =>
          if pendingDx != 0 || pendingDy != 0 {
            Commit(Sample(e.sec * 1000000000 + e.usec * 1000, pendingDx, pendingDy), h);
            pendingDx, pendingDy := 0, 0;
          }
        case Other =>
      }
    }

    /** Writing the next ring slot. */
    method Commit(s: Sample, ghost h: seq<Sample>)
      requires RingHolds(h)
      modifies this`ringHead, this`ringCount, ring
      ensures RingHolds(h + [s])
    {
      hide Slot;
      forall k | |h| - RING < k < |h| ensures Slot(k) != Slot(|h|) { SlotsDiffer(k, |h|); }
      NextSlot(|h|);
      var idx := ringHead;
      ring[idx] := s;
      ringHead := (idx + 1) % RING;
      if ringCount < RING { ringCount := ringCount + 1; }
    }

    /** `burst_tick`. */
    method BurstTick(now: int)
      requires Valid()
      modifies pressedSince, this`ticks
      ensures Valid() && ticks == old(ticks) + [Tick(now, Input().pressed)]
    {
      hide SinceAfter;
      ghost var t := Tick(now, PressedSet(pressed));
      ticks := ticks + [t];
      for a := 1 to ACTIONS
        invariant ticks == old(ticks) + [t]
        invariant forall b :: 1 <= b < a ==> pressedSince[b] == SinceAfter(ticks, b)
        invariant forall b :: a <= b < ACTIONS ==> pressedSince[b] == SinceAfter(old(ticks), b)
      {
        var down := Pressed(pressed, a);
        SinceStep(old(ticks), t, a);
        assert down <==> a in t.pressed;
        if down && pressedSince[a] == 0 { pressedSince[a] := now; }
        else if !down && pressedSince[a] != 0 { pressedSince[a] := 0; }
      }
    }

    /** `window_sum`: the early-exit scan from the newest slot backwards. */
    method WindowSum(now: int) returns (dx: real, dy: real, dtMs: real)
      requires Valid()
      ensures var w := Tail(Recent(Input().samples), Cutoff(now, cfg.windowMs));
              dx == SumX(w) as real && dy == SumY(w) as real && dtMs == Span(w, now, cfg.windowMs)
    {
      hide Valid, RingHolds, Scanned, Recent, Tail, SumX, SumY, InputAfter, PressedSet, SinceAfter;
      RingSize();
      ghost var h := Recent(Input().samples);
      var cutoff := Cutoff(now, cfg.windowMs);
      dx, dy := 0.0, 0.0;
      var oldest := now;
      var i := 0;
      ghost var x, y := 0, 0;
      ScanStart(h, cutoff, now);
      while i < ringCount
        invariant 0 <= i <= ringCount == |h| <= RING && Scanned(h, cutoff, now, i, x, y, oldest)
        invariant dx == x as real && dy == y as real
      {
        var idx := (ringHead - 1 - i + RING) % RING;
        RingAt(i);
        if ring[idx].t < cutoff { break; }
        ScanStep(h, cutoff, now, i, x, y, oldest);
        x, y := x + ring[idx].dx, y + ring[idx].dy;
        dx := dx + ring[idx].dx as real;
        dy := dy + ring[idx].dy as real;
        oldest := ring[idx].t;
        i := i + 1;
      }
      ScanDone(h, cutoff, now, i, x, y, oldest);
      dtMs := (now - oldest) as real / 1000000.0;
      if dtMs < 1.0 { dtMs := cfg.windowMs; }
    }

    lemma RingSize()
      requires Valid()
      ensures Sized(cfg) && ringCount == |Recent(Input().samples)| <= RING
    {}

    /** The slot the backward scan reads in step i holds the i-th newest sample. */
    lemma RingAt(i: nat)
      requires Valid() && i < ringCount
      ensures ringCount == |Recent(Input().samples)| && ring.Length == RING
      ensures var idx := (ringHead - 1 - i + RING) % RING; 0 <= idx < RING && ring[idx] == Recent(Input().samples)[ringCount - 1 - i]
    {
      hide Slot;
      BackwardSlot(|Input().samples|, i);
    }

    /** `is_active`; `draws` are the per-cycle draws of each action. */
    method IsActive(a: nat, draws: nat -> Burst.Draws, now: int) returns (on: bool)
      requires Valid() && a < ACTIONS
      ensures on <==> a in Active(draws, now)
    {
      assert Pressed(pressed, a) <==> a in PressedSet(pressed);
      if !Pressed(pressed, a) { return false; }
      var since := now - pressedSince[a];
      if since < 0 { since := 0; }
      on := Burst.IsOn(CadenceOf(cfg, a), draws(a), since);
    }

    /** The actions that are on at `now`: pressed, and in the on-part of their burst. */
    ghost function Active(draws: nat -> Burst.Draws, now: int): set<nat>
      requires Sized(cfg)
      reads this`events, this`ticks
    {
      set a: nat | a < ACTIONS && a in Input().pressed && Burst.Active(CadenceOf(cfg, a), draws(a), Phase(a, now))
    }

    /** The time into the current press, as the tick history has it. */
    ghost function Phase(a: nat, now: int): (p: int)
      reads this`ticks
      ensures p >= 0
    {
      if now - SinceAfter(ticks, a) < 0 then 0 else now - SinceAfter(ticks, a)
    }

    /** `mouse_to_stick`. */
    method MouseToStick(vx: real, vy: real) returns (rx: Stick.Octet, ry: Stick.Octet)
      modifies this`debt
      ensures var out := Stick.Tick(cfg, maths.curve, old(debt), Stick.Measured(cfg, old(debt), vx, vy, maths.sqrt));
              debt == out.debt && rx == out.rx && ry == out.ry
    {
      hide Stick.Times, Stick.OutMag, Stick.StickByte, Stick.Nx, Stick.Ny, Stick.Measured;
      var i := Stick.Measured(cfg, debt, vx, vy, maths.sqrt);
      var nx, ny, mag := Stick.Nx(cfg, debt, i), Stick.Ny(cfg, debt, i), i.mag;
      if mag <= Stick.TINY {
        debt := NO_DEBT;
        return Stick.CENTER, Stick.CENTER;
      }
      var dirx, diry := nx / mag, ny / mag;
      if mag > cfg.outerSat {
        debt := Stick.Times(Stick.Debt(dirx, diry), mag - cfg.outerSat);
        mag := cfg.outerSat;
      } else {
        debt := Stick.Times(debt, 1.0 - cfg.debtDrain);
      }
      var out := Stick.OutMag(cfg, maths.curve(mag));
      rx := Stick.StickByte(dirx, out);
      ry := Stick.StickByte(diry, out);
    }

    lemma PressedAre()
      requires Valid()
      ensures forall a: nat :: Pressed(pressed, a) <==> a in Input().pressed
    {
      hide InputAfter, Bit;
      forall a: nat ensures Pressed(pressed, a) <==> a in PressedSet(pressed) {}
    }

    /** The moment of a report built now. */
    ghost function Present(now: int, noNumber: Stick.Output): Moment
      requires Sized(cfg)
      reads this`events
    {
      Moment(now, Input().samples, noNumber)
    }

    /** What the right stick answers at a moment, with the debt of the history. */
    ghost function RightOf(t: Moment): Stick.Output
      reads this`moments
    {
      Respond(cfg, maths, DebtOver(cfg, maths, NO_DEBT, moments), t)
    }

    /** The mouse's part of a report: velocity, response chain, sensitivity scale and recoil. A window
        of zero width makes the velocity a division by zero; `noNumber` stands for what that leaves. */
    method RightStick(now: int, noNumber: Stick.Output) returns (rx: int, ry: int)
      requires Valid()
      modifies this`debt, this`moments
      ensures Valid() && moments == old(moments) + [Present(now, noNumber)]
      ensures var p, out := Input().pressed, old(RightOf(Present(now, noNumber)));
              && rx == RightAxis(cfg, p, cfg.recoilX, out.rx) && ry == RightAxis(cfg, p, cfg.recoilY, out.ry)
              && 0 <= rx <= 255 && 0 <= ry <= 255
    {
      hide Span, Cutoff, Recent, Tail, InputAfter, Stick.Tick, Stick.Measured, SumX, SumY, RightAxis;
      hide PressedSet, RingHolds, SinceAfter, DebtOver, Sized;
      DebtStep(cfg, maths, NO_DEBT, moments, Present(now, noNumber));
      var dx, dy, dtMs := WindowSum(now);
      if dtMs == 0.0 {
        debt, rx, ry := noNumber.debt, noNumber.rx, noNumber.ry;
      } else {
        rx, ry := MouseToStick(dx / dtMs, dy / dtMs);
      }
      moments := moments + [Present(now, noNumber)];
      RightAxisInRange(cfg, Input().pressed, cfg.recoilX, rx);
      RightAxisInRange(cfg, Input().pressed, cfg.recoilY, ry);
      rx, ry := ScaleAndRecoil(rx, ry);
    }

    /** The sensitivity scale and the recoil bias on top of the stick bytes. */
    method ScaleAndRecoil(rx0: int, ry0: int) returns (rx: int, ry: int)
      requires Valid()
      ensures var p := Input().pressed;
              rx == RightAxis(cfg, p, cfg.recoilX, rx0) && ry == RightAxis(cfg, p, cfg.recoilY, ry0)
    {
      hide Valid, InputAfter, Pressed, Scaled, Trunc;
      SizedConfig();
      PressedAre();
      rx, ry := rx0, ry0;
      var scale := 1.0;
      if cfg.adsAction != NONE && Pressed(pressed, cfg.adsAction) { scale := scale * cfg.adsSensScale; }
      if cfg.recoilAction != NONE && Pressed(pressed, cfg.recoilAction) { scale := scale * cfg.fireSensScale; }
      assert scale == SensScale(cfg, Input().pressed);
      if scale != 1.0 {
        rx := ClampInt(Scaled(rx - 128, scale), -128, 127) + 128;
        ry := ClampInt(Scaled(ry - 128, scale), -128, 127) + 128;
      }
      if cfg.recoilAction != NONE && (cfg.recoilX != 0.0 || cfg.recoilY != 0.0) && Pressed(pressed, cfg.recoilAction) {
        rx := ClampInt(rx + Trunc(cfg.recoilX * 127.0), 0, 255);
        ry := ClampInt(ry + Trunc(cfg.recoilY * 127.0), 0, 255);
      }
    }

    lemma SizedConfig()
      requires Valid()
      ensures Sized(cfg)
    {}

    /** The three button bytes. */
    method Buttons(draws: nat -> Burst.Draws, now: int) returns (btn0: bv8, btn1: bv8, btn2: bv8)
      requires Valid()
      ensures var p, on := Input().pressed, Active(draws, now);
              btn0 == Buttons0(p, on) && btn1 == Buttons1(on) && btn2 == Buttons2(on)
    {
      hide Valid, InputAfter, Pressed, Burst.Active, Hat, Active, With;
      PressedAre();
      btn0 := Hat(Pressed(pressed, DPAD_UP), Pressed(pressed, DPAD_DOWN), Pressed(pressed, DPAD_LEFT), Pressed(pressed, DPAD_RIGHT));
      btn0 := Press(btn0, SQUARE, 0x10, draws, now);
      btn0 := Press(btn0, CROSS, 0x20, draws, now);
      btn0 := Press(btn0, CIRCLE, 0x40, draws, now);
      btn0 := Press(btn0, TRIANGLE, 0x80, draws, now);
      btn1 := Press(0, L1, 0x01, draws, now);
      btn1 := Press(btn1, R1, 0x02, draws, now);
      btn1 := Press(btn1, L2, 0x04, draws, now);
      btn1 := Press(btn1, R2, 0x08, draws, now);
      btn1 := Press(btn1, CREATE, 0x10, draws, now);
      btn1 := Press(btn1, OPTIONS, 0x20, draws, now);
      btn1 := Press(btn1, L3, 0x40, draws, now);
      btn1 := Press(btn1, R3, 0x80, draws, now);
      btn2 := Press(0, PS, 0x01, draws, now);
      btn2 := Press(btn2, TOUCHPAD, 0x02, draws, now);
      btn2 := Press(btn2, MUTE, 0x04, draws, now);
    }

    /** One button line of the report builder. */
    method Press(b: bv8, a: nat, mask: bv8, draws: nat -> Burst.Draws, now: int) returns (r: bv8)
      requires Valid() && a < ACTIONS
      ensures r == With(b, a in Active(draws, now), mask)
    {
      hide Active;
      r := b;
      var on := IsActive(a, draws, now);
      if on { r := r | mask; }
    }

    /** `mapper_build_report`. */
    method BuildReport(buf: array<byte>, now: int, draws: nat -> Burst.Draws, noNumber: Stick.Output)
      requires Valid()
      modifies this`debt, this`seqNo, this`ticks, this`moments, this`built, pressedSince, buf
      ensures Valid()
      ensures buf.Length < LENGTH ==>
        && buf[..] == old(buf[..]) && debt == old(debt)
        && ticks == old(ticks) && moments == old(moments) && built == old(built)
      ensures buf.Length >= LENGTH ==>
        && ticks == old(ticks) + [Tick(now, Input().pressed)]
        && moments == old(moments) + [Present(now, noNumber)] && built == old(built) + 1
        && Holds(buf[..], FieldsOf(cfg, maths.sqrt, Input().pressed, Active(draws, now), old(RightOf(Present(now, noNumber))), old(built)), now)
    {
      hide Valid, InputAfter, Pressed, Burst.Active, Active, RightOf, Holds, ClampPair, Byte, RightAxis, Buttons0, Buttons1, Buttons2, Sized;
      if buf.Length < LENGTH { return; }
      SizedConfig();
      BurstTick(now);
      PressedAre();
      var left := ClampPair(maths.sqrt, Axis(Pressed(pressed, LSTICK_LEFT), Pressed(pressed, LSTICK_RIGHT)),
                            Axis(Pressed(pressed, LSTICK_UP), Pressed(pressed, LSTICK_DOWN)));
      var rx, ry := RightStick(now, noNumber);
      var l2 := IsActive(L2, draws, now);
      var r2 := IsActive(R2, draws, now);
      var number := NextNumber();
      var btn0, btn1, btn2 := Buttons(draws, now);
      Assemble(buf, Fields(Byte(128 + left.0), Byte(128 + left.1), rx as byte, ry as byte, l2, r2, number, btn0, btn1, btn2), now);
    }

    /** `m->seq++`. */
    method NextNumber() returns (n: byte)
      requires Valid()
      modifies this`seqNo, this`built
      ensures Valid() && n == Byte(old(built)) && built == old(built) + 1
    {
      hide InputAfter, PressedSet, SinceAfter, RingHolds, Byte;
      NextByte(built);
      n := seqNo;
      seqNo := Byte(seqNo as int + 1);
      built := built + 1;
    }
  }

  /** Once every sample has left the window, and the debt has had its ticks to drain, bytes 3 and 4 of
      every report are the exact centre, moved only by the recoil bias. */
  lemma RestedReport(c: Config, m: Maths, ts: seq<Moment>, k: nat, n: nat, pressed: set<nat>, on: set<nat>, built: nat)
    requires Roots(m) && Stick.Drains(c) && c.windowMs != 0.0 && k <= n < |ts|
    requires forall i :: k <= i < |ts| ==> Rests(c, ts[i])
    requires n >= CenteredFrom(c, m, NO_DEBT, ts, k)
    requires -1.0 <= c.recoilX <= 1.0 && -1.0 <= c.recoilY <= 1.0
    ensures var f := FieldsOf(c, m.sqrt, pressed, on, Respond(c, m, DebtOver(c, m, NO_DEBT, ts[..n]), ts[n]), built);
            && f.rx as int == 128 + (if Recoils(c, pressed) then Trunc(c.recoilX * 127.0) else 0)
            && f.ry as int == 128 + (if Recoils(c, pressed) then Trunc(c.recoilY * 127.0) else 0)
  {
    hide Respond, DebtOver, Rests, CenteredFrom, RightAxis, Roots, Stick.Drains, Recoils, Trunc, LeftStick, Buttons0, Buttons1, Buttons2, Byte;
    RestCenters(c, m, NO_DEBT, ts, k, n);
    CenterKept(c, pressed, c.recoilX);
    CenterKept(c, pressed, c.recoilY);
  }
}
