/** The passthrough mouse: motion accumulated per frame, clamped to a signed byte when flushed, and
    three buttons. */
module Mouse {
  import opened Keyboard

  datatype Event =
    | Button(code: nat, value: int)
    | Rel(code: nat, value: int)
    | SynReport
    | Ignored

  const REL_X := 0
  const REL_Y := 1
  const REL_WHEEL := 8

  /** One HID report: the button byte and three signed bytes. */
  datatype Report = Report(buttons: bv8, x: int, y: int, wheel: int)

  datatype Motion = Motion(x: int, y: int, wheel: int)

  const STILL := Motion(0, 0, 0)

  datatype State = State(buttons: bv8, pending: Motion, reports: seq<Report>)

  const INIT := State(0, STILL, [])

  function ButtonBit(code: nat): bv8 {
    if code == 0x110 then 0x01       // BTN_LEFT
    else if code == 0x111 then 0x02  // BTN_RIGHT
    else if code == 0x112 then 0x04  // BTN_MIDDLE
    else 0
  }

  /** `clamp_int8`. */
  function Clamp(v: int): (r: int)
    ensures -127 <= r <= 127
  {
    if v > 127 then 127 else if v < -127 then -127 else v
  }

  function Flush(s: State): State {
    s.(pending := STILL,
       reports := s.reports + [Report(s.buttons, Clamp(s.pending.x), Clamp(s.pending.y), Clamp(s.pending.wheel))])
  }

  function Step(s: State, e: Event): State {
    match e
    case Button(code, value) =>
      var bit := ButtonBit(code);
      if value == 2 || bit == 0 then s
      else Flush(s.(buttons := SetBits(s.buttons, bit, value == 1)))
    case Rel(code, v) =>
      if code == REL_X then s.(pending := s.pending.(x := s.pending.x + v))
      else if code == REL_Y then s.(pending := s.pending.(y := s.pending.y + v))
      else if code == REL_WHEEL then s.(pending := s.pending.(wheel := s.pending.wheel + v))
      else s
    case SynReport => if s.pending != STILL then Flush(s) else s
    case Ignored => s
  }

  function After(es: seq<Event>): State {
    if es == [] then INIT else Step(After(es[..|es| - 1]), es[|es| - 1])
  }

  // --------------------------------------------------------------- accounting

  function Plus(a: Motion, b: Motion): Motion {
    Motion(a.x + b.x, a.y + b.y, a.wheel + b.wheel)
  }

  /** The motion one event brings in. */
  function MotionOf(e: Event): Motion {
    if !e.Rel? then STILL
    else if e.code == REL_X then Motion(e.value, 0, 0)
    else if e.code == REL_Y then Motion(0, e.value, 0)
    else if e.code == REL_WHEEL then Motion(0, 0, e.value)
    else STILL
  }

  /** All motion that came in. */
  function Total(es: seq<Event>): Motion {
    if es == [] then STILL else Plus(Total(es[..|es| - 1]), MotionOf(es[|es| - 1]))
  }

  /** All motion that went out. */
  function Sent(rs: seq<Report>): Motion {
    if rs == [] then STILL
    else Plus(Sent(rs[..|rs| - 1]), Motion(rs[|rs| - 1].x, rs[|rs| - 1].y, rs[|rs| - 1].wheel))
  }

  predicate Flushes(s: State, e: Event) {
    (e.Button? && e.value != 2 && ButtonBit(e.code) != 0) || (e.SynReport? && s.pending != STILL)
  }

  /** The part of v beyond a signed byte. */
  function Excess(v: int): int {
    if v > 127 then v - 127 else if v < -127 then v + 127 else 0
  }

  /** The sum over all flushes of what did not fit. */
  function Discarded(es: seq<Event>): Motion {
    if es == [] then STILL
    else
      var d, s := Discarded(es[..|es| - 1]), After(es[..|es| - 1]);
      if Flushes(s, es[|es| - 1]) then
        Plus(d, Cut(s.pending))
      else d
  }

  function Cut(m: Motion): Motion {
    Motion(Excess(m.x), Excess(m.y), Excess(m.wheel))
  }

  /** The part of the pending motion that one event cuts. */
  function CutBy(s: State, e: Event): Motion {
    if Flushes(s, e) then Cut(s.pending) else STILL
  }

  /** A flush moves what is pending into a report, less what the clamp cuts. */
  lemma FlushAccounted(s: State)
    ensures Plus(Sent(s.reports), s.pending) == Plus(Sent(Flush(s).reports), Cut(s.pending))
  {
    var r := Flush(s).reports;
    assert r[..|r| - 1] == s.reports;
  }

  /** One event: what came in is what was sent, became pending or was cut. */
  lemma StepAccounted(s: State, e: Event)
    ensures var t := Step(s, e);
            Plus(Plus(Sent(s.reports), s.pending), MotionOf(e))
            == Plus(Plus(Sent(t.reports), t.pending), CutBy(s, e))
  {
    hide Sent, Excess, Clamp, Cut, Flush;
    if Flushes(s, e) {
      FlushAccounted(if e.Button? then s.(buttons := SetBits(s.buttons, ButtonBit(e.code), e.value == 1)) else s);
      FlushClears(if e.Button? then s.(buttons := SetBits(s.buttons, ButtonBit(e.code), e.value == 1)) else s);
    }
  }

  lemma FlushClears(s: State)
    ensures Flush(s).pending == STILL
  {}

  lemma LastEvent(es: seq<Event>)
    requires es != []
    ensures var init, e := es[..|es| - 1], es[|es| - 1];
            && After(es) == Step(After(init), e)
            && Total(es) == Plus(Total(init), MotionOf(e))
            && Discarded(es) == Plus(Discarded(init), CutBy(After(init), e))
  {
    hide Step, Flushes, Cut, MotionOf;
  }

  lemma Regroup(total: Motion, sent: Motion, pending: Motion, discarded: Motion, m: Motion, sent': Motion, pending': Motion, cut: Motion)
    requires total == Plus(Plus(sent, pending), discarded)
    requires Plus(Plus(sent, pending), m) == Plus(Plus(sent', pending'), cut)
    ensures Plus(total, m) == Plus(Plus(sent', pending'), Plus(discarded, cut))
  {}

  /** Motion is reported, still pending, or discarded by a clamp; nothing else happens to it. */
  lemma {:induction false} MotionAccounted(es: seq<Event>)
    ensures Total(es) == Plus(Plus(Sent(After(es).reports), After(es).pending), Discarded(es))
  {
    if es != [] {
      var init, e := es[..|es| - 1], es[|es| - 1];
      var s, t := After(init), After(es);
      MotionAccounted(init);
      LastEvent(es);
      StepAccounted(s, e);
      Regroup(Total(init), Sent(s.reports), s.pending, Discarded(init), MotionOf(e), Sent(t.reports), t.pending, CutBy(s, e));
      hide *;
    }
  }

  /** Flush n of the run fits in its report. */
  predicate Fits(m: Motion) {
    -127 <= m.x <= 127 && -127 <= m.y <= 127 && -127 <= m.wheel <= 127
  }

  function Size(v: int): nat {
    if v < 0 then -v else v
  }

  /** The total size of what clamps cut off. */
  function Loss(es: seq<Event>): nat {
    if es == [] then 0
    else
      var l, s := Loss(es[..|es| - 1]), After(es[..|es| - 1]);
      if Flushes(s, es[|es| - 1]) then
        l + Size(Excess(s.pending.x)) + Size(Excess(s.pending.y)) + Size(Excess(s.pending.wheel))
      else l
  }

  ghost predicate EveryFlushFits(es: seq<Event>) {
    forall n :: 0 <= n < |es| && Flushes(After(es[..n]), es[n]) ==> Fits(After(es[..n]).pending)
  }

  /** Nothing is lost exactly when every flushed segment fits in a signed byte per axis; then what
      was reported and is pending is all the motion there was. */
  lemma {:induction false} LosslessIff(es: seq<Event>)
    ensures Loss(es) == 0 <==> EveryFlushFits(es)
    ensures Loss(es) == 0 ==> Discarded(es) == STILL
  {
    hide After;
    if es != [] {
      var k := |es| - 1;
      var init := es[..k];
      LosslessIff(init);
      assert forall n :: 0 <= n <= k ==> init[..n] == es[..n];
      if EveryFlushFits(es) {
        forall n | 0 <= n < k && Flushes(After(init[..n]), init[n]) ensures Fits(After(init[..n]).pending) {
          assert es[n] == init[n] && es[..n] == init[..n];
        }
        assert EveryFlushFits(init);
      }
      if EveryFlushFits(init) && (Flushes(After(es[..k]), es[k]) ==> Fits(After(es[..k]).pending)) {
        forall n | 0 <= n < |es| && Flushes(After(es[..n]), es[n]) ensures Fits(After(es[..n]).pending) {
          if n < k { assert es[n] == init[n] && es[..n] == init[..n]; }
        }
      }
    }
  }

  // ------------------------------------------------------------------ buttons

  predicate ButtonHeld(es: seq<Event>, code: nat) {
    es != [] &&
    (if es[|es| - 1].Button? && es[|es| - 1].code == code && es[|es| - 1].value != 2 then es[|es| - 1].value == 1
     else ButtonHeld(es[..|es| - 1], code))
  }

  lemma BitStep(buttons: bv8, code: nat, other: nat)
    requires ButtonBit(other) != 0
    ensures SetBits(buttons, ButtonBit(code), true) & ButtonBit(other) != 0 <==> code == other || buttons & ButtonBit(other) != 0
    ensures SetBits(buttons, ButtonBit(code), false) & ButtonBit(other) != 0 <==> code != other && buttons & ButtonBit(other) != 0
  {}

  predicate IsDown(s: State, code: nat) {
    s.buttons & ButtonBit(code) != 0
  }

  lemma ButtonsStep(s: State, e: Event, code: nat)
    requires ButtonBit(code) != 0
    ensures IsDown(Step(s, e), code) <==>
      if e.Button? && e.code == code && e.value != 2 then e.value == 1 else IsDown(s, code)
  {
    if e.Button? { BitStep(s.buttons, e.code, code); }
  }

  lemma {:induction false} ButtonsAreHeld(es: seq<Event>, code: nat)
    requires ButtonBit(code) != 0
    ensures IsDown(After(es), code) <==> ButtonHeld(es, code)
  {
    hide ButtonBit, Step;
    if es != [] {
      var init, e := es[..|es| - 1], es[|es| - 1];
      ButtonsAreHeld(init, code);
      ButtonsStep(After(init), e, code);
    } else {
      NoBits(ButtonBit(code));
    }
  }

  /** Every press or release of a button is reported at once, in a report whose button byte is
      exactly the set of buttons held. */
  lemma ButtonReported(es: seq<Event>, e: Event, code: nat)
    requires e.Button? && e.value != 2 && ButtonBit(e.code) != 0 && ButtonBit(code) != 0
    ensures var s, t := After(es), After(es + [e]);
            && |t.reports| == |s.reports| + 1 && t.pending == STILL
            && (t.reports[|s.reports|].buttons & ButtonBit(code) != 0 <==> ButtonHeld(es + [e], code))
  {
    hide ButtonBit;
    assert (es + [e])[..|es|] == es;
    ButtonsAreHeld(es + [e], code);
  }

  /** The signed byte that stands for v: v itself where it fits, else the nearer end. */
  predicate StandsFor(b: int, v: int) {
    (-127 <= v <= 127 ==> b == v) && (v > 127 ==> b == 127) && (v < -127 ==> b == -127)
  }

  /** At the end of a frame nothing stays pending. Pending motion goes out in exactly one report, with
      the buttons as they are; without any there is no report. */
  lemma FrameEndReports(es: seq<Event>)
    ensures var s, t := After(es), After(es + [SynReport]);
            && t.pending == STILL && t.buttons == s.buttons
            && (s.pending == STILL ==> t.reports == s.reports)
            && (s.pending != STILL ==>
                  && |t.reports| == |s.reports| + 1 && t.reports[..|s.reports|] == s.reports
                  && var r := t.reports[|s.reports|];
                     r.buttons == s.buttons
                     && StandsFor(r.x, s.pending.x) && StandsFor(r.y, s.pending.y) && StandsFor(r.wheel, s.pending.wheel))
  {
    assert (es + [SynReport])[..|es|] == es;
  }

  /** Motion by itself is only added up: no report goes out before the frame ends or a button changes. */
  lemma MotionWaits(es: seq<Event>, e: Event)
    requires e.Rel? || e.Ignored?
    ensures var s, t := After(es), After(es + [e]);
            t.reports == s.reports && t.buttons == s.buttons && t.pending == Plus(s.pending, MotionOf(e))
  {
    assert (es + [e])[..|es|] == es;
  }
}
