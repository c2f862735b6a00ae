/** What a history of evdev events and report ticks means for the mapper: which actions are held,
    which mouse samples were committed, and since when each action has been held. */
module MapperInput {
  import opened Actions
  import opened Samples
  import opened DaemonConfig

  datatype Kind = Key | Rel | Syn | Other

  datatype Event = Event(kind: Kind, code: nat, value: int, sec: int, usec: int)

  const BTN_MOUSE := 0x110
  const REL_X := 0
  const REL_Y := 1

  /** The input side of the mapper; `samples` is the whole history of committed frames. */
  datatype Input = Input(pressed: set<nat>, dx: int, dy: int, samples: seq<Sample>)

  const NO_INPUT := Input({}, 0, 0, [])

  /** The action a key or button code is bound to: mouse buttons go through the low byte. */
  function ActionOf(c: Config, code: nat): nat
    requires Sized(c)
  {
    if code >= KEYTABLE then NONE
    else if BTN_MOUSE <= code < BTN_MOUSE + 16 then c.btnAction[code % 256]
    else c.keyAction[code]
  }

  predicate RealAction(a: nat) {
    a != NONE && a < ACTIONS
  }

  function EventStep(c: Config, s: Input, e: Event): Input
    requires Sized(c)
  {
    match e.kind
    case Key =>
      var a := ActionOf(c, e.code);
      if !RealAction(a) then s
      else s.(pressed := if e.value != 0 then s.pressed + {a} else s.pressed - {a})
    case Rel =>
      if e.code == REL_X then s.(dx := s.dx + e.value)
      else if e.code == REL_Y then s.(dy := s.dy + e.value)
      else s
    case Syn =>
      if s.dx == 0 && s.dy == 0 then s
      else Input(s.pressed, 0, 0, s.samples + [Sample(e.sec * 1000000000 + e.usec * 1000, s.dx, s.dy)])
    case Other => s
  }

  function InputAfter(c: Config, es: seq<Event>): Input
    requires Sized(c)
  {
    if es == [] then NO_INPUT else EventStep(c, InputAfter(c, es[..|es| - 1]), es[|es| - 1])
  }

  lemma InputStep(c: Config, es: seq<Event>, e: Event)
    requires Sized(c)
    ensures InputAfter(c, es + [e]) == EventStep(c, InputAfter(c, es), e)
  {
    assert (es + [e])[..|es|] == es;
  }

  // ----------------------------------------------------------- pressed actions

  /** The event sets or clears action a. */
  predicate Decides(c: Config, e: Event, a: nat)
    requires Sized(c)
  {
    e.kind.Key? && ActionOf(c, e.code) == a
  }

  /** Mouse buttons are looked up in the button table by their low byte, all other inputs in the key
      table by their code; codes beyond the table are bound to nothing. */
  lemma DecidesLaw(c: Config, e: Event, a: nat)
    requires Sized(c) && RealAction(a)
    ensures Decides(c, e, a) <==>
      && e.kind.Key? && e.code < 0x300
      && (if 0x110 <= e.code <= 0x11f then c.btnAction[e.code - 0x100] else c.keyAction[e.code]) == a
  {}

  /** The last event that decides a is a press (or an auto-repeat). */
  ghost predicate LastIsDown(c: Config, es: seq<Event>, a: nat)
    requires Sized(c)
  {
    exists i :: 0 <= i < |es| && Decides(c, es[i], a) && es[i].value != 0
      && forall j :: i < j < |es| ==> !Decides(c, es[j], a)
  }

  /** An action is reported as pressed exactly when the last event bound to it was a press. */
  lemma {:induction false} PressedIsLastEvent(c: Config, es: seq<Event>, a: nat)
    requires Sized(c) && RealAction(a)
    ensures a in InputAfter(c, es).pressed <==> LastIsDown(c, es, a)
  {
    if es != [] {
      var init, e := es[..|es| - 1], es[|es| - 1];
      PressedIsLastEvent(c, init, a);
      LastDownStep(c, init, e, a);
      assert es == init + [e];
      hide LastIsDown, ActionOf;
    }
  }

  lemma LastDownStep(c: Config, init: seq<Event>, e: Event, a: nat)
    requires Sized(c)
    ensures LastIsDown(c, init + [e], a) <==> if Decides(c, e, a) then e.value != 0 else LastIsDown(c, init, a)
  {
    hide Decides;
    var es := init + [e];
    assert es[|init|] == e && forall i :: 0 <= i < |init| ==> es[i] == init[i];
    if Decides(c, e, a) {
      if e.value != 0 { assert LastIsDown(c, es, a); }
    } else if LastIsDown(c, init, a) {
      var i :| 0 <= i < |init| && Decides(c, init[i], a) && init[i].value != 0
        && forall j :: i < j < |init| ==> !Decides(c, init[j], a);
      assert es[i] == init[i] && forall j :: i < j < |es| ==> !Decides(c, es[j], a);
    }
  }

  /** The key or button itself is down after the history. */
  function Held(es: seq<Event>, code: nat): bool {
    if es == [] then false
    else if es[|es| - 1].kind.Key? && es[|es| - 1].code == code then es[|es| - 1].value != 0
    else Held(es[..|es| - 1], code)
  }

  ghost predicate SomeHeld(c: Config, es: seq<Event>, a: nat)
    requires Sized(c)
  {
    exists code: nat :: ActionOf(c, code) == a && Held(es, code)
  }

  predicate AtMostOneInput(c: Config, a: nat)
    requires Sized(c)
  {
    forall i, j :: 0 <= i < j < KEYTABLE ==> ActionOf(c, i) != a || ActionOf(c, j) != a
  }

  lemma {:induction false} OneInputHeld(c: Config, es: seq<Event>, a: nat)
    requires Sized(c) && RealAction(a) && AtMostOneInput(c, a)
    ensures a in InputAfter(c, es).pressed <==> SomeHeld(c, es, a)
  {
    if es != [] {
      var init, e := es[..|es| - 1], es[|es| - 1];
      OneInputHeld(c, init, a);
      if Decides(c, e, a) {
        assert Held(es, e.code) == (e.value != 0);
        if SomeHeld(c, es, a) {
          var code: nat :| ActionOf(c, code) == a && Held(es, code);
          assert code == e.code;
        }
      } else {
        forall code: nat | ActionOf(c, code) == a ensures Held(es, code) == Held(init, code) {}
      }
    }
  }

  /** "Pressed means some bound key is held" is true of every history exactly when at most one
      input is bound to the action: with two, releasing either one releases the action. */
  lemma PressedMeansHeld(c: Config, a: nat)
    requires Sized(c) && RealAction(a)
    ensures (forall es: seq<Event> :: a in InputAfter(c, es).pressed <==> SomeHeld(c, es, a)) <==> AtMostOneInput(c, a)
  {
    if AtMostOneInput(c, a) {
      forall es: seq<Event> ensures a in InputAfter(c, es).pressed <==> SomeHeld(c, es, a) { OneInputHeld(c, es, a); }
    } else {
      var i, j :| 0 <= i < j < KEYTABLE && ActionOf(c, i) == a && ActionOf(c, j) == a;
      var es := TwoKeysOneReleased(c, a, i, j);
      assert a !in InputAfter(c, es).pressed && SomeHeld(c, es, a);
    }
  }

  /** Two keys bound to one action: hold both, release one. */
  lemma TwoKeysOneReleased(c: Config, a: nat, i: nat, j: nat) returns (es: seq<Event>)
    requires Sized(c) && RealAction(a) && i != j && ActionOf(c, i) == a && ActionOf(c, j) == a
    ensures a !in InputAfter(c, es).pressed && SomeHeld(c, es, a)
  {
    var e0, e1, e2 := Event(Key, i, 1, 0, 0), Event(Key, j, 1, 0, 0), Event(Key, j, 0, 0, 0);
    es := [e0, e1, e2];
    assert es[..2] == [e0, e1] && [e0, e1][..1] == [e0];
    assert Held([e0], i);
    assert Held([e0, e1], i);
    assert Held(es, i);
    assert Decides(c, e2, a);
  }

  // ----------------------------------------------------------- mouse samples

  function TotalX(es: seq<Event>): int {
    if es == [] then 0
    else TotalX(es[..|es| - 1]) + (if es[|es| - 1].kind.Rel? && es[|es| - 1].code == REL_X then es[|es| - 1].value else 0)
  }

  function TotalY(es: seq<Event>): int {
    if es == [] then 0
    else TotalY(es[..|es| - 1]) + (if es[|es| - 1].kind.Rel? && es[|es| - 1].code == REL_Y then es[|es| - 1].value else 0)
  }

  predicate NoneEmpty(samples: seq<Sample>) {
    forall i :: 0 <= i < |samples| ==> samples[i].dx != 0 || samples[i].dy != 0
  }

  lemma CommitCounts(samples: seq<Sample>, s: Sample)
    ensures SumX(samples + [s]) == SumX(samples) + s.dx && SumY(samples + [s]) == SumY(samples) + s.dy
  {
    assert (samples + [s])[..|samples|] == samples;
  }

  /** One event: the motion it brings is committed or pending afterwards. */
  lemma EventCounts(c: Config, s: Input, e: Event)
    requires Sized(c) && NoneEmpty(s.samples)
    ensures var t := EventStep(c, s, e);
            && SumX(t.samples) + t.dx == SumX(s.samples) + s.dx + (if e.kind.Rel? && e.code == REL_X then e.value else 0)
            && SumY(t.samples) + t.dy == SumY(s.samples) + s.dy + (if e.kind.Rel? && e.code == REL_Y then e.value else 0)
            && NoneEmpty(t.samples)
  {
    hide ActionOf, SumX, SumY;
    CommitCounts(s.samples, Sample(TimeOf(e), s.dx, s.dy));
  }

  /** No motion is lost or invented on the way from events to samples, and no sample is empty. */
  lemma {:induction false} MotionCommitted(c: Config, es: seq<Event>)
    requires Sized(c)
    ensures var s := InputAfter(c, es);
            && SumX(s.samples) + s.dx == TotalX(es) && SumY(s.samples) + s.dy == TotalY(es)
            && forall i :: 0 <= i < |s.samples| ==> s.samples[i].dx != 0 || s.samples[i].dy != 0
  {
    hide EventStep;
    if es != [] {
      MotionCommitted(c, es[..|es| - 1]);
      hide SumX, SumY;
      EventCounts(c, InputAfter(c, es[..|es| - 1]), es[|es| - 1]);
    }
  }

  /** A frame end commits the pending motion as one sample with the frame's time, and leaves nothing
      pending; an empty frame commits nothing, and nothing else commits. */
  lemma FrameCommits(c: Config, es: seq<Event>, e: Event)
    requires Sized(c)
    ensures var s, t := InputAfter(c, es), InputAfter(c, es + [e]);
            if e.kind.Syn? && (s.dx != 0 || s.dy != 0)
            then t.dx == 0 && t.dy == 0 && t.samples == s.samples + [Sample(e.sec * 1000000000 + e.usec * 1000, s.dx, s.dy)]
            else t.samples == s.samples
  {
    hide InputAfter, ActionOf;
    InputStep(c, es, e);
  }

  predicate SynOrdered(es: seq<Event>) {
    forall i, j :: 0 <= i <= j < |es| && es[i].kind.Syn? && es[j].kind.Syn? ==> TimeOf(es[i]) <= TimeOf(es[j])
  }

  function TimeOf(e: Event): int {
    e.sec * 1000000000 + e.usec * 1000
  }

  ghost predicate EndsFrame(es: seq<Event>, t: int) {
    exists i :: 0 <= i < |es| && es[i].kind.Syn? && TimeOf(es[i]) == t
  }

  /** Samples carry the times of frame ends, so they are ordered when those are. */
  lemma {:induction false} SamplesOrdered(c: Config, es: seq<Event>)
    requires Sized(c) && SynOrdered(es)
    ensures Ordered(InputAfter(c, es).samples)
    ensures forall k :: 0 <= k < |InputAfter(c, es).samples| ==> EndsFrame(es, InputAfter(c, es).samples[k].t)
  {
    if es != [] {
      var init, e := es[..|es| - 1], es[|es| - 1];
      SamplesOrdered(c, init);
      var s, t := InputAfter(c, init), InputAfter(c, es);
      forall k | 0 <= k < |s.samples|
        ensures EndsFrame(es, s.samples[k].t)
        ensures e.kind.Syn? ==> s.samples[k].t <= TimeOf(e)
      {
        assert EndsFrame(init, s.samples[k].t);
        var i :| 0 <= i < |init| && init[i].kind.Syn? && TimeOf(init[i]) == s.samples[k].t;
        assert es[i] == init[i];
      }
      forall k | 0 <= k < |t.samples| ensures EndsFrame(es, t.samples[k].t) {
        if k < |s.samples| { assert t.samples[k] == s.samples[k]; } else { assert es[|es| - 1].kind.Syn?; }
      }
    }
  }

  // ------------------------------------------------------------- press times

  /** One report tick: its time and the actions it saw pressed. */
  datatype Tick = Tick(now: int, pressed: set<nat>)

  /** `burst_tick` for one action: 0 stands for "released". */
  function NextSince(since: int, pressed: bool, now: int): int {
    if pressed && since == 0 then now
    else if !pressed && since != 0 then 0
    else since
  }

  function SinceAfter(ts: seq<Tick>, a: nat): int {
    if ts == [] then 0
    else NextSince(SinceAfter(ts[..|ts| - 1], a), a in ts[|ts| - 1].pressed, ts[|ts| - 1].now)
  }

  lemma SinceStep(ts: seq<Tick>, t: Tick, a: nat)
    ensures SinceAfter(ts + [t], a) == NextSince(SinceAfter(ts, a), a in t.pressed, t.now)
  {
    assert (ts + [t])[..|ts|] == ts;
  }

  /** Clock readings are positive and increasing. */
  predicate Clocked(ts: seq<Tick>) {
    && (forall i :: 0 <= i < |ts| ==> ts[i].now > 0)
    && (forall i, j :: 0 <= i < j < |ts| ==> ts[i].now < ts[j].now)
  }

  /** Ticks i.. to the last form the current maximal run of ticks that saw a pressed. */
  predicate CurrentRun(ts: seq<Tick>, a: nat, i: nat) {
    && i < |ts|
    && (forall k :: i <= k < |ts| ==> a in ts[k].pressed)
    && (i > 0 ==> a !in ts[i - 1].pressed)
  }

  lemma RunIsUnique(ts: seq<Tick>, a: nat, i: nat, j: nat)
    requires CurrentRun(ts, a, i) && CurrentRun(ts, a, j)
    ensures i == j
  {}

  lemma ReleasedSince(ts: seq<Tick>, a: nat)
    requires ts == [] || a !in ts[|ts| - 1].pressed
    ensures SinceAfter(ts, a) == 0
  {}

  /** The recorded press time is the time of the first tick of the current run. */
  lemma {:induction false} RunStart(ts: seq<Tick>, a: nat) returns (i: nat)
    requires Clocked(ts) && ts != [] && a in ts[|ts| - 1].pressed
    ensures CurrentRun(ts, a, i) && SinceAfter(ts, a) == ts[i].now
  {
    var init, n := ts[..|ts| - 1], |ts| - 1;
    if n == 0 || a !in ts[n - 1].pressed {
      ReleasedSince(init, a);
      i := n;
    } else {
      i := RunStart(init, a);
      assert ts[i].now > 0;
      forall k | i <= k < |ts| ensures a in ts[k].pressed {
        if k < n { assert init[k] == ts[k]; }
      }
    }
  }

  /** It is non-zero exactly while the action is pressed. */
  lemma SinceIsRunStart(ts: seq<Tick>, a: nat)
    requires Clocked(ts)
    ensures SinceAfter(ts, a) != 0 <==> ts != [] && a in ts[|ts| - 1].pressed
    ensures forall i: nat :: CurrentRun(ts, a, i) ==> SinceAfter(ts, a) == ts[i].now
  {
    hide SinceAfter;
    if ts == [] || a !in ts[|ts| - 1].pressed {
      ReleasedSince(ts, a);
    } else {
      var r := RunStart(ts, a);
      forall i: nat | CurrentRun(ts, a, i) ensures SinceAfter(ts, a) == ts[i].now { RunIsUnique(ts, a, i, r); }
    }
  }

  /** The burst phase is never negative, and later ticks of the same run share its origin. */
  lemma SharedOrigin(ts: seq<Tick>, a: nat, n: nat)
    requires Clocked(ts) && 0 < n <= |ts|
    requires forall k :: n - 1 <= k < |ts| ==> a in ts[k].pressed
    ensures SinceAfter(ts, a) == SinceAfter(ts[..n], a) != 0
    ensures ts[|ts| - 1].now - SinceAfter(ts, a) >= 0
  {
    hide SinceAfter;
    var i := RunStart(ts[..n], a);
    forall k | i <= k < |ts| ensures a in ts[k].pressed {
      if k < n { assert ts[..n][k] == ts[k]; }
    }
    var r := RunStart(ts, a);
    RunIsUnique(ts, a, i, r);
    assert i == |ts| - 1 || ts[i].now < ts[|ts| - 1].now;
  }
}
