/** The passthrough daemon's event-drain loop over its keyboard and mouse state. */
module Passthrough {
  import opened Keyboard
  import Mouse

  datatype InputEvent =
    | Key(code: nat, value: int)
    | Rel(code: nat, value: int)
    | Syn(code: nat)
    | Other

  /** The 8-byte boot report: modifiers, a reserved zero byte, six usages. */
  function BootReport(mods: bv8, keys: seq<nat>): seq<int>
    requires |keys| == SLOTS
  {
    [mods as int, 0] + keys
  }

  /** What the host received last: eight zero bytes before the first report. */
  function LastReport(out: seq<seq<int>>): seq<int> {
    if out == [] then [0, 0, 0, 0, 0, 0, 0, 0] else out[|out| - 1]
  }

  /** The eight bytes tell of these modifiers and these slots. */
  predicate Tells(b: seq<int>, mods: bv8, keys: seq<nat>) {
    && |b| == 2 + SLOTS && |keys| == SLOTS
    && b[0] == mods as int && b[1] == 0
    && forall i :: 0 <= i < SLOTS ==> b[2 + i] == keys[i]
  }

  /** What the keyboard sees of the drained events. */
  function KeyEvents(es: seq<InputEvent>): seq<KeyEvent> {
    if es == [] then []
    else KeyEvents(es[..|es| - 1]) + (if es[|es| - 1].Key? then [KeyEvent(es[|es| - 1].code, es[|es| - 1].value)] else [])
  }

  function MouseEvent(e: InputEvent): Mouse.Event {
    match e
    case Key(code, value) => Mouse.Button(code, value)
    case Rel(code, value) => Mouse.Rel(code, value)
    case Syn(code) => if code == 0 then Mouse.SynReport else Mouse.Ignored
    case Other => Mouse.Ignored
  }

  function MouseEvents(es: seq<InputEvent>): seq<Mouse.Event> {
    if es == [] then [] else MouseEvents(es[..|es| - 1]) + [MouseEvent(es[|es| - 1])]
  }

  /** The event makes a keyboard report due. */
  predicate Dirties(e: InputEvent) {
    e.Key? && e.value != 2 && (ModifierBit(e.code) != 0 || UsageOf(e.code) != 0)
  }

  predicate Dirty(es: seq<InputEvent>) {
    exists i :: 0 <= i < |es| && Dirties(es[i])
  }

  lemma SlotsStep(es: seq<KeyEvent>, e: KeyEvent)
    ensures Slots(es + [e]) == SlotStep(Slots(es), e) && Modifiers(es + [e]) == ModStep(Modifiers(es), e)
  {
    assert (es + [e])[..|es|] == es;
  }

  lemma MouseStep(es: seq<Mouse.Event>, e: Mouse.Event)
    ensures Mouse.After(es + [e]) == Mouse.Step(Mouse.After(es), e)
  {
    assert (es + [e])[..|es|] == es;
  }

  class Device {
    var modifiers: bv8
    const keys: array<nat>
    var buttons: bv8
    var pending: Mouse.Motion
    var mouseOut: seq<Mouse.Report>  // written to hidg1
    var kbdOut: seq<seq<int>>        // written to hidg0

    ghost var drained: seq<InputEvent>

    ghost predicate KeysValid()
      reads this`modifiers, this`drained, keys
    {
      keys.Length == SLOTS && keys[..] == Slots(KeyEvents(drained)) && modifiers == Modifiers(KeyEvents(drained))
    }

    ghost predicate MouseValid()
      reads this`buttons, this`pending, this`mouseOut, this`drained
    {
      Mouse.State(buttons, pending, mouseOut) == Mouse.After(MouseEvents(drained))
    }

    /** The host has been told of the present state. */
    ghost predicate HostUpToDate()
      reads this`modifiers, this`kbdOut, keys
    {
      Tells(LastReport(kbdOut), modifiers, keys[..])
    }

    constructor ()
      ensures KeysValid() && MouseValid() && HostUpToDate() && fresh(keys) && drained == [] && kbdOut == []
    {
      modifiers, buttons := 0, 0;
      keys := new nat[SLOTS](_ => 0);
      pending := Mouse.STILL;
      mouseOut, kbdOut := [], [];
      drained := [];
      new;
      assert keys[..] == [0, 0, 0, 0, 0, 0];
    }

    method KbdPress(u: nat) returns (changed: bool)
      modifies keys
      ensures keys[..] == PressKeys(old(keys[..]), u)
      ensures changed <==> keys[..] != old(keys[..])
    {
      var i := 0;
      while i < keys.Length
        invariant 0 <= i <= keys.Length && u !in keys[..i]
      {
        if keys[i] == u { assert u in keys[..]; return false; }
        i := i + 1;
      }
      assert keys[..i] == keys[..];
      i := 0;
      while i < keys.Length
        invariant 0 <= i <= keys.Length && u !in keys[..] && keys[..] == old(keys[..])
        invariant forall j :: 0 <= j < i ==> keys[j] != 0
      {
        if keys[i] == 0 {
          assert Find(keys[..], 0) == i;
          keys[i] := u;
          assert keys[..] == old(keys[..])[i := u];
          return true;
        }
        i := i + 1;
      }
      assert Find(keys[..], 0) == i;
      changed := false;
    }

    method KbdRelease(u: nat) returns (changed: bool)
      modifies keys
      ensures keys[..] == ReleaseKeys(old(keys[..]), u)
      ensures changed <==> u in old(keys[..])
    {
      var i := 0;
      while i < keys.Length
        invariant 0 <= i <= keys.Length && keys[..] == old(keys[..])
        invariant forall j :: 0 <= j < i ==> keys[j] != u
      {
        if keys[i] == u {
          assert Find(keys[..], u) == i;
          keys[i] := 0;
          assert keys[..] == old(keys[..])[i := 0];
          return true;
        }
        i := i + 1;
      }
      assert Find(keys[..], u) == i;
      changed := false;
    }

    method MouseFlush()
      modifies this`pending, this`mouseOut
      ensures Mouse.State(buttons, pending, mouseOut) == Mouse.Flush(old(Mouse.State(buttons, pending, mouseOut)))
    {
      mouseOut := mouseOut + [Mouse.Report(buttons, Mouse.Clamp(pending.x), Mouse.Clamp(pending.y), Mouse.Clamp(pending.wheel))];
      pending := Mouse.STILL;
    }

    /** The keyboard part of one key event. */
    method KeyboardKey(code: nat, value: int) returns (dirty: bool)
      requires value != 2
      modifies this`modifiers, keys
      ensures keys[..] == SlotStep(old(keys[..]), KeyEvent(code, value))
      ensures modifiers == ModStep(old(modifiers), KeyEvent(code, value))
      ensures dirty <==> Dirties(Key(code, value))
      ensures !dirty ==> keys[..] == old(keys[..]) && modifiers == old(modifiers)
    {
      hide PressKeys, ReleaseKeys, SetBits, ModifierBit;
      var pressed := value == 1;
      var bit := ModifierBit(code);
      SetNoBits(modifiers, pressed);
      dirty := false;
      if bit != 0 {
        modifiers := SetBits(modifiers, bit, pressed);
        dirty := true;
      } else if code < 256 {
        var usage := UsageOf(code);
        if usage != 0 {
          if pressed { var _ := KbdPress(usage); } else { var _ := KbdRelease(usage); }
          dirty := true;
        }
      }
    }

    /** The mouse part of one event. */
    method MouseInput(e: InputEvent)
      requires !(e.Key? && e.value == 2)  // auto-repeat never gets here
      modifies this`buttons, this`pending, this`mouseOut
      ensures Mouse.State(buttons, pending, mouseOut) == Mouse.Step(old(Mouse.State(buttons, pending, mouseOut)), MouseEvent(e))
    {
      hide SetBits, Mouse.ButtonBit;
      match e {
        case Key(code, value) =>
          var bit := Mouse.ButtonBit(code);
          if bit != 0 {
            buttons := SetBits(buttons, bit, value == 1);
            MouseFlush();
          }
        case Rel(code, v) =>
          if code == Mouse.REL_X { pending := pending.(x := pending.x + v); }
          else if code == Mouse.REL_Y { pending := pending.(y := pending.y + v); }
          else if code == Mouse.REL_WHEEL { pending := pending.(wheel := pending.wheel + v); }
        case Syn(code) =>
          if code == 0 && pending != Mouse.STILL { MouseFlush(); }
        case Other =>
      }
    }

    /** One drain: every event is applied in turn, then at most one keyboard report goes out, and it
        carries the state after all of them. Whether one goes out or not, the last report sent tells
        of that state. */
    method Drain(es: seq<InputEvent>)
      requires KeysValid() && MouseValid() && HostUpToDate()
      modifies this, keys
      ensures KeysValid() && MouseValid() && HostUpToDate() && drained == old(drained) + es
      ensures kbdOut == old(kbdOut) + if Dirty(es) then [BootReport(modifiers, keys[..])] else []
    {
      hide Slots, Modifiers, SlotStep, ModStep, Mouse.After, Mouse.Step, Mouse.Flush, KeyEvents, MouseEvents, Dirty, Dirties, Tells;
      var kbdDirty := false;
      NothingDirty();
      assert drained == old(drained) + es[..0];
      for n := 0 to |es|
        invariant KeysValid() && MouseValid() && drained == old(drained) + es[..n]
        invariant kbdOut == old(kbdOut)
        invariant kbdDirty <==> Dirty(es[..n])
        invariant !kbdDirty ==> keys[..] == old(keys[..]) && modifiers == old(modifiers)
      {
        var e := es[n];
        assert es[..n + 1] == es[..n] + [e];
        DirtyStep(es[..n], e);
        OnlyKeysDirty(e);
        ghost var ks, ms := KeyEvents(drained), MouseEvents(drained);
        HistoryStep(drained, e);
        MouseStep(ms, MouseEvent(e));
        drained := drained + [e];
        if e.Key? {
          if e.value == 2 {
            RepeatStep(ks, ms, e.code);
            continue;
          }
          SlotsStep(ks, KeyEvent(e.code, e.value));
          var dirty := KeyboardKey(e.code, e.value);
          kbdDirty := kbdDirty || dirty;
        }
        MouseInput(e);
      }
      assert es[..|es|] == es;
      if kbdDirty {
        kbdOut := kbdOut + [BootReport(modifiers, keys[..])];
        BootTells(modifiers, keys[..]);
      }
    }
  }

  lemma BootTells(mods: bv8, keys: seq<nat>)
    requires |keys| == SLOTS
    ensures Tells(BootReport(mods, keys), mods, keys)
  {}

  lemma NothingDirty()
    ensures !Dirty([])
  {}

  lemma OnlyKeysDirty(e: InputEvent)
    ensures !e.Key? || e.value == 2 ==> !Dirties(e)
  {}

  /** What one more event does to the histories of the keyboard and the mouse. */
  lemma HistoryStep(es: seq<InputEvent>, e: InputEvent)
    ensures MouseEvents(es + [e]) == MouseEvents(es) + [MouseEvent(e)]
    ensures KeyEvents(es + [e]) == if e.Key? then KeyEvents(es) + [KeyEvent(e.code, e.value)] else KeyEvents(es)
  {
    assert (es + [e])[..|es|] == es;
    assert KeyEvents(es) + [] == KeyEvents(es);
  }

  /** Auto-repeat leaves both alone. */
  lemma RepeatStep(ks: seq<KeyEvent>, ms: seq<Mouse.Event>, code: nat)
    ensures Slots(ks + [KeyEvent(code, 2)]) == Slots(ks) && Modifiers(ks + [KeyEvent(code, 2)]) == Modifiers(ks)
    ensures Mouse.After(ms + [Mouse.Button(code, 2)]) == Mouse.After(ms)
  {
    hide Slots, Modifiers, SlotStep, ModStep, Mouse.After, Mouse.Step;
    SlotsStep(ks, KeyEvent(code, 2));
    MouseStep(ms, Mouse.Button(code, 2));
    RepeatIgnored(Slots(ks), Modifiers(ks), Mouse.After(ms), code);
  }

  lemma DirtyStep(es: seq<InputEvent>, e: InputEvent)
    ensures Dirty(es + [e]) <==> Dirty(es) || Dirties(e)
  {
    var t := es + [e];
    assert t[|es|] == e;
    assert forall i :: 0 <= i < |es| ==> t[i] == es[i];
  }

  lemma RepeatIgnored(keys: seq<nat>, mods: bv8, m: Mouse.State, code: nat)
    ensures SlotStep(keys, KeyEvent(code, 2)) == keys && ModStep(mods, KeyEvent(code, 2)) == mods
    ensures Mouse.Step(m, Mouse.Button(code, 2)) == m
  {}

  // ------------------------------------------------------------ the host's view

  /** The host finds the key among the six usages. */
  predicate HostFinds(b: seq<int>, code: nat) {
    exists i :: 2 <= i < |b| && b[i] == UsageOf(code)
  }

  /** The host's bit k of the modifier byte. */
  predicate HostBit(b: seq<int>, k: nat)
    requires k < 8 && |b| > 0 && 0 <= b[0] < 256
  {
    b[0] as bv8 & MASKS[k] != 0
  }

  const MASKS: seq<bv8> := [0x01, 0x02, 0x04, 0x08, 0x10, 0x20, 0x40, 0x80]

  // The modifier keys in the order of their bits: left control, shift, alt and meta, then the right ones.
  const MODIFIER_KEYS: seq<nat> := [29, 42, 56, 125, 97, 54, 100, 126]

  lemma FindsIsShown(b: seq<int>, es: seq<KeyEvent>, code: nat)
    requires Tells(b, Modifiers(es), Slots(es))
    ensures HostFinds(b, code) <==> Shown(es, code)
  {
    hide Slots, Modifiers, UsageOf;
    var keys, u := Slots(es), UsageOf(code);
    if u in keys {
      var i :| 0 <= i < SLOTS && keys[i] == u;
      assert b[2 + i] == u;
    }
    if HostFinds(b, code) {
      var i :| 2 <= i < |b| && b[i] == u;
      assert keys[i - 2] == b[2 + (i - 2)];
    }
  }

  /** A host that reads the last report finds no key that is not held, and exactly the held ones as long
      as never more than six mapped keys have been held at once. */
  lemma HostSeesHeldKeys(b: seq<int>, es: seq<KeyEvent>, code: nat)
    requires Tells(b, Modifiers(es), Slots(es)) && Mapped(code)
    ensures HostFinds(b, code) ==> KeyHeld(es, code)
    ensures (forall n :: 0 <= n <= |es| ==> |HeldKeys(es[..n])| <= SLOTS) ==> (HostFinds(b, code) <==> KeyHeld(es, code))
  {
    hide Slots, Modifiers, Reported, HeldSet, HeldKeys, UsageOf, Tells, HostFinds, KeyHeld;
    FindsIsShown(b, es, code);
    ShownIsReported(es, code);
    UsagesAreHeld(es);
    HeldSetIsHeld(es, UsageOf(code));
    HeldIsKeyHeld(es, code);
    if forall n :: 0 <= n <= |es| ==> |HeldKeys(es[..n])| <= SLOTS {
      RolloverExact(es);
      assert es[..|es|] == es;
    }
  }

  /** Each bit of the first byte is up exactly while its modifier key is held. */
  lemma HostSeesModifiers(b: seq<int>, es: seq<KeyEvent>, k: nat)
    requires Tells(b, Modifiers(es), Slots(es)) && k < 8
    ensures 0 <= b[0] < 256
    ensures HostBit(b, k) <==> KeyHeld(es, MODIFIER_KEYS[k])
  {
    hide Slots, Modifiers, KeyHeld;
    SameByte(Modifiers(es));
    ModifierBits(k);
    ModifiersAreHeld(es, MODIFIER_KEYS[k]);
  }

  lemma SameByte(mods: bv8)
    ensures 0 <= mods as int < 256 && (mods as int) as bv8 == mods
  {}

  lemma ModifierBits(k: nat)
    requires k < 8
    ensures ModifierBit(MODIFIER_KEYS[k]) == MASKS[k] && MASKS[k] != 0
  {}
}
