/** The passthrough keyboard: six rollover slots and a modifier byte (the boot keyboard report of
    HID 1.11, Appendix B.1), against the history of key events. */
module Keyboard {
  import opened KeyTable

  const SLOTS := 6

  datatype KeyEvent = KeyEvent(code: nat, value: int)

  /** The modifier bit of a key, 0 when it is not a modifier. */
  function ModifierBit(code: nat): bv8 {
    if code == 29 then 0x01        // KEY_LEFTCTRL
    else if code == 42 then 0x02   // KEY_LEFTSHIFT
    else if code == 56 then 0x04   // KEY_LEFTALT
    else if code == 125 then 0x08  // KEY_LEFTMETA
    else if code == 97 then 0x10   // KEY_RIGHTCTRL
    else if code == 54 then 0x20   // KEY_RIGHTSHIFT
    else if code == 100 then 0x40  // KEY_RIGHTALT
    else if code == 126 then 0x80  // KEY_RIGHTMETA
    else 0
  }

  /** The usage a key event acts on; 0 for modifiers and unmapped keys. */
  function UsageOf(code: nat): nat {
    if ModifierBit(code) != 0 then 0 else HidUsage(code)
  }

  // --------------------------------------------------------------- the slots

  function Find(keys: seq<nat>, u: nat): (i: nat)
    ensures i <= |keys|
    ensures i < |keys| ==> keys[i] == u
    ensures forall j :: 0 <= j < i ==> keys[j] != u
  {
    if keys == [] || keys[0] == u then 0 else 1 + Find(keys[1..], u)
  }

  /** `kbd_press`: nothing when the usage is there or no slot is free. */
  function PressKeys(keys: seq<nat>, u: nat): seq<nat> {
    if u in keys || Find(keys, 0) == |keys| then keys else keys[Find(keys, 0) := u]
  }

  /** `kbd_release`. */
  function ReleaseKeys(keys: seq<nat>, u: nat): seq<nat> {
    if Find(keys, u) == |keys| then keys else keys[Find(keys, u) := 0]
  }

  /** Auto-repeat is ignored; everything but value 1 is a release. */
  function SlotStep(keys: seq<nat>, e: KeyEvent): seq<nat> {
    var u := UsageOf(e.code);
    if e.value == 2 || u == 0 then keys
    else if e.value == 1 then PressKeys(keys, u) else ReleaseKeys(keys, u)
  }

  function Slots(es: seq<KeyEvent>): seq<nat> {
    if es == [] then [0, 0, 0, 0, 0, 0] else SlotStep(Slots(es[..|es| - 1]), es[|es| - 1])
  }

  // ---------------------------------------------------- what history promises

  predicate ActsOn(e: KeyEvent, u: nat) {
    e.value != 2 && UsageOf(e.code) == u
  }

  /** The usage's last event was a press. */
  predicate Held(es: seq<KeyEvent>, u: nat) {
    es != [] && (if ActsOn(es[|es| - 1], u) then es[|es| - 1].value == 1 else Held(es[..|es| - 1], u))
  }

  /** All held usages, as a set. */
  function HeldSet(es: seq<KeyEvent>): set<nat> {
    if es == [] then {}
    else
      var h, e := HeldSet(es[..|es| - 1]), es[|es| - 1];
      var u := UsageOf(e.code);
      if e.value == 2 || u == 0 then h else if e.value == 1 then h + {u} else h - {u}
  }

  /** The reported usages, defined without slots: a press enters while fewer than six are in. */
  function Reported(es: seq<KeyEvent>): set<nat> {
    if es == [] then {} else EntryStep(Reported(es[..|es| - 1]), es[|es| - 1])
  }

  function EntryStep(r: set<nat>, e: KeyEvent): set<nat> {
    var u := UsageOf(e.code);
    if e.value == 2 || u == 0 then r
    else if e.value != 1 then r - {u}
    else if |r| < SLOTS then r + {u} else r
  }

  function NonZero(keys: seq<nat>): set<nat> {
    set u | u in keys && u != 0
  }

  predicate DistinctKeys(keys: seq<nat>) {
    forall i, j :: 0 <= i < j < |keys| && keys[i] != 0 ==> keys[i] != keys[j]
  }

  function Zeros(keys: seq<nat>): nat {
    if keys == [] then 0 else (if keys[0] == 0 then 1 else 0) + Zeros(keys[1..])
  }

  lemma {:induction false} NonZeroCount(keys: seq<nat>)
    requires DistinctKeys(keys)
    ensures |NonZero(keys)| + Zeros(keys) == |keys|
  {
    if keys == [] {
      assert NonZero(keys) == {};
    } else {
      var rest := keys[1..];
      NonZeroCount(rest);
      assert keys == [keys[0]] + rest;
      if keys[0] == 0 {
        assert NonZero(keys) == NonZero(rest);
      } else {
        assert keys[0] !in rest;
        assert NonZero(keys) == NonZero(rest) + {keys[0]};
      }
    }
  }

  lemma {:induction false} ZerosFind(keys: seq<nat>)
    ensures Zeros(keys) == 0 <==> Find(keys, 0) == |keys|
  {
    if keys != [] { ZerosFind(keys[1..]); }
  }

  lemma PressLaw(keys: seq<nat>, u: nat)
    requires DistinctKeys(keys) && u != 0
    ensures DistinctKeys(PressKeys(keys, u)) && |PressKeys(keys, u)| == |keys|
    ensures NonZero(PressKeys(keys, u)) == if |NonZero(keys)| < |keys| then NonZero(keys) + {u} else NonZero(keys)
  {
    NonZeroCount(keys);
    ZerosFind(keys);
    var i := Find(keys, 0);
    if u !in keys && i < |keys| { FilledSlot(keys, i, u); }
  }

  /** Filling an empty slot. */
  lemma FilledSlot(keys: seq<nat>, i: nat, u: nat)
    requires i < |keys| && keys[i] == 0 && u !in keys && u != 0 && DistinctKeys(keys)
    ensures DistinctKeys(keys[i := u]) && NonZero(keys[i := u]) == NonZero(keys) + {u}
  {
    var r := keys[i := u];
    assert r[i] == u;
    assert forall j :: 0 <= j < |keys| && j != i ==> r[j] == keys[j];
    forall v | v in NonZero(keys) ensures v in NonZero(r) {
      var j :| 0 <= j < |keys| && keys[j] == v;
      assert r[j] == v;
    }
  }

  lemma ReleaseLaw(keys: seq<nat>, u: nat)
    requires DistinctKeys(keys) && u != 0
    ensures DistinctKeys(ReleaseKeys(keys, u)) && |ReleaseKeys(keys, u)| == |keys|
    ensures NonZero(ReleaseKeys(keys, u)) == NonZero(keys) - {u}
  {
    var i := Find(keys, u);
    if i < |keys| {
      var r := keys[i := 0];
      forall v | v in NonZero(keys) - {u} ensures v in NonZero(r) {
        var j :| 0 <= j < |keys| && keys[j] == v;
        assert r[j] == v;
      }
    }
  }

  lemma SlotStepRefines(keys: seq<nat>, e: KeyEvent)
    requires |keys| == SLOTS && DistinctKeys(keys)
    ensures var k := SlotStep(keys, e); |k| == SLOTS && DistinctKeys(k) && NonZero(k) == EntryStep(NonZero(keys), e)
  {
    hide UsageOf, PressKeys, ReleaseKeys, DistinctKeys, NonZero;
    var u := UsageOf(e.code);
    if u != 0 {
      PressLaw(keys, u);
      ReleaseLaw(keys, u);
    }
  }

  /** The six slots hold exactly the reported usages, each once. */
  lemma {:induction false} SlotsRefine(es: seq<KeyEvent>)
    ensures var k := Slots(es); |k| == SLOTS && DistinctKeys(k) && NonZero(k) == Reported(es)
  {
    if es != [] {
      var init, e := es[..|es| - 1], es[|es| - 1];
      SlotsRefine(init);
      SlotStepRefines(Slots(init), e);
      hide SlotStep, EntryStep, DistinctKeys, NonZero;
    } else {
      assert NonZero([0, 0, 0, 0, 0, 0]) == {};
    }
  }

  lemma ReportedAtMostSix(es: seq<KeyEvent>)
    ensures |Reported(es)| <= SLOTS
  {
    SlotsRefine(es);
    NonZeroCount(Slots(es));
  }

  lemma {:induction false} HeldSetIsHeld(es: seq<KeyEvent>, u: nat)
    ensures u in HeldSet(es) <==> u != 0 && Held(es, u)
  {
    hide UsageOf;
    if es != [] { HeldSetIsHeld(es[..|es| - 1], u); }
  }

  /** Nothing is reported that is not held; so with nothing held every slot is empty. */
  lemma {:induction false} UsagesAreHeld(es: seq<KeyEvent>)
    ensures Reported(es) <= HeldSet(es)
    ensures HeldSet(es) == {} ==> Slots(es) == [0, 0, 0, 0, 0, 0]
  {
    hide UsageOf;
    SlotsRefine(es);
    if es != [] { UsagesAreHeld(es[..|es| - 1]); }
    if HeldSet(es) == {} {
      var k := Slots(es);
      forall i | 0 <= i < |k| ensures k[i] == 0 {
        assert k[i] in k && k[i] !in NonZero(k);
      }
    }
  }

  /** Event i pressed u while a slot was free (or u was in one), and u was not released since. */
  ghost predicate EnteredAt(es: seq<KeyEvent>, u: nat, i: nat) {
    && i < |es| && ActsOn(es[i], u) && es[i].value == 1
    && (|Reported(es[..i])| < SLOTS || u in Reported(es[..i]))
    && forall j :: i < j < |es| ==> ActsOn(es[j], u) ==> es[j].value == 1
  }

  lemma EnteredStep(es: seq<KeyEvent>, u: nat, e: KeyEvent, i: nat)
    requires i < |es|
    ensures EnteredAt(es + [e], u, i) <==> EnteredAt(es, u, i) && (ActsOn(e, u) ==> e.value == 1)
  {
    hide Reported, ActsOn;
    var t := es + [e];
    assert t[..i] == es[..i] && t[i] == es[i] && t[|es|] == e;
    assert forall j :: i < j < |es| ==> t[j] == es[j];
  }

  lemma ReportedStep(es: seq<KeyEvent>, u: nat, e: KeyEvent)
    requires u != 0
    ensures u in Reported(es + [e]) <==>
      if !ActsOn(e, u) then u in Reported(es) else e.value == 1 && (|Reported(es)| < SLOTS || u in Reported(es))
  {
    hide UsageOf;
    assert (es + [e])[..|es|] == es;
  }

  lemma EnteredNow(es: seq<KeyEvent>, u: nat, e: KeyEvent)
    ensures EnteredAt(es + [e], u, |es|) <==> ActsOn(e, u) && e.value == 1 && (|Reported(es)| < SLOTS || u in Reported(es))
  {
    hide Reported, ActsOn;
    assert (es + [e])[..|es|] == es;
  }

  /** A usage is reported exactly when some press since its last release found room: a held key is
      missing exactly when the six slots were full at every such press. */
  lemma {:induction false} UsageIffEntered(es: seq<KeyEvent>, u: nat)
    requires u != 0
    ensures u in Reported(es) <==> exists i: nat :: EnteredAt(es, u, i)
  {
    if es == [] {
      assert forall i: nat :: !EnteredAt(es, u, i);
    } else {
      hide EnteredAt, Reported;
      var n := |es| - 1;
      var init, e := es[..n], es[n];
      assert es == init + [e];
      UsageIffEntered(init, u);
      ReportedStep(init, u, e);
      EnteredNow(init, u, e);
      forall i: nat | i < n ensures EnteredAt(es, u, i) <==> EnteredAt(init, u, i) && (ActsOn(e, u) ==> e.value == 1) {
        EnteredStep(init, u, e, i);
      }
      forall i: nat ensures (EnteredAt(es, u, i) ==> i <= n) && (EnteredAt(init, u, i) ==> i < n) { EnteredBounds(es, u, i); EnteredBounds(init, u, i); }
      if u in Reported(init) {
        var i: nat :| EnteredAt(init, u, i);
        assert EnteredAt(es, u, i) <==> (ActsOn(e, u) ==> e.value == 1);
      }
    }
  }

  lemma EnteredBounds(es: seq<KeyEvent>, u: nat, i: nat)
    ensures EnteredAt(es, u, i) ==> i < |es|
  {}

  /** Slots and held keys agree throughout a history exactly when never more than six are held. */
  lemma {:induction false} RolloverUsages(es: seq<KeyEvent>)
    ensures (forall n :: 0 <= n <= |es| ==> Reported(es[..n]) == HeldSet(es[..n])) <==>
            (forall n :: 0 <= n <= |es| ==> |HeldSet(es[..n])| <= SLOTS)
  {
    hide UsageOf;
    if forall n :: 0 <= n <= |es| ==> Reported(es[..n]) == HeldSet(es[..n]) {
      forall n | 0 <= n <= |es| ensures |HeldSet(es[..n])| <= SLOTS { ReportedAtMostSix(es[..n]); }
    }
    if forall n :: 0 <= n <= |es| ==> |HeldSet(es[..n])| <= SLOTS {
      forall n | 0 <= n <= |es| ensures Reported(es[..n]) == HeldSet(es[..n]) { RolloverFits(es, n); }
    }
  }

  lemma {:induction false} RolloverFits(es: seq<KeyEvent>, n: nat)
    requires n <= |es| && forall m :: 0 <= m <= n ==> |HeldSet(es[..m])| <= SLOTS
    ensures Reported(es[..n]) == HeldSet(es[..n])
  {
    hide UsageOf;
    if n > 0 {
      RolloverFits(es, n - 1);
      var init, h := es[..n - 1], HeldSet(es[..n]);
      assert es[..n][..n - 1] == init;
      ReportedAtMostSix(init);
      var u := UsageOf(es[n - 1].code);
      if u !in HeldSet(init) && es[n - 1].value == 1 && u != 0 {
        assert h == HeldSet(init) + {u} && |h| == |HeldSet(init)| + 1;
      }
    }
  }

  // ------------------------------------------------------- from usages to keys

  /** The key itself is held by its last non-repeat event. */
  predicate KeyHeld(es: seq<KeyEvent>, code: nat) {
    es != [] &&
    (if es[|es| - 1].code == code && es[|es| - 1].value != 2 then es[|es| - 1].value == 1 else KeyHeld(es[..|es| - 1], code))
  }

  predicate Mapped(code: nat) {
    UsageOf(code) != 0
  }

  lemma OneKeyPerUsage(a: nat, b: nat)
    requires Mapped(a) && UsageOf(a) == UsageOf(b)
    ensures a == b && KeyOf(UsageOf(a)) == a
  {
    hide KeyOf, HidUsage;
    UsageUndone(a);
    UsageUndone(b);
  }

  /** A usage is held exactly when its key is. */
  lemma {:induction false} HeldIsKeyHeld(es: seq<KeyEvent>, code: nat)
    requires Mapped(code)
    ensures Held(es, UsageOf(code)) <==> KeyHeld(es, code)
  {
    hide UsageOf;
    if es != [] {
      HeldIsKeyHeld(es[..|es| - 1], code);
      if UsageOf(es[|es| - 1].code) == UsageOf(code) { OneKeyPerUsage(code, es[|es| - 1].code); }
    }
  }

  /** The key's usage is in one of the slots. */
  predicate Shown(es: seq<KeyEvent>, code: nat) {
    UsageOf(code) in Slots(es)
  }

  lemma ShownIsReported(es: seq<KeyEvent>, code: nat)
    requires Mapped(code)
    ensures Shown(es, code) <==> UsageOf(code) in Reported(es)
  {
    hide UsageOf, Slots, Reported;
    SlotsRefine(es);
  }

  /** A slot is free exactly while fewer than six usages are reported. */
  lemma RoomIff(es: seq<KeyEvent>)
    ensures 0 in Slots(es) <==> |Reported(es)| < SLOTS
  {
    hide Slots, Reported, DistinctKeys, NonZero;
    SlotsRefine(es);
    NonZeroCount(Slots(es));
    ZerosFind(Slots(es));
  }

  /** Every non-zero slot stands for one held key, no two slots for the same one; with no mapped key
      held all six are zero. */
  lemma SlotsAreHeldKeys(es: seq<KeyEvent>)
    ensures |Slots(es)| == SLOTS && DistinctKeys(Slots(es))
    ensures forall i :: 0 <= i < SLOTS && Slots(es)[i] != 0 ==>
              var k := KeyOf(Slots(es)[i]); UsageOf(k) == Slots(es)[i] && KeyHeld(es, k)
    ensures (forall k: nat :: Mapped(k) ==> !KeyHeld(es, k)) ==> Slots(es) == [0, 0, 0, 0, 0, 0]
  {
    hide UsageOf, KeyOf, Slots, Reported;
    SlotsRefine(es);
    UsagesAreHeld(es);
    forall i | 0 <= i < SLOTS && Slots(es)[i] != 0
      ensures var k := KeyOf(Slots(es)[i]); UsageOf(k) == Slots(es)[i] && KeyHeld(es, k)
    {
      assert Slots(es)[i] in NonZero(Slots(es));
      HeldSlotKey(es, Slots(es)[i]);
    }
    if Slots(es) != [0, 0, 0, 0, 0, 0] {
      var i :| 0 <= i < SLOTS && Slots(es)[i] != 0;
      assert Mapped(KeyOf(Slots(es)[i]));
    }
  }

  lemma HeldSlotKey(es: seq<KeyEvent>, u: nat)
    requires u in HeldSet(es)
    ensures UsageOf(KeyOf(u)) == u && KeyHeld(es, KeyOf(u))
  {
    hide UsageOf, KeyOf;
    HeldSetIsHeld(es, u);
    var k := PressedKey(es, u);
    OneKeyPerUsage(k, k);
    HeldIsKeyHeld(es, k);
  }

  /** A held usage was pressed by some key. */
  lemma {:induction false} PressedKey(es: seq<KeyEvent>, u: nat) returns (k: nat)
    requires Held(es, u)
    ensures UsageOf(k) == u
  {
    hide UsageOf;
    var e := es[|es| - 1];
    if ActsOn(e, u) { k := e.code; } else { k := PressedKey(es[..|es| - 1], u); }
  }

  /** Event i pressed the key while a slot was free (or the key was in one), and the key was not
      released since. */
  ghost predicate KeyEnteredAt(es: seq<KeyEvent>, code: nat, i: nat) {
    && i < |es| && es[i] == KeyEvent(code, 1)
    && (0 in Slots(es[..i]) || Shown(es[..i], code))
    && forall j :: i < j < |es| ==> es[j].code == code && es[j].value != 2 ==> es[j].value == 1
  }

  lemma EnteredIsKeyEntered(es: seq<KeyEvent>, code: nat, i: nat)
    requires Mapped(code)
    ensures EnteredAt(es, UsageOf(code), i) <==> KeyEnteredAt(es, code, i)
  {
    hide UsageOf, Slots, Reported;
    forall a: nat ensures UsageOf(a) == UsageOf(code) <==> a == code {
      if UsageOf(a) == UsageOf(code) { OneKeyPerUsage(code, a); }
    }
    if i < |es| {
      RoomIff(es[..i]);
      ShownIsReported(es[..i], code);
    }
  }

  /** A key is in the report exactly when some press of it since its last release found room: a held
      key is missing exactly when all six slots were full at every such press. */
  lemma ShownIffEntered(es: seq<KeyEvent>, code: nat)
    requires Mapped(code)
    ensures Shown(es, code) <==> exists i: nat :: KeyEnteredAt(es, code, i)
  {
    hide UsageOf, Slots, Reported, EnteredAt, KeyEnteredAt, Shown;
    ShownIsReported(es, code);
    UsageIffEntered(es, UsageOf(code));
    forall i: nat ensures EnteredAt(es, UsageOf(code), i) <==> KeyEnteredAt(es, code, i) { EnteredIsKeyEntered(es, code, i); }
  }

  /** The mapped keys that are held. */
  function HeldKeys(es: seq<KeyEvent>): set<nat> {
    if es == [] then {}
    else
      var h, e := HeldKeys(es[..|es| - 1]), es[|es| - 1];
      if e.value == 2 || !Mapped(e.code) then h else if e.value == 1 then h + {e.code} else h - {e.code}
  }

  lemma {:induction false} HeldKeysAreHeld(es: seq<KeyEvent>, code: nat)
    ensures code in HeldKeys(es) <==> Mapped(code) && KeyHeld(es, code)
  {
    hide UsageOf;
    if es != [] { HeldKeysAreHeld(es[..|es| - 1], code); }
  }

  function Usages(keys: set<nat>): set<nat> {
    set k | k in keys :: UsageOf(k)
  }

  lemma {:induction false} UsagesCount(keys: set<nat>)
    requires forall k :: k in keys ==> Mapped(k)
    ensures |Usages(keys)| == |keys|
  {
    hide UsageOf;
    if keys != {} {
      var k :| k in keys;
      UsagesCount(keys - {k});
      forall a | a in keys - {k} ensures UsageOf(a) != UsageOf(k) {
        if UsageOf(a) == UsageOf(k) { OneKeyPerUsage(k, a); }
      }
      assert Usages(keys) == Usages(keys - {k}) + {UsageOf(k)};
    }
  }

  /** As many keys are held as usages. */
  lemma HeldCount(es: seq<KeyEvent>)
    ensures |HeldKeys(es)| == |HeldSet(es)|
  {
    hide UsageOf, HeldKeys, HeldSet;
    forall k | k in HeldKeys(es) ensures Mapped(k) { HeldKeysAreHeld(es, k); }
    UsagesCount(HeldKeys(es));
    forall k | k in HeldKeys(es) ensures UsageOf(k) in HeldSet(es) {
      HeldKeysAreHeld(es, k);
      HeldIsKeyHeld(es, k);
      HeldSetIsHeld(es, UsageOf(k));
    }
    forall u | u in HeldSet(es) ensures u in Usages(HeldKeys(es)) {
      HeldSlotKey(es, u);
      HeldSetIsHeld(es, u);
      HeldKeysAreHeld(es, KeyOf(u));
    }
    assert Usages(HeldKeys(es)) == HeldSet(es);
  }

  /** The report shows exactly the held keys. */
  ghost predicate ShowsHeld(es: seq<KeyEvent>) {
    forall k: nat :: Mapped(k) ==> (Shown(es, k) <==> KeyHeld(es, k))
  }

  lemma ShowsHeldIff(es: seq<KeyEvent>)
    ensures ShowsHeld(es) <==> Reported(es) == HeldSet(es)
  {
    hide UsageOf, KeyOf, Slots, Reported, HeldSet, Shown;
    forall k: nat | Mapped(k)
      ensures (Shown(es, k) <==> UsageOf(k) in Reported(es)) && (KeyHeld(es, k) <==> UsageOf(k) in HeldSet(es))
    {
      ShownIsReported(es, k);
      HeldIsKeyHeld(es, k);
      HeldSetIsHeld(es, UsageOf(k));
    }
    UsagesAreHeld(es);
    if ShowsHeld(es) {
      forall u | u in HeldSet(es) ensures u in Reported(es) {
        HeldSlotKey(es, u);
        HeldSetIsHeld(es, u);
        assert Mapped(KeyOf(u));
      }
    }
  }

  /** The report shows exactly the held keys throughout a history if and only if never more than six
      mapped keys are held at once. */
  lemma RolloverExact(es: seq<KeyEvent>)
    ensures (forall n :: 0 <= n <= |es| ==> ShowsHeld(es[..n])) <==>
            (forall n :: 0 <= n <= |es| ==> |HeldKeys(es[..n])| <= SLOTS)
  {
    hide ShowsHeld, HeldKeys, HeldSet, Reported;
    RolloverUsages(es);
    forall n | 0 <= n <= |es|
      ensures ShowsHeld(es[..n]) <==> Reported(es[..n]) == HeldSet(es[..n])
      ensures |HeldKeys(es[..n])| == |HeldSet(es[..n])|
    {
      ShowsHeldIff(es[..n]);
      HeldCount(es[..n]);
    }
  }

  // -------------------------------------------------------------- modifiers

  function SetBits(byte: bv8, bits: bv8, down: bool): bv8 {
    if down then byte | bits else byte & !bits
  }

  lemma SetNoBits(byte: bv8, down: bool)
    ensures SetBits(byte, 0, down) == byte
  {}

  function ModStep(mods: bv8, e: KeyEvent): bv8 {
    if e.value == 2 then mods else SetBits(mods, ModifierBit(e.code), e.value == 1)
  }

  function Modifiers(es: seq<KeyEvent>): bv8 {
    if es == [] then 0 else ModStep(Modifiers(es[..|es| - 1]), es[|es| - 1])
  }

  lemma BitStep(mods: bv8, code: nat, other: nat)
    requires ModifierBit(other) != 0
    ensures SetBits(mods, ModifierBit(code), true) & ModifierBit(other) != 0 <==> code == other || mods & ModifierBit(other) != 0
    ensures SetBits(mods, ModifierBit(code), false) & ModifierBit(other) != 0 <==> code != other && mods & ModifierBit(other) != 0
  {}

  /** The report's bit for a modifier key. */
  predicate ModifierOn(mods: bv8, code: nat) {
    mods & ModifierBit(code) != 0
  }

  lemma ModifierStep(mods: bv8, e: KeyEvent, code: nat)
    requires ModifierBit(code) != 0
    ensures ModifierOn(ModStep(mods, e), code) <==>
      if e.code == code && e.value != 2 then e.value == 1 else ModifierOn(mods, code)
  {
    hide ModifierBit, SetBits;
    BitStep(mods, e.code, code);
  }

  /** The modifier byte is exactly the set of held modifiers. */
  lemma {:induction false} ModifiersAreHeld(es: seq<KeyEvent>, code: nat)
    requires ModifierBit(code) != 0
    ensures ModifierOn(Modifiers(es), code) <==> KeyHeld(es, code)
  {
    hide ModifierBit, ModStep;
    if es != [] {
      ModifiersAreHeld(es[..|es| - 1], code);
      hide ModifierOn;
      ModifierStep(Modifiers(es[..|es| - 1]), es[|es| - 1], code);
    } else {
      NoBits(ModifierBit(code));
    }
  }

  lemma NoBits(m: bv8)
    ensures 0 & m == 0
  {}
}
