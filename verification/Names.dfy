/** The name tables of the daemons and the case-insensitive lookup in them. */
module Names {
  import opened Text

  datatype Named = Named(name: string, code: int)

  // The blocks both key tables are made of, in Linux input event codes.
  const SINGLES := [
    Named("A", 30), Named("B", 48), Named("C", 46), Named("D", 32), Named("E", 18), Named("F", 33),
    Named("G", 34), Named("H", 35), Named("I", 23), Named("J", 36), Named("K", 37), Named("L", 38),
    Named("M", 50), Named("N", 49), Named("O", 24), Named("P", 25), Named("Q", 16), Named("R", 19),
    Named("S", 31), Named("T", 20), Named("U", 22), Named("V", 47), Named("W", 17), Named("X", 45),
    Named("Y", 21), Named("Z", 44),
    Named("0", 11), Named("1", 2), Named("2", 3), Named("3", 4), Named("4", 5),
    Named("5", 6), Named("6", 7), Named("7", 8), Named("8", 9), Named("9", 10)]
  const SPACES := [Named("SPACE", 57), Named("ENTER", 28)]
  const ESCAPES := [Named("ESC", 1), Named("TAB", 15)]
  const SHIFTS := [Named("LEFTSHIFT", 42), Named("RIGHTSHIFT", 54)]
  const CONTROLS := [Named("LEFTCTRL", 29), Named("RIGHTCTRL", 97)]
  const ALTS := [Named("LEFTALT", 56), Named("RIGHTALT", 100)]
  const METAS := [Named("LEFTMETA", 125), Named("RIGHTMETA", 126)]
  const BACKS := [Named("BACKSPACE", 14), Named("GRAVE", 41)]
  const ARROWS := [Named("UP", 103), Named("DOWN", 108), Named("LEFT", 105), Named("RIGHT", 106)]
  const FUNCTIONS := [
    Named("F1", 59), Named("F2", 60), Named("F3", 61), Named("F4", 62), Named("F5", 63), Named("F6", 64),
    Named("F7", 65), Named("F8", 66), Named("F9", 67), Named("F10", 68), Named("F11", 87), Named("F12", 88)]

  /** `key_names` of the mapper. */
  const MAPPER_KEYS := SINGLES + (SPACES + (ESCAPES + (SHIFTS + (CONTROLS + (ALTS + (BACKS + (ARROWS + FUNCTIONS)))))))

  /** The table inside `hotkey_key_name_to_code` of the passthrough daemon. */
  const CHORD_KEYS := CONTROLS + (SHIFTS + (ALTS + (METAS + (ESCAPES + (SPACES + (BACKS + (ARROWS + (FUNCTIONS + SINGLES))))))))

  /** `btn_names`: BTN_LEFT to BTN_EXTRA. */
  const MOUSE_BUTTONS := [Named("LEFT", 0x110), Named("RIGHT", 0x111), Named("MIDDLE", 0x112), Named("SIDE", 0x113), Named("EXTRA", 0x114)]

  /** `action_names`: the action ids of report.h. */
  const ACTION_NAMES := [
    Named("lstick_up", 1), Named("lstick_down", 2), Named("lstick_left", 3), Named("lstick_right", 4),
    Named("rstick_up", 5), Named("rstick_down", 6), Named("rstick_left", 7), Named("rstick_right", 8),
    Named("dpad_up", 9), Named("dpad_down", 10), Named("dpad_left", 11), Named("dpad_right", 12),
    Named("cross", 13), Named("circle", 14), Named("square", 15), Named("triangle", 16),
    Named("l1", 17), Named("r1", 18), Named("l2", 19), Named("r2", 20), Named("l3", 21), Named("r3", 22),
    Named("create", 23), Named("options", 24), Named("ps", 25), Named("touchpad", 26), Named("mute", 27)]

  /** The code of the first entry whose name matches without regard to case, or -1. */
  function Lookup(table: seq<Named>, name: string): int {
    if table == [] then -1
    else if ToUpper(table[0].name) == ToUpper(name) then table[0].code
    else Lookup(table[1..], name)
  }

  predicate Knows(table: seq<Named>, name: string) {
    exists i :: 0 <= i < |table| && ToUpper(table[i].name) == ToUpper(name)
  }

  /** `lookup_ci`. */
  method LookupCi(table: seq<Named>, name: string) returns (code: int)
    ensures code == Lookup(table, name)
  {
    var i := 0;
    assert table[0..] == table;
    while i < |table|
      invariant 0 <= i <= |table|
      invariant Lookup(table[i..], name) == Lookup(table, name)
    {
      if ToUpper(table[i].name) == ToUpper(name) { return table[i].code; }
      assert table[i..][1..] == table[i + 1..];
      i := i + 1;
    }
    code := -1;
  }

  lemma {:induction false} LookupAppend(a: seq<Named>, b: seq<Named>, name: string)
    ensures Lookup(a + b, name) == if Knows(a, name) then Lookup(a, name) else Lookup(b, name)
    ensures Knows(a + b, name) <==> Knows(a, name) || Knows(b, name)
  {
    if a == [] {
      assert a + b == b;
    } else {
      assert (a + b)[1..] == a[1..] + b;
      LookupAppend(a[1..], b, name);
      KnowsStep(a, name);
      KnowsStep(a + b, name);
    }
  }

  lemma KnowsStep(t: seq<Named>, name: string)
    requires t != []
    ensures Knows(t, name) <==> ToUpper(t[0].name) == ToUpper(name) || Knows(t[1..], name)
  {
    if Knows(t, name) && ToUpper(t[0].name) != ToUpper(name) {
      var i :| 0 <= i < |t| && ToUpper(t[i].name) == ToUpper(name);
      assert t[1..][i - 1] == t[i];
    }
    if Knows(t[1..], name) {
      var i :| 0 <= i < |t| - 1 && ToUpper(t[1..][i].name) == ToUpper(name);
      assert t[i + 1] == t[1..][i];
    }
  }

  lemma {:induction false} UnknownIsMinusOne(t: seq<Named>, name: string)
    requires !Knows(t, name)
    ensures Lookup(t, name) == -1
  {
    if t != [] {
      KnowsStep(t, name);
      UnknownIsMinusOne(t[1..], name);
    }
  }

  // -------------------------------------------------- the blocks do not overlap

  /** Which block an upper-case name can be in. */
  function Block(u: string): int {
    if |u| == 1 then 1
    else if u == "SPACE" || u == "ENTER" then 2
    else if u == "ESC" || u == "TAB" then 3
    else if u == "LEFTSHIFT" || u == "RIGHTSHIFT" then 4
    else if u == "LEFTCTRL" || u == "RIGHTCTRL" then 5
    else if u == "LEFTALT" || u == "RIGHTALT" then 6
    else if u == "LEFTMETA" || u == "RIGHTMETA" then 7
    else if u == "BACKSPACE" || u == "GRAVE" then 8
    else if u == "UP" || u == "DOWN" || u == "LEFT" || u == "RIGHT" then 9
    else if u != "" && u[0] == 'F' then 10
    else 0
  }

  /** Every name of the table is upper case and belongs to block k. */
  predicate InBlock(t: seq<Named>, k: int) {
    forall i :: 0 <= i < |t| ==> Block(ToUpper(t[i].name)) == k
  }

  lemma OtherBlock(t: seq<Named>, k: int, name: string)
    requires InBlock(t, k) && Block(ToUpper(name)) != k
    ensures !Knows(t, name)
  {}

  lemma SpacesBlock()
    ensures InBlock(SPACES, 2)
  {
    assert ToUpper("SPACE") == "SPACE" && ToUpper("ENTER") == "ENTER";
  }

  lemma EscapesBlock()
    ensures InBlock(ESCAPES, 3)
  {
    assert ToUpper("ESC") == "ESC" && ToUpper("TAB") == "TAB";
  }

  lemma ShiftsBlock()
    ensures InBlock(SHIFTS, 4)
  {
    assert ToUpper("LEFTSHIFT") == "LEFTSHIFT" && ToUpper("RIGHTSHIFT") == "RIGHTSHIFT";
  }

  lemma ControlsBlock()
    ensures InBlock(CONTROLS, 5)
  {
    assert ToUpper("LEFTCTRL") == "LEFTCTRL" && ToUpper("RIGHTCTRL") == "RIGHTCTRL";
  }

  lemma AltsBlock()
    ensures InBlock(ALTS, 6)
  {
    assert ToUpper("LEFTALT") == "LEFTALT" && ToUpper("RIGHTALT") == "RIGHTALT";
  }

  lemma MetasBlock()
    ensures InBlock(METAS, 7)
  {
    assert ToUpper("LEFTMETA") == "LEFTMETA" && ToUpper("RIGHTMETA") == "RIGHTMETA";
  }

  lemma BackBlock()
    ensures InBlock(BACKS, 8)
  {
    assert ToUpper("BACKSPACE") == "BACKSPACE" && ToUpper("GRAVE") == "GRAVE";
  }

  lemma ArrowBlock()
    ensures InBlock(ARROWS, 9)
  {
    UpDownBlock();
    LeftRightBlock();
  }

  lemma UpDownBlock()
    ensures Block(ToUpper("UP")) == 9 && Block(ToUpper("DOWN")) == 9
  {
    assert ToUpper("UP") == "UP" && ToUpper("DOWN") == "DOWN";
  }

  lemma LeftRightBlock()
    ensures Block(ToUpper("LEFT")) == 9 && Block(ToUpper("RIGHT")) == 9
  {
    assert ToUpper("LEFT") == "LEFT" && ToUpper("RIGHT") == "RIGHT";
  }

  lemma FunctionName(u: string)
    requires u != "" && u[0] == 'F' && |u| > 1
    ensures Block(ToUpper(u)) == 10
  {
    var v := ToUpper(u);
    assert v[0] == 'F';
    assert "SPACE"[0] == 'S' && "ENTER"[0] == 'E' && "ESC"[0] == 'E' && "TAB"[0] == 'T';
    assert "LEFTSHIFT"[0] == 'L' && "RIGHTSHIFT"[0] == 'R' && "LEFTCTRL"[0] == 'L' && "RIGHTCTRL"[0] == 'R';
    assert "LEFTALT"[0] == 'L' && "RIGHTALT"[0] == 'R' && "LEFTMETA"[0] == 'L' && "RIGHTMETA"[0] == 'R';
    assert "BACKSPACE"[0] == 'B' && "GRAVE"[0] == 'G' && "UP"[0] == 'U' && "DOWN"[0] == 'D' && "LEFT"[0] == 'L' && "RIGHT"[0] == 'R';
  }

  lemma BigBlocks()
    ensures InBlock(SINGLES, 1) && InBlock(FUNCTIONS, 10)
  {
    forall i | 0 <= i < |FUNCTIONS| ensures Block(ToUpper(FUNCTIONS[i].name)) == 10 { FunctionName(FUNCTIONS[i].name); }
    forall i | 0 <= i < |SINGLES| ensures Block(ToUpper(SINGLES[i].name)) == 1 {}
  }

  /** The only block a name can be found in. */
  function OwnBlock(name: string): seq<Named> {
    var k := Block(ToUpper(name));
    if k == 1 then SINGLES else if k == 2 then SPACES else if k == 3 then ESCAPES else if k == 4 then SHIFTS
    else if k == 5 then CONTROLS else if k == 6 then ALTS else if k == 7 then METAS else if k == 8 then BACKS
    else if k == 9 then ARROWS else if k == 10 then FUNCTIONS else []
  }

  lemma OnlyOwnBlock(t: seq<Named>, k: int, rest: seq<Named>, name: string)
    requires InBlock(t, k)
    ensures Lookup(t + rest, name) == if Block(ToUpper(name)) == k && Knows(t, name) then Lookup(t, name) else Lookup(rest, name)
  {
    LookupAppend(t, rest, name);
    if Block(ToUpper(name)) != k { OtherBlock(t, k, name); }
  }

  lemma AllBlocks()
    ensures InBlock(SINGLES, 1) && InBlock(SPACES, 2) && InBlock(ESCAPES, 3) && InBlock(SHIFTS, 4) && InBlock(CONTROLS, 5)
    ensures InBlock(ALTS, 6) && InBlock(METAS, 7) && InBlock(BACKS, 8) && InBlock(ARROWS, 9) && InBlock(FUNCTIONS, 10)
  {
    hide InBlock;
    SpacesBlock();
    EscapesBlock();
    ShiftsBlock();
    ControlsBlock();
    AltsBlock();
    MetasBlock();
    BackBlock();
    ArrowBlock();
    BigBlocks();
  }

  lemma LastBlock(t: seq<Named>, k: int, name: string)
    requires InBlock(t, k)
    ensures Lookup(t, name) == if Block(ToUpper(name)) == k && Knows(t, name) then Lookup(t, name) else -1
  {
    if Block(ToUpper(name)) != k { OtherBlock(t, k, name); }
    if !Knows(t, name) { UnknownIsMinusOne(t, name); }
  }

  lemma MapperLookup(name: string)
    ensures Lookup(MAPPER_KEYS, name) == if Block(ToUpper(name)) == 7 then -1 else Lookup(OwnBlock(name), name)
  {
    hide InBlock, Lookup, Knows, Block;
    AllBlocks();
    OnlyOwnBlock(SINGLES, 1, SPACES + (ESCAPES + (SHIFTS + (CONTROLS + (ALTS + (BACKS + (ARROWS + FUNCTIONS)))))), name);
    OnlyOwnBlock(SPACES, 2, ESCAPES + (SHIFTS + (CONTROLS + (ALTS + (BACKS + (ARROWS + FUNCTIONS))))), name);
    OnlyOwnBlock(ESCAPES, 3, SHIFTS + (CONTROLS + (ALTS + (BACKS + (ARROWS + FUNCTIONS)))), name);
    OnlyOwnBlock(SHIFTS, 4, CONTROLS + (ALTS + (BACKS + (ARROWS + FUNCTIONS))), name);
    OnlyOwnBlock(CONTROLS, 5, ALTS + (BACKS + (ARROWS + FUNCTIONS)), name);
    OnlyOwnBlock(ALTS, 6, BACKS + (ARROWS + FUNCTIONS), name);
    OnlyOwnBlock(BACKS, 8, ARROWS + FUNCTIONS, name);
    OnlyOwnBlock(ARROWS, 9, FUNCTIONS, name);
    LastBlock(FUNCTIONS, 10, name);
    OwnLookup(name);
  }

  /** A name its own block does not know is unknown. */
  lemma OwnLookup(name: string)
    ensures !Knows(OwnBlock(name), name) ==> Lookup(OwnBlock(name), name) == -1
    ensures Lookup([], name) == -1
  {
    if !Knows(OwnBlock(name), name) { UnknownIsMinusOne(OwnBlock(name), name); }
  }

  lemma ChordLookup(name: string)
    ensures Lookup(CHORD_KEYS, name) == Lookup(OwnBlock(name), name)
  {
    hide InBlock, Lookup, Knows, Block;
    AllBlocks();
    OnlyOwnBlock(CONTROLS, 5, SHIFTS + (ALTS + (METAS + (ESCAPES + (SPACES + (BACKS + (ARROWS + (FUNCTIONS + SINGLES))))))), name);
    OnlyOwnBlock(SHIFTS, 4, ALTS + (METAS + (ESCAPES + (SPACES + (BACKS + (ARROWS + (FUNCTIONS + SINGLES)))))), name);
    OnlyOwnBlock(ALTS, 6, METAS + (ESCAPES + (SPACES + (BACKS + (ARROWS + (FUNCTIONS + SINGLES))))), name);
    OnlyOwnBlock(METAS, 7, ESCAPES + (SPACES + (BACKS + (ARROWS + (FUNCTIONS + SINGLES)))), name);
    OnlyOwnBlock(ESCAPES, 3, SPACES + (BACKS + (ARROWS + (FUNCTIONS + SINGLES))), name);
    OnlyOwnBlock(SPACES, 2, BACKS + (ARROWS + (FUNCTIONS + SINGLES)), name);
    OnlyOwnBlock(BACKS, 8, ARROWS + (FUNCTIONS + SINGLES), name);
    OnlyOwnBlock(ARROWS, 9, FUNCTIONS + SINGLES, name);
    OnlyOwnBlock(FUNCTIONS, 10, SINGLES, name);
    LastBlock(SINGLES, 1, name);
    OwnLookup(name);
  }

  lemma MetaBlock(name: string)
    ensures Block(ToUpper(name)) == 7 <==> ToUpper(name) == "LEFTMETA" || ToUpper(name) == "RIGHTMETA"
  {}

  lemma MetaCodes(name: string)
    ensures ToUpper(name) == "LEFTMETA" ==> Lookup(METAS, name) == 125
    ensures ToUpper(name) == "RIGHTMETA" ==> Lookup(METAS, name) == 126
  {
    assert ToUpper("LEFTMETA") == "LEFTMETA" && ToUpper("RIGHTMETA") == "RIGHTMETA";
    assert METAS[1..] == [Named("RIGHTMETA", 126)];
  }

  /** The two key tables are written in different orders, yet they give every name the same code,
      except for the two meta keys, which only the passthrough daemon knows. */
  lemma TablesAgree(name: string)
    ensures Lookup(CHORD_KEYS, name) == Lookup(MAPPER_KEYS, name) <==> ToUpper(name) != "LEFTMETA" && ToUpper(name) != "RIGHTMETA"
    ensures ToUpper(name) == "LEFTMETA" ==> Lookup(CHORD_KEYS, name) == 125 && Lookup(MAPPER_KEYS, name) == -1
    ensures ToUpper(name) == "RIGHTMETA" ==> Lookup(CHORD_KEYS, name) == 126 && Lookup(MAPPER_KEYS, name) == -1
  {
    hide Lookup, Block;
    MapperLookup(name);
    ChordLookup(name);
    MetaBlock(name);
    MetaCodes(name);
  }
}
