/** The keycode table of the passthrough keyboard, and the proof that no two keys share a usage. */
module KeyTable {

  // Linux key codes to HID usages, sixteen codes a row; 0 where there is none.
  const ROW0: seq<nat> := [0, 0x29, 0x1E, 0x1F, 0x20, 0x21, 0x22, 0x23, 0x24, 0x25, 0x26, 0x27, 0x2D, 0x2E, 0x2A, 0x2B]
  const ROW1: seq<nat> := [0x14, 0x1A, 0x08, 0x15, 0x17, 0x1C, 0x18, 0x0C, 0x12, 0x13, 0x2F, 0x30, 0x28, 0, 0x04, 0x16]
  const ROW2: seq<nat> := [0x07, 0x09, 0x0A, 0x0B, 0x0D, 0x0E, 0x0F, 0x33, 0x34, 0x35, 0, 0x31, 0x1D, 0x1B, 0x06, 0x19]
  const ROW3: seq<nat> := [0x05, 0x11, 0x10, 0x36, 0x37, 0x38, 0, 0x55, 0, 0x2C, 0x39, 0x3A, 0x3B, 0x3C, 0x3D, 0x3E]
  const ROW4: seq<nat> := [0x3F, 0x40, 0x41, 0x42, 0x43, 0x53, 0x47, 0x5F, 0x60, 0x61, 0x56, 0x5C, 0x5D, 0x5E, 0x57, 0x59]
  const ROW5: seq<nat> := [0x5A, 0x5B, 0x62, 0x63, 0, 0, 0x64, 0x44, 0x45, 0, 0, 0, 0, 0, 0, 0]
  const ROW6: seq<nat> := [0x58, 0, 0x54, 0x46, 0, 0, 0x4A, 0x52, 0x4B, 0x50, 0x4F, 0x4D, 0x51, 0x4E, 0x49, 0x4C]
  const ROW7: seq<nat> := [0, 0, 0, 0, 0, 0, 0, 0x48, 0, 0, 0, 0, 0, 0, 0, 0x65]

  /** `key_to_hid`; codes from 128 to 255 have no usage either. */
  const KEY_TO_HID := ROW0 + (ROW1 + (ROW2 + (ROW3 + (ROW4 + (ROW5 + (ROW6 + ROW7))))))

  function HidUsage(code: nat): nat {
    if code < |KEY_TO_HID| then KEY_TO_HID[code] else 0
  }

  // The table read backwards: the key of a usage, sixteen usages a function.
  function Back0(u: nat): nat {
    if u == 0x04 then 30 else if u == 0x05 then 48 else if u == 0x06 then 46 else if u == 0x07 then 32 else
    if u == 0x08 then 18 else if u == 0x09 then 33 else if u == 0x0A then 34 else if u == 0x0B then 35 else
    if u == 0x0C then 23 else if u == 0x0D then 36 else if u == 0x0E then 37 else if u == 0x0F then 38 else 0
  }

  function Back1(u: nat): nat {
    if u == 0x10 then 50 else if u == 0x11 then 49 else if u == 0x12 then 24 else if u == 0x13 then 25 else
    if u == 0x14 then 16 else if u == 0x15 then 19 else if u == 0x16 then 31 else if u == 0x17 then 20 else
    if u == 0x18 then 22 else if u == 0x19 then 47 else if u == 0x1A then 17 else if u == 0x1B then 45 else
    if u == 0x1C then 21 else if u == 0x1D then 44 else if u == 0x1E then 2 else if u == 0x1F then 3 else 0
  }

  function Back2(u: nat): nat {
    if u == 0x20 then 4 else if u == 0x21 then 5 else if u == 0x22 then 6 else if u == 0x23 then 7 else
    if u == 0x24 then 8 else if u == 0x25 then 9 else if u == 0x26 then 10 else if u == 0x27 then 11 else
    if u == 0x28 then 28 else if u == 0x29 then 1 else if u == 0x2A then 14 else if u == 0x2B then 15 else
    if u == 0x2C then 57 else if u == 0x2D then 12 else if u == 0x2E then 13 else if u == 0x2F then 26 else 0
  }

  function Back3(u: nat): nat {
    if u == 0x30 then 27 else if u == 0x31 then 43 else if u == 0x33 then 39 else if u == 0x34 then 40 else
    if u == 0x35 then 41 else if u == 0x36 then 51 else if u == 0x37 then 52 else if u == 0x38 then 53 else
    if u == 0x39 then 58 else if u == 0x3A then 59 else if u == 0x3B then 60 else if u == 0x3C then 61 else
    if u == 0x3D then 62 else if u == 0x3E then 63 else if u == 0x3F then 64 else 0
  }

  function Back4(u: nat): nat {
    if u == 0x40 then 65 else if u == 0x41 then 66 else if u == 0x42 then 67 else if u == 0x43 then 68 else
    if u == 0x44 then 87 else if u == 0x45 then 88 else if u == 0x46 then 99 else if u == 0x47 then 70 else
    if u == 0x48 then 119 else if u == 0x49 then 110 else if u == 0x4A then 102 else if u == 0x4B then 104 else
    if u == 0x4C then 111 else if u == 0x4D then 107 else if u == 0x4E then 109 else if u == 0x4F then 106 else 0
  }

  function Back5(u: nat): nat {
    if u == 0x50 then 105 else if u == 0x51 then 108 else if u == 0x52 then 103 else if u == 0x53 then 69 else
    if u == 0x54 then 98 else if u == 0x55 then 55 else if u == 0x56 then 74 else if u == 0x57 then 78 else
    if u == 0x58 then 96 else if u == 0x59 then 79 else if u == 0x5A then 80 else if u == 0x5B then 81 else
    if u == 0x5C then 75 else if u == 0x5D then 76 else if u == 0x5E then 77 else if u == 0x5F then 71 else 0
  }

  function Back6(u: nat): nat {
    if u == 0x60 then 72 else if u == 0x61 then 73 else if u == 0x62 then 82 else if u == 0x63 then 83 else
    if u == 0x64 then 86 else if u == 0x65 then 127 else 0
  }

  function KeyOf(u: nat): nat {
    if u < 0x10 then Back0(u) else if u < 0x20 then Back1(u) else if u < 0x30 then Back2(u)
    else if u < 0x40 then Back3(u) else if u < 0x50 then Back4(u) else if u < 0x60 then Back5(u) else Back6(u)
  }

  /** The row that starts at key `from` is undone by the backward table. */
  predicate Undone(row: seq<nat>, from: nat) {
    forall i :: 0 <= i < |row| && row[i] != 0 ==> KeyOf(row[i]) == from + i
  }

  lemma Row0()
    ensures Undone(ROW0, 0)
  {}

  lemma Row1()
    ensures Undone(ROW1, 16)
  {}

  lemma Row2()
    ensures Undone(ROW2, 32)
  {}

  lemma Row3()
    ensures Undone(ROW3, 48)
  {}

  lemma Row4()
    ensures Undone(ROW4, 64)
  {}

  lemma Row5()
    ensures Undone(ROW5, 80)
  {}

  lemma Row6()
    ensures Undone(ROW6, 96)
  {}

  lemma Row7()
    ensures Undone(ROW7, 112)
  {}

  lemma UndoneConcat(a: seq<nat>, b: seq<nat>, from: nat)
    requires Undone(a, from) && Undone(b, from + |a|)
    ensures Undone(a + b, from)
  {
    hide KeyOf;
    var t := a + b;
    forall i | 0 <= i < |t| && t[i] != 0 ensures KeyOf(t[i]) == from + i {
      if i < |a| { assert t[i] == a[i]; } else { assert t[i] == b[i - |a|]; }
    }
  }

  lemma TableUndone()
    ensures Undone(KEY_TO_HID, 0)
  {
    hide Undone;
    Row0();
    Row1();
    Row2();
    Row3();
    Row4();
    Row5();
    Row6();
    Row7();
    UndoneConcat(ROW6, ROW7, 96);
    UndoneConcat(ROW5, ROW6 + ROW7, 80);
    UndoneConcat(ROW4, ROW5 + (ROW6 + ROW7), 64);
    UndoneConcat(ROW3, ROW4 + (ROW5 + (ROW6 + ROW7)), 48);
    UndoneConcat(ROW2, ROW3 + (ROW4 + (ROW5 + (ROW6 + ROW7))), 32);
    UndoneConcat(ROW1, ROW2 + (ROW3 + (ROW4 + (ROW5 + (ROW6 + ROW7)))), 16);
    UndoneConcat(ROW0, ROW1 + (ROW2 + (ROW3 + (ROW4 + (ROW5 + (ROW6 + ROW7))))), 0);
  }

  /** A usage comes from one key. */
  lemma UsageUndone(code: nat)
    requires HidUsage(code) != 0
    ensures KeyOf(HidUsage(code)) == code && code < 128
  {
    hide KeyOf;
    TableUndone();
  }
}
