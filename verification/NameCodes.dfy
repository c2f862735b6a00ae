/** No two names of a daemon table share a code, so a code tells its name. */
module NameCodes {
  import opened Text
  import opened Names

  // The place of a code in the mapper's key table, sixteen codes a function.
  function Rank0(code: int): int {
    if code == 1 then 38 else if code == 2 then 27 else if code == 3 then 28 else if code == 4 then 29 else
    if code == 5 then 30 else if code == 6 then 31 else if code == 7 then 32 else if code == 8 then 33 else
    if code == 9 then 34 else if code == 10 then 35 else if code == 11 then 26 else if code == 14 then 46 else
    if code == 15 then 39 else -1
  }

  function Rank1(code: int): int {
    if code == 16 then 16 else if code == 17 then 22 else if code == 18 then 4 else if code == 19 then 17 else
    if code == 20 then 19 else if code == 21 then 24 else if code == 22 then 20 else if code == 23 then 8 else
    if code == 24 then 14 else if code == 25 then 15 else if code == 28 then 37 else if code == 29 then 42 else
    if code == 30 then 0 else if code == 31 then 18 else -1
  }

  function Rank2(code: int): int {
    if code == 32 then 3 else if code == 33 then 5 else if code == 34 then 6 else if code == 35 then 7 else
    if code == 36 then 9 else if code == 37 then 10 else if code == 38 then 11 else if code == 41 then 47 else
    if code == 42 then 40 else if code == 44 then 25 else if code == 45 then 23 else if code == 46 then 2 else
    if code == 47 then 21 else -1
  }

  function Rank3(code: int): int {
    if code == 48 then 1 else if code == 49 then 13 else if code == 50 then 12 else if code == 54 then 41 else
    if code == 56 then 44 else if code == 57 then 36 else if code == 59 then 52 else if code == 60 then 53 else
    if code == 61 then 54 else if code == 62 then 55 else if code == 63 then 56 else -1
  }

  function Rank4(code: int): int {
    if code == 64 then 57 else if code == 65 then 58 else if code == 66 then 59 else if code == 67 then 60 else
    if code == 68 then 61 else -1
  }

  function Rank5(code: int): int {
    if code == 87 then 62 else if code == 88 then 63 else -1
  }

  function Rank6(code: int): int {
    if code == 97 then 43 else if code == 100 then 45 else if code == 103 then 48 else
    if code == 105 then 50 else if code == 106 then 51 else if code == 108 then 49 else -1
  }

  function Rank(code: int): int {
    if code < 16 then Rank0(code) else if code < 32 then Rank1(code) else if code < 48 then Rank2(code)
    else if code < 64 then Rank3(code) else if code < 80 then Rank4(code) else if code < 96 then Rank5(code) else Rank6(code)
  }

  /** The entries from `lo` to `hi` have the ranks that start at `from`. */
  predicate Ranked(t: seq<Named>, lo: nat, hi: nat, from: int)
    requires hi <= |t|
  {
    forall i :: lo <= i < hi ==> t[i].code >= 0 && Rank(t[i].code) == from + i
  }

  lemma LettersToE()
    ensures Ranked(SINGLES, 0, 5, 0)
  {}

  lemma LettersToJ()
    ensures Ranked(SINGLES, 5, 10, 0)
  {}

  lemma LettersToO()
    ensures Ranked(SINGLES, 10, 15, 0)
  {}

  lemma LettersToT()
    ensures Ranked(SINGLES, 15, 20, 0)
  {}

  lemma LettersToZ()
    ensures Ranked(SINGLES, 20, 26, 0)
  {}

  lemma Digits()
    ensures Ranked(SINGLES, 26, 36, 0)
  {}

  lemma Singles()
    ensures Ranked(SINGLES, 0, 36, 0)
  {
    hide Rank;
    LettersToE();
    LettersToJ();
    LettersToO();
    LettersToT();
    LettersToZ();
    Digits();
  }

  lemma Functions()
    ensures Ranked(FUNCTIONS, 0, 12, 52)
  {}

  lemma SmallTables()
    ensures Ranked(SPACES, 0, 2, 36) && Ranked(ESCAPES, 0, 2, 38) && Ranked(SHIFTS, 0, 2, 40) && Ranked(CONTROLS, 0, 2, 42)
    ensures Ranked(ALTS, 0, 2, 44) && Ranked(BACKS, 0, 2, 46) && Ranked(ARROWS, 0, 4, 48)
  {}

  lemma RankedConcat(a: seq<Named>, b: seq<Named>, from: int)
    requires Ranked(a, 0, |a|, from) && Ranked(b, 0, |b|, from + |a|)
    ensures Ranked(a + b, 0, |a + b|, from)
  {
    hide Rank;
    var t := a + b;
    forall i | 0 <= i < |t| ensures t[i].code >= 0 && Rank(t[i].code) == from + i {
      if i < |a| { assert t[i] == a[i]; } else { assert t[i] == b[i - |a|]; }
    }
  }

  lemma KeysRanked()
    ensures Ranked(MAPPER_KEYS, 0, |MAPPER_KEYS|, 0)
  {
    hide Rank;
    Singles();
    Functions();
    SmallTables();
    hide Ranked;
    RankedConcat(ARROWS, FUNCTIONS, 48);
    RankedConcat(BACKS, ARROWS + FUNCTIONS, 46);
    RankedConcat(ALTS, BACKS + (ARROWS + FUNCTIONS), 44);
    RankedConcat(CONTROLS, ALTS + (BACKS + (ARROWS + FUNCTIONS)), 42);
    RankedConcat(SHIFTS, CONTROLS + (ALTS + (BACKS + (ARROWS + FUNCTIONS))), 40);
    RankedConcat(ESCAPES, SHIFTS + (CONTROLS + (ALTS + (BACKS + (ARROWS + FUNCTIONS)))), 38);
    RankedConcat(SPACES, ESCAPES + (SHIFTS + (CONTROLS + (ALTS + (BACKS + (ARROWS + FUNCTIONS))))), 36);
    RankedConcat(SINGLES, SPACES + (ESCAPES + (SHIFTS + (CONTROLS + (ALTS + (BACKS + (ARROWS + FUNCTIONS)))))), 0);
  }

  /** Where a name is found. */
  lemma {:induction false} FoundAt(t: seq<Named>, name: string) returns (i: nat)
    requires Knows(t, name)
    ensures i < |t| && Lookup(t, name) == t[i].code && ToUpper(t[i].name) == ToUpper(name)
  {
    if ToUpper(t[0].name) == ToUpper(name) {
      i := 0;
    } else {
      KnowsStep(t, name);
      i := FoundAt(t[1..], name);
      i := i + 1;
    }
  }

  /** Two names of one key differ at most in case. */
  lemma OneNamePerKey(a: string, b: string)
    requires Lookup(MAPPER_KEYS, a) == Lookup(MAPPER_KEYS, b) >= 0
    ensures ToUpper(a) == ToUpper(b)
  {
    hide Rank, Lookup, Knows;
    if !Knows(MAPPER_KEYS, a) { UnknownIsMinusOne(MAPPER_KEYS, a); }
    if !Knows(MAPPER_KEYS, b) { UnknownIsMinusOne(MAPPER_KEYS, b); }
    var i := FoundAt(MAPPER_KEYS, a);
    var k := FoundAt(MAPPER_KEYS, b);
    KeysRanked();
    assert Rank(MAPPER_KEYS[i].code) == i && Rank(MAPPER_KEYS[k].code) == k;
  }

  lemma OneNamePerButton(a: string, b: string)
    requires Lookup(MOUSE_BUTTONS, a) >= 0 && Lookup(MOUSE_BUTTONS, b) >= 0
    requires Lookup(MOUSE_BUTTONS, a) % 256 == Lookup(MOUSE_BUTTONS, b) % 256
    ensures ToUpper(a) == ToUpper(b)
  {
    hide Lookup, Knows;
    if !Knows(MOUSE_BUTTONS, a) { UnknownIsMinusOne(MOUSE_BUTTONS, a); }
    if !Knows(MOUSE_BUTTONS, b) { UnknownIsMinusOne(MOUSE_BUTTONS, b); }
    var i := FoundAt(MOUSE_BUTTONS, a);
    var k := FoundAt(MOUSE_BUTTONS, b);
  }
}
