/** The pressed bitmap of the mapper: a 64-bit word, one bit per DualSense action. */
module Actions {

  // Action ids (report.h).
  const NONE := 0
  const LSTICK_UP := 1
  const LSTICK_DOWN := 2
  const LSTICK_LEFT := 3
  const LSTICK_RIGHT := 4
  const RSTICK_UP := 5
  const RSTICK_DOWN := 6
  const RSTICK_LEFT := 7
  const RSTICK_RIGHT := 8
  const DPAD_UP := 9
  const DPAD_DOWN := 10
  const DPAD_LEFT := 11
  const DPAD_RIGHT := 12
  const CROSS := 13
  const CIRCLE := 14
  const SQUARE := 15
  const TRIANGLE := 16
  const L1 := 17
  const R1 := 18
  const L2 := 19
  const R2 := 20
  const L3 := 21
  const R3 := 22
  const CREATE := 23
  const OPTIONS := 24
  const PS := 25
  const TOUCHPAD := 26
  const MUTE := 27
  const ACTIONS := 28

  function Double(m: bv64): bv64 { m << 1 }
  function Raise(w: bv64, m: bv64): bv64 { w | m }
  function Lower(w: bv64, m: bv64): bv64 { w & !m }
  predicate Meets(w: bv64, m: bv64) { w & m != 0 }

  /** `1ull << n`, as n doublings. */
  function Bit(n: nat): bv64 {
    if n == 0 then 1 else Double(Bit(n - 1))
  }

  predicate SingleBit(m: bv64) {
    m != 0 && m & (m - 1) == 0
  }

  lemma SevenDoublings(m: bv64)
    ensures Double(Double(Double(Double(Double(Double(Double(m))))))) == m << 7
  {}

  lemma BitSeven(n: nat)
    ensures Bit(n + 7) == Bit(n) << 7
  {
    SevenDoublings(Bit(n));
    hide Double;
    assert Bit(n + 1) == Double(Bit(n)) && Bit(n + 2) == Double(Bit(n + 1)) && Bit(n + 3) == Double(Bit(n + 2));
    assert Bit(n + 4) == Double(Bit(n + 3)) && Bit(n + 5) == Double(Bit(n + 4)) && Bit(n + 6) == Double(Bit(n + 5));
    assert Bit(n + 7) == Double(Bit(n + 6));
  }

  lemma BitTop()
    ensures Bit(63) != 0
  {
    BitSeven(0);
    BitSeven(7);
    BitSeven(14);
    BitSeven(21);
    BitSeven(28);
    BitSeven(35);
    BitSeven(42);
    BitSeven(49);
    BitSeven(56);
  }

  lemma {:induction false} BitNonZero(n: nat, k: nat)
    requires n <= k && Bit(k) != 0
    ensures Bit(n) != 0
    decreases k - n
  {
    if n < k { BitNonZero(n + 1, k); }
  }

  lemma DoubleBit(m: bv64)
    requires SingleBit(m) && Double(m) != 0
    ensures SingleBit(Double(m)) && Double(m) > m
  {}

  lemma OneIsSingle()
    ensures SingleBit(1)
  {}

  lemma {:induction false} BitOrder(n: nat, k: nat)
    requires n <= k < 64
    ensures SingleBit(Bit(k)) && Bit(n) <= Bit(k) && (n < k ==> Bit(n) < Bit(k))
  {
    hide Double, SingleBit;
    BitTop();
    BitNonZero(k, 63);
    OneIsSingle();
    if k > 0 {
      BitOrder(if n < k then n else k - 1, k - 1);
      DoubleBit(Bit(k - 1));
    }
  }

  lemma OwnBit(w: bv64, m: bv64)
    requires SingleBit(m)
    ensures Meets(Raise(w, m), m) && !Meets(Lower(w, m), m)
  {}

  lemma SingleBitsDisjoint(m: bv64, n: bv64)
    requires SingleBit(m) && SingleBit(n) && m != n
    ensures m & n == 0
  {}

  lemma DisjointBit(w: bv64, m: bv64, n: bv64)
    requires m & n == 0
    ensures Raise(w, m) & n == w & n && Lower(w, m) & n == w & n
  {}

  lemma OtherBit(w: bv64, m: bv64, n: bv64)
    requires SingleBit(m) && SingleBit(n) && m != n
    ensures Meets(Raise(w, m), n) == Meets(w, n) && Meets(Lower(w, m), n) == Meets(w, n)
  {
    hide Raise, Lower;
    SingleBitsDisjoint(m, n);
    hide SingleBit;
    DisjointBit(w, m, n);
  }

  /** Setting or clearing bit a does to bit b what it should, and nothing else. */
  lemma BitUpdate(w: bv64, a: nat, b: nat)
    requires a < 64 && b < 64
    ensures Meets(Raise(w, Bit(a)), Bit(b)) <==> a == b || Meets(w, Bit(b))
    ensures Meets(Lower(w, Bit(a)), Bit(b)) <==> a != b && Meets(w, Bit(b))
  {
    hide Bit, Meets, Raise, Lower, SingleBit;
    BitOrder(a, a);
    BitOrder(b, b);
    if a == b {
      OwnBit(w, Bit(a));
    } else {
      BitsDiffer(a, b);
      OtherBit(w, Bit(a), Bit(b));
    }
  }

  lemma BitsDiffer(a: nat, b: nat)
    requires a < 64 && b < 64 && a != b
    ensures Bit(a) != Bit(b)
  {
    hide Bit, SingleBit;
    if a < b { BitOrder(a, b); } else { BitOrder(b, a); }
  }

  /** `set_action`; ids that are none or out of range change nothing. */
  function SetWord(w: bv64, a: nat, down: bool): bv64 {
    if a == NONE || a >= ACTIONS then w
    else if down then Raise(w, Bit(a % 64)) else Lower(w, Bit(a % 64))
  }

  /** `is_pressed`. */
  predicate Pressed(w: bv64, a: nat) {
    a != NONE && a < ACTIONS && Meets(w, Bit(a % 64))
  }

  /** The set of pressed actions. */
  function PressedSet(w: bv64): set<nat> {
    set a: nat | a < ACTIONS && Pressed(w, a)
  }

  lemma SetWordLaw(w: bv64, a: nat, down: bool)
    ensures PressedSet(SetWord(w, a, down)) ==
      if a == NONE || a >= ACTIONS then PressedSet(w) else if down then PressedSet(w) + {a} else PressedSet(w) - {a}
  {
    hide Bit, Meets, Raise, Lower;
    if a != NONE && a < ACTIONS {
      forall b: nat | b < ACTIONS
        ensures Pressed(SetWord(w, a, down), b) <==> (b != NONE && if b == a then down else Pressed(w, b))
      {
        BitUpdate(w, a, b);
      }
    }
  }

  lemma NothingPressed()
    ensures PressedSet(0) == {}
  {
    hide Bit, Meets;
    forall b: nat | b < ACTIONS ensures !Pressed(0, b) {
      ZeroWord(Bit(b % 64));
    }
  }

  lemma ZeroWord(m: bv64)
    ensures !Meets(0, m)
  {}
}
