/** The mode-toggle chord: all its keys held together for a second, detected by both daemons with
    the same code. */
module Hotkey {

  const MAX_KEYS := 8
  const HOLD_NS := 1000000000

  /** `hotkey_codes`, an array of eight. */
  type ChordCodes = s: seq<int> | |s| <= MAX_KEYS witness []

  /** What the chord machine sees: a key event, the poll at the end of a drain, and (in the mapper)
      a configuration reload, which brings new codes. */
  datatype Op =
    | KeyOp(code: int, value: int, now: int)
    | PollOp(now: int)
    | ResetOp(codes: ChordCodes)

  datatype ChordState = ChordState(codes: seq<int>, pressed: seq<bool>, since: int, fired: bool)

  const NONE_PRESSED: seq<bool> := [false, false, false, false, false, false, false, false]

  function Start(codes: seq<int>): ChordState {
    ChordState(codes, NONE_PRESSED, 0, false)
  }

  /** The first place of a code in the chord, or its length. */
  function Place(codes: seq<int>, code: int): (i: nat)
    ensures i <= |codes|
    ensures i < |codes| ==> codes[i] == code
    ensures forall j :: 0 <= j < i ==> codes[j] != code
  {
    if codes == [] || codes[0] == code then 0 else 1 + Place(codes[1..], code)
  }

  predicate AllPressed(s: ChordState)
    requires |s.codes| <= |s.pressed|
  {
    forall i :: 0 <= i < |s.codes| ==> s.pressed[i]
  }

  predicate Sized(s: ChordState) {
    |s.codes| <= MAX_KEYS && |s.pressed| == MAX_KEYS
  }

  /** `hotkey_update`. */
  function Update(s: ChordState, code: int, value: int, now: int): (t: ChordState)
    requires Sized(s)
    ensures Sized(t)
  {
    var i := Place(s.codes, code);
    if i == |s.codes| then s
    else
      var t := s.(pressed := s.pressed[i := value != 0]);
      if AllPressed(t) then (if t.since == 0 then t.(since := now) else t)
      else t.(since := 0, fired := false)
  }

  /** `hotkey_should_fire`. */
  predicate Fires(s: ChordState, now: int) {
    !s.fired && s.since != 0 && (now - s.since) / 1000000 >= 1000
  }

  function Step(s: ChordState, op: Op): (t: ChordState)
    requires Sized(s)
    ensures Sized(t)
  {
    match op
    case KeyOp(code, value, now) => Update(s, code, value, now)
    case PollOp(now) => if Fires(s, now) then s.(fired := true) else s
    case ResetOp(codes) => Start(codes)
  }

  function After(codes: seq<int>, ops: seq<Op>): (s: ChordState)
    requires |codes| <= MAX_KEYS
    ensures Sized(s)
  {
    if ops == [] then Start(codes) else Step(After(codes, ops[..|ops| - 1]), ops[|ops| - 1])
  }

  lemma AfterStep(codes: seq<int>, ops: seq<Op>, op: Op)
    requires |codes| <= MAX_KEYS
    ensures After(codes, ops + [op]) == Step(After(codes, ops), op)
  {
    assert (ops + [op])[..|ops|] == ops;
  }

  // -------------------------------------------------------------- the machine

  class Machine {
    var codes: seq<int>
    const pressed: array<bool>
    var allSince: int
    var fired: bool

    ghost const chord: seq<int>
    ghost var ops: seq<Op>

    function State(): ChordState
      reads this, pressed
    {
      ChordState(codes, pressed[..], allSince, fired)
    }

    ghost predicate Valid()
      reads this, pressed
    {
      |chord| <= MAX_KEYS && State() == After(chord, ops)
    }

    constructor (codes0: seq<int>)
      requires |codes0| <= MAX_KEYS
      ensures Valid() && fresh(pressed) && chord == codes0 && ops == []
    {
      codes := codes0;
      pressed := new bool[MAX_KEYS](_ => false);
      allSince, fired := 0, false;
      chord, ops := codes0, [];
    }

    method HotkeyUpdate(code: int, value: int, now: int)
      requires Valid()
      modifies this`allSince, this`fired, this`ops, pressed
      ensures Valid() && ops == old(ops) + [KeyOp(code, value, now)]
    {
      hide After;
      AfterStep(chord, ops, KeyOp(code, value, now));
      ghost var s := State();
      ops := ops + [KeyOp(code, value, now)];
      if |codes| == 0 { return; }
      var i := 0;
      while i < |codes|
        invariant 0 <= i <= |codes| <= pressed.Length
        invariant forall j :: 0 <= j < i ==> codes[j] != code
      {
        if code == codes[i] { break; }
        i := i + 1;
      }
      if i == |codes| { return; }
      assert Place(codes, code) == i;
      pressed[i] := value != 0;
      ghost var t := s.(pressed := s.pressed[i := value != 0]);
      assert pressed[..] == t.pressed;
      var k := 0;
      while k < |codes| && pressed[k]
        invariant 0 <= k <= |codes|
        invariant forall j :: 0 <= j < k ==> pressed[j]
      {
        k := k + 1;
      }
      assert AllPressed(t) <==> k == |codes|;
      if k == |codes| {
        if allSince == 0 { allSince := now; }
      } else {
        allSince := 0;
        fired := false;
      }
    }

    method HotkeyShouldFire(now: int) returns (fire: bool)
      requires Valid()
      modifies this`fired, this`ops
      ensures Valid() && ops == old(ops) + [PollOp(now)]
      ensures fire == Fires(old(State()), now)
    {
      ops := ops + [PollOp(now)];
      assert ops[..|ops| - 1] == old(ops);
      if fired { return false; }
      if allSince == 0 { return false; }
      var heldMs := (now - allSince) / 1000000;
      if heldMs >= 1000 { fired := true; return true; }
      return false;
    }

    /** A reload: new codes, and `hotkey_reset`. */
    method HotkeyReset(newCodes: ChordCodes)
      requires Valid()
      modifies this, pressed
      ensures Valid() && ops == old(ops) + [ResetOp(newCodes)]
    {
      ops := ops + [ResetOp(newCodes)];
      AfterStep(chord, old(ops), ResetOp(newCodes));
      hide After;
      codes := newCodes;
      forall i | 0 <= i < pressed.Length { pressed[i] := false; }
      allSince, fired := 0, false;
      assert pressed[..] == NONE_PRESSED;
    }
  }

  // ------------------------------------------------------- the chord's history

  /** The chord in force after the operations. */
  function Codes(codes: seq<int>, ops: seq<Op>): seq<int> {
    if ops == [] then codes
    else if ops[|ops| - 1].ResetOp? then ops[|ops| - 1].codes
    else Codes(codes, ops[..|ops| - 1])
  }

  /** The key is down: its last event since the last reload was not a release. */
  predicate Down(ops: seq<Op>, code: int) {
    ops != [] &&
    match ops[|ops| - 1]
    case KeyOp(c, value, _) => if c == code then value != 0 else Down(ops[..|ops| - 1], code)
    case PollOp(_) => Down(ops[..|ops| - 1], code)
    case ResetOp(_) => false
  }

  /** The whole chord is down. */
  ghost predicate Complete(codes: seq<int>, ops: seq<Op>) {
    var cs := Codes(codes, ops);
    cs != [] && forall i :: 0 <= i < |cs| ==> Down(ops, cs[i])
  }

  predicate Distinct(codes: seq<int>) {
    forall i, j :: 0 <= i < j < |codes| ==> codes[i] != codes[j]
  }

  /** A chord that fits the array, and positive clock readings. */
  predicate Proper(codes: seq<int>, ops: seq<Op>) {
    |codes| <= MAX_KEYS && forall i :: 0 <= i < |ops| && ops[i].KeyOp? ==> ops[i].now > 0
  }

  lemma ProperPrefix(codes: seq<int>, ops: seq<Op>, n: nat)
    requires Proper(codes, ops) && n <= |ops|
    ensures Proper(codes, ops[..n])
  {}

  /** The flags are the history: slot i is set exactly when key i of the chord is down. */
  predicate Flags(s: ChordState, ops: seq<Op>)
    requires Sized(s)
  {
    forall i :: 0 <= i < |s.codes| ==> s.pressed[i] == Down(ops, s.codes[i])
  }

  lemma DownStep(ops: seq<Op>, op: Op, code: int)
    ensures Down(ops + [op], code) ==
      match op
      case KeyOp(c, value, _) => if c == code then value != 0 else Down(ops, code)
      case PollOp(_) => Down(ops, code)
      case ResetOp(_) => false
  {
    assert (ops + [op])[..|ops|] == ops;
  }

  lemma UpdateKeepsCodes(s: ChordState, code: int, value: int, now: int)
    requires Sized(s)
    ensures Update(s, code, value, now).codes == s.codes
  {}

  lemma UpdateFlag(s: ChordState, code: int, value: int, now: int, i: nat)
    requires Sized(s) && Distinct(s.codes) && i < |s.codes|
    ensures var t := Update(s, code, value, now);
            t.codes == s.codes && t.pressed[i] == if s.codes[i] == code then value != 0 else s.pressed[i]
  {
    hide AllPressed, Place;
    if code == s.codes[i] { assert Place(s.codes, code) == i; }
  }

  lemma FlagsStep(s: ChordState, ops: seq<Op>, op: Op)
    requires Sized(s) && Distinct(s.codes) && Flags(s, ops)
    ensures Flags(Step(s, op), ops + [op])
  {
    hide Down, Update, Fires;
    var t := Step(s, op);
    if op.KeyOp? { UpdateKeepsCodes(s, op.code, op.value, op.now); }
    forall i | 0 <= i < |t.codes| ensures t.pressed[i] == Down(ops + [op], t.codes[i]) {
      DownStep(ops, op, t.codes[i]);
      if op.KeyOp? { UpdateFlag(s, op.code, op.value, op.now, i); }
    }
  }

  lemma StepKeepsCodes(s: ChordState, op: Op)
    requires Sized(s)
    ensures Step(s, op).codes == if op.ResetOp? then op.codes else s.codes
  {}

  /** The codes in the state are those of the last reload. */
  lemma {:induction false} CodesInForce(codes: seq<int>, ops: seq<Op>)
    requires |codes| <= MAX_KEYS
    ensures After(codes, ops).codes == Codes(codes, ops)
  {
    hide Step;
    if ops != [] {
      CodesInForce(codes, ops[..|ops| - 1]);
      StepKeepsCodes(After(codes, ops[..|ops| - 1]), ops[|ops| - 1]);
    }
  }

  /** For a chord without repeated codes each flag is the history of its key. */
  lemma {:induction false} FlagsAreHistory(codes: seq<int>, ops: seq<Op>)
    requires |codes| <= MAX_KEYS && Distinct(Codes(codes, ops))
    ensures Flags(After(codes, ops), ops)
  {
    hide Flags, Down, Step;
    if ops != [] {
      var init, op := ops[..|ops| - 1], ops[|ops| - 1];
      assert ops == init + [op];
      if op.ResetOp? {
        NothingDownAfterReset(init, op.codes);
        assert Step(After(codes, init), op) == Start(op.codes) by { ResetStarts(After(codes, init), op.codes); }
      } else {
        FlagsAreHistory(codes, init);
        CodesInForce(codes, init);
        FlagsStep(After(codes, init), init, op);
      }
    } else {
      NothingDown(codes);
    }
  }

  lemma ResetStarts(s: ChordState, codes: ChordCodes)
    requires Sized(s)
    ensures Step(s, ResetOp(codes)) == Start(codes)
  {}

  lemma NothingDownAfterReset(ops: seq<Op>, codes: ChordCodes)
    ensures Flags(Start(codes), ops + [ResetOp(codes)])
  {}

  lemma NothingDown(codes: seq<int>)
    requires |codes| <= MAX_KEYS
    ensures Flags(Start(codes), [])
  {}

  lemma CompleteIfFlagged(codes: seq<int>, ops: seq<Op>)
    requires |codes| <= MAX_KEYS && Distinct(Codes(codes, ops))
    ensures Complete(codes, ops) <==> After(codes, ops).codes != [] && AllPressed(After(codes, ops))
  {
    CodesInForce(codes, ops);
    FlagsAreHistory(codes, ops);
  }

  predicate Tracked(s: ChordState)
    requires Sized(s)
  {
    (s.since != 0 <==> s.codes != [] && AllPressed(s)) && (s.fired ==> s.since != 0)
  }

  lemma TrackedStep(s: ChordState, op: Op)
    requires Sized(s) && Tracked(s) && (op.KeyOp? ==> op.now > 0)
    ensures Tracked(Step(s, op))
  {
    if op.ResetOp? && op.codes != [] { assert !Start(op.codes).pressed[0]; }
  }

  /** The press time is set exactly while every flag is up, and "fired" is only remembered meanwhile. */
  lemma {:induction false} TrackedAlways(codes: seq<int>, ops: seq<Op>)
    requires Proper(codes, ops)
    ensures Tracked(After(codes, ops))
  {
    hide Step;
    if ops != [] {
      ProperPrefix(codes, ops, |ops| - 1);
      TrackedAlways(codes, ops[..|ops| - 1]);
      TrackedStep(After(codes, ops[..|ops| - 1]), ops[|ops| - 1]);
    } else if codes != [] {
      assert !Start(codes).pressed[0];
    }
  }

  /** A chord without repeated codes is tracked exactly while it is complete. */
  lemma TrackedIffComplete(codes: seq<int>, ops: seq<Op>)
    requires Proper(codes, ops) && Distinct(Codes(codes, ops))
    ensures After(codes, ops).since != 0 <==> Complete(codes, ops)
    ensures After(codes, ops).fired ==> After(codes, ops).since != 0
  {
    hide Complete, After;
    TrackedAlways(codes, ops);
    CompleteIfFlagged(codes, ops);
  }

  // ----------------------------------------------------------- repeated codes

  /** A flag that shares its code with an earlier one is never set, so the chord is never tracked. */
  ghost predicate Stuck(s: ChordState)
    requires Sized(s)
  {
    forall i, k :: 0 <= i < k < |s.codes| && s.codes[i] == s.codes[k] ==> !s.pressed[k] && s.since == 0
  }

  lemma StuckStep(s: ChordState, op: Op)
    requires Sized(s) && Stuck(s)
    ensures Stuck(Step(s, op))
  {
    hide Update;
    var t := Step(s, op);
    if op.KeyOp? { UpdateKeepsCodes(s, op.code, op.value, op.now); }
    forall i, k | 0 <= i < k < |t.codes| && t.codes[i] == t.codes[k] ensures !t.pressed[k] && t.since == 0 {
      if op.KeyOp? { StuckUpdate(s, op.code, op.value, op.now, i, k); }
    }
  }

  lemma StuckUpdate(s: ChordState, code: int, value: int, now: int, i: nat, k: nat)
    requires Sized(s) && i < k < |s.codes| && s.codes[i] == s.codes[k] && !s.pressed[k] && s.since == 0
    ensures var t := Update(s, code, value, now); !t.pressed[k] && t.since == 0
  {
    hide Place;
    assert Place(s.codes, code) != k;
  }

  lemma {:induction false} StuckAlways(codes: seq<int>, ops: seq<Op>)
    requires |codes| <= MAX_KEYS
    ensures Stuck(After(codes, ops))
  {
    hide Stuck, Step;
    if ops != [] {
      StuckAlways(codes, ops[..|ops| - 1]);
      StuckStep(After(codes, ops[..|ops| - 1]), ops[|ops| - 1]);
    } else {
      StuckAtStart(codes);
    }
  }

  lemma StuckAtStart(codes: seq<int>)
    requires |codes| <= MAX_KEYS
    ensures Stuck(Start(codes))
  {}

  // --------------------------------------------------------------- whole runs

  /** Operation p is a poll that fires. */
  predicate FiresAt(codes: seq<int>, ops: seq<Op>, p: nat)
    requires |codes| <= MAX_KEYS
  {
    p < |ops| && ops[p].PollOp? && Fires(After(codes, ops[..p]), ops[p].now)
  }

  /** Event j completed the chord, which then stayed complete up to operation p. */
  ghost predicate CompletedBy(codes: seq<int>, ops: seq<Op>, j: nat, p: nat) {
    && j < p <= |ops| && ops[j].KeyOp?
    && !Complete(codes, ops[..j])
    && forall k :: j < k <= p ==> Complete(codes, ops[..k])
  }

  /** Both places of a repeated code are served by the first one, so while such a chord is in force,
      from the start or brought by a reload, nothing fires. */
  lemma RepeatedCodeNeverFires(codes: seq<int>, ops: seq<Op>, p: nat)
    requires |codes| <= MAX_KEYS && p < |ops| && !Distinct(Codes(codes, ops[..p]))
    ensures !FiresAt(codes, ops, p)
  {
    hide After, Codes, Stuck, Fires;
    StuckAlways(codes, ops[..p]);
    CodesInForce(codes, ops[..p]);
    if ops[p].PollOp? { StuckNeverFires(After(codes, ops[..p]), ops[p].now); }
  }

  lemma StuckNeverFires(s: ChordState, now: int)
    requires Sized(s) && Stuck(s) && !Distinct(s.codes)
    ensures !Fires(s, now)
  {}

  /** Only a reload changes the chord in force. */
  lemma CodesStay(codes: seq<int>, ops: seq<Op>, k: nat)
    requires k < |ops| && !ops[k].ResetOp?
    ensures Codes(codes, ops[..k + 1]) == Codes(codes, ops[..k])
  {
    assert ops[..k + 1][..k] == ops[..k];
  }

  /** A reload leaves the chord incomplete. */
  lemma ResetIncomplete(codes: seq<int>, ops: seq<Op>, k: nat)
    requires k < |ops| && Complete(codes, ops[..k + 1])
    ensures !ops[k].ResetOp?
  {
    var cs := Codes(codes, ops[..k + 1]);
    assert Down(ops[..k + 1], cs[0]);
  }

  /** While the chord is complete, the press time recorded is that of the event that completed it. */
  lemma {:induction false} TrackedSince(codes: seq<int>, ops: seq<Op>, p: nat) returns (j: nat)
    requires Proper(codes, ops) && p <= |ops| && Distinct(Codes(codes, ops[..p])) && Complete(codes, ops[..p])
    ensures CompletedBy(codes, ops, j, p) && ops[j].now == After(codes, ops[..p]).since
  {
    hide Complete, After;
    NotCompleteAtStart(codes);
    var q := p - 1;
    assert ops[..p] == ops[..q] + [ops[q]];
    AfterStep(codes, ops[..q], ops[q]);
    ResetIncomplete(codes, ops, q);
    CodesStay(codes, ops, q);
    ProperPrefix(codes, ops, q);
    ProperPrefix(codes, ops, p);
    TrackedIffComplete(codes, ops[..q]);
    TrackedIffComplete(codes, ops[..p]);
    if Complete(codes, ops[..q]) {
      j := TrackedSince(codes, ops, q);
      SinceStays(After(codes, ops[..q]), ops[q]);
    } else {
      j := q;
      SinceSet(After(codes, ops[..q]), ops[q]);
    }
  }

  lemma NotCompleteAtStart(codes: seq<int>)
    ensures !Complete(codes, [])
  {
    if codes != [] { assert !Down([], codes[0]); }
  }

  lemma SinceStays(s: ChordState, op: Op)
    requires Sized(s) && s.since != 0 && Step(s, op).since != 0
    ensures Step(s, op).since == s.since
  {}

  lemma SinceSet(s: ChordState, op: Op)
    requires Sized(s) && s.since == 0 && Step(s, op).since != 0
    ensures op.KeyOp? && Step(s, op).since == op.now
  {}

  /** Nothing fires unless the whole chord has been down for a second without a break. */
  lemma FireMeansHeld(codes: seq<int>, ops: seq<Op>, p: nat) returns (j: nat)
    requires Proper(codes, ops) && FiresAt(codes, ops, p)
    ensures CompletedBy(codes, ops, j, p) && ops[j].now <= ops[p].now - HOLD_NS
  {
    if !Distinct(Codes(codes, ops[..p])) { RepeatedCodeNeverFires(codes, ops, p); }
    ProperPrefix(codes, ops, p);
    TrackedIffComplete(codes, ops[..p]);
    j := TrackedSince(codes, ops, p);
  }

  /** Operation k lets go of a chord key. */
  ghost predicate Releases(codes: seq<int>, ops: seq<Op>, k: nat) {
    k < |ops| && ops[k].KeyOp? && ops[k].value == 0 && ops[k].code in Codes(codes, ops[..k])
  }

  lemma PlaceFound(codes: seq<int>, code: int)
    ensures Place(codes, code) < |codes| <==> code in codes
  {}

  /** Only a release or a reload forgets that the chord has fired. */
  lemma FiredStays(s: ChordState, op: Op)
    requires Sized(s) && s.fired && (s.codes == [] || AllPressed(s))
    requires !op.ResetOp? && !(op.KeyOp? && op.value == 0 && op.code in s.codes)
    ensures Step(s, op).fired && Step(s, op).codes == s.codes && (s.codes == [] || AllPressed(Step(s, op)))
  {
    if op.KeyOp? { PlaceFound(s.codes, op.code); }
  }

  lemma {:induction false} FiredUntil(codes: seq<int>, ops: seq<Op>, p: nat, q: nat)
    requires Proper(codes, ops) && FiresAt(codes, ops, p) && p < q <= |ops|
    requires forall k :: p < k < q ==> !ops[k].ResetOp? && !Releases(codes, ops, k)
    ensures After(codes, ops[..q]).fired && AllPressed(After(codes, ops[..q]))
  {
    hide After, Fires;
    var k := q - 1;
    var s := After(codes, ops[..k]);
    assert ops[..q] == ops[..k] + [ops[k]];
    AfterStep(codes, ops[..k], ops[k]);
    if k == p {
      ProperPrefix(codes, ops, p);
      TrackedAlways(codes, ops[..p]);
      FiringState(s, ops[p].now);
    } else {
      FiredUntil(codes, ops, p, k);
      CodesInForce(codes, ops[..k]);
      FiredStays(s, ops[k]);
    }
  }

  lemma FiringState(s: ChordState, now: int)
    requires Sized(s) && Fires(s, now)
    ensures Step(s, PollOp(now)).fired && s.since != 0
  {}

  /** Between two fires a chord key is released or the configuration is reloaded. */
  lemma FiresAreSeparated(codes: seq<int>, ops: seq<Op>, p: nat, q: nat)
    requires Proper(codes, ops) && FiresAt(codes, ops, p) && FiresAt(codes, ops, q) && p < q
    ensures exists k :: p < k < q && (ops[k].ResetOp? || Releases(codes, ops, k))
  {
    if forall k :: p < k < q ==> !ops[k].ResetOp? && !Releases(codes, ops, k) {
      FiredUntil(codes, ops, p, q);
    }
  }

  /** "Fired" means that some poll since the chord was completed has fired. */
  lemma {:induction false} FiredBy(codes: seq<int>, ops: seq<Op>, j: nat, p: nat) returns (q: nat)
    requires Proper(codes, ops) && CompletedBy(codes, ops, j, p)
    requires Distinct(Codes(codes, ops[..p])) && After(codes, ops[..p]).fired
    ensures j < q < p && FiresAt(codes, ops, q)
  {
    hide Complete, After;
    var k := p - 1;
    assert ops[..p] == ops[..k] + [ops[k]];
    AfterStep(codes, ops[..k], ops[k]);
    ResetIncomplete(codes, ops, k);
    CodesStay(codes, ops, k);
    ProperPrefix(codes, ops, k);
    TrackedIffComplete(codes, ops[..k]);
    if After(codes, ops[..k]).fired {
      q := FiredBy(codes, ops, j, k);
    } else {
      FiredSet(After(codes, ops[..k]), ops[k]);
      q := k;
    }
  }

  lemma FiredSet(s: ChordState, op: Op)
    requires Sized(s) && !s.fired && Step(s, op).fired
    ensures op.PollOp? && Fires(s, op.now)
  {}

  /** An operation that keeps the chord complete neither reloads nor releases. */
  lemma StillComplete(codes: seq<int>, ops: seq<Op>, k: nat)
    requires k < |ops| && Complete(codes, ops[..k + 1])
    ensures !ops[k].ResetOp? && !Releases(codes, ops, k)
  {
    var after := ops[..k + 1];
    assert after[..|after| - 1] == ops[..k] && after[|after| - 1] == ops[k];
    var cs := Codes(codes, after);
    assert Down(after, cs[0]);
    assert forall c :: c in cs ==> Down(after, c);
  }

  lemma CompletionUnique(codes: seq<int>, ops: seq<Op>, i: nat, j: nat, p: nat)
    requires CompletedBy(codes, ops, i, p) && CompletedBy(codes, ops, j, p)
    ensures i == j
  {
    hide Complete;
  }

  ghost predicate FirstSince(codes: seq<int>, ops: seq<Op>, j: nat, p: nat)
    requires |codes| <= MAX_KEYS
  {
    forall q: nat :: j < q < p ==> !FiresAt(codes, ops, q)
  }

  /** A poll fires exactly when the chord in force repeats no code, was completed at least a second
      ago, has been complete ever since, and no poll has fired in between. */
  lemma FiresIff(codes: seq<int>, ops: seq<Op>, p: nat)
    requires Proper(codes, ops) && p < |ops| && ops[p].PollOp?
    ensures FiresAt(codes, ops, p) <==>
      && Distinct(Codes(codes, ops[..p]))
      && exists j: nat :: CompletedBy(codes, ops, j, p) && ops[j].now <= ops[p].now - HOLD_NS && FirstSince(codes, ops, j, p)
  {
    hide Complete, After;
    if !Distinct(Codes(codes, ops[..p])) {
      RepeatedCodeNeverFires(codes, ops, p);
      return;
    }
    if FiresAt(codes, ops, p) {
      var j := FireMeansHeld(codes, ops, p);
      forall q: nat | j < q < p ensures !FiresAt(codes, ops, q) {
        if FiresAt(codes, ops, q) {
          forall k | q < k < p ensures !ops[k].ResetOp? && !Releases(codes, ops, k) { StillComplete(codes, ops, k); }
          FiredUntil(codes, ops, q, p);
        }
      }
      assert FirstSince(codes, ops, j, p);
    }
    if j: nat :| CompletedBy(codes, ops, j, p) && ops[j].now <= ops[p].now - HOLD_NS && FirstSince(codes, ops, j, p) {
      var i := TrackedSince(codes, ops, p);
      CompletionUnique(codes, ops, i, j, p);
      ProperPrefix(codes, ops, p);
      TrackedIffComplete(codes, ops[..p]);
      if After(codes, ops[..p]).fired {
        var q := FiredBy(codes, ops, j, p);
        assert false;
      }
    }
  }
}
