/** What the main loop hands over arrives: every accepted report gets into the mailbox, in a bounded
    number of turns of the two threads, and the last one is the last one written. */
module Delivery {
  import opened Mailbox

  // ------------------------------------------------------- nothing is dropped

  /** The reports handed over in a schedule: those whose submission found the main loop idle, whatever
      the mailbox held. */
  function HandedOver(s: State, cs: seq<Choice>): seq<Report> {
    if cs == [] then []
    else
      var init, c := cs[..|cs| - 1], cs[|cs| - 1];
      HandedOver(s, init) + (if c.Submit? && Exec(s, init).main.Idle? then [c.r] else [])
  }

  /** The report main is about to put into the slot. */
  function InFlight(s: State): seq<Report> {
    if s.main.SubmitLock? || s.main.SubmitCopy? then [s.current] else []
  }

  lemma StepAccounts(s: State, c: Choice)
    ensures var t := Step(s, c);
            t.submitted + InFlight(t) == s.submitted + InFlight(s) + (if c.Submit? && s.main.Idle? then [c.r] else [])
  {
    match c {
      case MainMoves => MainAccounts(s);
      case WriterMoves => WriterLeavesMain(s);
      case _ => hide MainStep, WriterStep;
    }
  }

  lemma MainAccounts(s: State)
    ensures var t := MainStep(s); t.submitted + InFlight(t) == s.submitted + InFlight(s) + []
  {}

  lemma WriterLeavesMain(s: State)
    ensures var t := WriterStep(s); t.submitted == s.submitted && t.main == s.main && t.current == s.current
  {}

  /** In every run each report handed over is in the mailbox's history, in the order in which they were
      handed over, but for the one that is being put there. */
  lemma {:induction false} NothingDropped(s: State, cs: seq<Choice>)
    ensures var t := Exec(s, cs); t.submitted + InFlight(t) == s.submitted + InFlight(s) + HandedOver(s, cs)
  {
    hide Step, InFlight;
    if cs != [] {
      var init, c := cs[..|cs| - 1], cs[|cs| - 1];
      NothingDropped(s, init);
      StepAccounts(Exec(s, init), c);
    }
  }

  lemma {:induction false} QuietHandsNothing(s: State, cs: seq<Choice>)
    requires forall c :: c in cs ==> Quiet(c)
    ensures HandedOver(s, cs) == []
  {
    hide Step;
    if cs != [] {
      QuietHandsNothing(s, cs[..|cs| - 1]);
      assert cs[|cs| - 1] in cs;
    }
  }

  /** A report submitted gets into the mailbox, even over one that has not been taken yet. */
  lemma SubmitLands(s: State, r: Report, cs: seq<Choice>)
    requires s.main.Idle? && forall c :: c in cs ==> Quiet(c)
    ensures var t := Exec(Step(s, Submit(r)), cs); t.main.Idle? ==> t.submitted == s.submitted + [r]
  {
    hide Step;
    NothingDropped(Step(s, Submit(r)), cs);
    QuietHandsNothing(Step(s, Submit(r)), cs);
    StepAccounts(s, Submit(r));
    assert InFlight(s) == [] && Submit(r).r == r;
    assert s.submitted + [] + [r] == s.submitted + [r];
    var s1 := Step(s, Submit(r));
    assert s1.submitted + InFlight(s1) + [] == s1.submitted + InFlight(s1);
  }

  // ------------------------------------------------------------ bounded waits

  /** The main thread is out of its critical sections and does not wait for the mutex. */
  predicate AtRest(m: MainPc) {
    m.Idle? || m.Join? || m.Done?
  }

  predicate WantsLock(m: MainPc) {
    m.SubmitLock? || m.StopLock?
  }

  /** How many moves main needs once it can have the mutex. */
  function StepsToRest(m: MainPc): nat {
    match m
    case SubmitLock => 68
    case SubmitCopy(n) => if n <= LEN then 3 + (LEN - n) else 3
    case SubmitSignal => 2
    case SubmitUnlock => 1
    case StopLock => 4
    case StopSet => 3
    case StopSignal => 2
    case StopUnlock => 1
    case _ => 0
  }

  /** How many moves the writer can make, while main waits for the mutex, before it sleeps. */
  function StepsToSleep(w: WriterPc, pending: bool): nat {
    match w
    case Check => if pending then 70 else 1
    case Lock => if pending then 71 else 2
    case Reacquire => if pending then 71 else 2
    case Take(k) => if k <= LEN then 4 + (LEN + 1 - k) else 4
    case TakeUnlock => if pending then 73 else 3
    case Write => if pending then 72 else 3
    case _ => 0
  }

  function Wait(s: State): nat {
    StepsToRest(s.main) + if WantsLock(s.main) then StepsToSleep(s.writer, s.pending) else 0
  }

  /** A move of the main thread would get it further. */
  predicate Ready(s: State) {
    !WantsLock(s.main) || s.mu.Free?
  }

  /** The number of rounds in a schedule, a round being a move of the writer and a later one of main,
      and whether one has begun. */
  function Rounds(cs: seq<Choice>): (nat, bool) {
    if cs == [] then (0, false)
    else
      var (n, begun) := Rounds(cs[..|cs| - 1]);
      match cs[|cs| - 1]
      case WriterMoves => (n, true)
      case MainMoves => if begun then (n + 1, false) else (n, begun)
      case _ => (n, begun)
  }

  function Spurious(cs: seq<Choice>): nat {
    if cs == [] then 0 else Spurious(cs[..|cs| - 1]) + if cs[|cs| - 1].SpuriousWakeup? then 1 else 0
  }

  lemma MainShortens(s: State)
    requires Inv(s) && !AtRest(s.main)
    ensures Wait(MainStep(s)) <= Wait(s) && (Ready(s) ==> Wait(MainStep(s)) < Wait(s))
  {
    hide Order, Contents;
  }

  lemma WriterShortens(s: State)
    requires Inv(s) && !AtRest(s.main)
    ensures var t := WriterStep(s);
            t.main == s.main && Wait(t) <= Wait(s) && (Wait(t) < Wait(s) || Ready(t))
  {
    hide Order, Contents;
  }

  lemma WakeupLengthens(s: State)
    requires Inv(s) && !AtRest(s.main)
    ensures var t := Step(s, SpuriousWakeup);
            t.main == s.main && Wait(t) <= Wait(s) + 2 && (Ready(s) ==> Ready(t))
  {
    hide Order, Contents;
  }

  lemma RestStays(s: State, c: Choice)
    requires AtRest(s.main) && Quiet(c)
    ensures AtRest(Step(s, c).main)
  {}

  /** Still on its way, with the rounds counted so far, against a bound. */
  predicate Progressing(s: State, rounds: nat, begun: bool, bound: nat) {
    Wait(s) + rounds <= bound && (begun ==> Ready(s) || Wait(s) + rounds + 1 <= bound)
  }

  lemma StepProgresses(s: State, c: Choice, rounds: nat, begun: bool, bound: nat)
    requires Inv(s) && !AtRest(s.main) && Quiet(c) && Progressing(s, rounds, begun, bound)
    ensures var t := Step(s, c);
            match c
            case WriterMoves => Progressing(t, rounds, true, bound)
            case MainMoves => AtRest(t.main) || (if begun then Progressing(t, rounds + 1, false, bound) else Progressing(t, rounds, false, bound))
            case _ => Progressing(t, rounds, begun, bound + 2)
  {
    hide Inv, Wait, Ready, MainStep, WriterStep;
    match c {
      case WriterMoves => WriterShortens(s);
      case MainMoves => MainShortens(s);
      case _ => hide Step; WakeupLengthens(s);
    }
  }

  lemma {:induction false} RoundsProgress(s: State, cs: seq<Choice>)
    requires Inv(s) && forall c :: c in cs ==> Quiet(c)
    ensures var t := Exec(s, cs);
            AtRest(t.main) || Progressing(t, Rounds(cs).0, Rounds(cs).1, Wait(s) + 2 * Spurious(cs))
  {
    hide Inv, Wait, Ready, Step, Quiet, AtRest;
    if cs != [] {
      var init, c := cs[..|cs| - 1], cs[|cs| - 1];
      assert c in cs;
      RoundsProgress(s, init);
      ExecKeepsInv(s, init);
      var t := Exec(s, init);
      if AtRest(t.main) {
        RestStays(t, c);
      } else {
        assert c.WriterMoves? || c.MainMoves? || c.SpuriousWakeup? by { QuietChoices(c); }
        StepProgresses(t, c, Rounds(init).0, Rounds(init).1, Wait(s) + 2 * Spurious(init));
      }
    }
  }

  lemma QuietChoices(c: Choice)
    requires Quiet(c)
    ensures c.WriterMoves? || c.MainMoves? || c.SpuriousWakeup?
  {}

  lemma WaitBound(s: State)
    ensures Wait(s) <= 141 && (s.main.StopLock? ==> Wait(s) <= 77)
    ensures Wait(s) == 0 ==> AtRest(s.main)
  {}

  /** The schedule has that many rounds, and two more for every spurious wakeup of the writer. */
  predicate Enough(cs: seq<Choice>, rounds: nat) {
    Rounds(cs).0 >= rounds + 2 * Spurious(cs)
  }

  /** The wait for the mutex and the hand-over come to an end, however the scheduler mixes the threads:
      the writer cannot keep main out for ever, since it sleeps once it has nothing to do. */
  lemma WaitEnds(s: State, cs: seq<Choice>)
    requires Inv(s) && (forall c :: c in cs ==> Quiet(c)) && Enough(cs, Wait(s))
    ensures AtRest(Exec(s, cs).main)
  {
    hide Inv, Wait, Ready, AtRest, Quiet, Exec;
    RoundsProgress(s, cs);
    WaitBound(Exec(s, cs));
  }

  lemma {:induction false} ExecConcat(s: State, a: seq<Choice>, b: seq<Choice>)
    ensures Exec(s, a + b) == Exec(Exec(s, a), b)
  {
    if b == [] {
      assert a + b == a;
    } else {
      assert (a + b)[..|a + b| - 1] == a + b[..|b| - 1];
      ExecConcat(s, a, b[..|b| - 1]);
    }
  }

  predicate Submitting(m: MainPc) {
    m.Idle? || m.SubmitLock? || m.SubmitCopy? || m.SubmitSignal? || m.SubmitUnlock?
  }

  lemma {:induction false} StaysSubmitting(s: State, cs: seq<Choice>)
    requires Submitting(s.main) && forall c :: c in cs ==> Quiet(c)
    ensures Submitting(Exec(s, cs).main)
  {
    if cs != [] {
      hide Step, Submitting, Quiet;
      StaysSubmitting(s, cs[..|cs| - 1]);
      assert cs[|cs| - 1] in cs;
      SubmittingStep(Exec(s, cs[..|cs| - 1]), cs[|cs| - 1]);
    }
  }

  lemma SubmittingStep(s: State, c: Choice)
    requires Submitting(s.main) && Quiet(c)
    ensures Submitting(Step(s, c).main)
  {}

  /** `ep_writer_submit` returns, with its report in the mailbox, within 141 rounds. */
  lemma SubmitReturns(s: State, r: Report, cs: seq<Choice>)
    requires Inv(s) && s.main.Idle? && (forall c :: c in cs ==> Quiet(c)) && Enough(cs, 141)
    ensures var t := Exec(Step(s, Submit(r)), cs); t.main.Idle? && t.submitted == s.submitted + [r]
  {
    var s1 := Step(s, Submit(r));
    hide Inv, Wait, Exec, Step, Quiet;
    StepKeepsInv(s, Submit(r));
    WaitBound(s1);
    WaitEnds(s1, cs);
    assert Submitting(s1.main) by { SubmitStarts(s, r); }
    StaysSubmitting(s1, cs);
    SubmitLands(s, r, cs);
  }

  lemma SubmitStarts(s: State, r: Report)
    requires s.main.Idle?
    ensures Submitting(Step(s, Submit(r)).main)
  {}

  /** The last report handed over is the last one written: 141 rounds see it into the mailbox and 71
      more moves of the writer see it written, whatever was pending or being written before. */
  lemma LastHandedOverIsWritten(s: State, r: Report, cs1: seq<Choice>, cs2: seq<Choice>)
    requires Inv(s) && s.main.Idle? && forall c :: c in cs1 + cs2 ==> Quiet(c)
    requires Enough(cs1, 141) && WriterMovesIn(cs2) >= 71
    ensures var t := Exec(Step(s, Submit(r)), cs1 + cs2);
            t.written != [] && t.written[|t.written| - 1] == r
  {
    hide Inv, Exec, Step, Quiet, Enough;
    var s1 := Step(s, Submit(r));
    forall c | c in cs1 ensures Quiet(c) { assert c in cs1 + cs2; }
    forall c | c in cs2 ensures Quiet(c) { assert c in cs1 + cs2; }
    SubmitReturns(s, r, cs1);
    StepKeepsInv(s, Submit(r));
    ExecKeepsInv(s1, cs1);
    NewestIsWritten(Exec(s1, cs1), cs2);
    ExecConcat(s1, cs1, cs2);
  }

  predicate InStop(m: MainPc) {
    m.StopLock? || m.StopSet? || m.StopSignal? || m.StopUnlock? || m.Join? || m.Done?
  }

  lemma {:induction false} StaysInStop(s: State, cs: seq<Choice>)
    requires InStop(s.main)
    ensures InStop(Exec(s, cs).main)
  {
    if cs != [] {
      hide Step, InStop;
      StaysInStop(s, cs[..|cs| - 1]);
      InStopStep(Exec(s, cs[..|cs| - 1]), cs[|cs| - 1]);
    }
  }

  lemma InStopStep(s: State, c: Choice)
    requires InStop(s.main)
    ensures InStop(Step(s, c).main)
  {}

  /** `ep_writer_stop` returns: 77 rounds see its request through, after 70 more moves of the writer
      its thread has ended, and the join is over. */
  lemma StopReturns(s: State, cs1: seq<Choice>, cs2: seq<Choice>)
    requires Inv(s) && s.main.Idle? && (forall c :: c in cs1 ==> Quiet(c))
    requires Enough(cs1, 77) && WriterMovesIn(cs2) >= 70
    ensures var t := Exec(Step(s, Stop), cs1 + cs2 + [MainMoves]);
            t.main.Done? && t.writer.Exit?
  {
    var s1 := Step(s, Stop);
    assert s1.main.StopLock?;
    hide Inv, Wait, Exec, Step, Quiet;
    StepKeepsInv(s, Stop);
    WaitBound(s1);
    WaitEnds(s1, cs1);
    StaysInStop(s1, cs1);
    ExecKeepsInv(s1, cs1);
    ExecConcat(s1, cs1, cs2);
    JoinEnds(Exec(s1, cs1), cs2);
    LastMove(s1, cs1 + cs2);
  }

  lemma JoinEnds(s: State, cs: seq<Choice>)
    requires Inv(s) && InStop(s.main) && AtRest(s.main) && WriterMovesIn(cs) >= 70
    ensures var t := Exec(s, cs); (t.main.Join? || t.main.Done?) && t.writer.Exit?
  {
    hide Exec;
    StopRank(s, cs);
    assert StepsToExit(s.writer) <= 70;
  }

  lemma LastMove(s: State, cs: seq<Choice>)
    requires var t := Exec(s, cs); (t.main.Join? || t.main.Done?) && t.writer.Exit?
    ensures var t := Exec(s, cs + [MainMoves]); t.main.Done? && t.writer.Exit?
  {
    ExecConcat(s, cs, [MainMoves]);
    assert [MainMoves][..0] == [];
    assert Exec(Exec(s, cs), []) == Exec(s, cs);
  }
}
