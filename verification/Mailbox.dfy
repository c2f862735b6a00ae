/** The ep_in mailbox: the main loop hands reports to a writer thread through one slot guarded by a
    mutex and a condition variable. A state machine of single steps, run under every schedule. */
module Mailbox {

  const LEN := 64

  type Report = r: seq<bv8> | |r| == LEN witness seq(LEN, _ => 0)

  datatype Owner = Free | ByMain | ByWriter

  /** The main thread: idle, inside `ep_writer_submit`, or inside `ep_writer_stop`. */
  datatype MainPc =
    | Idle | SubmitLock | SubmitCopy(n: nat) | SubmitSignal | SubmitUnlock
    | StopLock | StopSet | StopSignal | StopUnlock | Join | Done

  /** The writer thread, inside `ep_writer_loop`. */
  datatype WriterPc =
    | Lock | Check | Waiting | Reacquire | Take(k: nat) | TakeUnlock | Write | StopLeave | Exit

  datatype State = State(
    mu: Owner, main: MainPc, writer: WriterPc,
    report: Report, local: Report, current: Report, pending: bool, stop: bool,
    submitted: seq<Report>,  // every report submitted, in order
    taken: seq<nat>,         // for every report taken, its number in `submitted`
    written: seq<Report>)    // every report handed to write()

  const ZERO: Report := seq(LEN, _ => 0)

  const INIT := State(Free, Idle, Lock, ZERO, ZERO, ZERO, false, false, [], [], [])

  /** One scheduling choice. A thread that cannot move stays where it is. */
  datatype Choice =
    | Submit(r: Report)  // the idle main loop submits a report
    | Stop               // the idle main loop shuts down
    | MainMoves
    | WriterMoves
    | SpuriousWakeup

  /** `pthread_cond_signal`: a waiting writer is woken; otherwise nothing happens. */
  function Signalled(w: WriterPc): WriterPc {
    if w.Waiting? then Reacquire else w
  }

  function MainStep(s: State): State {
    match s.main
    case Idle => s
    case SubmitLock => if s.mu.Free? then s.(mu := ByMain, main := SubmitCopy(0)) else s
    case SubmitCopy(n) =>
      if n < LEN then s.(report := s.report[n := s.current[n]], main := SubmitCopy(n + 1))
      else s.(pending := true, submitted := s.submitted + [s.current], main := SubmitSignal)
    case SubmitSignal => s.(writer := Signalled(s.writer), main := SubmitUnlock)
    case SubmitUnlock => s.(mu := Free, main := Idle)
    case StopLock => if s.mu.Free? then s.(mu := ByMain, main := StopSet) else s
    case StopSet => s.(stop := true, main := StopSignal)
    case StopSignal => s.(writer := Signalled(s.writer), main := StopUnlock)
    case StopUnlock => s.(mu := Free, main := Join)
    case Join => if s.writer.Exit? then s.(main := Done) else s
    case Done => s
  }

  function WriterStep(s: State): State {
    match s.writer
    case Lock => if s.mu.Free? then s.(mu := ByWriter, writer := Check) else s
    case Check =>
      if !s.pending && !s.stop then s.(mu := Free, writer := Waiting)  // pthread_cond_wait
      else if s.stop then s.(writer := StopLeave)
      else s.(writer := Take(0))
    case Waiting => s
    case Reacquire => if s.mu.Free? then s.(mu := ByWriter, writer := Check) else s
    case Take(k) =>
      if k < LEN then s.(local := s.local[k := s.report[k]], writer := Take(k + 1))
      else s.(pending := false, taken := s.taken + [if |s.submitted| > 0 then |s.submitted| - 1 else 0], writer := TakeUnlock)
    case TakeUnlock => s.(mu := Free, writer := Write)
    case Write => s.(written := s.written + [s.local], writer := Lock)
    case StopLeave => s.(mu := Free, writer := Exit)
    case Exit => s
  }

  function Step(s: State, c: Choice): State {
    match c
    case Submit(r) => if s.main.Idle? then s.(current := r, main := SubmitLock) else s
    case Stop => if s.main.Idle? then s.(main := StopLock) else s
    case MainMoves => MainStep(s)
    case WriterMoves => WriterStep(s)
    case SpuriousWakeup => if s.writer.Waiting? then s.(writer := Reacquire) else s
  }

  /** The state after a schedule. */
  function Exec(s: State, cs: seq<Choice>): State {
    if cs == [] then s else Step(Exec(s, cs[..|cs| - 1]), cs[|cs| - 1])
  }

  // ---------------------------------------------------------------- invariant

  predicate MainHolds(m: MainPc) {
    m.SubmitCopy? || m.SubmitSignal? || m.SubmitUnlock? || m.StopSet? || m.StopSignal? || m.StopUnlock?
  }

  predicate WriterHolds(w: WriterPc) {
    w.Check? || w.Take? || w.TakeUnlock? || w.StopLeave?
  }

  predicate Mutex(s: State) {
    (s.mu.ByMain? <==> MainHolds(s.main)) && (s.mu.ByWriter? <==> WriterHolds(s.writer))
  }

  /** The slot holds the newest submitted report, or a part-copied one while main has the lock. */
  predicate Slot(s: State) {
    && (s.main.SubmitCopy? ==> s.main.n <= LEN && forall i :: 0 <= i < s.main.n ==> s.report[i] == s.current[i])
    && (!s.main.SubmitCopy? && s.submitted != [] ==> s.report == s.submitted[|s.submitted| - 1])
    && (s.writer.Take? ==> s.pending && s.writer.k <= LEN && forall i :: 0 <= i < s.writer.k ==> s.local[i] == s.report[i])
    && (s.pending ==> s.submitted != [])
  }

  /** A writer that sleeps unsignalled has nothing to do, or is about to be signalled. */
  predicate NoLostWakeup(s: State) {
    s.writer.Waiting? ==> (s.pending ==> s.main.SubmitSignal?) && (s.stop ==> s.main.StopSignal?)
  }

  predicate InHand(w: WriterPc) {
    w.TakeUnlock? || w.Write?
  }

  /** Reports are taken in order, each at most once, and the newest one is either pending or taken. */
  predicate InOrder(count: nat, taken: seq<nat>, pending: bool) {
    && (forall i :: 0 <= i < |taken| ==> taken[i] < count)
    && (forall i, j :: 0 <= i < j < |taken| ==> taken[i] < taken[j])
    && (pending ==> forall i :: 0 <= i < |taken| ==> taken[i] < count - 1)
    && (!pending && count > 0 ==> taken != [] && taken[|taken| - 1] == count - 1)
  }

  predicate Order(s: State) {
    InOrder(|s.submitted|, s.taken, s.pending)
  }

  lemma OrderSubmit(count: nat, taken: seq<nat>, pending: bool)
    requires InOrder(count, taken, pending)
    ensures InOrder(count + 1, taken, true)
  {}

  lemma OrderTake(count: nat, taken: seq<nat>)
    requires InOrder(count, taken, true) && count > 0
    ensures InOrder(count, taken + [count - 1], false)
  {}

  /** What was written is what was taken, whole; at most one report is in the writer's hands. */
  predicate Carried(submitted: seq<Report>, taken: seq<nat>, written: seq<Report>, inHand: bool, local: Report) {
    && |taken| == |written| + (if inHand then 1 else 0)
    && (forall i :: 0 <= i < |written| ==> taken[i] < |submitted| && written[i] == submitted[taken[i]])
    && (inHand ==> taken[|taken| - 1] < |submitted| && local == submitted[taken[|taken| - 1]])
  }

  predicate Contents(s: State) {
    Carried(s.submitted, s.taken, s.written, InHand(s.writer), s.local)
  }

  lemma CarriedSubmit(submitted: seq<Report>, taken: seq<nat>, written: seq<Report>, inHand: bool, local: Report, r: Report)
    requires Carried(submitted, taken, written, inHand, local)
    ensures Carried(submitted + [r], taken, written, inHand, local)
  {}

  lemma CarriedTake(submitted: seq<Report>, taken: seq<nat>, written: seq<Report>, previous: Report, local: Report)
    requires Carried(submitted, taken, written, false, previous)
    requires submitted != [] && local == submitted[|submitted| - 1]
    ensures Carried(submitted, taken + [|submitted| - 1], written, true, local)
  {}

  lemma CarriedWrite(submitted: seq<Report>, taken: seq<nat>, written: seq<Report>, local: Report)
    requires Carried(submitted, taken, written, true, local)
    ensures Carried(submitted, taken, written + [local], false, local)
  {}

  lemma CarriedLocal(submitted: seq<Report>, taken: seq<nat>, written: seq<Report>, a: Report, b: Report)
    requires Carried(submitted, taken, written, false, a)
    ensures Carried(submitted, taken, written, false, b)
  {}

  predicate Stopping(s: State) {
    && (s.stop <==> s.main.StopSignal? || s.main.StopUnlock? || s.main.Join? || s.main.Done?)
    && (s.writer.Exit? || s.writer.StopLeave? ==> s.stop)
    && (s.main.Done? ==> s.writer.Exit?)
  }

  predicate Inv(s: State) {
    Mutex(s) && Slot(s) && NoLostWakeup(s) && Order(s) && Contents(s) && Stopping(s)
  }

  lemma MainKeepsMutex(s: State)
    requires Mutex(s)
    ensures Mutex(MainStep(s))
  {}

  lemma MainKeepsSlot(s: State)
    requires Mutex(s) && Slot(s)
    ensures Slot(MainStep(s))
  {}

  lemma MainKeepsNoLostWakeup(s: State)
    requires Mutex(s) && NoLostWakeup(s) && Stopping(s)
    ensures NoLostWakeup(MainStep(s))
  {}

  lemma MainKeepsOrder(s: State)
    requires Order(s)
    ensures Order(MainStep(s))
  {
    hide InOrder;
    OrderSubmit(|s.submitted|, s.taken, s.pending);
  }

  lemma MainKeepsContents(s: State)
    requires Contents(s)
    ensures Contents(MainStep(s))
  {
    hide Carried;
    CarriedSubmit(s.submitted, s.taken, s.written, InHand(s.writer), s.local, s.current);
  }

  lemma MainKeepsStopping(s: State)
    requires Mutex(s) && Stopping(s)
    ensures Stopping(MainStep(s))
  {}

  lemma WriterKeepsMutex(s: State)
    requires Mutex(s)
    ensures Mutex(WriterStep(s))
  {}

  lemma WriterKeepsSlot(s: State)
    requires Mutex(s) && Slot(s)
    ensures Slot(WriterStep(s))
  {}

  lemma WriterKeepsNoLostWakeup(s: State)
    requires Mutex(s) && NoLostWakeup(s) && Stopping(s)
    ensures NoLostWakeup(WriterStep(s))
  {}

  lemma WriterKeepsOrder(s: State)
    requires Slot(s) && Order(s)
    ensures Order(WriterStep(s))
  {
    hide InOrder;
    if s.writer.Take? {
      assert s.submitted != [];
      OrderTake(|s.submitted|, s.taken);
    }
  }

  lemma WriterKeepsContents(s: State)
    requires Mutex(s) && Slot(s) && Contents(s)
    ensures Contents(WriterStep(s))
  {
    hide Carried;
    match s.writer {
      case Take(k) =>
        if k < LEN {
          CarriedLocal(s.submitted, s.taken, s.written, s.local, s.local[k := s.report[k]]);
        } else {
          assert s.local == s.report == s.submitted[|s.submitted| - 1];
          CarriedTake(s.submitted, s.taken, s.written, s.local, s.local);
        }
      case Write => CarriedWrite(s.submitted, s.taken, s.written, s.local);
      case _ =>
    }
  }

  lemma WriterKeepsStopping(s: State)
    requires Mutex(s) && Stopping(s)
    ensures Stopping(WriterStep(s))
  {}

  lemma OtherKeepsMutex(s: State, c: Choice)
    requires Mutex(s) && !c.MainMoves? && !c.WriterMoves?
    ensures Mutex(Step(s, c))
  {}

  lemma OtherKeepsSlot(s: State, c: Choice)
    requires Mutex(s) && Slot(s) && !c.MainMoves? && !c.WriterMoves?
    ensures Slot(Step(s, c))
  {}

  lemma OtherKeepsNoLostWakeup(s: State, c: Choice)
    requires Mutex(s) && NoLostWakeup(s) && Stopping(s) && !c.MainMoves? && !c.WriterMoves?
    ensures NoLostWakeup(Step(s, c))
  {}

  lemma OtherKeepsOrder(s: State, c: Choice)
    requires Mutex(s) && Slot(s) && Order(s) && !c.MainMoves? && !c.WriterMoves?
    ensures Order(Step(s, c))
  {}

  lemma OtherKeepsContents(s: State, c: Choice)
    requires Mutex(s) && Slot(s) && Order(s) && Contents(s) && !c.MainMoves? && !c.WriterMoves?
    ensures Contents(Step(s, c))
  {}

  lemma OtherKeepsStopping(s: State, c: Choice)
    requires Mutex(s) && Stopping(s) && !c.MainMoves? && !c.WriterMoves?
    ensures Stopping(Step(s, c))
  {}

  lemma MainKeepsInv(s: State)
    requires Inv(s)
    ensures Inv(MainStep(s))
  {
    hide Mutex, Slot, NoLostWakeup, Order, Contents, Stopping, MainStep;
    MainKeepsMutex(s);
    MainKeepsSlot(s);
    MainKeepsNoLostWakeup(s);
    MainKeepsOrder(s);
    MainKeepsContents(s);
    MainKeepsStopping(s);
  }

  lemma WriterKeepsInv(s: State)
    requires Inv(s)
    ensures Inv(WriterStep(s))
  {
    hide Mutex, Slot, NoLostWakeup, Order, Contents, Stopping, WriterStep;
    WriterKeepsMutex(s);
    WriterKeepsSlot(s);
    WriterKeepsNoLostWakeup(s);
    WriterKeepsOrder(s);
    WriterKeepsContents(s);
    WriterKeepsStopping(s);
  }

  lemma OtherKeepsInv(s: State, c: Choice)
    requires Inv(s) && !c.MainMoves? && !c.WriterMoves?
    ensures Inv(Step(s, c))
  {
    hide Mutex, Slot, NoLostWakeup, Order, Contents, Stopping, Step;
    OtherKeepsMutex(s, c);
    OtherKeepsSlot(s, c);
    OtherKeepsNoLostWakeup(s, c);
    OtherKeepsOrder(s, c);
    OtherKeepsContents(s, c);
    OtherKeepsStopping(s, c);
  }

  lemma StepKeepsInv(s: State, c: Choice)
    requires Inv(s)
    ensures Inv(Step(s, c))
  {
    hide Inv, MainStep, WriterStep;
    match c {
      case MainMoves => MainKeepsInv(s);
      case WriterMoves => WriterKeepsInv(s);
      case _ => OtherKeepsInv(s, c);
    }
  }

  lemma {:induction false} ExecKeepsInv(s: State, cs: seq<Choice>)
    requires Inv(s)
    ensures Inv(Exec(s, cs))
  {
    hide Inv, Step;
    if cs != [] {
      ExecKeepsInv(s, cs[..|cs| - 1]);
      StepKeepsInv(Exec(s, cs[..|cs| - 1]), cs[|cs| - 1]);
    }
  }

  // ------------------------------------------------------------------- safety

  lemma InitInv()
    ensures Inv(INIT)
  {}

  /** Under every schedule the reports written are reports submitted, whole, in order, none twice:
      `taken` numbers them, strictly increasing. */
  lemma WrittenInOrder(cs: seq<Choice>)
    ensures var s := Exec(INIT, cs);
            && |s.written| <= |s.taken|
            && (forall i, j :: 0 <= i < j < |s.written| ==> s.taken[i] < s.taken[j])
            && (forall i :: 0 <= i < |s.written| ==> s.taken[i] < |s.submitted| && s.written[i] == s.submitted[s.taken[i]])
  {
    InitInv();
    ExecKeepsInv(INIT, cs);
  }

  /** The report the writer takes is the newest one submitted at that moment. */
  lemma TakesNewest(cs: seq<Choice>)
    ensures var s := Exec(INIT, cs); var t := Step(s, WriterMoves);
            t.writer.TakeUnlock? && s.writer.Take? ==>
              s.submitted != [] && t.local == s.submitted[|s.submitted| - 1] && t.taken == s.taken + [|s.submitted| - 1]
  {
    InitInv();
    ExecKeepsInv(INIT, cs);
    var s := Exec(INIT, cs);
    if s.writer == Take(LEN) { assert s.local == s.report; }
  }

  /** The mutex is never held by the writer at the blocking write, and never by both threads. */
  lemma NoLockAtWrite(cs: seq<Choice>)
    ensures var s := Exec(INIT, cs);
            && (s.writer.Write? ==> !s.mu.ByWriter?)
            && !(MainHolds(s.main) && WriterHolds(s.writer))
  {
    InitInv();
    ExecKeepsInv(INIT, cs);
  }

  /** No wakeup is lost: while main is outside its critical sections, a sleeping writer has no
      pending report and no stop request. */
  lemma SleepsOnlyWhenIdle(cs: seq<Choice>)
    ensures var s := Exec(INIT, cs); s.writer.Waiting? && !MainHolds(s.main) ==> !s.pending && !s.stop
  {
    InitInv();
    ExecKeepsInv(INIT, cs);
  }

  /** After `ep_writer_stop` has returned nothing is written any more. */
  lemma {:induction false} QuietAfterStop(s: State, cs: seq<Choice>)
    requires Inv(s) && s.main.Done?
    ensures Exec(s, cs) == s
  {
    if cs != [] { QuietAfterStop(s, cs[..|cs| - 1]); }
  }

  // ----------------------------------------------------------------- progress

  function WriterMovesIn(cs: seq<Choice>): nat {
    if cs == [] then 0 else WriterMovesIn(cs[..|cs| - 1]) + (if cs[|cs| - 1].WriterMoves? then 1 else 0)
  }

  /** How many of its own steps the writer needs to leave its loop once it is told to stop. */
  function StepsToExit(w: WriterPc): nat {
    match w
    case Exit => 0
    case StopLeave => 1
    case Check => 2
    case Lock => 3
    case Reacquire => 3
    case Waiting => 3
    case Write => 4
    case TakeUnlock => 5
    case Take(k) => if k <= LEN then 5 + (LEN + 1 - k) else 5
  }

  lemma StopProgress(s: State, c: Choice)
    requires Inv(s) && (s.main.Join? || s.main.Done?)
    ensures var t := Step(s, c);
            && (t.main.Join? || t.main.Done?)
            && StepsToExit(t.writer) <= StepsToExit(s.writer)
            && (c.WriterMoves? && StepsToExit(s.writer) > 0 ==> StepsToExit(t.writer) < StepsToExit(s.writer))
  {
    hide Order, Contents;
  }

  lemma {:induction false} StopRank(s: State, cs: seq<Choice>)
    requires Inv(s) && (s.main.Join? || s.main.Done?)
    ensures var t := Exec(s, cs);
            && (t.main.Join? || t.main.Done?)
            && (StepsToExit(t.writer) == 0 || StepsToExit(t.writer) + WriterMovesIn(cs) <= StepsToExit(s.writer))
  {
    hide Inv, Step, StepsToExit;
    if cs != [] {
      var init := cs[..|cs| - 1];
      StopRank(s, init);
      ExecKeepsInv(s, init);
      StopProgress(Exec(s, init), cs[|cs| - 1]);
    }
  }

  /** The join in `ep_writer_stop` comes to an end: 70 steps of the writer are always enough, in
      whatever order the scheduler mixes them with anything else. */
  lemma StopCompletes(s: State, cs: seq<Choice>)
    requires Inv(s) && s.main.Join? && WriterMovesIn(cs) >= 70
    ensures Exec(s, cs).writer.Exit?
  {
    hide Inv, Exec;
    StopRank(s, cs);
    assert StepsToExit(s.writer) <= 70;
  }

  /** How many of its own steps the writer needs, with the main loop idle, to write the newest
      report. */
  function StepsToWrite(s: State): nat {
    match s.writer
    case Write => if s.pending then 70 else 1
    case TakeUnlock => if s.pending then 71 else 2
    case Take(k) => if k <= LEN then 2 + (LEN + 1 - k) else 2
    case Check => if s.pending then 68 else 0
    case Lock => if s.pending then 69 else 0
    case Reacquire => if s.pending then 69 else 0
    case _ => 0
  }

  predicate Quiet(c: Choice) {
    !c.Submit? && !c.Stop?
  }

  lemma WriteProgress(s: State, c: Choice)
    requires Inv(s) && s.main.Idle? && Quiet(c)
    ensures var t := Step(s, c);
            && t.main.Idle? && t.submitted == s.submitted
            && StepsToWrite(t) <= StepsToWrite(s)
            && (c.WriterMoves? && StepsToWrite(s) > 0 ==> StepsToWrite(t) < StepsToWrite(s))
  {
    hide Order, Contents;
  }

  lemma {:induction false} WriteRank(s: State, cs: seq<Choice>)
    requires Inv(s) && s.main.Idle? && forall c :: c in cs ==> Quiet(c)
    ensures var t := Exec(s, cs);
            && t.main.Idle? && t.submitted == s.submitted
            && (StepsToWrite(t) == 0 || StepsToWrite(t) + WriterMovesIn(cs) <= StepsToWrite(s))
  {
    hide Inv, Step, StepsToWrite;
    if cs != [] {
      var init := cs[..|cs| - 1];
      WriteRank(s, init);
      ExecKeepsInv(s, init);
      assert cs[|cs| - 1] in cs;
      WriteProgress(Exec(s, init), cs[|cs| - 1]);
    }
  }

  lemma NothingLeft(s: State)
    requires Inv(s) && s.main.Idle? && StepsToWrite(s) == 0 && s.submitted != []
    ensures s.written != [] && s.written[|s.written| - 1] == s.submitted[|s.submitted| - 1]
  {}

  /** The newest report reaches write(): once the main loop rests, 71 steps of the writer are enough. */
  lemma NewestIsWritten(s: State, cs: seq<Choice>)
    requires Inv(s) && s.main.Idle? && s.submitted != []
    requires (forall c :: c in cs ==> Quiet(c)) && WriterMovesIn(cs) >= 71
    ensures var t := Exec(s, cs);
            t.submitted == s.submitted && t.written != [] && t.written[|t.written| - 1] == s.submitted[|s.submitted| - 1]
  {
    hide Inv, Exec;
    WriteRank(s, cs);
    ExecKeepsInv(s, cs);
    assert StepsToWrite(s) <= 71;
    NothingLeft(Exec(s, cs));
  }
}
