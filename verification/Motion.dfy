/** The right stick over a run of reports: from the samples in the mapper's window to the debt it
    keeps, and what happens once the mouse rests. */
module Motion {
  import opened Samples
  import opened DaemonConfig
  import opened Stick

  /** The library functions the mapper calls: `sqrt`, and `pow` with the curve's exponent. */
  datatype Maths = Maths(sqrt: real -> real, curve: real -> real)

  ghost predicate Roots(m: Maths) {
    forall x :: x >= 0.0 ==> m.sqrt(x) >= 0.0 && m.sqrt(x) * m.sqrt(x) == x
  }

  /** One report: when it was built, the samples committed by then, and what the right stick is left
      at if the velocity is no number, which happens only for a window of zero width. */
  datatype Moment = Moment(now: int, samples: seq<Sample>, noNumber: Output)

  function Window(c: Config, t: Moment): seq<Sample> {
    Tail(Recent(t.samples), Cutoff(t.now, c.windowMs))
  }

  /** The velocity divisor, in ms. */
  function WindowSpan(c: Config, t: Moment): real {
    Span(Window(c, t), t.now, c.windowMs)
  }

  lemma ZeroSpan(c: Config, t: Moment)
    ensures WindowSpan(c, t) == 0.0 ==> c.windowMs == 0.0
  {
    hide Window;
  }

  /** What the stick sees of a report. */
  function Seen(c: Config, m: Maths, d: Debt, t: Moment): Input
    requires WindowSpan(c, t) != 0.0
  {
    var w, dt := Window(c, t), WindowSpan(c, t);
    Measured(c, d, SumX(w) as real / dt, SumY(w) as real / dt, m.sqrt)
  }

  /** The right stick of a report, given the debt before it. */
  function Respond(c: Config, m: Maths, d: Debt, t: Moment): Output {
    if WindowSpan(c, t) == 0.0 then t.noNumber else Tick(c, m.curve, d, Seen(c, m, d, t))
  }

  /** The debt after a run of reports. */
  function DebtOver(c: Config, m: Maths, d: Debt, ts: seq<Moment>): Debt {
    if ts == [] then d else Respond(c, m, DebtOver(c, m, d, ts[..|ts| - 1]), ts[|ts| - 1]).debt
  }

  lemma DebtStep(c: Config, m: Maths, d: Debt, ts: seq<Moment>, t: Moment)
    ensures DebtOver(c, m, d, ts + [t]) == Respond(c, m, DebtOver(c, m, d, ts), t).debt
  {
    hide Respond;
    assert (ts + [t])[..|ts|] == ts;
  }

  lemma {:induction false} DebtCompose(c: Config, m: Maths, d: Debt, ts: seq<Moment>, k: nat)
    requires k <= |ts|
    ensures DebtOver(c, m, DebtOver(c, m, d, ts[..k]), ts[k..]) == DebtOver(c, m, d, ts)
  {
    hide Respond;
    if k == |ts| {
      assert ts[k..] == [] && ts[..k] == ts;
    } else {
      var init := ts[..|ts| - 1];
      DebtCompose(c, m, d, init, k);
      assert init[..k] == ts[..k];
      assert ts[k..][..|ts[k..]| - 1] == init[k..];
    }
  }

  /** The velocity the stick sees: per axis the counts of the window over its span. The window is made
      of the newest 256 samples at most `window_ms` old. */
  lemma SeenLaw(c: Config, m: Maths, d: Debt, t: Moment)
    requires Ordered(t.samples) && WindowSpan(c, t) != 0.0
    ensures var i, w := Seen(c, m, d, t), Window(c, t);
            && w == Recent(Inside(t.samples, Cutoff(t.now, c.windowMs)))
            && i.vx * WindowSpan(c, t) == SumX(w) as real && i.vy * WindowSpan(c, t) == SumY(w) as real
  {
    hide Window, Recent, Tail, Inside, Cutoff, SumX, SumY, Nx, Ny, WindowSpan;
    WindowOfHistory(t.samples, Cutoff(t.now, c.windowMs));
    assert Window(c, t) == Tail(Recent(t.samples), Cutoff(t.now, c.windowMs)) by { WindowIs(c, t); }
    Ratio(SumX(Window(c, t)) as real, WindowSpan(c, t));
    Ratio(SumY(Window(c, t)) as real, WindowSpan(c, t));
  }

  lemma WindowIs(c: Config, t: Moment)
    ensures Window(c, t) == Tail(Recent(t.samples), Cutoff(t.now, c.windowMs))
  {}

  lemma Ratio(x: real, span: real)
    requires span != 0.0
    ensures x / span * span == x
  {}

  // ------------------------------------------------------------------ at rest

  /** Every sample is older than the window. */
  predicate Rests(c: Config, t: Moment) {
    forall i :: 0 <= i < |t.samples| ==> t.samples[i].t < Cutoff(t.now, c.windowMs)
  }

  lemma EmptyWindow(c: Config, t: Moment)
    requires Rests(c, t)
    ensures Window(c, t) == []
  {}

  /** A mouse at rest gives no velocity. */
  lemma RestIsStill(c: Config, m: Maths, d: Debt, t: Moment)
    requires Rests(c, t) && WindowSpan(c, t) != 0.0
    ensures Still(Seen(c, m, d, t))
  {
    hide Window, WindowSpan;
    EmptyWindow(c, t);
    assert SumX([]) == 0 && SumY([]) == 0;
    assert 0.0 / WindowSpan(c, t) == 0.0;
  }

  /** The inputs of a run, one after the other. */
  function Inputs(c: Config, m: Maths, d: Debt, ts: seq<Moment>): (run: seq<Input>)
    requires c.windowMs != 0.0
    ensures |run| == |ts|
  {
    if ts == [] then []
    else
      var init := ts[..|ts| - 1];
      ZeroSpan(c, ts[|ts| - 1]);
      Inputs(c, m, d, init) + [Seen(c, m, DebtOver(c, m, d, init), ts[|ts| - 1])]
  }

  /** The run of reports is that run of ticks. */
  lemma {:induction false} InputsRun(c: Config, m: Maths, d: Debt, ts: seq<Moment>, n: nat)
    requires c.windowMs != 0.0 && n <= |ts|
    ensures Inputs(c, m, d, ts)[..n] == Inputs(c, m, d, ts[..n])
    ensures DebtAfter(c, m.curve, d, Inputs(c, m, d, ts)[..n]) == DebtOver(c, m, d, ts[..n])
  {
    hide Tick, Seen, WindowSpan;
    if n < |ts| {
      InputsRun(c, m, d, ts[..|ts| - 1], n);
      assert ts[..|ts| - 1][..n] == ts[..n];
    } else {
      assert ts[..n] == ts;
      if n > 0 {
        var init := ts[..n - 1];
        InputsRun(c, m, d, init, n - 1);
        assert init[..n - 1] == init;
        ZeroSpan(c, ts[n - 1]);
      }
    }
  }

  lemma InputAt(c: Config, m: Maths, d: Debt, ts: seq<Moment>, n: nat)
    requires c.windowMs != 0.0 && n < |ts| && WindowSpan(c, ts[n]) != 0.0
    ensures Inputs(c, m, d, ts)[n] == Seen(c, m, DebtOver(c, m, d, ts[..n]), ts[n])
  {
    hide Seen, WindowSpan, DebtOver;
    InputsRun(c, m, d, ts, n + 1);
    assert ts[..n + 1][..n] == ts[..n];
  }

  lemma MeasuredRoot(c: Config, m: Maths, d: Debt, vx: real, vy: real)
    requires Roots(m)
    ensures var i := Measured(c, d, vx, vy, m.sqrt); IsRoot(i.mag, Nx(c, d, i), Ny(c, d, i))
  {
    hide Sens;
    var i := Input(vx, vy, 0.0);
    SquaresAdd(Nx(c, d, i), Ny(c, d, i));
  }

  lemma SquaresAdd(x: real, y: real)
    ensures x * x + y * y >= 0.0
  {}

  lemma RestingRun(c: Config, m: Maths, d: Debt, ts: seq<Moment>)
    requires Roots(m) && c.windowMs != 0.0 && forall i :: 0 <= i < |ts| ==> Rests(c, ts[i])
    ensures var run := Inputs(c, m, d, ts);
            Rooted(c, m.curve, d, run) && forall n :: 0 <= n < |run| ==> Still(run[n])
  {
    hide Rests, Still, IsRoot, Measured, Window, WindowSpan, Inputs, DebtOver, DebtAfter, Nx, Ny, Roots;
    var run := Inputs(c, m, d, ts);
    forall n | 0 <= n < |run|
      ensures Still(run[n])
      ensures var dn := DebtAfter(c, m.curve, d, run[..n]); IsRoot(run[n].mag, Nx(c, dn, run[n]), Ny(c, dn, run[n]))
    {
      ZeroSpan(c, ts[n]);
      var dn := DebtOver(c, m, d, ts[..n]);
      InputAt(c, m, d, ts, n);
      InputsRun(c, m, d, ts, n);
      RestIsStill(c, m, dn, ts[n]);
      var w, dt := Window(c, ts[n]), WindowSpan(c, ts[n]);
      MeasuredRoot(c, m, dn, SumX(w) as real / dt, SumY(w) as real / dt);
    }
  }

  function SizeOf(m: Maths, d: Debt): real {
    m.sqrt(d.x * d.x + d.y * d.y)
  }

  lemma SizeIsRoot(m: Maths, d: Debt)
    requires Roots(m)
    ensures IsRoot(SizeOf(m, d), d.x, d.y)
  {
    SquaresAdd(d.x, d.y);
  }

  /** The number of the first report, after the first k, whose right stick is back at the centre. */
  function CenteredFrom(c: Config, m: Maths, d: Debt, ts: seq<Moment>, k: nat): int
    requires Drains(c) && k <= |ts|
  {
    var r := SizeOf(m, DebtOver(c, m, d, ts[..k]));
    if r >= 0.0 then k + TicksToCenter(c, r) else k
  }

  /** If every sample is older than the window at each report from number k on, the right stick comes
      back to its exact centre and leaves no debt after the ticks it takes to drain it. */
  lemma RestCenters(c: Config, m: Maths, d: Debt, ts: seq<Moment>, k: nat, n: nat)
    requires Roots(m) && Drains(c) && c.windowMs != 0.0 && k <= n < |ts|
    requires forall i :: k <= i < |ts| ==> Rests(c, ts[i])
    requires n >= CenteredFrom(c, m, d, ts, k)
    ensures Respond(c, m, DebtOver(c, m, d, ts[..n]), ts[n]) == Output(Debt(0.0, 0.0), 128, 128)
  {
    hide Rests, Tick, Seen, Window, WindowSpan, Inputs, DebtOver, DebtAfter, IsRoot, Rooted, Still, SizeOf, Roots, Drains, TicksToCenter;
    var dk, rest, j := DebtOver(c, m, d, ts[..k]), ts[k..], n - k;
    var r := SizeOf(m, dk);
    SizeIsRoot(m, dk);
    assert r >= 0.0 by { RootIsNonNegative(r, dk.x, dk.y); }
    RestingRun(c, m, dk, rest);
    var run := Inputs(c, m, dk, rest);
    DrainsToCenter(c, m.curve, dk, r, run);
    InputsRun(c, m, dk, rest, j);
    ZeroSpan(c, rest[j]);
    InputAt(c, m, dk, rest, j);
    assert rest[..j] == ts[..n][k..] && ts[..n][..k] == ts[..k] && rest[j] == ts[n];
    DebtCompose(c, m, d, ts[..n], k);
  }
}
