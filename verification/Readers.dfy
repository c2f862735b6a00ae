/** The file the web tool writes, as the mapper daemon reads it. */
module Readers {
  import opened Text
  import opened Names
  import opened WebConfig
  import opened RoundTrip
  import opened MapperConfig
  import D = DaemonConfig

  /** `atof` reads what `%g` printed. */
  ghost predicate ReadsBack(f: Floats, atof: string -> real) {
    forall x :: f.isFloat(x) ==> atof(f.format(x)) == x
  }

  // --------------------------------------------- the daemon's view, on values

  function ViewTuning(t: Tuning): (c: D.Config)
    ensures D.Sized(c)
  {
    Defaults().(
      windowMs := t.windowMs, curveExp := t.curveExp, antiDeadzone := t.antiDeadzone,
      outerSat := t.outerSat, sensCountsMs := t.sensCountsMs, debtDrain := t.debtDrain,
      recoilAction := ActionId(Trim(t.recoilAction)),
      recoilX := MapperConfig.Clamp(t.recoilX, -1.0, 1.0), recoilY := MapperConfig.Clamp(t.recoilY, -1.0, 1.0),
      adsAction := ActionId(Trim(t.adsAction)),
      adsSensScale := ViewScale(t.adsSensScale), fireSensScale := ViewScale(t.fireSensScale))
  }

  function ViewBinding(c: D.Config, b: Binding): (r: D.Config)
    requires D.Sized(c)
    ensures D.Sized(r)
  {
    if b.source == "key" then SetKey(c, TrimRight(ToUpper(b.code)), Trim(b.action))
    else if b.source == "mouse" then SetButton(c, TrimRight(ToUpper(b.code)), Trim(b.action))
    else c
  }

  function ViewBindings(c: D.Config, bs: seq<Binding>): (r: D.Config)
    requires D.Sized(c)
    ensures D.Sized(r)
    decreases |bs|
  {
    if bs == [] then c else ViewBindings(ViewBinding(c, bs[0]), bs[1..])
  }

  function OptField(c: D.Config, keep: bool, act: nat, field: string, x: real): (r: D.Config)
    requires D.Sized(c)
    ensures D.Sized(r)
  {
    if keep then SetBurstField(c, act, field, x) else c
  }

  function ViewBurst(c: D.Config, b: Burst): (r: D.Config)
    requires D.Sized(c)
    ensures D.Sized(r)
  {
    var a := ActionId(b.action);
    var c1 := SetBurstField(c, a, "hz", b.hz);
    var c2 := OptField(c1, b.duty > 0.0, a, "duty", b.duty);
    var c3 := OptField(c2, b.jitter > 0.0, a, "jitter", b.jitter);
    var c4 := OptField(c3, b.dutyJitter > 0.0, a, "duty_jitter", b.dutyJitter);
    OptField(c4, b.skipProb > 0.0, a, "skip_prob", b.skipProb)
  }

  function ViewBursts(c: D.Config, bs: seq<Burst>): (r: D.Config)
    requires D.Sized(c)
    ensures D.Sized(r)
    decreases |bs|
  {
    if bs == [] then c else ViewBursts(if KeptBurst(bs[0]) then ViewBurst(c, bs[0]) else c, bs[1..])
  }

  /** The codes of the first n known names. */
  function CodesOf(table: seq<Named>, names: seq<string>, n: nat): (codes: seq<int>)
    ensures |codes| <= n
  {
    if n == 0 || names == [] then []
    else if Lookup(table, names[0]) >= 0 then [Lookup(table, names[0])] + CodesOf(table, names[1..], n - 1)
    else CodesOf(table, names[1..], n)
  }

  function View(c: Config): (r: D.Config)
    ensures D.Sized(r)
  {
    var d := ViewBursts(ViewBindings(ViewTuning(c.tuning), c.bindings), c.bursts);
    if c.hotkey == [] then d else d.(hotkey := CodesOf(MAPPER_KEYS, NormalChord(c.hotkey), 8))
  }

  // ------------------------------------------------------------- folding lines

  lemma {:induction false} ReadAppend(atof: string -> real, c: D.Config, a: seq<string>, b: seq<string>)
    requires D.Sized(c)
    ensures ReadLines(atof, c, a + b) == ReadLines(atof, ReadLines(atof, c, a), b)
    decreases |a|
  {
    hide ReadLine;
    if a == [] {
      assert a + b == b;
    } else {
      assert (a + b)[1..] == a[1..] + b;
      ReadAppend(atof, ReadLine(atof, c, a[0]), a[1..], b);
    }
  }

  lemma ReadOpt(atof: string -> real, c: D.Config, keep: bool, line: string, rest: seq<string>)
    requires D.Sized(c)
    ensures ReadLines(atof, c, Opt(keep, line) + rest) == ReadLines(atof, if keep then ReadLine(atof, c, line) else c, rest)
  {
    hide ReadLine;
    ReadAppend(atof, c, Opt(keep, line), rest);
    if keep { assert [line][1..] == []; }
  }

  lemma ReadNone(atof: string -> real, c: D.Config)
    requires D.Sized(c)
    ensures ReadLines(atof, c, []) == c
  {}

  lemma SkipRead(atof: string -> real, c: D.Config, line: string, rest: seq<string>)
    requires D.Sized(c) && ParseLine(line).Skip?
    ensures ReadLines(atof, c, [line] + rest) == ReadLines(atof, c, rest)
  {
    hide ParseLine;
    assert ([line] + rest)[1..] == rest;
  }

  // ------------------------------------------------------------------- scalars

  /** An optional scalar line, read into the record `d`; when it is absent `d` must be `c`. */
  lemma ScalarRead(f: Floats, atof: string -> real, c: D.Config, keep: bool, k: string, v: string, d: D.Config, rest: seq<string>)
    requires D.Sized(c) && D.Sized(d)
    requires k != "" && Trimmed(k) && k[0] != '#' && '=' !in k
    requires if keep then SetScalar(atof, c, k, Trim(v)) == Some(d) else d == c
    ensures ReadLines(atof, c, Opt(keep, k + "=" + v) + rest) == ReadLines(atof, d, rest)
  {
    hide ParseLine, SetScalar, Trim, ReadLines;
    WrittenPair(k, v);
    ReadOpt(atof, c, keep, k + "=" + v, rest);
  }

  lemma PlainNumber(f: Floats, atof: string -> real, x: real)
    requires Lawful(f) && ReadsBack(f, atof) && f.isFloat(x)
    ensures atof(Trim(f.format(x))) == x
  {
    TrimFixed(f.format(x));
  }

  lemma NumbersView(f: Floats, atof: string -> real, t: Tuning, rest: seq<string>)
    requires Lawful(f) && ReadsBack(f, atof) && WritableTuning(f, t)
    ensures ReadLines(atof, Defaults(), TuningLines(f, t) + rest)
         == ReadLines(atof, Defaults().(windowMs := t.windowMs, curveExp := t.curveExp, antiDeadzone := t.antiDeadzone,
                                        outerSat := t.outerSat, sensCountsMs := t.sensCountsMs, debtDrain := t.debtDrain), rest)
  {
    hide ReadLines, Lawful, ReadsBack, Trim;
    PlainNumber(f, atof, t.windowMs);
    PlainNumber(f, atof, t.curveExp);
    PlainNumber(f, atof, t.antiDeadzone);
    PlainNumber(f, atof, t.outerSat);
    PlainNumber(f, atof, t.sensCountsMs);
    PlainNumber(f, atof, t.debtDrain);
    var c0 := Defaults();
    var c1 := c0.(windowMs := t.windowMs);
    var c2 := c1.(curveExp := t.curveExp);
    var c3 := c2.(antiDeadzone := t.antiDeadzone);
    var c4 := c3.(outerSat := t.outerSat);
    var c5 := c4.(sensCountsMs := t.sensCountsMs);
    var c6 := c5.(debtDrain := t.debtDrain);
    var r6 := Opt(true, "debt_drain" + "=" + f.format(t.debtDrain)) + rest;
    var r5 := Opt(true, "sens_counts_ms" + "=" + f.format(t.sensCountsMs)) + r6;
    var r4 := Opt(true, "outer_sat" + "=" + f.format(t.outerSat)) + r5;
    var r3 := Opt(true, "anti_deadzone" + "=" + f.format(t.antiDeadzone)) + r4;
    var r2 := Opt(true, "curve_exp" + "=" + f.format(t.curveExp)) + r3;
    assert TuningLines(f, t) + rest == Opt(true, "window_ms" + "=" + f.format(t.windowMs)) + r2;
    ScalarRead(f, atof, c0, true, "window_ms", f.format(t.windowMs), c1, r2);
    ScalarRead(f, atof, c1, true, "curve_exp", f.format(t.curveExp), c2, r3);
    ScalarRead(f, atof, c2, true, "anti_deadzone", f.format(t.antiDeadzone), c3, r4);
    ScalarRead(f, atof, c3, true, "outer_sat", f.format(t.outerSat), c4, r5);
    ScalarRead(f, atof, c4, true, "sens_counts_ms", f.format(t.sensCountsMs), c5, r6);
    ScalarRead(f, atof, c5, true, "debt_drain", f.format(t.debtDrain), c6, rest);
  }

  lemma RecoilView(f: Floats, atof: string -> real, c: D.Config, t: Tuning, rest: seq<string>)
    requires Lawful(f) && ReadsBack(f, atof) && WritableTuning(f, t) && D.Sized(c)
    requires c.recoilAction == 0 && c.recoilX == c.recoilY == 0.0
    ensures ReadLines(atof, c,
              Opt(t.recoilAction != "", "recoil.action" + "=" + t.recoilAction)
              + (Opt(t.recoilX != 0.0, "recoil.x" + "=" + f.format(t.recoilX))
              + (Opt(t.recoilY != 0.0, "recoil.y" + "=" + f.format(t.recoilY)) + rest)))
         == ReadLines(atof, c.(recoilAction := ActionId(Trim(t.recoilAction)),
                               recoilX := MapperConfig.Clamp(t.recoilX, -1.0, 1.0), recoilY := MapperConfig.Clamp(t.recoilY, -1.0, 1.0)), rest)
  {
    hide ReadLines, Lawful, ReadsBack, Trim, Lookup, Opt;
    PlainNumber(f, atof, t.recoilX);
    PlainNumber(f, atof, t.recoilY);
    NoAction(t.recoilAction);
    var c1 := c.(recoilAction := ActionId(Trim(t.recoilAction)));
    var c2 := c1.(recoilX := MapperConfig.Clamp(t.recoilX, -1.0, 1.0));
    var c3 := c2.(recoilY := MapperConfig.Clamp(t.recoilY, -1.0, 1.0));
    var r3 := Opt(t.recoilY != 0.0, "recoil.y" + "=" + f.format(t.recoilY)) + rest;
    var r2 := Opt(t.recoilX != 0.0, "recoil.x" + "=" + f.format(t.recoilX)) + r3;
    ScalarRead(f, atof, c, t.recoilAction != "", "recoil.action", t.recoilAction, c1, r2);
    ScalarRead(f, atof, c1, t.recoilX != 0.0, "recoil.x", f.format(t.recoilX), c2, r3);
    ScalarRead(f, atof, c2, t.recoilY != 0.0, "recoil.y", f.format(t.recoilY), c3, rest);
  }

  function ViewScale(x: real): real {
    if x > 0.0 then MapperConfig.Clamp(x, 0.01, 4.0) else 1.0
  }

  lemma ScalesView(f: Floats, atof: string -> real, c: D.Config, t: Tuning, rest: seq<string>)
    requires Lawful(f) && ReadsBack(f, atof) && WritableTuning(f, t) && D.Sized(c)
    requires c.adsAction == 0 && c.adsSensScale == c.fireSensScale == 1.0
    ensures ReadLines(atof, c,
              Opt(t.adsAction != "", "ads.action" + "=" + t.adsAction)
              + (Opt(t.adsSensScale > 0.0 && t.adsSensScale != 1.0, "ads.sens_scale" + "=" + f.format(t.adsSensScale))
              + (Opt(t.fireSensScale > 0.0 && t.fireSensScale != 1.0, "fire.sens_scale" + "=" + f.format(t.fireSensScale)) + rest)))
         == ReadLines(atof, c.(adsAction := ActionId(Trim(t.adsAction)),
                               adsSensScale := ViewScale(t.adsSensScale), fireSensScale := ViewScale(t.fireSensScale)), rest)
  {
    hide ReadLines, Lawful, ReadsBack, Trim, Lookup, Opt;
    PlainNumber(f, atof, t.adsSensScale);
    PlainNumber(f, atof, t.fireSensScale);
    NoAction(t.adsAction);
    var c1 := c.(adsAction := ActionId(Trim(t.adsAction)));
    var c2 := c1.(adsSensScale := ViewScale(t.adsSensScale));
    var c3 := c2.(fireSensScale := ViewScale(t.fireSensScale));
    var fire, ads := t.fireSensScale > 0.0 && t.fireSensScale != 1.0, t.adsSensScale > 0.0 && t.adsSensScale != 1.0;
    var r3 := Opt(fire, "fire.sens_scale" + "=" + f.format(t.fireSensScale)) + rest;
    var r2 := Opt(ads, "ads.sens_scale" + "=" + f.format(t.adsSensScale)) + r3;
    ScalarRead(f, atof, c, t.adsAction != "", "ads.action", t.adsAction, c1, r2);
    ScalarRead(f, atof, c1, ads, "ads.sens_scale", f.format(t.adsSensScale), c2, r3);
    ScalarRead(f, atof, c2, fire, "fire.sens_scale", f.format(t.fireSensScale), c3, rest);
  }

  lemma OptionalsView(f: Floats, atof: string -> real, c: D.Config, t: Tuning, rest: seq<string>)
    requires Lawful(f) && ReadsBack(f, atof) && WritableTuning(f, t) && D.Sized(c)
    requires c == ViewTuning(t).(recoilAction := 0, recoilX := 0.0, recoilY := 0.0, adsAction := 0, adsSensScale := 1.0, fireSensScale := 1.0)
    ensures ReadLines(atof, c, OptionalTuningLines(f, t) + rest) == ReadLines(atof, ViewTuning(t), rest)
  {
    hide ReadLines, Lawful, ReadsBack, Trim, Lookup, Opt, Defaults, WritableTuning;
    var v := ViewTuning(t);
    var scales := Opt(t.adsAction != "", "ads.action" + "=" + t.adsAction)
      + (Opt(t.adsSensScale > 0.0 && t.adsSensScale != 1.0, "ads.sens_scale" + "=" + f.format(t.adsSensScale))
      + (Opt(t.fireSensScale > 0.0 && t.fireSensScale != 1.0, "fire.sens_scale" + "=" + f.format(t.fireSensScale)) + rest));
    assert OptionalTuningLines(f, t) + rest ==
      Opt(t.recoilAction != "", "recoil.action" + "=" + t.recoilAction)
      + (Opt(t.recoilX != 0.0, "recoil.x" + "=" + f.format(t.recoilX))
      + (Opt(t.recoilY != 0.0, "recoil.y" + "=" + f.format(t.recoilY)) + scales));
    RecoilView(f, atof, c, t, scales);
    ScalesView(f, atof, c.(recoilAction := v.recoilAction, recoilX := v.recoilX, recoilY := v.recoilY), t, rest);
  }

  /** The empty name is no action. */
  lemma NoAction(v: string)
    ensures v == "" ==> ActionId(Trim(v)) == 0
  {
    if v == "" {
      assert forall i :: 0 <= i < |ACTION_NAMES| ==> |ACTION_NAMES[i].name| > 0;
      UnknownIsMinusOne(ACTION_NAMES, "");
    }
  }

  // ----------------------------------------------------------------- bindings

  lemma NotScalar(atof: string -> real, c: D.Config, k: string, v: string)
    requires k != "" && k[0] in "kmbh"
    ensures SetScalar(atof, c, k, v).None?
  {
    assert "window_ms"[0] == 'w' && "curve_exp"[0] == 'c' && "anti_deadzone"[0] == 'a' && "outer_sat"[0] == 'o'
        && "sens_counts_ms"[0] == 's' && "debt_drain"[0] == 'd' && "recoil.action"[0] == 'r' && "recoil.x"[0] == 'r'
        && "recoil.y"[0] == 'r' && "ads.action"[0] == 'a' && "ads.sens_scale"[0] == 'a' && "fire.sens_scale"[0] == 'f';
  }

  lemma BindingView(atof: string -> real, c: D.Config, b: Binding)
    requires D.Sized(c) && KeptBinding(b) && WritableBinding(b)
    ensures ReadLine(atof, c, BindingLine(b)) == ViewBinding(c, b)
  {
    hide BindingLine, ParseLine, SetScalar, SetKey, SetButton;
    BindingPair(b);
    var p, x := b.source + ".", TrimRight(ToUpper(b.code));
    var k := p + x;
    NotScalar(atof, c, k, Trim(b.action));
    PrefixOfConcat(p, x);
    if b.source == "key" {
      assert p == "key.";
    } else {
      assert p == "mouse.";
      PrefixDiffers(k, "key.", 0);
    }
  }

  lemma {:induction false} BindingsView(atof: string -> real, c: D.Config, bs: seq<Binding>, rest: seq<string>)
    requires D.Sized(c) && forall b :: b in bs ==> WritableBinding(b)
    ensures ReadLines(atof, c, BindingLines(bs) + rest) == ReadLines(atof, ViewBindings(c, bs), rest)
    decreases |bs|
  {
    hide ReadLine, ReadLines, BindingLine, SetKey, SetButton, Opt;
    if bs == [] {
      assert [] + rest == rest;
    } else {
      var more := BindingLines(bs[1..]) + rest;
      assert BindingLines(bs) + rest == Opt(KeptBinding(bs[0]), BindingLine(bs[0])) + more;
      ReadOpt(atof, c, KeptBinding(bs[0]), BindingLine(bs[0]), more);
      if KeptBinding(bs[0]) { BindingView(atof, c, bs[0]); }
      BindingsView(atof, ViewBinding(c, bs[0]), bs[1..], rest);
    }
  }

  // ------------------------------------------------------------------- bursts

  /** A burst key is none of the other keys. */
  lemma BurstKeyRead(atof: string -> real, c: D.Config, rest: string, v: string)
    requires D.Sized(c)
    ensures ReadPair(atof, c, "burst." + rest, v) == MapperConfig.SetBurst(c, rest, atof(v))
  {
    hide SetScalar, MapperConfig.SetBurst, SetKey, SetButton, HasPrefix;
    var k := "burst." + rest;
    PrefixOfConcat("burst.", rest);
    NotScalar(atof, c, k, v);
    PrefixDiffers(k, "key.", 0);
    PrefixDiffers(k, "mouse.", 0);
    PrefixDiffers(k, "hotkey.mode_toggle", 0);
  }

  lemma BurstNameParts(action: string, field: string)
    ensures var name := action + "." + field; name[..|action|] == action && name[|action| + 1..] == field
  {
    var name := action + "." + field;
    assert name[..|action|] == action;
    assert name[|action| + 1..] == field;
  }

  /** One burst line, read. */
  lemma BurstLineRead(f: Floats, atof: string -> real, c: D.Config, action: string, field: string, x: real)
    requires Lawful(f) && ReadsBack(f, atof) && f.isFloat(x) && D.Sized(c)
    requires '=' !in action && field != "" && Trimmed(field) && '.' !in field && '=' !in field
    ensures ReadLine(atof, c, BurstLine(f, action, field, x)) == SetBurstField(c, ActionId(action), field, x)
  {
    hide BurstLine, ParseLine, ReadPair, SetBurstField, ActionId, Lawful, AfterLast;
    BurstPair(f, action, field, x);
    BurstKeyRead(atof, c, action + "." + field, f.format(x));
    BurstNameParts(action, field);
  }

  lemma BurstLineView(f: Floats, atof: string -> real, c: D.Config, keep: bool, action: string, field: string, x: real, rest: seq<string>)
    requires Lawful(f) && ReadsBack(f, atof) && (keep ==> f.isFloat(x)) && D.Sized(c)
    requires '=' !in action && field != "" && Trimmed(field) && '.' !in field && '=' !in field
    ensures ReadLines(atof, c, Opt(keep, BurstLine(f, action, field, x)) + rest)
         == ReadLines(atof, OptField(c, keep, ActionId(action), field, x), rest)
  {
    hide ReadLines, ReadLine, BurstLine, SetBurstField, ActionId, Opt, Lawful, ReadsBack;
    ReadOpt(atof, c, keep, BurstLine(f, action, field, x), rest);
    if keep { BurstLineRead(f, atof, c, action, field, x); }
  }

  lemma BurstView(f: Floats, atof: string -> real, c: D.Config, b: Burst, rest: seq<string>)
    requires Lawful(f) && ReadsBack(f, atof) && D.Sized(c) && KeptBurst(b) && WritableBurst(f, b)
    ensures ReadLines(atof, c, LinesOfBurst(f, b) + rest) == ReadLines(atof, ViewBurst(c, b), rest)
  {
    hide ReadLines, BurstLine, SetBurstField, ActionId, Lawful, ReadsBack;
    var a := ActionId(b.action);
    var c1 := OptField(c, true, a, "hz", b.hz);
    var c2 := OptField(c1, b.duty > 0.0, a, "duty", b.duty);
    var c3 := OptField(c2, b.jitter > 0.0, a, "jitter", b.jitter);
    var c4 := OptField(c3, b.dutyJitter > 0.0, a, "duty_jitter", b.dutyJitter);
    var r5 := Opt(b.skipProb > 0.0, BurstLine(f, b.action, "skip_prob", b.skipProb)) + rest;
    var r4 := Opt(b.dutyJitter > 0.0, BurstLine(f, b.action, "duty_jitter", b.dutyJitter)) + r5;
    var r3 := Opt(b.jitter > 0.0, BurstLine(f, b.action, "jitter", b.jitter)) + r4;
    var r2 := Opt(b.duty > 0.0, BurstLine(f, b.action, "duty", b.duty)) + r3;
    BurstLineView(f, atof, c, true, b.action, "hz", b.hz, r2);
    BurstLineView(f, atof, c1, b.duty > 0.0, b.action, "duty", b.duty, r3);
    BurstLineView(f, atof, c2, b.jitter > 0.0, b.action, "jitter", b.jitter, r4);
    BurstLineView(f, atof, c3, b.dutyJitter > 0.0, b.action, "duty_jitter", b.dutyJitter, r5);
    BurstLineView(f, atof, c4, b.skipProb > 0.0, b.action, "skip_prob", b.skipProb, rest);
    BurstLinesNest(f, b, rest);
  }

  lemma BurstLinesNest(f: Floats, b: Burst, rest: seq<string>)
    ensures LinesOfBurst(f, b) + rest ==
      Opt(true, BurstLine(f, b.action, "hz", b.hz))
      + (Opt(b.duty > 0.0, BurstLine(f, b.action, "duty", b.duty))
      + (Opt(b.jitter > 0.0, BurstLine(f, b.action, "jitter", b.jitter))
      + (Opt(b.dutyJitter > 0.0, BurstLine(f, b.action, "duty_jitter", b.dutyJitter))
      + (Opt(b.skipProb > 0.0, BurstLine(f, b.action, "skip_prob", b.skipProb)) + rest))))
  {
    hide BurstLine, Opt;
    OptKept(BurstLine(f, b.action, "hz", b.hz));
  }

  lemma {:induction false} BurstsView(f: Floats, atof: string -> real, c: D.Config, bs: seq<Burst>, rest: seq<string>)
    requires Lawful(f) && ReadsBack(f, atof) && D.Sized(c) && forall b :: b in bs ==> WritableBurst(f, b)
    ensures ReadLines(atof, c, BurstLines(f, bs) + rest) == ReadLines(atof, ViewBursts(c, bs), rest)
    decreases |bs|
  {
    hide ReadLines, LinesOfBurst, ViewBurst, Lawful, ReadsBack;
    if bs == [] {
      assert [] + rest == rest;
    } else {
      var more := BurstLines(f, bs[1..]) + rest;
      if KeptBurst(bs[0]) {
        assert BurstLines(f, bs) + rest == LinesOfBurst(f, bs[0]) + more;
        BurstView(f, atof, c, bs[0], more);
      } else {
        assert BurstLines(f, bs) + rest == more;
      }
      BurstsView(f, atof, if KeptBurst(bs[0]) then ViewBurst(c, bs[0]) else c, bs[1..], rest);
    }
  }

  // -------------------------------------------------------------------- chord

  lemma LookupUpper(table: seq<Named>, name: string)
    ensures Lookup(table, ToUpper(name)) == Lookup(table, name)
  {
    UpperIdempotent(name);
    if table != [] { LookupUpper(table[1..], name); }
  }

  /** The tokeniser takes the codes of the chord names the web tool would show. */
  lemma {:induction false} TakenFromNames(table: seq<Named>, pieces: seq<string>, n: nat)
    ensures TakeCodes(table, pieces, n) == CodesOf(table, KeyNames(pieces), n)
    decreases |pieces|
  {
    hide Lookup, Trim;
    if n > 0 && pieces != [] {
      var name := Trim(pieces[0]);
      LookupUpper(table, name);
      TakenFromNames(table, pieces[1..], n);
      TakenFromNames(table, pieces[1..], n - 1);
      if name == "" {
        assert [] + KeyNames(pieces[1..]) == KeyNames(pieces[1..]);
      } else {
        assert ([ToUpper(name)] + KeyNames(pieces[1..]))[1..] == KeyNames(pieces[1..]);
      }
    }
  }

  lemma HotkeyView(atof: string -> real, c: D.Config, hotkey: seq<string>)
    requires D.Sized(c)
    ensures ReadLines(atof, c, HotkeyLines(hotkey)) ==
      if hotkey == [] then c else c.(hotkey := CodesOf(MAPPER_KEYS, NormalChord(hotkey), 8))
  {
    hide ReadLine, ReadLines;
    ReadNone(atof, c);
    if hotkey != [] {
      var v := Join(hotkey, '+');
      assert HotkeyLines(hotkey) == Opt(true, "hotkey.mode_toggle" + "=" + v) + [];
      ReadOpt(atof, c, true, "hotkey.mode_toggle" + "=" + v, []);
      ChordLineView(atof, c, v);
      JoinedNames(hotkey);
      ReadNone(atof, c.(hotkey := CodesOf(MAPPER_KEYS, NormalChord(hotkey), 8)));
    }
  }

  lemma ChordLineView(atof: string -> real, c: D.Config, v: string)
    requires D.Sized(c)
    ensures ReadLine(atof, c, "hotkey.mode_toggle" + "=" + v) == c.(hotkey := CodesOf(MAPPER_KEYS, ChordNames(v), 8))
  {
    hide ParseLine, SetScalar, TakeCodes, CodesOf, KeyNames, SplitChord;
    var k := "hotkey.mode_toggle";
    WrittenPair(k, v);
    NotScalar(atof, c, k, Trim(v));
    PrefixDiffers(k, "key.", 0);
    PrefixDiffers(k, "mouse.", 0);
    NamesIgnoreBlanks(v);
    TakenFromNames(MAPPER_KEYS, SplitChord(Trim(v)), 8);
  }

  // ---------------------------------------------------------------- the whole

  /** Every line fits the daemons' line buffer. */
  predicate ShortLines(lines: seq<string>) {
    forall l :: l in lines ==> |l| < CHUNK
  }

  /** `fgets` then returns the lines one by one, each with its newline. */
  lemma {:induction false} ChunksOfLines(atof: string -> real, c: D.Config, lines: seq<string>)
    requires D.Sized(c) && ShortLines(lines) && OneLiners(lines)
    ensures ReadLines(atof, c, Chunks(Unlines(lines))) == ReadLines(atof, c, lines)
    decreases |lines|
  {
    hide ReadLine;
    if lines != [] {
      var l, rest := lines[0], Unlines(lines[1..]);
      var text := l + [NL] + rest;
      assert l in lines;
      IndexOfUnique(l, rest, NL);
      assert Chunk(text) == |l| + 1;
      assert text[..|l| + 1] == l + [NL] && text[|l| + 1..] == rest;
      assert Chunks(text) == [l + [NL]] + Chunks(rest);
      assert ([l + [NL]] + Chunks(rest))[1..] == Chunks(rest);
      NewlineRead(atof, c, l);
      ChunksOfLines(atof, ReadLine(atof, c, l), lines[1..]);
    }
  }

  lemma NewlineRead(atof: string -> real, c: D.Config, line: string)
    requires D.Sized(c)
    ensures ReadLine(atof, c, line + [NL]) == ReadLine(atof, c, line)
  {
    hide ParseLine;
    ParseIgnoresNewline(line);
  }

  lemma HeaderRead(atof: string -> real, c: D.Config, rest: seq<string>)
    requires D.Sized(c)
    ensures ReadLines(atof, c, [HEADER, ""] + rest) == ReadLines(atof, c, rest)
    ensures ReadLines(atof, c, [""] + rest) == ReadLines(atof, c, rest)
  {
    hide ReadLines, ReadLine;
    assert [HEADER, ""] + rest == [HEADER] + ([""] + rest);
    SkipRead(atof, c, "", rest);
    HeaderSkips();
    SkipRead(atof, c, HEADER, [""] + rest);
  }

  lemma SavedLinesView(f: Floats, atof: string -> real, c: Config)
    requires Lawful(f) && ReadsBack(f, atof) && Writable(f, c)
    ensures ReadLines(atof, Defaults(), Lines(f, c)) == View(c)
  {
    hide ReadLines, Defaults, TuningLines, OptionalTuningLines, BindingLines, BurstLines, HotkeyLines, Lawful, ReadsBack;
    var l5 := HotkeyLines(c.hotkey);
    var l4 := BurstLines(f, c.bursts) + l5;
    var l3 := BindingLines(c.bindings) + l4;
    var l2 := OptionalTuningLines(f, c.tuning) + ([""] + l3);
    HeaderRead(atof, Defaults(), TuningLines(f, c.tuning) + l2);
    NumbersView(f, atof, c.tuning, l2);
    DefaultScalars();
    var t := c.tuning;
    var c1 := Defaults().(windowMs := t.windowMs, curveExp := t.curveExp, antiDeadzone := t.antiDeadzone,
                          outerSat := t.outerSat, sensCountsMs := t.sensCountsMs, debtDrain := t.debtDrain);
    OptionalsView(f, atof, c1, t, [""] + l3);
    HeaderRead(atof, ViewTuning(t), l3);
    BindingsView(atof, ViewTuning(t), c.bindings, l4);
    var c2 := ViewBindings(ViewTuning(t), c.bindings);
    BurstsView(f, atof, c2, c.bursts, l5);
    HotkeyView(atof, ViewBursts(c2, c.bursts), c.hotkey);
  }

  lemma DefaultScalars()
    ensures var d := Defaults();
            d.recoilAction == 0 && d.recoilX == 0.0 && d.recoilY == 0.0
            && d.adsAction == 0 && d.adsSensScale == 1.0 && d.fireSensScale == 1.0
  {}

  /** The mapper daemon reads a saved configuration as `View` says. */
  lemma MapperReadsSaved(f: Floats, atof: string -> real, c: Config)
    requires Lawful(f) && ReadsBack(f, atof) && Writable(f, c) && ShortLines(Lines(f, c))
    ensures MapperConfig.Load(atof, Some(Save(f, c))) == View(c)
  {
    hide ReadLines, Lines, View, Lawful, ReadsBack, Writable, ShortLines, OneLiners;
    SavedOneLiners(f, c);
    ChunksOfLines(atof, Defaults(), Lines(f, c));
    SavedLinesView(f, atof, c);
  }

  /** The two programs start from the same settings: what the web tool shows when there is no file, saved
      as it is, leaves the mapper daemon with the record it has when there is no file. */
  lemma DefaultsAgree(f: Floats, atof: string -> real)
    requires Lawful(f) && ReadsBack(f, atof) && Writable(f, LoadFile(f, None)) && ShortLines(Lines(f, LoadFile(f, None)))
    ensures MapperConfig.Load(atof, Some(Save(f, LoadFile(f, None)))) == MapperConfig.Load(atof, None)
  {
    MapperReadsSaved(f, atof, EMPTY);
    hide Lines, Lawful, ReadsBack, Writable, ShortLines, ActionId, DefaultKey, DefaultButton;
    NoAction("");
    DefaultScalars();
  }
}
