/** Printing a configuration and reading it back: `Load(Save(c))` is a normal form of `c` that is
    defined on values alone, and `c` survives unchanged exactly when it is canonical. */
module RoundTrip {
  import opened Text
  import opened StableSort
  import opened WebConfig

  // -------------------------------------------------------------- normal form

  function NormalTuning(t: Tuning): Tuning {
    t.(recoilAction := ToLower(Trim(t.recoilAction)),
       adsAction := ToLower(Trim(t.adsAction)),
       adsSensScale := if t.adsSensScale > 0.0 then t.adsSensScale else 1.0,
       fireSensScale := if t.fireSensScale > 0.0 then t.fireSensScale else 1.0)
  }

  function NormalBinding(b: Binding): Binding {
    Binding(b.source, TrimRight(ToUpper(b.code)), Trim(b.action))
  }

  /** Bindings from a known source, normalised, in their original order. */
  function NormalBindings(bs: seq<Binding>): seq<Binding> {
    if bs == [] then []
    else (if KeptBinding(bs[0]) then [NormalBinding(bs[0])] else []) + NormalBindings(bs[1..])
  }

  /** A later entry for the same action: its positive fields win. */
  function Overlay(previous: Burst, b: Burst): Burst {
    Burst(previous.action, b.hz,
          if b.duty > 0.0 then b.duty else previous.duty,
          if b.jitter > 0.0 then b.jitter else previous.jitter,
          if b.dutyJitter > 0.0 then b.dutyJitter else previous.dutyJitter,
          if b.skipProb > 0.0 then b.skipProb else previous.skipProb)
  }

  function MergeBurst(list: seq<Burst>, b: Burst): seq<Burst> {
    var l := WithBurst(list, b.action);
    var i := Position(l, b.action);
    l[i := Overlay(l[i], b)]
  }

  function MergeBursts(list: seq<Burst>, bs: seq<Burst>): seq<Burst>
    decreases |bs|
  {
    if bs == [] then list
    else MergeBursts(if KeptBurst(bs[0]) then MergeBurst(list, bs[0]) else list, bs[1..])
  }

  /** The names of a chord given as a list of entries. */
  function NormalChord(hotkey: seq<string>): seq<string> {
    if hotkey == [] then [] else ChordNames(hotkey[0]) + NormalChord(hotkey[1..])
  }

  function Normal(c: Config): Config {
    Finish(Config(NormalTuning(c.tuning), NormalBindings(c.bindings), MergeBursts([], c.bursts), NormalChord(c.hotkey)))
  }

  // ----------------------------------------------------------- what is writable

  ghost predicate WritableTuning(f: Floats, t: Tuning) {
    && f.isFloat(t.windowMs) && f.isFloat(t.curveExp) && f.isFloat(t.antiDeadzone)
    && f.isFloat(t.outerSat) && f.isFloat(t.sensCountsMs) && f.isFloat(t.debtDrain)
    && f.isFloat(t.recoilX) && f.isFloat(t.recoilY) && f.isFloat(t.adsSensScale) && f.isFloat(t.fireSensScale)
    && NL !in t.recoilAction && NL !in t.adsAction
  }

  predicate WritableBinding(b: Binding) {
    KeptBinding(b) ==> NL !in b.code && '=' !in b.code && NL !in b.action
  }

  ghost predicate WritableBurst(f: Floats, b: Burst) {
    KeptBurst(b) ==>
      && NL !in b.action && '=' !in b.action
      && f.isFloat(b.hz) && f.isFloat(b.duty) && f.isFloat(b.jitter) && f.isFloat(b.dutyJitter) && f.isFloat(b.skipProb)
  }

  /** Every number is a float64, no text holds a newline, and no key part holds '='. */
  ghost predicate Writable(f: Floats, c: Config) {
    && WritableTuning(f, c.tuning)
    && (forall b :: b in c.bindings ==> WritableBinding(b))
    && (forall b :: b in c.bursts ==> WritableBurst(f, b))
    && (forall h :: h in c.hotkey ==> NL !in h)
  }

  // ------------------------------------------------------------ folding lines

  lemma {:induction false} ApplyAppend(f: Floats, c: Config, a: seq<string>, b: seq<string>)
    ensures ApplyLines(f, c, a + b) == ApplyLines(f, ApplyLines(f, c, a), b)
    decreases |a|
  {
    if a == [] {
      assert a + b == b;
    } else {
      assert (a + b)[1..] == a[1..] + b;
      ApplyAppend(f, ApplyLine(f, c, a[0]), a[1..], b);
    }
  }

  lemma ApplyNone(f: Floats, c: Config)
    ensures ApplyLines(f, c, []) == c
  {}

  lemma ApplyOne(f: Floats, c: Config, line: string)
    ensures ApplyLines(f, c, [line]) == ApplyLine(f, c, line)
  {
    assert ApplyLines(f, ApplyLine(f, c, line), [line][1..]) == ApplyLine(f, c, line);
  }

  lemma ApplyOpt(f: Floats, c: Config, keep: bool, line: string, rest: seq<string>)
    ensures ApplyLines(f, c, Opt(keep, line) + rest) == ApplyLines(f, if keep then ApplyLine(f, c, line) else c, rest)
  {
    ApplyAppend(f, c, Opt(keep, line), rest);
    ApplyOne(f, c, line);
  }

  // ------------------------------------------------------------------- tuning

  lemma WrittenPair(k: string, v: string)
    requires k != "" && Trimmed(k) && k[0] != '#' && '=' !in k
    ensures ParseLine(k + "=" + v) == Pair(k, Trim(v))
  {
    ParseWritten(k, v);
  }

  lemma NumberLine(f: Floats, c: Config, k: string, x: real)
    requires Lawful(f) && f.isFloat(x)
    requires k != "" && Trimmed(k) && k[0] != '#' && '=' !in k
    ensures ApplyLine(f, c, k + "=" + f.format(x)) == ApplyPair(f, c, k, f.format(x))
    ensures f.parse(f.format(x)) == x
  {
    hide ParseLine, ApplyPair;
    WrittenPair(k, f.format(x));
    TrimFixed(f.format(x));
  }

  /** A line that sets one tuning field. */
  lemma TuningLine(f: Floats, c: Config, k: string, x: real, t: Tuning)
    requires Lawful(f) && f.isFloat(x)
    requires k != "" && Trimmed(k) && k[0] != '#' && '=' !in k
    requires SetTuning(f, c.tuning, k, f.format(x)) == Some(t)
    ensures ApplyLine(f, c, k + "=" + f.format(x)) == c.(tuning := t)
  {
    hide SetTuning, ApplyLine;
    NumberLine(f, c, k, x);
  }

  lemma ActionLine(f: Floats, c: Config, k: string, v: string, t: Tuning)
    requires k != "" && Trimmed(k) && k[0] != '#' && '=' !in k
    requires SetTuning(f, c.tuning, k, Trim(v)) == Some(t)
    ensures ApplyLine(f, c, k + "=" + v) == c.(tuning := t)
  {
    hide SetTuning, ParseLine;
    WrittenPair(k, v);
  }

  lemma NumbersRead(f: Floats, t: Tuning)
    requires Lawful(f) && WritableTuning(f, t)
    ensures ApplyLines(f, EMPTY, TuningLines(f, t))
         == EMPTY.(tuning := DEFAULT_TUNING.(windowMs := t.windowMs, curveExp := t.curveExp, antiDeadzone := t.antiDeadzone,
                                             outerSat := t.outerSat, sensCountsMs := t.sensCountsMs, debtDrain := t.debtDrain))
  {
    hide ApplyLine, ApplyLines;
    var ls := TuningLines(f, t);
    var c1 := EMPTY.(tuning := EMPTY.tuning.(windowMs := t.windowMs));
    TuningLine(f, EMPTY, "window_ms", t.windowMs, c1.tuning);
    var c2 := c1.(tuning := c1.tuning.(curveExp := t.curveExp));
    TuningLine(f, c1, "curve_exp", t.curveExp, c2.tuning);
    var c3 := c2.(tuning := c2.tuning.(antiDeadzone := t.antiDeadzone));
    TuningLine(f, c2, "anti_deadzone", t.antiDeadzone, c3.tuning);
    var c4 := c3.(tuning := c3.tuning.(outerSat := t.outerSat));
    TuningLine(f, c3, "outer_sat", t.outerSat, c4.tuning);
    var c5 := c4.(tuning := c4.tuning.(sensCountsMs := t.sensCountsMs));
    TuningLine(f, c4, "sens_counts_ms", t.sensCountsMs, c5.tuning);
    var c6 := c5.(tuning := c5.tuning.(debtDrain := t.debtDrain));
    TuningLine(f, c5, "debt_drain", t.debtDrain, c6.tuning);
    ApplySix(f, EMPTY, ls, [c1, c2, c3, c4, c5, c6]);
  }

  lemma ApplySix(f: Floats, c: Config, ls: seq<string>, cs: seq<Config>)
    requires |ls| == |cs| == 6
    requires cs[0] == ApplyLine(f, c, ls[0])
    requires forall i :: 1 <= i < 6 ==> cs[i] == ApplyLine(f, cs[i - 1], ls[i])
    ensures ApplyLines(f, c, ls) == cs[5]
  {
    hide ApplyLine;
    assert ls[1..][1..] == ls[2..] && ls[2..][1..] == ls[3..] && ls[3..][1..] == ls[4..]
        && ls[4..][1..] == ls[5..] && ls[5..][1..] == [];
    assert ApplyLines(f, cs[4], ls[5..]) == cs[5];
    assert ApplyLines(f, cs[3], ls[4..]) == cs[5];
    assert ApplyLines(f, cs[2], ls[3..]) == cs[5];
    assert ApplyLines(f, cs[1], ls[2..]) == cs[5];
    assert ApplyLines(f, cs[0], ls[1..]) == cs[5];
  }

  lemma ActionRead(v: string)
    ensures ToLower(Trim(Trim(v))) == ToLower(Trim(v))
  {
    TrimIsTrimmed(v);
    TrimFixed(Trim(v));
  }

  lemma RecoilLines(f: Floats, c: Config, t: Tuning, rest: seq<string>)
    requires Lawful(f) && WritableTuning(f, t)
    requires c.tuning.recoilAction == "" && c.tuning.recoilX == c.tuning.recoilY == 0.0
    ensures ApplyLines(f, c,
      Opt(t.recoilAction != "", "recoil.action" + "=" + t.recoilAction)
      + (Opt(t.recoilX != 0.0, "recoil.x" + "=" + f.format(t.recoilX))
      + (Opt(t.recoilY != 0.0, "recoil.y" + "=" + f.format(t.recoilY)) + rest)))
      == ApplyLines(f, c.(tuning := c.tuning.(recoilAction := ToLower(Trim(t.recoilAction)), recoilX := t.recoilX, recoilY := t.recoilY)), rest)
  {
    hide ApplyLine, ApplyLines;
    ActionRead(t.recoilAction);
    var l3 := Opt(t.recoilY != 0.0, "recoil.y" + "=" + f.format(t.recoilY)) + rest;
    var l2 := Opt(t.recoilX != 0.0, "recoil.x" + "=" + f.format(t.recoilX)) + l3;
    var c1 := c.(tuning := c.tuning.(recoilAction := ToLower(Trim(t.recoilAction))));
    var c2 := c1.(tuning := c1.tuning.(recoilX := t.recoilX));
    var c3 := c2.(tuning := c2.tuning.(recoilY := t.recoilY));
    ApplyOpt(f, c, t.recoilAction != "", "recoil.action" + "=" + t.recoilAction, l2);
    ActionLine(f, c, "recoil.action", t.recoilAction, c1.tuning);
    ApplyOpt(f, c1, t.recoilX != 0.0, "recoil.x" + "=" + f.format(t.recoilX), l3);
    TuningLine(f, c1, "recoil.x", t.recoilX, c2.tuning);
    ApplyOpt(f, c2, t.recoilY != 0.0, "recoil.y" + "=" + f.format(t.recoilY), rest);
    TuningLine(f, c2, "recoil.y", t.recoilY, c3.tuning);
  }

  lemma OptionalsRead(f: Floats, c: Config, t: Tuning)
    requires Lawful(f) && WritableTuning(f, t)
    requires c.tuning == NormalTuning(t).(recoilAction := "", recoilX := 0.0, recoilY := 0.0,
                                          adsAction := "", adsSensScale := 1.0, fireSensScale := 1.0)
    ensures ApplyLines(f, c, OptionalTuningLines(f, t)) == c.(tuning := NormalTuning(t))
  {
    hide ApplyLine, ApplyLines, Opt, ToLower, Trim;
    var n := NormalTuning(t);
    var scales :=
      Opt(t.adsSensScale > 0.0 && t.adsSensScale != 1.0, "ads.sens_scale" + "=" + f.format(t.adsSensScale))
      + Opt(t.fireSensScale > 0.0 && t.fireSensScale != 1.0, "fire.sens_scale" + "=" + f.format(t.fireSensScale));
    var rest := Opt(t.adsAction != "", "ads.action" + "=" + t.adsAction) + scales;
    RecoilLines(f, c, t, rest);
    var c3 := c.(tuning := c.tuning.(recoilAction := n.recoilAction, recoilX := n.recoilX, recoilY := n.recoilY));
    AdsLine(f, c3, t, scales);
    var c4 := c3.(tuning := c3.tuning.(adsAction := n.adsAction));
    var c5 := c4.(tuning := c4.tuning.(adsSensScale := n.adsSensScale));
    var c6 := c5.(tuning := c5.tuning.(fireSensScale := n.fireSensScale));
    ScaleLines(f, c4, t, c5, c6);
    assert c.(tuning := n) == c6;
  }

  lemma AdsLine(f: Floats, c: Config, t: Tuning, rest: seq<string>)
    requires c.tuning.adsAction == ""
    ensures ApplyLines(f, c, Opt(t.adsAction != "", "ads.action" + "=" + t.adsAction) + rest)
         == ApplyLines(f, c.(tuning := c.tuning.(adsAction := ToLower(Trim(t.adsAction)))), rest)
  {
    hide ApplyLine, ApplyLines;
    ActionRead(t.adsAction);
    ApplyOpt(f, c, t.adsAction != "", "ads.action" + "=" + t.adsAction, rest);
    ActionLine(f, c, "ads.action", t.adsAction, c.tuning.(adsAction := ToLower(Trim(t.adsAction))));
  }

  lemma AdsScaleLine(f: Floats, c: Config, x: real)
    requires Lawful(f) && f.isFloat(x)
    ensures ApplyLine(f, c, "ads.sens_scale" + "=" + f.format(x)) == c.(tuning := c.tuning.(adsSensScale := x))
  {
    hide ApplyLine;
    TuningLine(f, c, "ads.sens_scale", x, c.tuning.(adsSensScale := x));
  }

  lemma FireScaleLine(f: Floats, c: Config, x: real)
    requires Lawful(f) && f.isFloat(x)
    ensures ApplyLine(f, c, "fire.sens_scale" + "=" + f.format(x)) == c.(tuning := c.tuning.(fireSensScale := x))
  {
    hide ApplyLine;
    TuningLine(f, c, "fire.sens_scale", x, c.tuning.(fireSensScale := x));
  }

  lemma ScaleLines(f: Floats, c: Config, t: Tuning, c1: Config, c2: Config)
    requires Lawful(f) && WritableTuning(f, t)
    requires c.tuning.adsSensScale == c.tuning.fireSensScale == 1.0
    requires c1 == c.(tuning := c.tuning.(adsSensScale := NormalTuning(t).adsSensScale))
    requires c2 == c1.(tuning := c1.tuning.(fireSensScale := NormalTuning(t).fireSensScale))
    ensures ApplyLines(f, c,
      Opt(t.adsSensScale > 0.0 && t.adsSensScale != 1.0, "ads.sens_scale" + "=" + f.format(t.adsSensScale))
      + Opt(t.fireSensScale > 0.0 && t.fireSensScale != 1.0, "fire.sens_scale" + "=" + f.format(t.fireSensScale))) == c2
  {
    hide ApplyLine, ApplyLines, Opt, Lawful, SetTuning;
    assert ApplyLines(f, c2, []) == c2 by { ApplyNone(f, c2); }
    var ads := t.adsSensScale > 0.0 && t.adsSensScale != 1.0;
    var fire := t.fireSensScale > 0.0 && t.fireSensScale != 1.0;
    var last := Opt(fire, "fire.sens_scale" + "=" + f.format(t.fireSensScale));
    ApplyOpt(f, c, ads, "ads.sens_scale" + "=" + f.format(t.adsSensScale), last);
    if ads { AdsScaleLine(f, c, t.adsSensScale); }
    assert last == last + [];
    ApplyOpt(f, c1, fire, "fire.sens_scale" + "=" + f.format(t.fireSensScale), []);
    if fire { FireScaleLine(f, c1, t.fireSensScale); }
  }

  // ----------------------------------------------------------------- bindings

  /** A key that starts like a section prefix is none of the tuning names. */
  lemma NotTuning(f: Floats, t: Tuning, k: string, v: string)
    requires k != "" && k[0] in "kmbh"
    ensures SetTuning(f, t, k, v).None?
  {
    assert "window_ms"[0] == 'w' && "curve_exp"[0] == 'c' && "anti_deadzone"[0] == 'a' && "outer_sat"[0] == 'o'
        && "sens_counts_ms"[0] == 's' && "debt_drain"[0] == 'd' && "recoil.action"[0] == 'r' && "recoil.x"[0] == 'r'
        && "recoil.y"[0] == 'r' && "ads.action"[0] == 'a' && "ads.sens_scale"[0] == 'a' && "fire.sens_scale"[0] == 'f';
  }

  /** A binding line reads back as its section key and its trimmed action. */
  lemma BindingPair(b: Binding)
    requires KeptBinding(b) && WritableBinding(b)
    ensures ParseLine(BindingLine(b)) == Pair(b.source + "." + TrimRight(ToUpper(b.code)), Trim(b.action))
  {
    hide ParseLine;
    var p := b.source + ".";
    UpperKeeps(b.code, '=');
    ParseWritten(p + ToUpper(b.code), b.action);
    TrimRightAppend(p, ToUpper(b.code));
  }

  lemma BindingRead(f: Floats, c: Config, b: Binding)
    requires KeptBinding(b) && WritableBinding(b)
    ensures ApplyLine(f, c, BindingLine(b)) == c.(bindings := c.bindings + [NormalBinding(b)])
  {
    hide BindingLine, ParseLine, SetTuning;
    BindingPair(b);
    var p, x := b.source + ".", TrimRight(ToUpper(b.code));
    var k := p + x;
    NotTuning(f, c.tuning, k, Trim(b.action));
    PrefixOfConcat(p, x);
    if b.source == "key" {
      assert p == "key.";
    } else {
      assert p == "mouse.";
      PrefixDiffers(k, "key.", 0);
    }
  }

  lemma {:induction false} BindingsRead(f: Floats, c: Config, bs: seq<Binding>)
    requires forall b :: b in bs ==> WritableBinding(b)
    ensures ApplyLines(f, c, BindingLines(bs)) == c.(bindings := c.bindings + NormalBindings(bs))
    decreases |bs|
  {
    hide ApplyLine, BindingLine;
    if bs == [] {
      assert c.bindings + [] == c.bindings;
    } else {
      hide ApplyLines, NormalBinding, Opt;
      var own := if KeptBinding(bs[0]) then [NormalBinding(bs[0])] else [];
      var c1 := c.(bindings := c.bindings + own);
      ApplyOpt(f, c, KeptBinding(bs[0]), BindingLine(bs[0]), BindingLines(bs[1..]));
      if KeptBinding(bs[0]) { BindingRead(f, c, bs[0]); } else { assert c1 == c by { assert c.bindings + [] == c.bindings; } }
      BindingsRead(f, c1, bs[1..]);
      assert (c.bindings + own) + NormalBindings(bs[1..]) == c.bindings + (own + NormalBindings(bs[1..]));
    }
  }

  // ------------------------------------------------------------------- bursts

  /** A burst line reads back as its key and the number. */
  lemma BurstPair(f: Floats, action: string, field: string, x: real)
    requires Lawful(f) && f.isFloat(x)
    requires '=' !in action && field != "" && Trimmed(field) && '.' !in field && '=' !in field
    ensures ParseLine(BurstLine(f, action, field, x)) == Pair("burst." + (action + "." + field), f.format(x))
    ensures AfterLast(action + "." + field, '.') == |action| + 1
  {
    hide ParseLine;
    var k := "burst." + (action + "." + field);
    assert "burst." + action + "." + field + "=" + f.format(x) == k + "=" + f.format(x);
    assert k[|k| - 1] == field[|field| - 1];
    WrittenPair(k, f.format(x));
    TrimFixed(f.format(x));
    assert action + "." + field == action + ['.'] + field;
    AfterLastUnique(action, field, '.');
  }

  lemma BurstRead(f: Floats, c: Config, action: string, field: string, x: real)
    requires Lawful(f) && f.isFloat(x)
    requires '=' !in action && field != "" && Trimmed(field) && '.' !in field && '=' !in field
    ensures ApplyLine(f, c, BurstLine(f, action, field, x)) == c.(bursts := SetBurst(c.bursts, action, field, x))
  {
    hide ParseLine, BurstLine, SetTuning, SetBurst;
    BurstPair(f, action, field, x);
    var rest := action + "." + field;
    var k := "burst." + rest;
    NotTuning(f, c.tuning, k, f.format(x));
    PrefixDiffers(k, "key.", 0);
    PrefixDiffers(k, "mouse.", 0);
    PrefixOfConcat("burst.", rest);
    assert rest[..|action|] == action && rest[|action| + 1..] == field;
  }

  /** Setting a second field of the same action updates the same entry. */
  lemma SetAgain(list: seq<Burst>, action: string, field: string, x: real)
    requires Position(list, action) < |list|
    ensures var i := Position(list, action); SetBurst(list, action, field, x) == list[i := SetField(list[i], field, x)]
  {}

  lemma PositionKept(list: seq<Burst>, i: nat, b: Burst)
    requires i < |list| && b.action == list[i].action && i == Position(list, b.action)
    ensures Position(list[i := b], b.action) == i
  {
    var l := list[i := b];
    var p := Position(l, b.action);
    assert l[i].action == b.action;
    assert forall j :: 0 <= j < i ==> l[j] == list[j];
  }

  /** An optional field line, when entry `i` of the list holds `o`. */
  lemma BurstOpt(f: Floats, c: Config, l: seq<Burst>, i: nat, o: Burst, keep: bool, field: string, x: real, rest: seq<string>)
    requires Lawful(f) && (keep ==> f.isFloat(x))
    requires '=' !in o.action && field != "" && Trimmed(field) && '.' !in field && '=' !in field
    requires i < |l| && l[i].action == o.action && Position(l, o.action) == i
    ensures ApplyLines(f, c.(bursts := l[i := o]), Opt(keep, BurstLine(f, o.action, field, x)) + rest)
         == ApplyLines(f, c.(bursts := l[i := if keep then SetField(o, field, x) else o]), rest)
  {
    hide ApplyLine, ApplyLines, BurstLine;
    var c0 := c.(bursts := l[i := o]);
    ApplyOpt(f, c0, keep, BurstLine(f, o.action, field, x), rest);
    if keep {
      PositionKept(l, i, o);
      BurstRead(f, c0, o.action, field, x);
      SetAgain(c0.bursts, o.action, field, x);
      assert l[i := o][i := SetField(o, field, x)] == l[i := SetField(o, field, x)];
    }
  }

  lemma BurstMerged(f: Floats, c: Config, b: Burst)
    requires Lawful(f) && KeptBurst(b) && WritableBurst(f, b)
    ensures ApplyLines(f, c, LinesOfBurst(f, b)) == c.(bursts := MergeBurst(c.bursts, b))
  {
    hide ApplyLine, ApplyLines, BurstLine, WithBurst, Position;
    var l := WithBurst(c.bursts, b.action);
    var i := Position(l, b.action);
    var l5 := Opt(b.skipProb > 0.0, BurstLine(f, b.action, "skip_prob", b.skipProb));
    var l4 := Opt(b.dutyJitter > 0.0, BurstLine(f, b.action, "duty_jitter", b.dutyJitter)) + l5;
    var l3 := Opt(b.jitter > 0.0, BurstLine(f, b.action, "jitter", b.jitter)) + l4;
    var l2 := Opt(b.duty > 0.0, BurstLine(f, b.action, "duty", b.duty)) + l3;
    var o1 := l[i].(hz := b.hz);
    var o2 := o1.(duty := if b.duty > 0.0 then b.duty else o1.duty);
    var o3 := o2.(jitter := if b.jitter > 0.0 then b.jitter else o2.jitter);
    var o4 := o3.(dutyJitter := if b.dutyJitter > 0.0 then b.dutyJitter else o3.dutyJitter);
    HzRead(f, c, b, l2);
    BurstOpt(f, c, l, i, o1, b.duty > 0.0, "duty", b.duty, l3);
    BurstOpt(f, c, l, i, o2, b.jitter > 0.0, "jitter", b.jitter, l4);
    BurstOpt(f, c, l, i, o3, b.dutyJitter > 0.0, "duty_jitter", b.dutyJitter, l5);
    assert l5 == l5 + [];
    BurstOpt(f, c, l, i, o4, b.skipProb > 0.0, "skip_prob", b.skipProb, []);
    ApplyNone(f, c.(bursts := l[i := Overlay(l[i], b)]));
  }

  lemma HzRead(f: Floats, c: Config, b: Burst, rest: seq<string>)
    requires Lawful(f) && KeptBurst(b) && WritableBurst(f, b)
    ensures var l := WithBurst(c.bursts, b.action);
            var i := Position(l, b.action);
            ApplyLines(f, c, [BurstLine(f, b.action, "hz", b.hz)] + rest) == ApplyLines(f, c.(bursts := l[i := l[i].(hz := b.hz)]), rest)
  {
    hide ApplyLine, ApplyLines, BurstLine, WithBurst, Position;
    var first := BurstLine(f, b.action, "hz", b.hz);
    ApplyAppend(f, c, [first], rest);
    ApplyOne(f, c, first);
    BurstRead(f, c, b.action, "hz", b.hz);
  }

  lemma {:induction false} BurstsRead(f: Floats, c: Config, bs: seq<Burst>)
    requires Lawful(f) && forall b :: b in bs ==> WritableBurst(f, b)
    ensures ApplyLines(f, c, BurstLines(f, bs)) == c.(bursts := MergeBursts(c.bursts, bs))
    decreases |bs|
  {
    if bs != [] {
      var c1 := if KeptBurst(bs[0]) then c.(bursts := MergeBurst(c.bursts, bs[0])) else c;
      if KeptBurst(bs[0]) {
        ApplyAppend(f, c, LinesOfBurst(f, bs[0]), BurstLines(f, bs[1..]));
        BurstMerged(f, c, bs[0]);
      } else {
        assert [] + BurstLines(f, bs[1..]) == BurstLines(f, bs[1..]);
      }
      BurstsRead(f, c1, bs[1..]);
    }
  }

  // -------------------------------------------------------------------- chord

  /** The pieces of a text with one character more in front. */
  function PutFirst(c: char, sep: char, pieces: seq<string>): seq<string>
    requires pieces != []
  {
    if c == sep then [""] + pieces else [[c] + pieces[0]] + pieces[1..]
  }

  lemma SplitFirstChar(s: string, sep: char)
    requires s != ""
    ensures Split(s, sep) == PutFirst(s[0], sep, Split(s[1..], sep))
  {}

  lemma PutFirstConcat(c: char, sep: char, a: seq<string>, b: seq<string>)
    requires a != []
    ensures PutFirst(c, sep, a + b) == PutFirst(c, sep, a) + b
  {
    TailOfConcat(a, b);
    if c == sep {
      ConcatAssociates([""], a, b);
    } else {
      ConcatAssociates([[c] + a[0]], a[1..], b);
    }
  }

  lemma {:induction false} SplitConcat(a: string, b: string, sep: char)
    ensures Split(a + [sep] + b, sep) == Split(a, sep) + Split(b, sep)
  {
    hide Split, PutFirst;
    var s := a + [sep] + b;
    SplitFirstChar(s, sep);
    if a == "" {
      assert s == [sep] + b && s[1..] == b;
      SplitNothing(sep);
      PutSeparator(sep, Split(b, sep));
    } else {
      assert s[1..] == a[1..] + [sep] + b && s[0] == a[0];
      SplitFirstChar(a, sep);
      SplitConcat(a[1..], b, sep);
      PutFirstConcat(a[0], sep, Split(a[1..], sep), Split(b, sep));
    }
  }

  lemma SplitNothing(sep: char)
    ensures Split("", sep) == [""]
  {}

  lemma PutSeparator(sep: char, pieces: seq<string>)
    requires pieces != []
    ensures PutFirst(sep, sep, pieces) == [""] + pieces
  {}

  lemma {:induction false} KeyNamesConcat(a: seq<string>, b: seq<string>)
    ensures KeyNames(a + b) == KeyNames(a) + KeyNames(b)
  {
    if a == [] {
      assert a + b == b;
    } else {
      assert (a + b)[1..] == a[1..] + b;
      KeyNamesConcat(a[1..], b);
    }
  }

  /** Pieces that differ only in surrounding blanks give the same names. */
  lemma {:induction false} KeyNamesTrimmed(a: seq<string>, b: seq<string>)
    requires |a| == |b| && forall i :: 0 <= i < |a| ==> Trim(a[i]) == Trim(b[i])
    ensures KeyNames(a) == KeyNames(b)
  {
    if a != [] { KeyNamesTrimmed(a[1..], b[1..]); }
  }

  lemma SpaceSurvives(c: char)
    ensures IsSpace(CommaToPlus(c)) <==> IsSpace(c)
    ensures IsSpace(c) ==> c != '+' && CommaToPlus(c) == c
  {}

  lemma {:induction false} NamesIgnoreLeading(v: string)
    ensures ChordNames(TrimLeft(v)) == ChordNames(v)
  {
    if v != "" && IsSpace(v[0]) {
      SpaceSurvives(v[0]);
      var w := MapChars(CommaToPlus, v);
      assert MapChars(CommaToPlus, v[1..]) == w[1..];
      KeyNamesTrimmed(Split(w, '+'), Split(w[1..], '+'));
      NamesIgnoreLeading(v[1..]);
    }
  }

  /** The last piece of a split, and what stands before it. */
  lemma SplitLast(a: string, b: string, sep: char)
    requires sep !in b
    ensures Split(a + [sep] + b, sep) == Split(a, sep) + [b]
  {
    hide Split;
    SplitConcat(a, b, sep);
    SplitAbsent(b, sep);
  }

  lemma SplitSnoc(s: string, c: char, sep: char)
    requires c != sep
    ensures var p := Split(s, sep); Split(s + [c], sep) == p[..|p| - 1] + [p[|p| - 1] + [c]]
  {
    hide Split, AfterLast;
    var n := AfterLast(s, sep);
    var b := s[n..];
    if n > 0 {
      var a := s[..n - 1];
      assert s == a + [sep] + b;
      assert s + [c] == a + [sep] + (b + [c]);
      SplitLast(a, b, sep);
      SplitLast(a, b + [c], sep);
      LastReplaced(Split(a, sep), b);
    } else {
      assert s == b;
      SplitAbsent(s, sep);
      SplitAbsent(s + [c], sep);
      LastReplaced([], s);
      assert [] + [s + [c]] == [s + [c]];
    }
  }

  lemma LastReplaced(init: seq<string>, x: string)
    ensures var p := init + [x]; p[..|p| - 1] == init && p[|p| - 1] == x
  {}

  lemma NamesIgnoreLast(u: string, c: char)
    requires IsSpace(c)
    ensures ChordNames(u + [c]) == ChordNames(u)
  {
    hide Split, Trim, KeyNames;
    SpaceSurvives(c);
    var w := MapChars(CommaToPlus, u);
    assert MapChars(CommaToPlus, u + [c]) == w + [c];
    SplitSnoc(w, c, '+');
    var p := Split(w, '+');
    TrimAppendSpaces(p[|p| - 1], [c]);
    KeyNamesTrimmed(Split(w + [c], '+'), p);
  }

  lemma {:induction false} NamesIgnoreTrailing(v: string)
    ensures ChordNames(TrimRight(v)) == ChordNames(v)
  {
    hide ChordNames;
    if v != "" && IsSpace(v[|v| - 1]) {
      assert v == v[..|v| - 1] + [v[|v| - 1]];
      NamesIgnoreLast(v[..|v| - 1], v[|v| - 1]);
      NamesIgnoreTrailing(v[..|v| - 1]);
    }
  }

  lemma NamesIgnoreBlanks(v: string)
    ensures ChordNames(Trim(v)) == ChordNames(v)
  {
    NamesIgnoreLeading(v);
    NamesIgnoreTrailing(TrimLeft(v));
  }

  lemma {:induction false} JoinedNames(hotkey: seq<string>)
    ensures ChordNames(Join(hotkey, '+')) == NormalChord(hotkey)
  {
    if hotkey == [] {
      assert MapChars(CommaToPlus, "") == "";
    } else if |hotkey| == 1 {
      assert NormalChord(hotkey[1..]) == [];
    } else {
      var h, t := hotkey[0], Join(hotkey[1..], '+');
      var m := MapChars(CommaToPlus, h + ['+'] + t);
      assert m == MapChars(CommaToPlus, h) + ['+'] + MapChars(CommaToPlus, t);
      SplitConcat(MapChars(CommaToPlus, h), MapChars(CommaToPlus, t), '+');
      KeyNamesConcat(SplitChord(h), SplitChord(t));
      JoinedNames(hotkey[1..]);
    }
  }

  lemma HotkeyRead(f: Floats, c: Config, hotkey: seq<string>)
    requires c.hotkey == []
    ensures ApplyLines(f, c, HotkeyLines(hotkey)) == c.(hotkey := NormalChord(hotkey))
  {
    hide ApplyLine;
    var v := Join(hotkey, '+');
    ApplyNone(f, c);
    ApplyOne(f, c, "hotkey.mode_toggle" + "=" + v);
    if hotkey != [] { ChordLine(f, c, v); }
    JoinedNames(hotkey);
  }

  lemma ChordLine(f: Floats, c: Config, v: string)
    ensures ApplyLine(f, c, "hotkey.mode_toggle" + "=" + v) == c.(hotkey := ChordNames(v))
  {
    hide ParseLine, SetTuning, ChordNames;
    var k := "hotkey.mode_toggle";
    WrittenPair(k, v);
    NotTuning(f, c.tuning, k, Trim(v));
    PrefixDiffers(k, "key.", 0);
    PrefixDiffers(k, "mouse.", 0);
    PrefixDiffers(k, "burst.", 0);
    NamesIgnoreBlanks(v);
  }

  // ---------------------------------------------------------------- the whole

  predicate OneLiners(lines: seq<string>) {
    forall l :: l in lines ==> NL !in l
  }

  lemma OneLinersOpt(keep: bool, k: string, v: string, rest: seq<string>)
    requires keep ==> NL !in k && NL !in v
    requires OneLiners(rest)
    ensures OneLiners(Opt(keep, k + "=" + v) + rest)
  {}

  lemma TuningOneLiners(f: Floats, t: Tuning)
    requires Lawful(f) && WritableTuning(f, t)
    ensures OneLiners(TuningLines(f, t))
  {
    OneLinersOpt(true, "debt_drain", f.format(t.debtDrain), []);
    OneLinersOpt(true, "sens_counts_ms", f.format(t.sensCountsMs), []);
    OneLinersOpt(true, "outer_sat", f.format(t.outerSat), []);
    OneLinersOpt(true, "anti_deadzone", f.format(t.antiDeadzone), []);
    OneLinersOpt(true, "curve_exp", f.format(t.curveExp), []);
    OneLinersOpt(true, "window_ms", f.format(t.windowMs), []);
    var ls := TuningLines(f, t);
    forall l | l in ls ensures NL !in l {
      assert l in Opt(true, l) + [];
    }
  }

  lemma OptionalOneLiners(f: Floats, t: Tuning)
    requires Lawful(f) && WritableTuning(f, t)
    ensures OneLiners(OptionalTuningLines(f, t))
  {
    hide Opt, OneLiners;
    var l6 := Opt(t.fireSensScale > 0.0 && t.fireSensScale != 1.0, "fire.sens_scale" + "=" + f.format(t.fireSensScale));
    assert OneLiners([]) by { NoLines(); }
    OneLinersOpt(t.fireSensScale > 0.0 && t.fireSensScale != 1.0, "fire.sens_scale", f.format(t.fireSensScale), []);
    assert l6 + [] == l6;
    var l5 := Opt(t.adsSensScale > 0.0 && t.adsSensScale != 1.0, "ads.sens_scale" + "=" + f.format(t.adsSensScale)) + l6;
    OneLinersOpt(t.adsSensScale > 0.0 && t.adsSensScale != 1.0, "ads.sens_scale", f.format(t.adsSensScale), l6);
    var l4 := Opt(t.adsAction != "", "ads.action" + "=" + t.adsAction) + l5;
    OneLinersOpt(t.adsAction != "", "ads.action", t.adsAction, l5);
    var l3 := Opt(t.recoilY != 0.0, "recoil.y" + "=" + f.format(t.recoilY)) + l4;
    OneLinersOpt(t.recoilY != 0.0, "recoil.y", f.format(t.recoilY), l4);
    var l2 := Opt(t.recoilX != 0.0, "recoil.x" + "=" + f.format(t.recoilX)) + l3;
    OneLinersOpt(t.recoilX != 0.0, "recoil.x", f.format(t.recoilX), l3);
    OneLinersOpt(t.recoilAction != "", "recoil.action", t.recoilAction, l2);
  }

  lemma NoLines()
    ensures OneLiners([])
  {}

  lemma OneLinersConcat(a: seq<string>, b: seq<string>)
    requires OneLiners(a) && OneLiners(b)
    ensures OneLiners(a + b)
  {}

  lemma {:induction false} BindingOneLiners(bs: seq<Binding>)
    requires forall b :: b in bs ==> WritableBinding(b)
    ensures OneLiners(BindingLines(bs))
  {
    if bs != [] {
      assert bs[0] in bs && "key." == "key" + "." && "mouse." == "mouse" + ".";
      UpperKeeps(bs[0].code, NL);
      BindingOneLiners(bs[1..]);
      OneLinersOpt(KeptBinding(bs[0]), bs[0].source + "." + ToUpper(bs[0].code), bs[0].action, BindingLines(bs[1..]));
    }
  }

  lemma BurstOneLiners(f: Floats, b: Burst)
    requires Lawful(f) && KeptBurst(b) && WritableBurst(f, b)
    ensures OneLiners(LinesOfBurst(f, b))
  {
    hide Opt, OneLiners;
    assert OneLiners([]) by { NoLines(); }
    var k := "burst." + b.action + ".";
    var l5 := Opt(b.skipProb > 0.0, BurstLine(f, b.action, "skip_prob", b.skipProb));
    OneLinersOpt(b.skipProb > 0.0, k + "skip_prob", f.format(b.skipProb), []);
    assert l5 + [] == l5;
    var l4 := Opt(b.dutyJitter > 0.0, BurstLine(f, b.action, "duty_jitter", b.dutyJitter)) + l5;
    OneLinersOpt(b.dutyJitter > 0.0, k + "duty_jitter", f.format(b.dutyJitter), l5);
    var l3 := Opt(b.jitter > 0.0, BurstLine(f, b.action, "jitter", b.jitter)) + l4;
    OneLinersOpt(b.jitter > 0.0, k + "jitter", f.format(b.jitter), l4);
    var l2 := Opt(b.duty > 0.0, BurstLine(f, b.action, "duty", b.duty)) + l3;
    OneLinersOpt(b.duty > 0.0, k + "duty", f.format(b.duty), l3);
    assert Opt(true, k + "hz" + "=" + f.format(b.hz)) == [k + "hz" + "=" + f.format(b.hz)] by { OptKept(k + "hz" + "=" + f.format(b.hz)); }
    OneLinersOpt(true, k + "hz", f.format(b.hz), l2);
  }

  lemma OptKept(line: string)
    ensures Opt(true, line) == [line]
  {}

  lemma {:induction false} BurstsOneLiners(f: Floats, bs: seq<Burst>)
    requires Lawful(f) && forall b :: b in bs ==> WritableBurst(f, b)
    ensures OneLiners(BurstLines(f, bs))
  {
    if bs != [] {
      BurstsOneLiners(f, bs[1..]);
      if KeptBurst(bs[0]) { BurstOneLiners(f, bs[0]); }
    }
  }

  lemma {:induction false} JoinHasNoNewline(pieces: seq<string>)
    requires forall h :: h in pieces ==> NL !in h
    ensures NL !in Join(pieces, '+')
  {
    if |pieces| > 1 { JoinHasNoNewline(pieces[1..]); }
  }

  lemma SavedOneLiners(f: Floats, c: Config)
    requires Lawful(f) && Writable(f, c)
    ensures OneLiners(Lines(f, c))
  {
    hide Lawful, Opt, OneLiners, TuningLines, OptionalTuningLines, BindingLines, BurstLines, Join;
    BindingOneLiners(c.bindings);
    BurstsOneLiners(f, c.bursts);
    TuningOneLiners(f, c.tuning);
    OptionalOneLiners(f, c.tuning);
    JoinHasNoNewline(c.hotkey);
    NoLines();
    OneLinersOpt(|c.hotkey| > 0, "hotkey.mode_toggle", Join(c.hotkey, '+'), []);
    var l5 := HotkeyLines(c.hotkey);
    assert l5 + [] == l5;
    var l4 := BurstLines(f, c.bursts) + l5;
    OneLinersConcat(BurstLines(f, c.bursts), l5);
    var l3 := BindingLines(c.bindings) + l4;
    OneLinersConcat(BindingLines(c.bindings), l4);
    FixedOneLiners();
    OneLinersConcat([""], l3);
    var l2 := OptionalTuningLines(f, c.tuning) + ([""] + l3);
    OneLinersConcat(OptionalTuningLines(f, c.tuning), [""] + l3);
    OneLinersConcat(TuningLines(f, c.tuning), l2);
    OneLinersConcat([HEADER, ""], TuningLines(f, c.tuning) + l2);
  }

  lemma FixedOneLiners()
    ensures OneLiners([HEADER, ""]) && OneLiners([""])
  {
    assert NL !in " Managed by kbm-web. Hand " && NL !in "edits are preserved on ";
    assert NL !in "read but get rewritten on" && NL !in " save.";
  }

  lemma HeaderSkips()
    ensures ParseLine(HEADER) == Skip
  {
    var h := HEADER;
    assert h == "#" + h[1..];
    TrimRightAppend("#", h[1..]);
  }

  lemma HeaderIsSkipped(f: Floats, c: Config, rest: seq<string>)
    ensures ApplyLines(f, c, [HEADER, ""] + rest) == ApplyLines(f, c, rest)
    ensures ApplyLines(f, c, [""] + rest) == ApplyLines(f, c, rest)
  {
    hide ApplyLines;
    assert ApplyLine(f, c, "") == c;
    HeaderSkips();
    ApplyAppend(f, c, [HEADER], [""] + rest);
    ApplyOne(f, c, HEADER);
    assert [HEADER, ""] + rest == [HEADER] + ([""] + rest);
    ApplyAppend(f, c, [""], rest);
    ApplyOne(f, c, "");
  }

  /** Reading the lines of a saved configuration, before the final sorts. */
  lemma LinesRead(f: Floats, c: Config)
    requires Lawful(f) && Writable(f, c)
    ensures ApplyLines(f, EMPTY, Lines(f, c))
         == Config(NormalTuning(c.tuning), NormalBindings(c.bindings), MergeBursts([], c.bursts), NormalChord(c.hotkey))
  {
    hide ApplyLine, ApplyLines, TuningLines, OptionalTuningLines, BindingLines, BurstLines, HotkeyLines;
    var l5 := HotkeyLines(c.hotkey);
    var l4 := BurstLines(f, c.bursts) + l5;
    var l3 := BindingLines(c.bindings) + l4;
    var l2 := OptionalTuningLines(f, c.tuning) + ([""] + l3);
    HeaderIsSkipped(f, EMPTY, TuningLines(f, c.tuning) + l2);
    ApplyAppend(f, EMPTY, TuningLines(f, c.tuning), l2);
    NumbersRead(f, c.tuning);
    var c1 := ApplyLines(f, EMPTY, TuningLines(f, c.tuning));
    ApplyAppend(f, c1, OptionalTuningLines(f, c.tuning), [""] + l3);
    OptionalsRead(f, c1, c.tuning);
    var c2 := c1.(tuning := NormalTuning(c.tuning));
    HeaderIsSkipped(f, c2, l3);
    ApplyAppend(f, c2, BindingLines(c.bindings), l4);
    BindingsRead(f, c2, c.bindings);
    var c3 := c2.(bindings := NormalBindings(c.bindings));
    assert [] + NormalBindings(c.bindings) == NormalBindings(c.bindings);
    ApplyAppend(f, c3, BurstLines(f, c.bursts), l5);
    BurstsRead(f, c3, c.bursts);
    HotkeyRead(f, c3.(bursts := MergeBursts([], c.bursts)), c.hotkey);
  }

  /** The round trip: what the web tool reads back after saving is the normal form. */
  lemma LoadSave(f: Floats, c: Config)
    requires Lawful(f) && Writable(f, c)
    ensures Load(f, Save(f, c)) == Normal(c)
  {
    hide ApplyLine, ApplyLines, Lines;
    SavedOneLiners(f, c);
    SplitUnlines(Lines(f, c));
    var c1 := ApplyLines(f, EMPTY, Lines(f, c));
    ApplyAppend(f, EMPTY, Lines(f, c), [""]);
    ApplyOne(f, c1, "");
    BlankLine(f, c1);
    LinesRead(f, c);
  }

  lemma BlankLine(f: Floats, c: Config)
    ensures ApplyLine(f, c, "") == c
  {}
}
