/** kbm-web's view of the configuration file: the JSON-facing `Config`, the parser `loadConfig`
    and the printer `saveConfig`. */
module WebConfig {
  import opened Text
  import opened StableSort

  datatype Tuning = Tuning(
    windowMs: real, curveExp: real, antiDeadzone: real,
    outerSat: real, sensCountsMs: real, debtDrain: real,
    recoilAction: string, recoilX: real, recoilY: real,
    adsAction: string, adsSensScale: real, fireSensScale: real)

  datatype Binding = Binding(source: string, code: string, action: string)

  datatype Burst = Burst(action: string, hz: real, duty: real, jitter: real, dutyJitter: real, skipProb: real)

  datatype Config = Config(tuning: Tuning, bindings: seq<Binding>, bursts: seq<Burst>, hotkey: seq<string>)

  const DEFAULT_TUNING := Tuning(6.0, 2.0, 0.10, 0.97, 8.0, 0.05, "", 0.0, 0.0, "", 1.0, 1.0)
  const DEFAULT_HOTKEY := ["LEFTCTRL", "ESC"]

  /** Number formatting: which reals a float64 can hold, `%g`, and `strconv.ParseFloat`
      (0 on malformed text). */
  datatype Floats = Floats(isFloat: real -> bool, format: real -> string, parse: string -> real)

  /** `%g` prints the shortest text that reads back as the same number, without blanks. */
  ghost predicate Lawful(f: Floats) {
    f.isFloat(0.0) && f.isFloat(1.0) && forall x :: f.isFloat(x) ==>
      f.parse(f.format(x)) == x && Trimmed(f.format(x)) && NL !in f.format(x)
  }

  // ------------------------------------------------------------------- parser

  /** The cases of the key switch that name a tuning field; None is its default branch. */
  function SetTuning(f: Floats, t: Tuning, k: string, v: string): Option<Tuning> {
    if k == "window_ms" then Some(t.(windowMs := f.parse(v)))
    else if k == "curve_exp" then Some(t.(curveExp := f.parse(v)))
    else if k == "anti_deadzone" then Some(t.(antiDeadzone := f.parse(v)))
    else if k == "outer_sat" then Some(t.(outerSat := f.parse(v)))
    else if k == "sens_counts_ms" then Some(t.(sensCountsMs := f.parse(v)))
    else if k == "debt_drain" then Some(t.(debtDrain := f.parse(v)))
    else if k == "recoil.action" then Some(t.(recoilAction := ToLower(Trim(v))))
    else if k == "recoil.x" then Some(t.(recoilX := f.parse(v)))
    else if k == "recoil.y" then Some(t.(recoilY := f.parse(v)))
    else if k == "ads.action" then Some(t.(adsAction := ToLower(Trim(v))))
    else if k == "ads.sens_scale" then Some(t.(adsSensScale := f.parse(v)))
    else if k == "fire.sens_scale" then Some(t.(fireSensScale := f.parse(v)))
    else None
  }

  /** The index of the first entry for `action`, or the length of the list. */
  function Position(list: seq<Burst>, action: string): (i: nat)
    ensures i <= |list|
    ensures i < |list| ==> list[i].action == action
    ensures forall j :: 0 <= j < i ==> list[j].action != action
  {
    if list == [] || list[0].action == action then 0 else 1 + Position(list[1..], action)
  }

  /** The list after `findBurst`: an entry for `action` exists. */
  function WithBurst(list: seq<Burst>, action: string): (r: seq<Burst>)
    ensures Position(r, action) < |r|
    ensures list <= r
  {
    if Position(list, action) < |list| then list
    else
      var r := list + [Burst(action, 0.0, 0.0, 0.0, 0.0, 0.0)];
      assert r[|list|].action == action;
      r
  }

  function SetField(b: Burst, field: string, x: real): Burst {
    if field == "hz" then b.(hz := x)
    else if field == "duty" then b.(duty := x)
    else if field == "jitter" then b.(jitter := x)
    else if field == "duty_jitter" then b.(dutyJitter := x)
    else if field == "skip_prob" then b.(skipProb := x)
    else b
  }

  function SetBurst(list: seq<Burst>, action: string, field: string, x: real): seq<Burst> {
    var l := WithBurst(list, action);
    var i := Position(l, action);
    l[i := SetField(l[i], field, x)]
  }

  /** The names kept from the pieces of a chord: trimmed, upper-cased, blanks dropped. */
  function KeyNames(pieces: seq<string>): seq<string> {
    if pieces == [] then []
    else (if Trim(pieces[0]) == "" then [] else [ToUpper(Trim(pieces[0]))]) + KeyNames(pieces[1..])
  }

  function ChordNames(v: string): seq<string> {
    KeyNames(SplitChord(v))
  }

  function ApplyPair(f: Floats, c: Config, k: string, v: string): Config {
    var t := SetTuning(f, c.tuning, k, v);
    if t.Some? then c.(tuning := t.value)
    else if HasPrefix(k, "key.") then c.(bindings := c.bindings + [Binding("key", k[4..], v)])
    else if HasPrefix(k, "mouse.") then c.(bindings := c.bindings + [Binding("mouse", k[6..], v)])
    else if HasPrefix(k, "burst.") then
      var rest := k[6..];
      var dot := AfterLast(rest, '.');
      if dot == 0 then c
      else c.(bursts := SetBurst(c.bursts, rest[..dot - 1], rest[dot..], f.parse(v)))
    else if k == "hotkey.mode_toggle" then c.(hotkey := ChordNames(v))
    else c
  }

  function ApplyLine(f: Floats, c: Config, line: string): Config {
    match ParseLine(line)
    case Skip => c
    case Pair(k, v) => ApplyPair(f, c, k, v)
  }

  function ApplyLines(f: Floats, c: Config, lines: seq<string>): Config
    decreases |lines|
  {
    if lines == [] then c else ApplyLines(f, ApplyLine(f, c, lines[0]), lines[1..])
  }

  predicate BindingLess(a: Binding, b: Binding) {
    if a.source != b.source then Less(a.source, b.source) else Less(a.code, b.code)
  }

  predicate BurstLess(a: Burst, b: Burst) {
    Less(a.action, b.action)
  }

  /** The two stable sorts and the default chord at the end of `loadConfig`. */
  function Finish(c: Config): Config {
    Config(c.tuning, SortBy(BindingLess, c.bindings), SortBy(BurstLess, c.bursts),
           if c.hotkey == [] then DEFAULT_HOTKEY else c.hotkey)
  }

  const EMPTY := Config(DEFAULT_TUNING, [], [], [])

  /** What `loadConfig` returns for the text of an existing file. */
  function Load(f: Floats, text: string): Config {
    Finish(ApplyLines(f, EMPTY, Split(text, NL)))
  }

  /** What `loadConfig` returns when the file may be missing: then the default tuning alone,
      with an empty chord. */
  function LoadFile(f: Floats, file: Option<string>): Config {
    if file.None? then EMPTY else Load(f, file.value)
  }

  // ------------------------------------------------------------------ printer

  const HEADER := "#" + (" Managed by kbm-web. Hand " + ("edits are preserved on " + ("read but get rewritten on" + " save.")))

  function Opt(keep: bool, line: string): seq<string> {
    if keep then [line] else []
  }

  function TuningLines(f: Floats, t: Tuning): seq<string> {
    ["window_ms" + "=" + f.format(t.windowMs),
     "curve_exp" + "=" + f.format(t.curveExp),
     "anti_deadzone" + "=" + f.format(t.antiDeadzone),
     "outer_sat" + "=" + f.format(t.outerSat),
     "sens_counts_ms" + "=" + f.format(t.sensCountsMs),
     "debt_drain" + "=" + f.format(t.debtDrain)]
  }

  function OptionalTuningLines(f: Floats, t: Tuning): seq<string> {
    Opt(t.recoilAction != "", "recoil.action" + "=" + t.recoilAction)
    + (Opt(t.recoilX != 0.0, "recoil.x" + "=" + f.format(t.recoilX))
    + (Opt(t.recoilY != 0.0, "recoil.y" + "=" + f.format(t.recoilY))
    + (Opt(t.adsAction != "", "ads.action" + "=" + t.adsAction)
    + (Opt(t.adsSensScale > 0.0 && t.adsSensScale != 1.0, "ads.sens_scale" + "=" + f.format(t.adsSensScale))
    + Opt(t.fireSensScale > 0.0 && t.fireSensScale != 1.0, "fire.sens_scale" + "=" + f.format(t.fireSensScale))))))
  }

  predicate KeptBinding(b: Binding) {
    b.source == "key" || b.source == "mouse"
  }

  function BindingLine(b: Binding): string {
    b.source + "." + ToUpper(b.code) + "=" + b.action
  }

  function BindingLines(bs: seq<Binding>): seq<string> {
    if bs == [] then [] else Opt(KeptBinding(bs[0]), BindingLine(bs[0])) + BindingLines(bs[1..])
  }

  predicate KeptBurst(b: Burst) {
    b.action != "" && b.hz > 0.0
  }

  function BurstLine(f: Floats, action: string, field: string, x: real): string {
    "burst." + action + "." + field + "=" + f.format(x)
  }

  function LinesOfBurst(f: Floats, b: Burst): seq<string> {
    [BurstLine(f, b.action, "hz", b.hz)]
    + (Opt(b.duty > 0.0, BurstLine(f, b.action, "duty", b.duty))
    + (Opt(b.jitter > 0.0, BurstLine(f, b.action, "jitter", b.jitter))
    + (Opt(b.dutyJitter > 0.0, BurstLine(f, b.action, "duty_jitter", b.dutyJitter))
    + Opt(b.skipProb > 0.0, BurstLine(f, b.action, "skip_prob", b.skipProb)))))
  }

  function BurstLines(f: Floats, bs: seq<Burst>): seq<string> {
    if bs == [] then []
    else (if KeptBurst(bs[0]) then LinesOfBurst(f, bs[0]) else []) + BurstLines(f, bs[1..])
  }

  function HotkeyLines(hotkey: seq<string>): seq<string> {
    Opt(|hotkey| > 0, "hotkey.mode_toggle" + "=" + Join(hotkey, '+'))
  }

  /** The lines `saveConfig` writes. */
  function Lines(f: Floats, c: Config): seq<string> {
    [HEADER, ""] + (TuningLines(f, c.tuning) + (OptionalTuningLines(f, c.tuning) + ([""]
    + (BindingLines(c.bindings) + (BurstLines(f, c.bursts) + HotkeyLines(c.hotkey))))))
  }

  /** The text `saveConfig` writes. */
  function Save(f: Floats, c: Config): string {
    Unlines(Lines(f, c))
  }
}
