/** The web tool and the two daemons on the same saved file: which bindings and bursts the mapper
    ends up with, and exactly when the two daemons listen for the same chord. */
module ReadersAgree {
  import opened Text
  import opened Names
  import opened WebConfig
  import opened RoundTrip
  import opened MapperConfig
  import opened Readers
  import opened ChordFile
  import Canonical
  import D = DaemonConfig

  // ------------------------------------------------------- the last one counts

  /** The binding sets table entry `code`. */
  predicate BindsKey(b: Binding, code: nat) {
    b.source == "key" && Lookup(MAPPER_KEYS, TrimRight(ToUpper(b.code))) == code && ActionId(Trim(b.action)) != 0
  }

  predicate BindsButton(b: Binding, i: nat) {
    b.source == "mouse" && Lookup(MOUSE_BUTTONS, TrimRight(ToUpper(b.code))) >= 0
    && Lookup(MOUSE_BUTTONS, TrimRight(ToUpper(b.code))) % 256 == i && ActionId(Trim(b.action)) != 0
  }

  /** The action of the last binding chosen by `binds`, or else the given one. */
  function LastBound(bs: seq<Binding>, binds: Binding -> bool, otherwise: nat): nat {
    if bs == [] then otherwise
    else if binds(bs[|bs| - 1]) then ActionId(Trim(bs[|bs| - 1].action))
    else LastBound(bs[..|bs| - 1], binds, otherwise)
  }

  function KeyBinder(code: nat): Binding -> bool {
    b => BindsKey(b, code)
  }

  function ButtonBinder(i: nat): Binding -> bool {
    b => BindsButton(b, i)
  }

  lemma {:induction false} ViewBindingsSnoc(c: D.Config, bs: seq<Binding>, b: Binding)
    requires D.Sized(c)
    ensures ViewBindings(c, bs + [b]) == ViewBinding(ViewBindings(c, bs), b)
    decreases |bs|
  {
    hide ViewBinding;
    if bs == [] {
      assert ([b])[1..] == [] && [] + [b] == [b];
      assert ViewBindings(ViewBinding(c, b), [b][1..]) == ViewBinding(c, b);
    } else {
      assert (bs + [b])[1..] == bs[1..] + [b];
      ViewBindingsSnoc(ViewBinding(c, bs[0]), bs[1..], b);
    }
  }

  /** Each table entry is the last binding line for it, or the entry it started with. */
  lemma {:induction false} LastBindingCounts(c: D.Config, bs: seq<Binding>, i: nat)
    requires D.Sized(c) && i < D.KEYTABLE
    ensures ViewBindings(c, bs).keyAction[i] == LastBound(bs, KeyBinder(i), c.keyAction[i])
    ensures ViewBindings(c, bs).btnAction[i] == LastBound(bs, ButtonBinder(i), c.btnAction[i])
  {
    hide Lookup, Trim, ActionId, TrimRight, ToUpper;
    if bs != [] {
      var init, b := bs[..|bs| - 1], bs[|bs| - 1];
      LastBindingCounts(c, init, i);
      assert bs == init + [b];
      ViewBindingsSnoc(c, init, b);
    }
  }

  datatype Field = Hz | Duty | Jitter | DutyJitter | Skip

  /** A field of a web entry, and the daemon's table of that field. */
  function FieldOf(b: Burst, field: Field): real {
    match field
    case Hz => b.hz
    case Duty => b.duty
    case Jitter => b.jitter
    case DutyJitter => b.dutyJitter
    case Skip => b.skipProb
  }

  function TableOf(c: D.Config, field: Field): (t: seq<real>)
    ensures D.Sized(c) ==> |t| == D.ACTION_COUNT
  {
    match field
    case Hz => c.burstHz
    case Duty => c.burstDuty
    case Jitter => c.burstJitter
    case DutyJitter => c.burstDutyJitter
    case Skip => c.burstSkipProb
  }

  /** What the daemon stores for a value: probabilities and sigmas are clamped to [0, 1]. */
  function Stored(field: Field, x: real): real {
    if field.Hz? || field.Duty? then x else MapperConfig.Clamp(x, 0.0, 1.0)
  }

  predicate Sets(b: Burst, act: nat, field: Field) {
    KeptBurst(b) && ActionId(b.action) == act && FieldOf(b, field) > 0.0
  }

  /** The clamped value of the last kept entry that sets the field, or else the given one. */
  function LastField(bs: seq<Burst>, act: nat, field: Field, otherwise: real): real {
    if bs == [] then otherwise
    else if Sets(bs[|bs| - 1], act, field) then Stored(field, FieldOf(bs[|bs| - 1], field))
    else LastField(bs[..|bs| - 1], act, field, otherwise)
  }

  function KeptView(c: D.Config, b: Burst): (r: D.Config)
    requires D.Sized(c)
    ensures D.Sized(r)
  {
    if KeptBurst(b) then ViewBurst(c, b) else c
  }

  lemma {:induction false} ViewBurstsSnoc(c: D.Config, bs: seq<Burst>, b: Burst)
    requires D.Sized(c)
    ensures ViewBursts(c, bs + [b]) == KeptView(ViewBursts(c, bs), b)
    decreases |bs|
  {
    hide ViewBurst;
    if bs == [] {
      assert ([b])[1..] == [] && [] + [b] == [b];
      assert ViewBursts(KeptView(c, b), [b][1..]) == KeptView(c, b);
    } else {
      assert (bs + [b])[1..] == bs[1..] + [b];
      ViewBurstsSnoc(KeptView(c, bs[0]), bs[1..], b);
    }
  }

  lemma BurstSets(c: D.Config, b: Burst, act: nat, field: Field)
    requires D.Sized(c) && 0 < act < D.ACTION_COUNT && KeptBurst(b)
    ensures TableOf(ViewBurst(c, b), field)[act] ==
      if Sets(b, act, field) then Stored(field, FieldOf(b, field)) else TableOf(c, field)[act]
  {
    hide ActionId;
    assert "hz"[0] == 'h' && "duty"[0] == 'd' && "jitter"[0] == 'j' && "skip_prob"[0] == 's' && |"duty"| != |"duty_jitter"|;
  }

  /** Each entry of the burst tables is the clamp of the last value the web tool saved for it. */
  lemma {:induction false} LastBurstCounts(c: D.Config, bs: seq<Burst>, act: nat, field: Field)
    requires D.Sized(c) && 0 < act < D.ACTION_COUNT
    ensures TableOf(ViewBursts(c, bs), field)[act] == LastField(bs, act, field, TableOf(c, field)[act])
  {
    hide ActionId, ViewBurst, TableOf, Stored, FieldOf;
    if bs != [] {
      var init, b := bs[..|bs| - 1], bs[|bs| - 1];
      LastBurstCounts(c, init, act, field);
      assert bs == init + [b];
      ViewBurstsSnoc(c, init, b);
      if KeptBurst(b) { BurstSets(ViewBursts(c, init), b, act, field); }
    }
  }

  // ------------------------------------------------------- the chord, twice read

  /** Chord text the passthrough reader does not cut or trim differently. */
  predicate PlainText(v: string) {
    forall i :: 0 <= i < |v| ==> v[i] != '#' && (IsSpace(v[i]) ==> Blank(v[i]))
  }

  lemma {:induction false} SkipIsTrimLeft(s: string)
    requires PlainText(s)
    ensures SkipBlanks(s) == TrimLeft(s) && PlainText(SkipBlanks(s))
  {
    if s != "" && IsSpace(s[0]) { SkipIsTrimLeft(s[1..]); }
  }

  lemma {:induction false} DropIsTrimRight(s: string)
    requires PlainText(s)
    ensures DropBlanks(s) == TrimRight(s)
  {
    if s != "" && IsSpace(s[|s| - 1]) { DropIsTrimRight(s[..|s| - 1]); }
  }

  lemma {:induction false} SplitPlain(s: string, sep: char)
    requires PlainText(s)
    ensures forall p :: p in Split(s, sep) ==> PlainText(p)
  {
    if s != "" {
      var rest := Split(s[1..], sep);
      SplitPlain(s[1..], sep);
      assert rest[0] in rest && PlainText([s[0]] + rest[0]);
      assert forall p :: p in rest[1..] ==> p in rest;
    }
  }

  lemma {:induction false} SameTake(pieces: seq<string>, n: nat)
    requires forall p :: p in pieces ==> PlainText(p)
    ensures TakeChord(pieces, n) == TakeCodes(CHORD_KEYS, pieces, n)
    decreases |pieces|
  {
    hide Lookup;
    if n > 0 && pieces != [] {
      assert pieces[0] in pieces;
      SkipIsTrimLeft(pieces[0]);
      DropIsTrimRight(SkipBlanks(pieces[0]));
      SameTake(pieces[1..], n);
      SameTake(pieces[1..], n - 1);
    }
  }

  /** The names the passthrough reader finds among the pieces: spaces and tabs trimmed, empty ones dropped. */
  function BlankNames(pieces: seq<string>): seq<string> {
    if pieces == [] then []
    else
      var name := DropBlanks(SkipBlanks(pieces[0]));
      (if name == "" then [] else [name]) + BlankNames(pieces[1..])
  }

  lemma {:induction false} TakenFromBlanks(pieces: seq<string>, n: nat)
    ensures TakeChord(pieces, n) == CodesOf(CHORD_KEYS, BlankNames(pieces), n)
    decreases |pieces|
  {
    hide Lookup, SkipBlanks, DropBlanks;
    if n > 0 && pieces != [] {
      var name := DropBlanks(SkipBlanks(pieces[0]));
      var rest := BlankNames(pieces[1..]);
      TakenFromBlanks(pieces[1..], n);
      TakenFromBlanks(pieces[1..], n - 1);
      if name == "" { assert [] + rest == rest; } else { assert ([name] + rest)[1..] == rest; }
    }
  }

  /** The names the passthrough reader finds in a chord: it stops at the first `#`. */
  function PassNames(hotkey: seq<string>): seq<string> {
    BlankNames(SplitChord(CutAt(Join(hotkey, '+'), '#')))
  }

  /** The chord line, as the passthrough daemon reads it. */
  lemma ChordLineRead(v: string)
    requires NL !in v
    ensures ChordOf("hotkey.mode_toggle" + "=" + v + [NL]) == Some(CodesOf(CHORD_KEYS, BlankNames(SplitChord(CutAt(v, '#'))), 8))
  {
    hide Lookup, TakeChord, CodesOf, SplitChord;
    var line := "hotkey.mode_toggle" + "=" + v + [NL];
    assert PREFIX == "hotkey.mode_toggle" + "=";
    assert line == PREFIX + (v + [NL]);
    assert SkipBlanks(line) == line;
    PrefixOfConcat(PREFIX, v + [NL]);
    IndexOfUnique(v, "", NL);
    assert v + [NL] + "" == v + [NL];
    assert CutAt(v + [NL], NL) == v;
    TakenFromBlanks(SplitChord(CutAt(v, '#')), 8);
  }

  /** For plain text the passthrough reader finds the codes of the names the web tool shows. */
  lemma PlainCodes(v: string)
    requires PlainText(v)
    ensures CodesOf(CHORD_KEYS, BlankNames(SplitChord(CutAt(v, '#'))), 8) == CodesOf(CHORD_KEYS, ChordNames(v), 8)
  {
    hide Lookup, TakeChord, TakeCodes, CodesOf, BlankNames;
    assert '#' !in v;
    assert CutAt(v, '#') == v;
    var w := MapChars(CommaToPlus, v);
    assert PlainText(w);
    SplitPlain(w, '+');
    SameTake(SplitChord(v), 8);
    TakenFromNames(CHORD_KEYS, SplitChord(v), 8);
    TakenFromBlanks(SplitChord(v), 8);
  }

  /** Lines that are not chord lines, told by their first character. */
  predicate NotChord(l: string) {
    l == "" || (l[0] != 'h' && !Blank(l[0]))
  }

  predicate NoneChord(ls: seq<string>) {
    forall l :: l in ls ==> NotChord(l)
  }

  lemma NotChordSkipped(l: string)
    requires NotChord(l)
    ensures ChordOf(l + [NL]).None?
  {
    hide TakeChord;
    var line := l + [NL];
    assert line[0] == if l == "" then NL else l[0];
    assert SkipBlanks(line) == line;
    PrefixDiffers(line, PREFIX, 0);
  }

  lemma BindingFirst(b: Binding)
    requires KeptBinding(b)
    ensures NotChord(BindingLine(b))
  {
    assert BindingLine(b)[0] == b.source[0];
  }

  lemma BindingNotChord(bs: seq<Binding>)
    ensures NoneChord(BindingLines(bs))
  {
    hide BindingLine;
    if bs != [] {
      BindingNotChord(bs[1..]);
      if KeptBinding(bs[0]) {
        BindingFirst(bs[0]);
      }
    }
  }

  lemma BurstNotChord(f: Floats, b: Burst)
    ensures NoneChord(LinesOfBurst(f, b))
  {
    hide BurstLine, NotChord;
    forall l | l in LinesOfBurst(f, b) ensures NotChord(l) { BurstLineOf(f, b, l); }
  }

  lemma BurstLineOf(f: Floats, b: Burst, l: string)
    requires l in LinesOfBurst(f, b)
    ensures NotChord(l)
  {
    hide BurstLine, NotChord;
    BurstLineNotChord(f, b.action, "hz", b.hz);
    BurstLineNotChord(f, b.action, "duty", b.duty);
    BurstLineNotChord(f, b.action, "jitter", b.jitter);
    BurstLineNotChord(f, b.action, "duty_jitter", b.dutyJitter);
    BurstLineNotChord(f, b.action, "skip_prob", b.skipProb);
  }

  lemma BurstLineNotChord(f: Floats, action: string, field: string, x: real)
    ensures NotChord(BurstLine(f, action, field, x))
  {
    assert BurstLine(f, action, field, x)[0] == "burst."[0] == 'b';
  }

  lemma BurstsNotChord(f: Floats, bs: seq<Burst>)
    ensures NoneChord(BurstLines(f, bs))
  {
    hide NoneChord, LinesOfBurst;
    NothingChord();
    if bs != [] {
      BurstsNotChord(f, bs[1..]);
      BurstNotChord(f, bs[0]);
      NoneChordConcat(if KeptBurst(bs[0]) then LinesOfBurst(f, bs[0]) else [], BurstLines(f, bs[1..]));
    }
  }

  lemma TuningNotChord(f: Floats, t: Tuning)
    ensures NoneChord(TuningLines(f, t)) && NoneChord([HEADER, ""]) && NoneChord([""])
  {
    assert "window_ms"[0] == 'w' && "curve_exp"[0] == 'c' && "anti_deadzone"[0] == 'a' && "outer_sat"[0] == 'o'
        && "sens_counts_ms"[0] == 's' && "debt_drain"[0] == 'd';
  }

  lemma NotChordOpt(keep: bool, k: string, v: string, rest: seq<string>)
    requires k != "" && NotChord(k) && NoneChord(rest)
    ensures NoneChord(Opt(keep, k + v) + rest)
  {}

  lemma OptionalNotChord(f: Floats, t: Tuning)
    ensures NoneChord(OptionalTuningLines(f, t))
  {
    hide Opt, NoneChord;
    assert NoneChord([]) by { NothingChord(); }
    var l6 := Opt(t.fireSensScale > 0.0 && t.fireSensScale != 1.0, "fire.sens_scale" + "=" + f.format(t.fireSensScale));
    assert l6 + [] == l6;
    NotChordOpt(t.fireSensScale > 0.0 && t.fireSensScale != 1.0, "fire.sens_scale" + "=", f.format(t.fireSensScale), []);
    var l5 := Opt(t.adsSensScale > 0.0 && t.adsSensScale != 1.0, "ads.sens_scale" + "=" + f.format(t.adsSensScale)) + l6;
    NotChordOpt(t.adsSensScale > 0.0 && t.adsSensScale != 1.0, "ads.sens_scale" + "=", f.format(t.adsSensScale), l6);
    var l4 := Opt(t.adsAction != "", "ads.action" + "=" + t.adsAction) + l5;
    NotChordOpt(t.adsAction != "", "ads.action" + "=", t.adsAction, l5);
    var l3 := Opt(t.recoilY != 0.0, "recoil.y" + "=" + f.format(t.recoilY)) + l4;
    NotChordOpt(t.recoilY != 0.0, "recoil.y" + "=", f.format(t.recoilY), l4);
    var l2 := Opt(t.recoilX != 0.0, "recoil.x" + "=" + f.format(t.recoilX)) + l3;
    NotChordOpt(t.recoilX != 0.0, "recoil.x" + "=", f.format(t.recoilX), l3);
    NotChordOpt(t.recoilAction != "", "recoil.action" + "=", t.recoilAction, l2);
  }

  lemma NothingChord()
    ensures NoneChord([])
  {}

  lemma NoneChordConcat(a: seq<string>, b: seq<string>)
    requires NoneChord(a) && NoneChord(b)
    ensures NoneChord(a + b)
  {}

  /** Scanning the chunks of lines that are no chord lines finds nothing. */
  lemma {:induction false} ScanLines(ls: seq<string>, rest: string)
    requires NoneChord(ls) && ShortLines(ls) && OneLiners(ls)
    ensures FirstChord(Chunks(Unlines(ls) + rest)) == FirstChord(Chunks(rest))
    decreases |ls|
  {
    hide ChordOf;
    if ls == [] {
      assert Unlines(ls) + rest == rest;
    } else {
      var l, more := ls[0], Unlines(ls[1..]) + rest;
      assert l in ls;
      assert Unlines(ls) + rest == l + [NL] + more;
      FirstChunk(l, more);
      NotChordSkipped(l);
      assert ([l + [NL]] + Chunks(more))[1..] == Chunks(more);
      ScanLines(ls[1..], rest);
    }
  }

  lemma FirstChunk(l: string, rest: string)
    requires NL !in l && |l| < CHUNK
    ensures Chunks(l + [NL] + rest) == [l + [NL]] + Chunks(rest)
  {
    var text := l + [NL] + rest;
    IndexOfUnique(l, rest, NL);
    assert Chunk(text) == |l| + 1;
    assert text[..|l| + 1] == l + [NL] && text[|l| + 1..] == rest;
  }

  /** What the passthrough daemon makes of a chord. */
  function PassChord(hotkey: seq<string>): seq<int> {
    var codes := CodesOf(CHORD_KEYS, PassNames(hotkey), 8);
    if codes == [] then DEFAULT_CHORD else codes
  }

  predicate PlainChord(hotkey: seq<string>) {
    forall h :: h in hotkey ==> PlainText(h)
  }

  lemma {:induction false} JoinPlain(hotkey: seq<string>)
    requires PlainChord(hotkey)
    ensures PlainText(Join(hotkey, '+'))
  {
    if hotkey != [] {
      assert hotkey[0] in hotkey;
      if |hotkey| > 1 { JoinPlain(hotkey[1..]); }
    }
  }

  /** Everything `saveConfig` writes before the chord. */
  function BeforeChord(f: Floats, c: Config): seq<string> {
    [HEADER, ""] + (TuningLines(f, c.tuning) + (OptionalTuningLines(f, c.tuning) + ([""]
    + (BindingLines(c.bindings) + BurstLines(f, c.bursts)))))
  }

  lemma BeforeNotChord(f: Floats, c: Config)
    ensures NoneChord(BeforeChord(f, c))
  {
    hide NoneChord, TuningLines, OptionalTuningLines, BindingLines, BurstLines;
    TuningNotChord(f, c.tuning);
    OptionalNotChord(f, c.tuning);
    BindingNotChord(c.bindings);
    BurstsNotChord(f, c.bursts);
    var l4 := BindingLines(c.bindings) + BurstLines(f, c.bursts);
    NoneChordConcat(BindingLines(c.bindings), BurstLines(f, c.bursts));
    NoneChordConcat([""], l4);
    NoneChordConcat(OptionalTuningLines(f, c.tuning), [""] + l4);
    NoneChordConcat(TuningLines(f, c.tuning), OptionalTuningLines(f, c.tuning) + ([""] + l4));
    NoneChordConcat([HEADER, ""], TuningLines(f, c.tuning) + (OptionalTuningLines(f, c.tuning) + ([""] + l4)));
  }

  lemma LinesEndWithChord(f: Floats, c: Config)
    ensures Lines(f, c) == BeforeChord(f, c) + HotkeyLines(c.hotkey)
  {
    hide TuningLines, OptionalTuningLines, BindingLines, BurstLines, HotkeyLines;
  }

  lemma PartsOfLines(a: seq<string>, b: seq<string>)
    requires ShortLines(a + b) && OneLiners(a + b)
    ensures ShortLines(a) && OneLiners(a) && ShortLines(b) && OneLiners(b)
  {
    assert forall l :: l in a ==> l in a + b;
    assert forall l :: l in b ==> l in a + b;
  }

  /** The chunks of the chord line alone. */
  lemma ChordChunk(hotkey: seq<string>)
    requires ShortLines(HotkeyLines(hotkey)) && OneLiners(HotkeyLines(hotkey))
    requires forall h :: h in hotkey ==> NL !in h
    ensures FirstChord(Chunks(Unlines(HotkeyLines(hotkey)))) ==
      if hotkey == [] then None else Some(CodesOf(CHORD_KEYS, PassNames(hotkey), 8))
  {
    hide ChordOf, CodesOf, Chunk, BlankNames, CutAt;
    if hotkey != [] {
      var v := Join(hotkey, '+');
      var l := "hotkey.mode_toggle" + "=" + v;
      assert l in HotkeyLines(hotkey);
      assert Unlines([l][1..]) == "";
      assert Unlines(HotkeyLines(hotkey)) == l + [NL] + "";
      FirstChunk(l, "");
      JoinHasNoNewline(hotkey);
      ChordLineRead(v);
    }
  }

  /** The passthrough daemon reads the chord of a saved configuration as `PassChord` says. */
  lemma PassReadsSaved(f: Floats, c: Config)
    requires Lawful(f) && Writable(f, c) && ShortLines(Lines(f, c))
    ensures LoadChord(Some(Save(f, c))) == PassChord(c.hotkey)
  {
    hide Lines, HotkeyLines, FirstChord, BeforeChord, Lawful, ShortLines, OneLiners, WritableTuning, CodesOf, PassNames;
    SavedOneLiners(f, c);
    LinesEndWithChord(f, c);
    BeforeNotChord(f, c);
    PartsOfLines(BeforeChord(f, c), HotkeyLines(c.hotkey));
    UnlinesAppend(BeforeChord(f, c), HotkeyLines(c.hotkey));
    ScanLines(BeforeChord(f, c), Unlines(HotkeyLines(c.hotkey)));
    ChordChunk(c.hotkey);
    NoCodesOfNothing();
  }

  lemma NoCodesOfNothing()
    ensures CodesOf(CHORD_KEYS, PassNames([]), 8) == []
  {
    hide Lookup;
    assert SplitChord("") == [""] && DropBlanks(SkipBlanks("")) == "" && [""][1..] == [];
    assert CutAt("", '#') == "";
  }

  // --------------------------------------------------- exactly when they agree

  predicate CodesBelow(t: seq<Named>) {
    forall i :: 0 <= i < |t| ==> 0 <= t[i].code < 125
  }

  lemma {:induction false} LookupBelow(t: seq<Named>, name: string)
    requires CodesBelow(t)
    ensures -1 <= Lookup(t, name) < 125
  {
    if t != [] { LookupBelow(t[1..], name); }
  }

  lemma SmallCodes()
    ensures CodesBelow(SPACES) && CodesBelow(ESCAPES) && CodesBelow(SHIFTS) && CodesBelow(CONTROLS)
    ensures CodesBelow(ALTS) && CodesBelow(BACKS) && CodesBelow(ARROWS) && CodesBelow([])
  {}

  lemma BigCodes()
    ensures CodesBelow(SINGLES) && CodesBelow(FUNCTIONS)
  {}

  lemma OwnCodesBelow(name: string)
    requires Block(ToUpper(name)) != 7
    ensures CodesBelow(OwnBlock(name))
  {
    hide CodesBelow, Block;
    SmallCodes();
    BigCodes();
  }

  /** The mapper's table has no code for a meta key. */
  lemma MapperHasNoMeta(name: string)
    ensures Lookup(MAPPER_KEYS, name) < 125
  {
    hide Block, OwnBlock, Lookup, CodesBelow;
    MapperLookup(name);
    if Block(ToUpper(name)) != 7 {
      OwnCodesBelow(name);
      LookupBelow(OwnBlock(name), name);
    }
  }

  /** Both tables give the same first codes exactly when no meta key is among them. */
  lemma {:induction false} CodesAgree(names: seq<string>, n: nat)
    ensures CodesOf(CHORD_KEYS, names, n) == CodesOf(MAPPER_KEYS, names, n) <==>
      125 !in CodesOf(CHORD_KEYS, names, n) && 126 !in CodesOf(CHORD_KEYS, names, n)
    ensures 125 !in CodesOf(MAPPER_KEYS, names, n) && 126 !in CodesOf(MAPPER_KEYS, names, n)
    decreases |names|
  {
    hide Lookup;
    if n > 0 && names != [] {
      CodesAgree(names[1..], n);
      CodesAgree(names[1..], n - 1);
      TablesAgree(names[0]);
      MapperHasNoMeta(names[0]);
    }
  }

  lemma {:induction false} NoCodesAgree(names: seq<string>, n: nat)
    ensures CodesOf(CHORD_KEYS, names, n) == [] ==> CodesOf(MAPPER_KEYS, names, n) == []
    decreases |names|
  {
    hide Lookup;
    if n > 0 && names != [] {
      NoCodesAgree(names[1..], n);
      TablesAgree(names[0]);
    }
  }

  /** After a save the two daemons listen for the same chord exactly when the configuration leaves the
      chord at its default, or the first eight codes that the mapper's table knows among all its names
      are those that the other table knows among the names before a `#`, or the default where there
      are none. */
  lemma ChordsAgree(f: Floats, atof: string -> real, c: Config)
    requires Lawful(f) && ReadsBack(f, atof) && Writable(f, c) && ShortLines(Lines(f, c))
    ensures MapperConfig.Load(atof, Some(Save(f, c))).hotkey == LoadChord(Some(Save(f, c))) <==>
      c.hotkey == [] || CodesOf(MAPPER_KEYS, NormalChord(c.hotkey), 8) == PassChord(c.hotkey)
  {
    hide Lawful, ReadsBack, Writable, ShortLines, Lines, CodesOf, NormalChord, PassNames, ViewBindings, ViewBursts, ViewTuning;
    MapperReadsSaved(f, atof, c);
    PassReadsSaved(f, c);
    if c.hotkey == [] {
      NoCodesOfNothing();
      DefaultChordKept(c);
    }
  }

  /** For plain names that comes down to the tables: some key of the chord is known to the passthrough
      daemon, and no meta key is among the first eight. */
  lemma PlainChordsAgree(hotkey: seq<string>)
    requires PlainChord(hotkey)
    ensures CodesOf(MAPPER_KEYS, NormalChord(hotkey), 8) == PassChord(hotkey) <==>
      var codes := CodesOf(CHORD_KEYS, NormalChord(hotkey), 8);
      codes != [] && 125 !in codes && 126 !in codes
  {
    hide PlainChord, CodesOf, NormalChord, BlankNames, PlainText;
    var v := Join(hotkey, '+');
    JoinPlain(hotkey);
    PlainCodes(v);
    JoinedNames(hotkey);
    CodesAgree(NormalChord(hotkey), 8);
    NoCodesAgree(NormalChord(hotkey), 8);
  }

  // ------------------------------------------------------ chords they differ on

  lemma OneName(table: seq<Named>, name: string)
    ensures CodesOf(table, [name], 8) == if Lookup(table, name) >= 0 then [Lookup(table, name)] else []
  {
    hide Lookup;
    assert [name][1..] == [];
    assert CodesOf(table, [], 7) == [] && CodesOf(table, [], 8) == [];
  }

  lemma PlainOne(h: string)
    requires Canonical.PlainName(h)
    ensures NormalChord([h]) == [h] && Join([h], '+') == h
  {
    hide Canonical.PlainName, ChordNames;
    Canonical.PlainChord(h);
    assert [h][1..] == [];
    assert NormalChord([]) == [] && [h] + [] == [h];
  }

  /** A single meta key: the passthrough daemon waits for it, the mapper has no chord at all. */
  lemma MetaChordDiffers()
    ensures PassChord(["LEFTMETA"]) == [125] && CodesOf(MAPPER_KEYS, NormalChord(["LEFTMETA"]), 8) == []
  {
    hide Lookup, CodesOf, ChordNames, BlankNames, Join;
    var h := "LEFTMETA";
    assert Canonical.PlainName(h) && PlainText(h);
    PlainOne(h);
    PlainCodes(h);
    JoinedNames([h]);
    assert ToUpper(h) == h;
    TablesAgree(h);
    OneName(CHORD_KEYS, h);
    OneName(MAPPER_KEYS, h);
  }

  /** A `#`: the passthrough daemon reads only what stands before it, the mapper only what it knows. */
  lemma HashChordDiffers()
    ensures PassChord(["A#", "B"]) == [30] && CodesOf(MAPPER_KEYS, NormalChord(["A#", "B"]), 8) == [48]
  {
    hide Lookup, CodesOf, ChordNames, BlankNames;
    HashNames();
    CodeOfA();
    CodeOfB();
    CodeOfHash();
    OneName(CHORD_KEYS, "A");
    TwoNames();
  }

  lemma HashNames()
    ensures PassNames(["A#", "B"]) == ["A"] && NormalChord(["A#", "B"]) == ["A#", "B"]
  {
    hide ChordNames, BlankNames, Canonical.PlainName;
    assert ["A#", "B"][1..] == ["B"] && ["B"][1..] == [];
    assert Join(["A#", "B"], '+') == "A#+B";
    IndexOfUnique("A", "+B", '#');
    assert "A" + ['#'] + "+B" == "A#+B" && CutAt("A#+B", '#') == "A";
    assert MapChars(CommaToPlus, "A") == "A";
    SplitAbsent("A", '+');
    assert BlankNames(["A"]) == ["A"] by { OneBlankName(); }
    assert Canonical.PlainName("A#") && Canonical.PlainName("B") by { HashPlain(); }
    Canonical.ChordUnchanged(["A#", "B"]);
  }

  lemma OneBlankName()
    ensures BlankNames(["A"]) == ["A"]
  {
    assert ["A"][1..] == [] && BlankNames([]) == [];
    assert DropBlanks(SkipBlanks("A")) == "A";
  }

  lemma HashPlain()
    ensures Canonical.PlainName("A#") && Canonical.PlainName("B")
  {
    assert ToUpper("A#") == "A#" && ToUpper("B") == "B";
  }

  lemma CodeOfA()
    ensures Lookup(CHORD_KEYS, "A") == 30
  {
    assert ToUpper("A") == "A";
    ChordLookup("A");
    assert SINGLES[0] == Named("A", 30);
  }

  lemma CodeOfB()
    ensures Lookup(MAPPER_KEYS, "B") == 48
  {
    assert ToUpper("A") == "A" && ToUpper("B") == "B";
    MapperLookup("B");
    assert SINGLES[0] == Named("A", 30) && SINGLES[1..][0] == Named("B", 48);
  }

  lemma CodeOfHash()
    ensures Lookup(MAPPER_KEYS, "A#") == -1
  {
    hide Lookup, Block;
    assert ToUpper("A#") == "A#";
    HashBlock("A#");
    MapperLookup("A#");
    OwnLookup("A#");
  }

  lemma HashBlock(u: string)
    requires |u| == 2 && u[0] == 'A'
    ensures Block(u) == 0
  {
    assert "UP"[0] == 'U';
  }

  lemma TwoNames()
    requires Lookup(MAPPER_KEYS, "A#") == -1 && Lookup(MAPPER_KEYS, "B") == 48
    ensures CodesOf(MAPPER_KEYS, ["A#", "B"], 8) == [48]
  {
    hide Lookup;
    assert ["A#", "B"][1..] == ["B"];
    OneName(MAPPER_KEYS, "B");
  }

  lemma DefaultChordKept(c: Config)
    requires c.hotkey == []
    ensures View(c).hotkey == DEFAULT_CHORD
  {
    BindingsKeepRest(ViewTuning(c.tuning), c.bindings);
    BurstsKeepRest(ViewBindings(ViewTuning(c.tuning), c.bindings), c.bursts);
  }

  // --------------------------------------------------------- the loaded file

  /** Bindings change nothing but the two key tables. */
  lemma {:induction false} BindingsKeepRest(c: D.Config, bs: seq<Binding>)
    requires D.Sized(c)
    ensures var r := ViewBindings(c, bs); r == c.(keyAction := r.keyAction, btnAction := r.btnAction)
    decreases |bs|
  {
    hide Lookup, ActionId;
    if bs != [] { BindingsKeepRest(ViewBinding(c, bs[0]), bs[1..]); }
  }

  /** The record `c` with the burst tables of `r`. */
  function WithBurstTables(c: D.Config, r: D.Config): D.Config {
    c.(burstHz := r.burstHz, burstDuty := r.burstDuty, burstJitter := r.burstJitter,
       burstDutyJitter := r.burstDutyJitter, burstSkipProb := r.burstSkipProb)
  }

  lemma BurstKeepsRest(c: D.Config, b: Burst)
    requires D.Sized(c)
    ensures ViewBurst(c, b) == WithBurstTables(c, ViewBurst(c, b))
  {
    hide ActionId;
  }

  /** Bursts change nothing but the burst tables. */
  lemma {:induction false} BurstsKeepRest(c: D.Config, bs: seq<Burst>)
    requires D.Sized(c)
    ensures ViewBursts(c, bs) == WithBurstTables(c, ViewBursts(c, bs))
    decreases |bs|
  {
    hide ViewBurst;
    if bs != [] {
      if KeptBurst(bs[0]) { BurstKeepsRest(c, bs[0]); }
      BurstsKeepRest(if KeptBurst(bs[0]) then ViewBurst(c, bs[0]) else c, bs[1..]);
    }
  }

  /** Every key and mouse button has the action of the last binding for it, or the built-in one. */
  predicate BoundByLast(v: D.Config, bs: seq<Binding>)
    requires D.Sized(v)
  {
    forall i :: 0 <= i < D.KEYTABLE ==>
      && v.keyAction[i] == LastBound(bs, KeyBinder(i), DefaultKey(i))
      && v.btnAction[i] == LastBound(bs, ButtonBinder(i), DefaultButton(i))
  }

  /** Every action has, for each field, the clamp of the last value set for it, or 0. */
  predicate SetByLast(v: D.Config, bs: seq<Burst>)
    requires D.Sized(v)
  {
    forall act, field :: 0 < act < D.ACTION_COUNT ==> TableOf(v, field)[act] == LastField(bs, act, field, 0.0)
  }

  lemma BindingTables(c: Config)
    ensures BoundByLast(View(c), c.bindings)
  {
    hide ViewTuning, ViewBindings, ViewBursts, LastBound, KeyBinder, ButtonBinder, CodesOf, NormalChord, DefaultKey, DefaultButton;
    var t := ViewTuning(c.tuning);
    TuningKeepsTables(c.tuning);
    BurstsKeepRest(ViewBindings(t, c.bindings), c.bursts);
    forall i | 0 <= i < D.KEYTABLE
      ensures ViewBindings(t, c.bindings).keyAction[i] == LastBound(c.bindings, KeyBinder(i), DefaultKey(i))
      ensures ViewBindings(t, c.bindings).btnAction[i] == LastBound(c.bindings, ButtonBinder(i), DefaultButton(i))
    {
      LastBindingCounts(t, c.bindings, i);
    }
  }

  /** The tables before the bursts are empty. */
  lemma NoBurstYet(c: Config, act: nat, field: Field)
    requires act < D.ACTION_COUNT
    ensures TableOf(ViewBindings(ViewTuning(c.tuning), c.bindings), field)[act] == 0.0
  {
    hide ViewTuning, ViewBindings, TableOf;
    var t := ViewTuning(c.tuning);
    var d := ViewBindings(t, c.bindings);
    TuningKeepsTables(c.tuning);
    BindingsKeepRest(t, c.bindings);
    InputKeepsTables(t, d.keyAction, d.btnAction, field);
  }

  lemma InputKeepsTables(c: D.Config, keys: seq<nat>, buttons: seq<nat>, field: Field)
    ensures TableOf(c.(keyAction := keys, btnAction := buttons), field) == TableOf(c, field)
  {}

  lemma ChordKeepsTables(c: D.Config, hotkey: seq<int>, field: Field)
    ensures TableOf(c.(hotkey := hotkey), field) == TableOf(c, field)
  {}

  lemma BurstTables(c: Config)
    ensures SetByLast(View(c), c.bursts)
    ensures forall field :: TableOf(View(c), field)[0] == 0.0
  {
    hide ViewTuning, ViewBindings, ViewBursts, LastField, TableOf, CodesOf, NormalChord;
    var d := ViewBindings(ViewTuning(c.tuning), c.bindings);
    forall act, field | 0 <= act < D.ACTION_COUNT
      ensures TableOf(View(c), field)[act] == if act == 0 then 0.0 else LastField(c.bursts, act, field, 0.0)
    {
      ChordKeepsTables(ViewBursts(d, c.bursts), View(c).hotkey, field);
      NoBurstYet(c, act, field);
      if act == 0 { NoneIsNeverSet(d, c.bursts, field); } else { LastBurstCounts(d, c.bursts, act, field); }
    }
  }

  lemma TuningKeepsTables(t: Tuning)
    ensures var c := ViewTuning(t);
            && (forall i :: 0 <= i < D.KEYTABLE ==> c.keyAction[i] == DefaultKey(i) && c.btnAction[i] == DefaultButton(i))
            && (forall act, field :: 0 <= act < D.ACTION_COUNT ==> TableOf(c, field)[act] == 0.0)
            && c.hotkey == DEFAULT_CHORD
  {
    hide ActionId, DefaultKey, DefaultButton;
  }

  lemma NoneKept(c: D.Config, b: Burst, field: Field)
    requires D.Sized(c)
    ensures TableOf(ViewBurst(c, b), field)[0] == TableOf(c, field)[0]
  {
    hide ActionId;
  }

  /** No burst belongs to the action 0, which stands for none. */
  lemma {:induction false} NoneIsNeverSet(c: D.Config, bs: seq<Burst>, field: Field)
    requires D.Sized(c)
    ensures TableOf(ViewBursts(c, bs), field)[0] == TableOf(c, field)[0]
    decreases |bs|
  {
    hide ViewBurst, TableOf;
    if bs != [] {
      if KeptBurst(bs[0]) { NoneKept(c, bs[0], field); }
      NoneIsNeverSet(if KeptBurst(bs[0]) then ViewBurst(c, bs[0]) else c, bs[1..], field);
    }
  }

  /** The mapper's tables after loading a saved file: for each key and mouse button the last binding
      saved for it, or else the built-in default; for each action the clamp of the last value saved for
      each field of its burst, or else 0. */
  lemma SavedTables(f: Floats, atof: string -> real, c: Config)
    requires Lawful(f) && ReadsBack(f, atof) && Writable(f, c) && ShortLines(Lines(f, c))
    ensures var v := MapperConfig.Load(atof, Some(Save(f, c))); D.Sized(v) && BoundByLast(v, c.bindings) && SetByLast(v, c.bursts)
  {
    hide Lawful, ReadsBack, Writable, ShortLines, Lines, View, BoundByLast, SetByLast, TableOf;
    MapperReadsSaved(f, atof, c);
    BindingTables(c);
    BurstTables(c);
  }
}
