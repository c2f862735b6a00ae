/** The mapper daemon's reader of the configuration file (`config.c`). */
module MapperConfig {
  import opened Text
  import opened Names
  import D = DaemonConfig

  // ----------------------------------------------------------------- defaults

  /** `config_init_defaults`: W, S, A, D, SPACE and LEFTSHIFT, and the two main mouse buttons. */
  function DefaultKey(code: nat): nat {
    if code == 17 then 1 else if code == 31 then 2 else if code == 30 then 3 else if code == 32 then 4
    else if code == 57 then 13 else if code == 42 then 14 else 0
  }

  function DefaultButton(i: nat): nat {
    if i == 0x10 then 20 else if i == 0x11 then 19 else 0
  }

  function NoBurst(): (s: seq<real>)
    ensures |s| == D.ACTION_COUNT && forall i :: 0 <= i < |s| ==> s[i] == 0.0
  {
    seq(D.ACTION_COUNT, _ => 0.0)
  }

  const DEFAULT_CHORD: seq<int> := [29, 1]  // LEFTCTRL, ESC

  function Defaults(): (c: D.Config)
    ensures D.Sized(c)
  {
    D.Config(
      6.0, 2.0, 0.10, 0.97, 8.0, 0.05,
      seq(D.KEYTABLE, i requires 0 <= i => DefaultKey(i)), seq(D.KEYTABLE, i requires 0 <= i => DefaultButton(i)),
      NoBurst(), NoBurst(), NoBurst(), NoBurst(), NoBurst(),
      DEFAULT_CHORD, 0, 0.0, 0.0, 0, 1.0, 1.0)
  }

  // -------------------------------------------------------------- reading lines

  /** `fgets` with the 512-byte buffer: up to 511 characters, through the first newline. */
  const CHUNK := 511

  function Chunk(text: string): (n: nat)
    requires text != ""
    ensures 0 < n <= |text|
  {
    var i := IndexOf(text, NL);
    if i < |text| && i < CHUNK then i + 1 else if |text| <= CHUNK then |text| else CHUNK
  }

  function Chunks(text: string): seq<string> {
    if text == "" then [] else [text[..Chunk(text)]] + Chunks(text[Chunk(text)..])
  }

  /** What `fgets` returns: a line through its newline, or 511 characters of a longer one. */
  predicate OneRead(chunk: string) {
    && 0 < |chunk| <= 511
    && (forall i :: 0 <= i < |chunk| - 1 ==> chunk[i] != NL)
  }

  function Concat(pieces: seq<string>): string {
    if pieces == [] then "" else pieces[0] + Concat(pieces[1..])
  }

  /** A read that ended because of the buffer or of a newline. */
  predicate Full(chunk: string) {
    |chunk| == 511 || (chunk != "" && chunk[|chunk| - 1] == NL)
  }

  /** The pieces are what successive reads return: all but the last are full. */
  predicate Reads(cs: seq<string>) {
    (forall i :: 0 <= i < |cs| ==> OneRead(cs[i])) && (forall i :: 0 <= i < |cs| - 1 ==> Full(cs[i]))
  }

  lemma ReadsCons(head: string, cs: seq<string>)
    requires OneRead(head) && (cs == [] || Full(head)) && Reads(cs)
    ensures Reads([head] + cs) && Concat([head] + cs) == head + Concat(cs)
  {
    hide OneRead, Full;
    assert ([head] + cs)[1..] == cs;
  }

  /** The chunks make up the whole file, and each is as long as one read can be. */
  lemma {:induction false} ChunksLaw(text: string)
    ensures Concat(Chunks(text)) == text && Reads(Chunks(text))
    decreases |text|
  {
    if text != "" {
      var n := Chunk(text);
      var head, rest := text[..n], text[n..];
      ChunksLaw(rest);
      ChunkIsOneRead(text);
      ChunksCons(text, n);
      hide Chunk, OneRead, Full, Chunks, Reads;
      assert text == head + rest;
      if rest == "" { NoChunks(); }
      ReadsCons(head, Chunks(rest));
    }
  }

  lemma ChunksCons(text: string, n: nat)
    requires text != "" && n == Chunk(text)
    ensures Chunks(text) == [text[..n]] + Chunks(text[n..])
  {}

  lemma NoChunks()
    ensures Chunks("") == []
  {}

  lemma ChunkIsOneRead(text: string)
    requires text != ""
    ensures var n := Chunk(text); OneRead(text[..n]) && (n == |text| || Full(text[..n]))
  {
    var i := IndexOf(text, NL);
    assert forall k :: 0 <= k < i ==> text[..i][k] == text[k] && text[..i][k] in text[..i];
  }

  // ------------------------------------------------------------------- values

  function ActionId(name: string): nat {
    var v := Lookup(ACTION_NAMES, name);
    if v < 0 then 0 else v
  }

  function Clamp(x: real, lo: real, hi: real): real {
    if x < lo then lo else if x > hi then hi else x
  }

  /** The codes of the known names among the pieces, at most n of them. */
  function TakeCodes(table: seq<Named>, pieces: seq<string>, n: nat): (codes: seq<int>)
    ensures |codes| <= n
  {
    if n == 0 || pieces == [] then []
    else
      var name := Trim(pieces[0]);
      var code := Lookup(table, name);
      if name != "" && code >= 0 then [code] + TakeCodes(table, pieces[1..], n - 1)
      else TakeCodes(table, pieces[1..], n)
  }

  function Chord(v: string): seq<int> {
    TakeCodes(MAPPER_KEYS, SplitChord(v), 8)
  }

  function SetScalar(atof: string -> real, c: D.Config, k: string, v: string): Option<D.Config> {
    if k == "window_ms" then Some(c.(windowMs := atof(v)))
    else if k == "curve_exp" then Some(c.(curveExp := atof(v)))
    else if k == "anti_deadzone" then Some(c.(antiDeadzone := atof(v)))
    else if k == "outer_sat" then Some(c.(outerSat := atof(v)))
    else if k == "sens_counts_ms" then Some(c.(sensCountsMs := atof(v)))
    else if k == "debt_drain" then Some(c.(debtDrain := atof(v)))
    else if k == "recoil.action" then Some(if ActionId(v) == 0 then c else c.(recoilAction := ActionId(v)))
    else if k == "recoil.x" then Some(c.(recoilX := Clamp(atof(v), -1.0, 1.0)))
    else if k == "recoil.y" then Some(c.(recoilY := Clamp(atof(v), -1.0, 1.0)))
    else if k == "ads.action" then Some(if ActionId(v) == 0 then c else c.(adsAction := ActionId(v)))
    else if k == "ads.sens_scale" then Some(c.(adsSensScale := Clamp(atof(v), 0.01, 4.0)))
    else if k == "fire.sens_scale" then Some(c.(fireSensScale := Clamp(atof(v), 0.01, 4.0)))
    else None
  }

  function SetKey(c: D.Config, name: string, action: string): (r: D.Config)
    requires D.Sized(c)
    ensures D.Sized(r)
  {
    var code, act := Lookup(MAPPER_KEYS, name), ActionId(action);
    if code < 0 || code >= D.KEYTABLE || act == 0 then c else c.(keyAction := c.keyAction[code := act])
  }

  function SetButton(c: D.Config, name: string, action: string): (r: D.Config)
    requires D.Sized(c)
    ensures D.Sized(r)
  {
    var code, act := Lookup(MOUSE_BUTTONS, name), ActionId(action);
    if code < 0 || act == 0 then c else c.(btnAction := c.btnAction[code % 256 := act])
  }

  function SetBurstField(c: D.Config, act: nat, field: string, x: real): (r: D.Config)
    requires D.Sized(c)
    ensures D.Sized(r)
  {
    if act == 0 || act >= D.ACTION_COUNT then c
    else if field == "hz" then c.(burstHz := c.burstHz[act := x])
    else if field == "duty" then c.(burstDuty := c.burstDuty[act := x])
    else if field == "jitter" then c.(burstJitter := c.burstJitter[act := Clamp(x, 0.0, 1.0)])
    else if field == "duty_jitter" then c.(burstDutyJitter := c.burstDutyJitter[act := Clamp(x, 0.0, 1.0)])
    else if field == "skip_prob" then c.(burstSkipProb := c.burstSkipProb[act := Clamp(x, 0.0, 1.0)])
    else c
  }

  /** The rest of a burst key: an action name, a dot and a field. */
  function SetBurst(c: D.Config, rest: string, x: real): (r: D.Config)
    requires D.Sized(c)
    ensures D.Sized(r)
  {
    var dot := AfterLast(rest, '.');
    if dot == 0 then c else SetBurstField(c, ActionId(rest[..dot - 1]), rest[dot..], x)
  }

  function ReadPair(atof: string -> real, c: D.Config, k: string, v: string): (r: D.Config)
    requires D.Sized(c)
    ensures D.Sized(r)
  {
    var t := SetScalar(atof, c, k, v);
    if t.Some? then t.value
    else if HasPrefix(k, "key.") then SetKey(c, k[4..], v)
    else if HasPrefix(k, "mouse.") then SetButton(c, k[6..], v)
    else if k == "hotkey.mode_toggle" then c.(hotkey := Chord(v))
    else if HasPrefix(k, "burst.") then SetBurst(c, k[6..], atof(v))
    else c
  }

  function ReadLine(atof: string -> real, c: D.Config, line: string): (r: D.Config)
    requires D.Sized(c)
    ensures D.Sized(r)
  {
    match ParseLine(line)
    case Skip => c
    case Pair(k, v) => ReadPair(atof, c, k, v)
  }

  function ReadLines(atof: string -> real, c: D.Config, lines: seq<string>): (r: D.Config)
    requires D.Sized(c)
    ensures D.Sized(r)
    decreases |lines|
  {
    if lines == [] then c else ReadLines(atof, ReadLine(atof, c, lines[0]), lines[1..])
  }

  /** What `config_load` leaves in the record. */
  function Load(atof: string -> real, file: Option<string>): D.Config {
    if file.None? then Defaults() else ReadLines(atof, Defaults(), Chunks(file.value))
  }

  // ------------------------------------------------------------------- ranges

  /** A value in range is stored as it is, one beyond an end as that end. */
  lemma ClampLaw(x: real, lo: real, hi: real)
    requires lo <= hi
    ensures var r := Clamp(x, lo, hi);
            && lo <= r <= hi
            && (lo <= x <= hi ==> r == x) && (x < lo ==> r == lo) && (x > hi ==> r == hi)
  {}

  predicate UnitTable(t: seq<real>) {
    forall i :: 0 <= i < |t| ==> 0.0 <= t[i] <= 1.0
  }

  /** What the parts of the mapper that use the record rely on. */
  predicate InRange(c: D.Config) {
    && -1.0 <= c.recoilX <= 1.0 && -1.0 <= c.recoilY <= 1.0
    && 0.01 <= c.adsSensScale <= 4.0 && 0.01 <= c.fireSensScale <= 4.0
    && UnitTable(c.burstJitter) && UnitTable(c.burstDutyJitter) && UnitTable(c.burstSkipProb)
  }

  lemma UnitStored(t: seq<real>, i: nat, x: real)
    requires UnitTable(t) && i < |t|
    ensures UnitTable(t[i := Clamp(x, 0.0, 1.0)])
  {}

  lemma ScalarInRange(atof: string -> real, c: D.Config, k: string, v: string)
    requires InRange(c)
    ensures var t := SetScalar(atof, c, k, v); t.Some? ==> InRange(t.value)
  {
    hide InRange, ActionId, Clamp, D.Sized;
    FreeFields(c, atof(v), ActionId(v));
    ClampedFields(c, atof(v));
  }

  lemma FreeFields(c: D.Config, x: real, act: nat)
    requires InRange(c)
    ensures InRange(c.(windowMs := x)) && InRange(c.(curveExp := x)) && InRange(c.(antiDeadzone := x))
    ensures InRange(c.(outerSat := x)) && InRange(c.(sensCountsMs := x)) && InRange(c.(debtDrain := x))
    ensures InRange(c.(recoilAction := act)) && InRange(c.(adsAction := act))
  {
    hide UnitTable;
  }

  lemma ClampedFields(c: D.Config, x: real)
    requires InRange(c)
    ensures InRange(c.(recoilX := Clamp(x, -1.0, 1.0))) && InRange(c.(recoilY := Clamp(x, -1.0, 1.0)))
    ensures InRange(c.(adsSensScale := Clamp(x, 0.01, 4.0))) && InRange(c.(fireSensScale := Clamp(x, 0.01, 4.0)))
  {
    hide UnitTable, Clamp;
    ClampLaw(x, -1.0, 1.0);
    ClampLaw(x, 0.01, 4.0);
  }

  lemma BurstInRange(c: D.Config, act: nat, field: string, x: real)
    requires D.Sized(c) && InRange(c)
    ensures InRange(SetBurstField(c, act, field, x))
  {
    hide UnitTable, Clamp;
    if 0 < act < D.ACTION_COUNT {
      UnitStored(c.burstJitter, act, x);
      UnitStored(c.burstDutyJitter, act, x);
      UnitStored(c.burstSkipProb, act, x);
    }
  }

  lemma LineInRange(atof: string -> real, c: D.Config, line: string)
    requires D.Sized(c) && InRange(c)
    ensures InRange(ReadLine(atof, c, line))
  {
    hide SetScalar, SetBurstField, ParseLine, Chord, Lookup, ActionId, UnitTable, AfterLast;
    match ParseLine(line)
    case Skip =>
    case Pair(k, v) =>
      ScalarInRange(atof, c, k, v);
      if HasPrefix(k, "burst.") {
        var rest := k[6..];
        var dot := AfterLast(rest, '.');
        if dot > 0 { BurstInRange(c, ActionId(rest[..dot - 1]), rest[dot..], atof(v)); }
      }
  }

  lemma {:induction false} LinesInRange(atof: string -> real, c: D.Config, lines: seq<string>)
    requires D.Sized(c) && InRange(c)
    ensures InRange(ReadLines(atof, c, lines))
    decreases |lines|
  {
    hide ReadLine, InRange;
    if lines != [] {
      LineInRange(atof, c, lines[0]);
      LinesInRange(atof, ReadLine(atof, c, lines[0]), lines[1..]);
    }
  }

  /** Whatever the file says, every clamped field of the record is in its range. */
  lemma LoadedInRange(atof: string -> real, file: Option<string>)
    ensures InRange(Load(atof, file))
  {
    assert InRange(Defaults());
    hide InRange, Defaults, Chunks;
    if file.Some? { LinesInRange(atof, Defaults(), Chunks(file.value)); }
  }

  // ----------------------------------------------------------------- the loops

  /** The end of the piece at the cursor. */
  method FindSeparator(v: string, cur: nat) returns (sep: nat)
    requires cur <= |v|
    ensures cur <= sep <= |v|
    ensures var w := MapChars(CommaToPlus, v); '+' !in w[cur..sep] && (sep < |v| ==> w[sep] == '+')
  {
    sep := cur;
    while sep < |v| && v[sep] != '+' && v[sep] != ','
      invariant cur <= sep <= |v|
      invariant forall i :: cur <= i < sep ==> v[i] != '+' && v[i] != ','
    {
      sep := sep + 1;
    }
    SeparatorFound(v, cur, sep);
  }

  lemma SeparatorFound(v: string, cur: nat, sep: nat)
    requires cur <= sep <= |v| && forall i :: cur <= i < sep ==> v[i] != '+' && v[i] != ','
    ensures var w := MapChars(CommaToPlus, v); '+' !in w[cur..sep] && (sep < |v| && (v[sep] == '+' || v[sep] == ',') ==> w[sep] == '+')
  {
    var w := MapChars(CommaToPlus, v);
    forall i | cur <= i < sep ensures w[i] != '+' {
      assert w[i] == CommaToPlus(v[i]);
    }
  }

  /** The chord tokeniser: a cursor over the value, stopping at eight codes. */
  method ReadChord(v: string) returns (codes: seq<int>)
    ensures codes == Chord(v)
  {
    hide Lookup, TakeCodes, Split, Trim, MapChars, Chord;
    assert Chord(v) == TakeCodes(MAPPER_KEYS, Split(MapChars(CommaToPlus, v), '+'), 8) by { ChordIs(v); }
    var w := MapChars(CommaToPlus, v);
    codes := [];
    var cur := 0;
    assert w[0..] == w;
    while cur < |w| && |codes| < 8
      invariant 0 <= cur <= |w| && |codes| <= 8
      invariant codes + TakeCodes(MAPPER_KEYS, Split(w[cur..], '+'), 8 - |codes|) == Chord(v)
      decreases |w| - cur
    {
      var sep := FindSeparator(v, cur);
      var name := Trim(w[cur..sep]);
      ghost var rest := if sep < |w| then Split(w[sep + 1..], '+') else [];
      NextPiece(w, cur, sep);
      TakeStep(MAPPER_KEYS, w[cur..sep], rest, 8 - |codes|);
      if name != "" {
        var code := LookupCi(MAPPER_KEYS, name);
        if code >= 0 {
          Assoc(codes, code, TakeCodes(MAPPER_KEYS, rest, 7 - |codes|));
          codes := codes + [code];
        }
      }
      assert codes + TakeCodes(MAPPER_KEYS, rest, 8 - |codes|) == Chord(v);
      if sep == |w| {
        NothingTaken(MAPPER_KEYS, 8 - |codes|);
        return;
      }
      cur := sep + 1;
    }
    if cur == |w| { assert w[cur..] == ""; }
    NothingTaken(MAPPER_KEYS, 8 - |codes|);
    TakeNone(MAPPER_KEYS, Split(w[cur..], '+'));
  }

  lemma ChordIs(v: string)
    ensures Chord(v) == TakeCodes(MAPPER_KEYS, Split(MapChars(CommaToPlus, v), '+'), 8)
  {
    hide TakeCodes, Split, MapChars;
  }

  lemma Assoc(codes: seq<int>, code: int, rest: seq<int>)
    ensures (codes + [code]) + rest == codes + ([code] + rest)
  {}

  lemma NothingTaken(table: seq<Named>, n: nat)
    ensures TakeCodes(table, [], n) == [] && TakeCodes(table, Split("", '+'), n) == []
  {
    assert Trim("") == "" && [""][1..] == [];
  }

  lemma TakeNone(table: seq<Named>, pieces: seq<string>)
    ensures TakeCodes(table, pieces, 0) == []
  {}

  lemma NextPiece(w: string, cur: nat, sep: nat)
    requires cur <= sep <= |w| && '+' !in w[cur..sep] && (sep < |w| ==> w[sep] == '+')
    ensures Split(w[cur..], '+') == [w[cur..sep]] + (if sep < |w| then Split(w[sep + 1..], '+') else [])
  {
    if sep < |w| {
      assert w[cur..] == w[cur..sep] + ['+'] + w[sep + 1..];
      SplitFirst(w[cur..sep], w[sep + 1..], '+');
    } else {
      assert w[cur..] == w[cur..sep];
      SplitAbsent(w[cur..sep], '+');
    }
  }

  lemma TakeStep(table: seq<Named>, piece: string, rest: seq<string>, n: nat)
    requires n > 0
    ensures TakeCodes(table, [piece] + rest, n) ==
      if Trim(piece) != "" && Lookup(table, Trim(piece)) >= 0 then [Lookup(table, Trim(piece))] + TakeCodes(table, rest, n - 1)
      else TakeCodes(table, rest, n)
  {
    assert ([piece] + rest)[1..] == rest;
  }

  /** `config_load`: chunk after chunk, overwriting the record in place. */
  method ConfigLoad(atof: string -> real, file: Option<string>) returns (c: D.Config)
    ensures c == Load(atof, file)
  {
    hide ReadPair, Chunk;
    c := Defaults();
    if file.None? { return; }
    var rest := file.value;
    while rest != ""
      invariant D.Sized(c)
      invariant ReadLines(atof, c, Chunks(rest)) == Load(atof, file)
      decreases |rest|
    {
      var n := Chunk(rest);
      var line := rest[..n];
      ghost var tail := Chunks(rest[n..]);
      assert Chunks(rest) == [line] + tail && ([line] + tail)[1..] == tail;
      rest := rest[n..];
      var p := Trim(line);
      if p == "" || p[0] == '#' { continue; }
      var eq := IndexOf(p, '=');
      if eq == |p| { continue; }
      var k, v := Trim(p[..eq]), Trim(p[eq + 1..]);
      c := StorePair(atof, c, k, v);
    }
  }

  /** The key dispatch of `config_load`. */
  method StorePair(atof: string -> real, c0: D.Config, k: string, v: string) returns (c: D.Config)
    requires D.Sized(c0)
    ensures c == ReadPair(atof, c0, k, v)
  {
    c := c0;
    var t := SetScalar(atof, c, k, v);
    if t.Some? { return t.value; }
    if HasPrefix(k, "key.") {
      var code := LookupCi(MAPPER_KEYS, k[4..]);
      var act := ActionId(v);
      if code < 0 || code >= D.KEYTABLE || act == 0 { return; }
      c := c.(keyAction := c.keyAction[code := act]);
    } else if HasPrefix(k, "mouse.") {
      var code := LookupCi(MOUSE_BUTTONS, k[6..]);
      var act := ActionId(v);
      if code < 0 || act == 0 { return; }
      c := c.(btnAction := c.btnAction[code % 256 := act]);
    } else if k == "hotkey.mode_toggle" {
      var codes := ReadChord(v);
      c := c.(hotkey := codes);
    } else if HasPrefix(k, "burst.") {
      var rest := k[6..];
      var dot := AfterLast(rest, '.');
      if dot == 0 { return; }
      c := SetBurstField(c, ActionId(rest[..dot - 1]), rest[dot..], atof(v));
    }
  }
}
