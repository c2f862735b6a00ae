/** `loadConfig` and `saveConfig` as they run: loops that update the configuration and the text
    in place, proved to compute `Load` and `Save`. */
module ConfigFile {
  import opened Text
  import opened StableSort
  import opened WebConfig
  import RoundTrip

  /** `findBurst`: the entry for `action`, appended when there is none. */
  method FindBurst(list: seq<Burst>, action: string) returns (r: seq<Burst>, i: nat)
    ensures i < |r| && r[i].action == action && forall j :: 0 <= j < i ==> r[j].action != action
    ensures r == list || (r == list + [Burst(action, 0.0, 0.0, 0.0, 0.0, 0.0)] && i == |list|)
    ensures r == WithBurst(list, action) && i == Position(r, action)
  {
    i := 0;
    while i < |list|
      invariant 0 <= i <= |list|
      invariant forall j :: 0 <= j < i ==> list[j].action != action
    {
      if list[i].action == action {
        r := list;
        assert Position(list, action) == i;
        return;
      }
      i := i + 1;
    }
    r := list + [Burst(action, 0.0, 0.0, 0.0, 0.0, 0.0)];
    assert Position(list, action) == |list|;
    assert r[i].action == action && Position(r, action) == i;
  }

  /** The chord loop of `loadConfig`. */
  method ReadChord(v: string) returns (names: seq<string>)
    ensures names == ChordNames(v)
  {
    hide Trim, Split, ToUpper;
    var parts := SplitChord(v);
    names := [];
    assert parts[0..] == parts;
    for n := 0 to |parts|
      invariant names + KeyNames(parts[n..]) == KeyNames(parts)
    {
      var part := Trim(parts[n]);
      ghost var rest := KeyNames(parts[n + 1..]);
      assert parts[n..][0] == parts[n] && parts[n..][1..] == parts[n + 1..];
      if part != "" {
        assert (names + [ToUpper(part)]) + rest == names + ([ToUpper(part)] + rest);
        names := names + [ToUpper(part)];
      } else {
        assert [] + rest == rest;
      }
    }
  }

  method LoadConfig(f: Floats, file: Option<string>) returns (c: Config)
    ensures c == LoadFile(f, file)
  {
    hide ApplyLines, Split, ApplyPair, SortBy, Trim, IndexOf;
    c := EMPTY;
    if file.None? { return; }
    var lines := Split(file.value, NL);
    RoundTrip.ApplyNone(f, EMPTY);
    assert lines[..0] == [];
    for n := 0 to |lines|
      invariant c == ApplyLines(f, EMPTY, lines[..n])
    {
      assert lines[..n + 1] == lines[..n] + [lines[n]];
      RoundTrip.ApplyAppend(f, EMPTY, lines[..n], [lines[n]]);
      RoundTrip.ApplyOne(f, c, lines[n]);
      var line := Trim(lines[n]);
      if line == "" || line[0] == '#' { continue; }
      var eq := IndexOf(line, '=');
      if eq == |line| { continue; }
      var k, v := Trim(line[..eq]), Trim(line[eq + 1..]);
      c := ReadPair(f, c, k, v);
    }
    assert lines[..|lines|] == lines;
    c := Config(c.tuning, SortBy(BindingLess, c.bindings), SortBy(BurstLess, c.bursts), c.hotkey);
    if c.hotkey == [] { c := c.(hotkey := DEFAULT_HOTKEY); }
  }

  /** The key switch of `loadConfig`. */
  method ReadPair(f: Floats, c0: Config, k: string, v: string) returns (c: Config)
    ensures c == ApplyPair(f, c0, k, v)
  {
    c := c0;
    var t := SetTuning(f, c.tuning, k, v);
    if t.Some? {
      c := c.(tuning := t.value);
    } else if HasPrefix(k, "key.") {
      c := c.(bindings := c.bindings + [Binding("key", k[4..], v)]);
    } else if HasPrefix(k, "mouse.") {
      c := c.(bindings := c.bindings + [Binding("mouse", k[6..], v)]);
    } else if HasPrefix(k, "burst.") {
      var rest := k[6..];
      var dot := AfterLast(rest, '.');
      if dot == 0 { return; }
      var list, i := FindBurst(c.bursts, rest[..dot - 1]);
      c := c.(bursts := list[i := SetField(list[i], rest[dot..], f.parse(v))]);
    } else if k == "hotkey.mode_toggle" {
      var names := ReadChord(v);
      c := c.(hotkey := names);
    }
  }

  lemma UnlinesOne(line: string)
    ensures Unlines([line]) == line + [NL]
  {
    assert Unlines([line][1..]) == "";
  }

  /** The text of an optional line followed by more lines. */
  lemma UnlinesOpt(keep: bool, line: string, rest: seq<string>)
    ensures Unlines(Opt(keep, line) + rest) == (if keep then line + [NL] else "") + Unlines(rest)
  {
    UnlinesAppend(Opt(keep, line), rest);
    UnlinesOne(line);
  }

  method WriteBindings(bs: seq<Binding>) returns (b: string)
    ensures b == Unlines(BindingLines(bs))
  {
    hide Unlines, Opt, BindingLine, ToUpper;
    b := "";
    assert bs[0..] == bs;
    for n := 0 to |bs|
      invariant b + Unlines(BindingLines(bs[n..])) == Unlines(BindingLines(bs))
    {
      var bd := bs[n];
      assert bs[n..][0] == bd && bs[n..][1..] == bs[n + 1..];
      ghost var rest := Unlines(BindingLines(bs[n + 1..]));
      UnlinesOpt(KeptBinding(bd), BindingLine(bd), BindingLines(bs[n + 1..]));
      if bd.source != "key" && bd.source != "mouse" { assert "" + rest == rest; continue; }
      var line := BindingLine(bd) + [NL];
      assert (b + line) + rest == b + (line + rest);
      b := b + line;
    }
    NoBindings();
  }

  lemma NoBindings()
    ensures Unlines(BindingLines([])) == ""
  {}

  method WriteBursts(f: Floats, bs: seq<Burst>) returns (b: string)
    ensures b == Unlines(BurstLines(f, bs))
  {
    hide Unlines, LinesOfBurst;
    b := "";
    assert bs[0..] == bs;
    for n := 0 to |bs|
      invariant b + Unlines(BurstLines(f, bs[n..])) == Unlines(BurstLines(f, bs))
    {
      var br := bs[n];
      assert bs[n..][0] == br && bs[n..][1..] == bs[n + 1..];
      ghost var rest := BurstLines(f, bs[n + 1..]);
      if br.action == "" || br.hz <= 0.0 { assert [] + rest == rest; continue; }
      UnlinesAppend(LinesOfBurst(f, br), rest);
      var entry := WriteBurst(f, br);
      assert (b + entry) + Unlines(rest) == b + (entry + Unlines(rest));
      b := b + entry;
    }
    NoBursts(f);
  }

  lemma NoBursts(f: Floats)
    ensures Unlines(BurstLines(f, [])) == ""
  {}

  /** Appending an optional field line to the builder. */
  method AppendField(b: string, keep: bool, line: string, ghost rest: seq<string>) returns (r: string)
    ensures r + Unlines(rest) == b + Unlines(Opt(keep, line) + rest)
  {
    hide Unlines, Opt;
    UnlinesOpt(keep, line, rest);
    r := b;
    if keep { r := r + (line + [NL]); }
  }

  method WriteBurst(f: Floats, br: Burst) returns (b: string)
    ensures b == Unlines(LinesOfBurst(f, br))
  {
    hide BurstLine, Unlines, Opt;
    ghost var l5 := Opt(br.skipProb > 0.0, BurstLine(f, br.action, "skip_prob", br.skipProb));
    ghost var l4 := Opt(br.dutyJitter > 0.0, BurstLine(f, br.action, "duty_jitter", br.dutyJitter)) + l5;
    ghost var l3 := Opt(br.jitter > 0.0, BurstLine(f, br.action, "jitter", br.jitter)) + l4;
    ghost var l2 := Opt(br.duty > 0.0, BurstLine(f, br.action, "duty", br.duty)) + l3;
    UnlinesAppend([BurstLine(f, br.action, "hz", br.hz)], l2);
    UnlinesOne(BurstLine(f, br.action, "hz", br.hz));
    b := BurstLine(f, br.action, "hz", br.hz) + [NL];
    b := AppendField(b, br.duty > 0.0, BurstLine(f, br.action, "duty", br.duty), l3);
    b := AppendField(b, br.jitter > 0.0, BurstLine(f, br.action, "jitter", br.jitter), l4);
    b := AppendField(b, br.dutyJitter > 0.0, BurstLine(f, br.action, "duty_jitter", br.dutyJitter), l5);
    b := AppendField(b, br.skipProb > 0.0, BurstLine(f, br.action, "skip_prob", br.skipProb), []);
    assert l5 + [] == l5;
    NoText();
  }

  /** `saveConfig`: the tuning block, then the bindings, the bursts and the chord. */
  method SaveConfig(f: Floats, c: Config) returns (b: string)
    ensures b == Save(f, c)
  {
    hide TuningLines, OptionalTuningLines, BindingLines, BurstLines, Unlines;
    var l5 := HotkeyLines(c.hotkey);
    var l4 := BurstLines(f, c.bursts) + l5;
    var l3 := BindingLines(c.bindings) + l4;
    var l2 := OptionalTuningLines(f, c.tuning) + ([""] + l3);
    UnlinesAppend([HEADER, ""], TuningLines(f, c.tuning) + l2);
    UnlinesAppend(TuningLines(f, c.tuning), l2);
    UnlinesAppend(OptionalTuningLines(f, c.tuning), [""] + l3);
    UnlinesAppend([""], l3);
    UnlinesAppend(BindingLines(c.bindings), l4);
    UnlinesAppend(BurstLines(f, c.bursts), l5);
    b := Unlines([HEADER, ""]) + (Unlines(TuningLines(f, c.tuning)) + (Unlines(OptionalTuningLines(f, c.tuning)) + Unlines([""])));
    var bindings := WriteBindings(c.bindings);
    var bursts := WriteBursts(f, c.bursts);
    b := b + bindings + bursts;
    if |c.hotkey| > 0 {
      UnlinesOne("hotkey.mode_toggle" + "=" + Join(c.hotkey, '+'));
      b := b + ("hotkey.mode_toggle" + "=" + Join(c.hotkey, '+') + [NL]);
    } else {
      NoText();
    }
  }

  lemma NoText()
    ensures Unlines([]) == ""
  {}
}
