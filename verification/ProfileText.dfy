/** The text of a profile: a configuration with one `# meta {...}` header line. */
module ProfileText {
  import opened Text
  import opened WebConfig

  const META := "# meta "

  /** Profile metadata; instants are integers, 0 being Go's zero time. */
  datatype Meta = Meta(name: string, description: string, created: int, modified: int)

  const NO_META := Meta("", "", 0, 0)

  /** `encoding/json` on metadata: which values it carries exactly, `Marshal`, and what `Unmarshal`
      leaves in a zero value, errors ignored. */
  datatype Json = Json(valid: Meta -> bool, marshal: Meta -> string, unmarshal: string -> Meta)

  /** Encoded metadata is one line, and valid metadata decodes to itself. */
  ghost predicate LawfulJson(j: Json) {
    forall m :: NL !in j.marshal(m) && (j.valid(m) ==> j.unmarshal(j.marshal(m)) == m)
  }

  predicate MetaLine(line: string) {
    HasPrefix(line, META)
  }

  function Kept(lines: seq<string>): seq<string> {
    if lines == [] then [] else (if MetaLine(lines[0]) then [] else [lines[0]]) + Kept(lines[1..])
  }

  /** `strings.TrimRight(s, "\n")`. */
  function TrimNewlines(s: string): string {
    if s != "" && s[|s| - 1] == NL then TrimNewlines(s[..|s| - 1]) else s
  }

  function Strip(text: string): string {
    TrimNewlines(Unlines(Kept(Split(text, NL)))) + [NL]
  }

  function Render(j: Json, m: Meta, body: string): string {
    META + j.marshal(m) + [NL] + Strip(body)
  }

  /** `strings.SplitN`: at most `n` pieces, the last one being all the rest. */
  function SplitN(s: string, sep: char, n: nat): seq<string>
    requires n >= 1
    decreases n
  {
    var i := IndexOf(s, sep);
    if n == 1 || i == |s| then [s] else [s[..i]] + SplitN(s[i + 1..], sep, n - 1)
  }

  function HeaderMeta(j: Json, lines: seq<string>): Meta {
    if lines == [] then NO_META
    else if MetaLine(lines[0]) then j.unmarshal(lines[0][|META|..])
    else if lines[0] == "" || HasPrefix(lines[0], "#") then HeaderMeta(j, lines[1..])
    else NO_META
  }

  function ParseMeta(j: Json, text: string): Meta {
    HeaderMeta(j, SplitN(text, NL, 16))
  }

  // ---------------------------------------------------------------- the loops

  method StripProfileMeta(text: string) returns (r: string)
    ensures r == Strip(text)
  {
    var lines := Split(text, NL);
    var b := "";
    assert lines[0..] == lines;
    for n := 0 to |lines|
      invariant b + Unlines(Kept(lines[n..])) == Unlines(Kept(lines))
    {
      var line := lines[n];
      assert lines[n..][0] == line && lines[n..][1..] == lines[n + 1..];
      ghost var rest := Kept(lines[n + 1..]);
      if HasPrefix(line, META) { assert [] + rest == rest; continue; }
      assert ([line] + rest)[1..] == rest;
      assert (b + (line + [NL])) + Unlines(rest) == b + (line + [NL] + Unlines(rest));
      b := b + (line + [NL]);
    }
    assert lines[|lines|..] == [] && b + "" == b;
    r := TrimNewlines(b) + [NL];
  }

  method ParseProfileMeta(j: Json, text: string) returns (m: Meta)
    ensures m == ParseMeta(j, text)
  {
    var lines := SplitN(text, NL, 16);
    assert lines[0..] == lines;
    for n := 0 to |lines|
      invariant HeaderMeta(j, lines[n..]) == HeaderMeta(j, lines)
    {
      var line := lines[n];
      assert lines[n..][0] == line && lines[n..][1..] == lines[n + 1..];
      if !HasPrefix(line, META) {
        if line == "" || HasPrefix(line, "#") { continue; }
        break;
      }
      return j.unmarshal(line[|META|..]);
    }
    m := NO_META;
  }

  // ---------------------------------------------- stripping, in terms of lines

  /** The lines without blank ones at the end. */
  function DropBlank(lines: seq<string>): seq<string> {
    if lines != [] && lines[|lines| - 1] == "" then DropBlank(lines[..|lines| - 1]) else lines
  }

  function StrippedLines(text: string): seq<string> {
    DropBlank(Kept(Split(text, NL)))
  }

  lemma {:induction false} KeptLines(lines: seq<string>)
    requires forall l :: l in lines ==> NL !in l
    ensures forall l :: l in Kept(lines) ==> NL !in l && !MetaLine(l)
  {
    if lines != [] { KeptLines(lines[1..]); }
  }

  lemma {:induction false} KeptFixed(lines: seq<string>)
    requires forall l :: l in lines ==> !MetaLine(l)
    ensures Kept(lines) == lines
  {
    if lines != [] {
      assert lines[0] in lines;
      KeptFixed(lines[1..]);
    }
  }

  lemma UnlinesLast(init: seq<string>, last: string)
    ensures Unlines(init + [last]) == Unlines(init) + last + [NL]
  {
    UnlinesAppend(init, [last]);
    assert Unlines([last][1..]) == "";
  }

  lemma {:induction false} TrimmedUnlines(lines: seq<string>)
    requires forall l :: l in lines ==> NL !in l
    ensures TrimNewlines(Unlines(lines)) + [NL] == if DropBlank(lines) == [] then [NL] else Unlines(DropBlank(lines))
  {
    if lines != [] {
      var init, last := lines[..|lines| - 1], lines[|lines| - 1];
      assert lines == init + [last];
      UnlinesLast(init, last);
      var u := Unlines(init) + last;
      assert Unlines(lines) == u + [NL];
      assert (u + [NL])[..|u + [NL]| - 1] == u;
      if last == "" {
        assert u == Unlines(init);
        TrimmedUnlines(init);
      } else {
        assert last in lines && u[|u| - 1] == last[|last| - 1] && last[|last| - 1] in last;
        assert TrimNewlines(u) == u;
      }
    }
  }

  lemma {:induction false} DropBlankPrefix(lines: seq<string>)
    ensures DropBlank(lines) <= lines
    ensures DropBlank(lines) == [] || DropBlank(lines)[|DropBlank(lines)| - 1] != ""
    ensures forall i :: |DropBlank(lines)| <= i < |lines| ==> lines[i] == ""
  {
    if lines != [] && lines[|lines| - 1] == "" { DropBlankPrefix(lines[..|lines| - 1]); }
  }

  /** Stripping, seen on lines. */
  lemma StripByLines(text: string)
    ensures Strip(text) == if StrippedLines(text) == [] then [NL] else Unlines(StrippedLines(text))
    ensures forall l :: l in StrippedLines(text) ==> NL !in l && !MetaLine(l)
  {
    SplitPieces(text, NL);
    KeptLines(Split(text, NL));
    TrimmedUnlines(Kept(Split(text, NL)));
    DropBlankPrefix(Kept(Split(text, NL)));
  }

  /** A single line that is not metadata stays as it is. */
  lemma LineStripped(line: string)
    requires line != "" && NL !in line && !MetaLine(line)
    ensures Strip(line + [NL]) == line + [NL]
  {
    hide Strip, Split;
    UnlinesLast([], line);
    assert [] + [line] == [line] && Unlines([]) + line == line;
    assert Unlines([line]) == line + [NL];
    SplitUnlines([line]);
    assert [line] + [""] == [line, ""];
    KeptFixed([line, ""]);
    assert [line, ""][..1] == [line];
    assert DropBlank([line]) == [line];
    StripByLines(line + [NL]);
  }

  lemma DropBlankAgain(lines: seq<string>)
    ensures DropBlank(DropBlank(lines) + [""]) == DropBlank(lines)
    ensures DropBlank(["", ""]) == []
  {
    DropBlankPrefix(lines);
    var d := DropBlank(lines);
    assert (d + [""])[..|d + [""]| - 1] == d;
    assert DropBlank(d) == d;
    assert ["", ""][..1] == [""] && [""][..0] == [];
  }

  /** The lines of a stripped text. */
  lemma LinesOfStripped(text: string)
    ensures Split(Strip(text), NL) == if StrippedLines(text) == [] then ["", ""] else StrippedLines(text) + [""]
  {
    StripByLines(text);
    if StrippedLines(text) == [] {
      SplitFirst("", "", NL);
      assert "" + [NL] + "" == [NL];
    } else {
      SplitUnlines(StrippedLines(text));
    }
  }

  lemma NotMetaBlank()
    ensures !MetaLine("")
  {}

  /** No metadata line is left, and stripping again changes nothing. */
  lemma StripIdempotent(text: string)
    ensures Strip(Strip(text)) == Strip(text)
    ensures forall l :: l in Split(Strip(text), NL) ==> !MetaLine(l)
  {
    var s := Strip(text);
    StripByLines(text);
    LinesOfStripped(text);
    NotMetaBlank();
    var ls := Split(s, NL);
    KeptFixed(ls);
    DropBlankAgain(Kept(Split(text, NL)));
    StripByLines(s);
  }

  // -------------------------------------------------------------- render laws

  lemma RenderedLines(j: Json, m: Meta, body: string)
    requires LawfulJson(j)
    ensures Split(Render(j, m, body), NL) == [META + j.marshal(m)] + Split(Strip(body), NL)
    ensures MetaLine(META + j.marshal(m)) && NL !in META + j.marshal(m)
  {
    hide Split, Strip;
    assert NL !in META;
    SplitFirst(META + j.marshal(m), Strip(body), NL);
    PrefixOfConcat(META, j.marshal(m));
  }

  lemma StripRender(j: Json, m: Meta, body: string)
    requires LawfulJson(j)
    ensures Strip(Render(j, m, body)) == Strip(body)
  {
    RenderedLines(j, m, body);
    var ls := Split(Strip(body), NL);
    assert ([META + j.marshal(m)] + ls)[1..] == ls;
    assert [] + Kept(ls) == Kept(ls);
    assert Strip(Render(j, m, body)) == Strip(Strip(body));
    StripIdempotent(body);
  }

  /** Only the newest header counts. */
  lemma RenderTwice(j: Json, m1: Meta, m2: Meta, body: string)
    requires LawfulJson(j)
    ensures Render(j, m2, Render(j, m1, body)) == Render(j, m2, body)
  {
    StripRender(j, m1, body);
  }

  lemma ParseRender(j: Json, m: Meta, body: string)
    requires LawfulJson(j) && j.valid(m)
    ensures ParseMeta(j, Render(j, m, body)) == m
  {
    var head := META + j.marshal(m);
    assert NL !in head by { RenderedLines(j, m, body); }
    IndexOfUnique(head, Strip(body), NL);
    var text := Render(j, m, body);
    assert text == head + [NL] + Strip(body);
    assert text[..|head|] == head;
    PrefixOfConcat(META, j.marshal(m));
    assert SplitN(text, NL, 16)[0] == head;
  }

  // ------------------------------------------- stripping is invisible to parsing

  function Relevant(lines: seq<string>): seq<string> {
    if lines == [] then [] else (if ParseLine(lines[0]).Skip? then [] else [lines[0]]) + Relevant(lines[1..])
  }

  lemma {:induction false} ApplyRelevant(f: Floats, c: Config, lines: seq<string>)
    ensures ApplyLines(f, c, lines) == ApplyLines(f, c, Relevant(lines))
    decreases |lines|
  {
    if lines != [] {
      ApplyRelevant(f, ApplyLine(f, c, lines[0]), lines[1..]);
      if ParseLine(lines[0]).Skip? {
        assert [] + Relevant(lines[1..]) == Relevant(lines[1..]);
      } else {
        assert ([lines[0]] + Relevant(lines[1..]))[1..] == Relevant(lines[1..]);
      }
    }
  }

  function Counted(line: string): seq<string> {
    if ParseLine(line).Skip? then [] else [line]
  }

  lemma RelevantFirst(lines: seq<string>)
    requires lines != []
    ensures Relevant(lines) == Counted(lines[0]) + Relevant(lines[1..])
  {
    hide ParseLine;
  }

  lemma {:induction false} RelevantConcat(a: seq<string>, b: seq<string>)
    ensures Relevant(a + b) == Relevant(a) + Relevant(b)
  {
    if a == [] {
      assert a + b == b;
    } else {
      hide Relevant, Counted;
      TailOfConcat(a, b);
      RelevantFirst(a);
      RelevantFirst(a + b);
      RelevantConcat(a[1..], b);
      ConcatAssociates(Counted(a[0]), Relevant(a[1..]), Relevant(b));
    }
  }

  lemma SkippedLines(line: string)
    requires line == "" || MetaLine(line)
    ensures ParseLine(line).Skip?
  {
    if MetaLine(line) {
      assert line == "#" + line[1..] by { assert line[..|META|][0] == '#'; }
      TrimRightAppend("#", line[1..]);
    }
  }

  lemma {:induction false} RelevantKept(lines: seq<string>)
    ensures Relevant(Kept(lines)) == Relevant(lines)
  {
    if lines != [] {
      RelevantKept(lines[1..]);
      if MetaLine(lines[0]) {
        SkippedLines(lines[0]);
        assert [] + Kept(lines[1..]) == Kept(lines[1..]);
      } else {
        assert ([lines[0]] + Kept(lines[1..]))[1..] == Kept(lines[1..]);
      }
    }
  }

  lemma {:induction false} RelevantBlank(lines: seq<string>)
    ensures Relevant(DropBlank(lines)) == Relevant(lines)
  {
    if lines != [] && lines[|lines| - 1] == "" {
      var init := lines[..|lines| - 1];
      RelevantBlank(init);
      SkippedLines("");
      assert lines == init + [""];
      RelevantConcat(init, [""]);
      assert Relevant([""][1..]) == [];
    }
  }

  lemma RelevantStripped(text: string)
    ensures Relevant(Split(Strip(text), NL)) == Relevant(Split(text, NL))
  {
    var ls := Split(text, NL);
    LinesOfStripped(text);
    RelevantKept(ls);
    RelevantBlank(Kept(ls));
    SkippedLines("");
    RelevantConcat(StrippedLines(text), [""]);
    assert Relevant([""][1..]) == [] && ["", ""][1..] == [""];
  }

  /** Removing the metadata does not change the configuration the text stands for. */
  lemma StripInvisible(f: Floats, text: string)
    ensures Load(f, Strip(text)) == Load(f, text)
  {
    RelevantStripped(text);
    ApplyRelevant(f, EMPTY, Split(text, NL));
    ApplyRelevant(f, EMPTY, Split(Strip(text), NL));
  }

  lemma RenderInvisible(j: Json, f: Floats, m: Meta, body: string)
    requires LawfulJson(j)
    ensures Load(f, Render(j, m, body)) == Load(f, body)
  {
    StripRender(j, m, body);
    StripInvisible(f, Render(j, m, body));
    StripInvisible(f, body);
  }
}
