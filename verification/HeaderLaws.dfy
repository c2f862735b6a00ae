/** What stripping removes from a profile and what it leaves, and where metadata is looked for. */
module HeaderLaws {
  import opened Text
  import opened ProfileText

  // ---------------------------------------------------------------- stripping

  lemma CutAt(s: string, i: nat)
    requires i < |s|
    ensures s == s[..i] + [s[i]] + s[i + 1..]
  {}

  /** The first line of a text and the rest. */
  lemma FirstLine(s: string)
    ensures var i := IndexOf(s, NL);
            && NL !in s[..i] && (i == |s| ==> Split(s, NL) == [s])
            && (i < |s| ==> s == s[..i] + [NL] + s[i + 1..] && Split(s, NL) == [s[..i]] + Split(s[i + 1..], NL))
  {
    var i := IndexOf(s, NL);
    hide Split, IndexOf;
    if i < |s| {
      CutAt(s, i);
      var line, rest := s[..i], s[i + 1..];
      assert s == line + [NL] + rest;
      SplitFirst(line, rest, NL);
    } else {
      assert s[..i] == s;
      SplitAbsent(s, NL);
    }
  }

  lemma {:induction false} UnlinesSplit(s: string)
    ensures Unlines(Split(s, NL)) == s + [NL]
    decreases |s|
  {
    hide Split;
    FirstLine(s);
    var i := IndexOf(s, NL);
    if i < |s| {
      UnlinesSplit(s[i + 1..]);
      assert Split(s, NL)[1..] == Split(s[i + 1..], NL);
    } else {
      assert [s][1..] == [];
    }
  }

  lemma TrimOne(s: string)
    ensures TrimNewlines(s + [NL]) == TrimNewlines(s)
  {
    assert (s + [NL])[..|s + [NL]| - 1] == s;
  }

  /** A text without metadata lines that ends in exactly one newline is left as it is. */
  lemma CleanStays(body: string)
    requires body != "" && body[|body| - 1] != NL
    requires forall l :: l in Split(body + [NL], NL) ==> !MetaLine(l)
    ensures Strip(body + [NL]) == body + [NL]
  {
    var text := body + [NL];
    KeptFixed(Split(text, NL));
    UnlinesSplit(text);
    TrimOne(text);
    TrimOne(body);
    assert TrimNewlines(body) == body;
  }

  /** The text ends where a line begins. */
  predicate WholeLines(a: string) {
    a == "" || a[|a| - 1] == NL
  }

  lemma RestIsWhole(a: string)
    requires WholeLines(a) && a != ""
    ensures IndexOf(a, NL) < |a| && WholeLines(a[IndexOf(a, NL) + 1..])
  {
    var i := IndexOf(a, NL);
    assert NL in a && a[..|a|] == a;
    hide IndexOf;
    var rest := a[i + 1..];
    if rest != "" { assert rest[|rest| - 1] == a[|a| - 1]; }
  }

  /** The lines of a text of whole lines. */
  function WholeOf(a: string): seq<string> {
    var p := Split(a, NL);
    p[..|p| - 1]
  }

  lemma {:induction false} SplitAfterLines(a: string, b: string)
    requires WholeLines(a)
    ensures Split(a + b, NL) == WholeOf(a) + Split(b, NL)
    decreases |a|
  {
    hide Split, IndexOf, WholeLines;
    if a == "" {
      assert a + b == b;
      SplitAbsent("", NL);
    } else {
      FirstLine(a);
      RestIsWhole(a);
      var i := IndexOf(a, NL);
      var line, rest := a[..i], a[i + 1..];
      SplitAfterLines(rest, b);
      assert a + b == line + [NL] + (rest + b) by { Reassociate(line, [NL], rest, b); }
      SplitFirst(line, rest + b, NL);
      WholeCons(line, Split(rest, NL));
      ConcatAssociates([line], WholeOf(rest), Split(b, NL));
    }
  }

  lemma Reassociate(a: string, b: string, c: string, d: string)
    ensures (a + b + c) + d == a + b + (c + d)
  {}

  lemma WholeCons(line: string, p: seq<string>)
    requires |p| >= 1
    ensures ([line] + p)[..|p|] == [line] + p[..|p| - 1]
  {}

  lemma {:induction false} KeptConcat(a: seq<string>, b: seq<string>)
    ensures Kept(a + b) == Kept(a) + Kept(b)
  {
    if a == [] {
      assert a + b == b;
    } else {
      assert (a + b)[0] == a[0] && (a + b)[1..] == a[1..] + b;
      KeptConcat(a[1..], b);
    }
  }

  /** A metadata line is removed wherever it stands, and nothing with it. */
  lemma HeaderVanishes(a: string, line: string, b: string)
    requires WholeLines(a) && MetaLine(line) && NL !in line
    ensures Strip(a + (line + [NL] + b)) == Strip(a + b)
  {
    var rest := line + [NL] + b;
    var front := Split(a, NL);
    var lines, tail := front[..|front| - 1], Split(b, NL);
    SplitAfterLines(a, rest);
    SplitAfterLines(a, b);
    SplitFirst(line, b, NL);
    KeptConcat(lines, [line] + tail);
    KeptConcat(lines, tail);
    assert ([line] + tail)[1..] == tail;
    assert [] + Kept(tail) == Kept(tail);
  }

  lemma {:induction false} SplitEnd(s: string)
    ensures Split(s + [NL], NL) == Split(s, NL) + [""]
  {
    if s == "" {
      SplitFirst("", "", NL);
      assert s + [NL] == "" + [NL] + "";
    } else {
      SplitEnd(s[1..]);
      assert (s + [NL])[1..] == s[1..] + [NL];
      var rest := Split(s[1..], NL);
      TailOfConcat(rest, [""]);
      ConcatAssociates([""], rest, [""]);
      ConcatAssociates([[s[0]] + rest[0]], rest[1..], [""]);
    }
  }

  /** Newlines at the end do not count. */
  lemma EndVanishes(text: string)
    ensures Strip(text + [NL]) == Strip(text)
  {
    var ls := Split(text, NL);
    SplitEnd(text);
    KeptConcat(ls, [""]);
    NotMetaBlank();
    assert [""][1..] == [];
    assert Kept([""]) == [""];
    UnlinesLast(Kept(ls), "");
    TrimOne(Unlines(Kept(ls)));
    assert Unlines(Kept(ls)) + "" == Unlines(Kept(ls));
  }

  // -------------------------------------------------------- finding the header

  /** The pieces are the lines, but for the last, which begins like its line. */
  predicate PiecesOf(p: seq<string>, q: seq<string>, n: nat) {
    && |p| == (if |q| < n then |q| else n) && p != []
    && (forall i :: 0 <= i < |p| && i < n - 1 ==> p[i] == q[i])
    && (MetaLine(p[|p| - 1]) <==> MetaLine(q[|p| - 1]))
  }

  lemma PiecesCons(line: string, p: seq<string>, q: seq<string>, n: nat)
    requires PiecesOf(p, q, n)
    ensures PiecesOf([line] + p, [line] + q, n + 1)
  {
    hide MetaLine;
    assert ([line] + p)[|p|] == p[|p| - 1] && ([line] + q)[|p|] == q[|p| - 1];
  }

  lemma {:induction false} SplitNPieces(s: string, n: nat)
    requires n >= 1
    ensures PiecesOf(SplitN(s, NL, n), Split(s, NL), n)
    decreases n
  {
    hide Split, MetaLine, IndexOf;
    FirstLine(s);
    var i := IndexOf(s, NL);
    if i < |s| && n > 1 {
      SplitNPieces(s[i + 1..], n - 1);
      hide PiecesOf;
      PiecesCons(s[..i], SplitN(s[i + 1..], NL, n - 1), Split(s[i + 1..], NL), n - 1);
    } else if i < |s| {
      BeginsAlike(s[..i], s[i + 1..]);
    }
  }

  lemma BeginsAlike(line: string, rest: string)
    ensures MetaLine(line + [NL] + rest) <==> MetaLine(line)
  {
    var s := line + [NL] + rest;
    assert NL !in META;
    if |META| <= |line| {
      assert s[..|META|] == line[..|META|];
    } else {
      assert META[|line|] in META;
      if |META| <= |s| { assert s[..|META|][|line|] == NL; }
    }
  }

  /** The line may stand before the metadata. */
  predicate Passed(line: string) {
    !MetaLine(line) && (line == "" || HasPrefix(line, "#"))
  }

  lemma {:induction false} HeaderAt(j: Json, lines: seq<string>, i: nat)
    requires i < |lines| && (forall k :: 0 <= k < i ==> Passed(lines[k])) && !Passed(lines[i])
    ensures HeaderMeta(j, lines) == if MetaLine(lines[i]) then j.unmarshal(lines[i][|META|..]) else NO_META
  {
    if i > 0 {
      assert Passed(lines[0]);
      HeaderAt(j, lines[1..], i - 1);
    }
  }

  /** The first line that is neither blank nor a comment, or is metadata, decides: it is looked for among
      the first fifteen lines. */
  lemma HeaderDecides(j: Json, text: string, i: nat)
    requires i < 15 && i < |Split(text, NL)|
    requires (forall k :: 0 <= k < i ==> Passed(Split(text, NL)[k])) && !Passed(Split(text, NL)[i])
    ensures var line := Split(text, NL)[i];
            ParseMeta(j, text) == if MetaLine(line) then j.unmarshal(line[|META|..]) else NO_META
  {
    hide Passed, MetaLine, Split, SplitN;
    SplitNPieces(text, 16);
    HeaderAt(j, SplitN(text, NL, 16), i);
  }

  lemma {:induction false} NoHeader(j: Json, lines: seq<string>)
    requires forall k :: 0 <= k < |lines| ==> !MetaLine(lines[k])
    ensures HeaderMeta(j, lines) == NO_META
  {
    if lines != [] { NoHeader(j, lines[1..]); }
  }

  /** Metadata further down than the sixteenth line is not seen. */
  lemma LateHeaderUnseen(j: Json, text: string)
    requires forall k :: 0 <= k < 16 && k < |Split(text, NL)| ==> !MetaLine(Split(text, NL)[k])
    ensures ParseMeta(j, text) == NO_META
  {
    hide MetaLine, Split, SplitN, HeaderMeta;
    SplitNPieces(text, 16);
    var p := SplitN(text, NL, 16);
    NoHeader(j, p);
  }
}
