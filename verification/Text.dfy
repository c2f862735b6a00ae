/** Text as the daemons and the web tool see it: ASCII characters, lines ended by '\n'.
    Splitting, joining, trimming and ASCII case mapping, with the laws the parsers rely on. */
module Text {

  const NL: char := '\n'

  /** The whitespace of both `isspace` in the C locale and `strings.TrimSpace` on ASCII text. */
  predicate IsSpace(c: char) {
    c == ' ' || '\t' <= c <= '\r'
  }

  predicate HasPrefix(s: string, p: string) {
    |p| <= |s| && s[..|p|] == p
  }

  /** A prefix test that fails because of one differing character. */
  lemma PrefixDiffers(s: string, p: string, i: nat)
    requires i < |p| && i < |s| && s[i] != p[i]
    ensures !HasPrefix(s, p) && s != p
  {
    if |p| <= |s| { assert s[..|p|][i] == s[i]; }
  }

  lemma PrefixOfConcat(p: string, s: string)
    ensures HasPrefix(p + s, p) && (p + s)[|p|..] == s
  {
    assert (p + s)[..|p|] == p;
  }

  datatype Option<T> = None | Some(value: T)

  // ---------------------------------------------------------- concatenations

  lemma TailOfConcat<T>(a: seq<T>, b: seq<T>)
    requires a != []
    ensures (a + b)[1..] == a[1..] + b && (a + b)[0] == a[0]
  {}

  lemma ConcatAssociates<T>(a: seq<T>, b: seq<T>, c: seq<T>)
    ensures (a + b) + c == a + (b + c)
  {}

  // ---------------------------------------------------------------- splitting

  /** `strings.Split` on a one-character separator: always at least one piece. */
  function Split(s: string, sep: char): (pieces: seq<string>)
    ensures |pieces| >= 1
  {
    if s == "" then [""]
    else
      var rest := Split(s[1..], sep);
      if s[0] == sep then [""] + rest else [[s[0]] + rest[0]] + rest[1..]
  }

  /** `strings.Join` on a one-character separator. */
  function Join(pieces: seq<string>, sep: char): string {
    if pieces == [] then ""
    else if |pieces| == 1 then pieces[0]
    else pieces[0] + [sep] + Join(pieces[1..], sep)
  }

  /** Every line followed by a newline, as the `%s\n` writers emit them. */
  function Unlines(lines: seq<string>): string {
    if lines == [] then "" else lines[0] + [NL] + Unlines(lines[1..])
  }

  lemma {:induction false} SplitPieces(s: string, sep: char)
    ensures forall p :: p in Split(s, sep) ==> sep !in p
  {
    if s != "" {
      var rest := Split(s[1..], sep);
      SplitPieces(s[1..], sep);
      assert rest[0] in rest;
    }
  }

  lemma {:induction false} SplitAbsent(s: string, sep: char)
    requires sep !in s
    ensures Split(s, sep) == [s]
  {
    if s != "" {
      assert s[0] in s && s == [s[0]] + s[1..];
      SplitAbsent(s[1..], sep);
    }
  }

  lemma {:induction false} SplitFirst(a: string, b: string, sep: char)
    requires sep !in a
    ensures Split(a + [sep] + b, sep) == [a] + Split(b, sep)
  {
    var s := a + [sep] + b;
    if a == "" {
      assert s[1..] == b;
    } else {
      assert s[1..] == a[1..] + [sep] + b;
      assert s[0] == a[0] && a[0] in a && a == [a[0]] + a[1..];
      SplitFirst(a[1..], b, sep);
    }
  }

  lemma {:induction false} SplitUnlines(lines: seq<string>)
    requires forall l :: l in lines ==> NL !in l
    ensures Split(Unlines(lines), NL) == lines + [""]
  {
    if lines != [] {
      assert lines[0] in lines;
      SplitFirst(lines[0], Unlines(lines[1..]), NL);
      SplitUnlines(lines[1..]);
      assert [lines[0]] + (lines[1..] + [""]) == lines + [""];
    }
  }

  lemma {:induction false} UnlinesAppend(a: seq<string>, b: seq<string>)
    ensures Unlines(a + b) == Unlines(a) + Unlines(b)
  {
    if a == [] {
      assert a + b == b;
    } else {
      assert (a + b)[1..] == a[1..] + b;
      UnlinesAppend(a[1..], b);
    }
  }

  // ----------------------------------------------------------------- trimming

  function TrimLeft(s: string): (t: string)
    ensures |t| <= |s|
  {
    if s != "" && IsSpace(s[0]) then TrimLeft(s[1..]) else s
  }

  function TrimRight(s: string): (t: string)
    ensures |t| <= |s|
  {
    if s != "" && IsSpace(s[|s| - 1]) then TrimRight(s[..|s| - 1]) else s
  }

  /** `trim` of the mapper and `strings.TrimSpace` of the web tool. */
  function Trim(s: string): string {
    TrimRight(TrimLeft(s))
  }

  predicate Trimmed(s: string) {
    s == "" || (!IsSpace(s[0]) && !IsSpace(s[|s| - 1]))
  }

  lemma {:induction false} TrimLeftSuffix(s: string)
    ensures exists n: nat :: n <= |s| && TrimLeft(s) == s[n..]
    ensures TrimLeft(s) == "" || !IsSpace(TrimLeft(s)[0])
  {
    if s != "" && IsSpace(s[0]) {
      TrimLeftSuffix(s[1..]);
      var n: nat :| n <= |s[1..]| && TrimLeft(s[1..]) == s[1..][n..];
      assert s[1..][n..] == s[n + 1..];
    } else {
      assert s[0..] == s;
    }
  }

  lemma {:induction false} TrimRightPrefix(s: string)
    ensures TrimRight(s) <= s
    ensures TrimRight(s) == "" || !IsSpace(TrimRight(s)[|TrimRight(s)| - 1])
  {
    if s != "" && IsSpace(s[|s| - 1]) { TrimRightPrefix(s[..|s| - 1]); }
  }

  lemma TrimIsTrimmed(s: string)
    ensures Trimmed(Trim(s))
  {
    TrimLeftSuffix(s);
    TrimRightPrefix(TrimLeft(s));
  }

  lemma TrimFixed(s: string)
    ensures Trimmed(s) <==> Trim(s) == s
  {
    TrimIsTrimmed(s);
  }

  lemma TrimMembers(s: string)
    ensures forall c :: c in Trim(s) ==> c in s
    ensures forall c :: c in TrimRight(s) ==> c in s
  {
    TrimLeftSuffix(s);
    TrimRightPrefix(TrimLeft(s));
    TrimRightPrefix(s);
  }

  lemma {:induction false} TrimRightAppend(a: string, b: string)
    requires a != "" && !IsSpace(a[|a| - 1])
    ensures TrimRight(a + b) == a + TrimRight(b)
  {
    if b != "" && IsSpace(b[|b| - 1]) {
      assert (a + b)[..|a + b| - 1] == a + b[..|b| - 1];
      TrimRightAppend(a, b[..|b| - 1]);
    }
  }

  lemma {:induction false} TrimRightSpaces(s: string, tail: string)
    requires forall c :: c in tail ==> IsSpace(c)
    ensures TrimRight(s + tail) == TrimRight(s)
  {
    if tail == "" {
      assert s + tail == s;
    } else {
      assert tail[|tail| - 1] in tail;
      assert (s + tail)[..|s + tail| - 1] == s + tail[..|tail| - 1];
      TrimRightSpaces(s, tail[..|tail| - 1]);
    }
  }

  lemma {:induction false} TrimAppendSpaces(s: string, tail: string)
    requires forall c :: c in tail ==> IsSpace(c)
    ensures Trim(s + tail) == Trim(s)
  {
    if s == "" {
      assert s + tail == tail;
      TrimAllSpaces(tail);
    } else if IsSpace(s[0]) {
      assert (s + tail)[1..] == s[1..] + tail;
      TrimAppendSpaces(s[1..], tail);
    } else {
      assert TrimLeft(s + tail) == s + tail;
      TrimRightSpaces(s, tail);
    }
  }

  lemma {:induction false} TrimAllSpaces(s: string)
    requires forall c :: c in s ==> IsSpace(c)
    ensures Trim(s) == ""
  {
    if s != "" {
      assert s[0] in s;
      TrimAllSpaces(s[1..]);
    }
  }

  /** Trimming the right end first changes nothing. */
  lemma {:induction false} TrimOfTrimRight(s: string)
    ensures Trim(TrimRight(s)) == Trim(s)
  {
    if s != "" && IsSpace(s[|s| - 1]) {
      TrimOfTrimRight(s[..|s| - 1]);
      assert s == s[..|s| - 1] + [s[|s| - 1]];
      TrimAppendSpaces(s[..|s| - 1], [s[|s| - 1]]);
    }
  }

  // -------------------------------------------------------------- key = value

  /** The position of the first `c`, or the length of the text (`strchr`, `strings.IndexByte`). */
  function IndexOf(s: string, c: char): (n: nat)
    ensures n <= |s|
    ensures n < |s| ==> s[n] == c
    ensures c !in s[..n]
  {
    if s == "" || s[0] == c then 0
    else
      assert forall m: nat :: m <= |s[1..]| ==> s[..m + 1] == [s[0]] + s[1..][..m];
      1 + IndexOf(s[1..], c)
  }

  /** The position just after the last `c`, or 0 (`strrchr`, `strings.LastIndexByte`). */
  function AfterLast(s: string, c: char): (n: nat)
    ensures n <= |s|
    ensures n == 0 <==> c !in s
    ensures n > 0 ==> s[n - 1] == c && c !in s[n..]
  {
    if s == "" then 0
    else if s[|s| - 1] == c then |s|
    else
      var n := AfterLast(s[..|s| - 1], c);
      assert s[n..] == s[..|s| - 1][n..] + [s[|s| - 1]];
      n
  }

  lemma IndexOfUnique(a: string, b: string, c: char)
    requires c !in a
    ensures IndexOf(a + [c] + b, c) == |a|
  {
    var s := a + [c] + b;
    var n := IndexOf(s, c);
    assert s[|a|] == c;
    assert forall j :: 0 <= j < |a| ==> s[j] == a[j];
    assert forall j :: 0 <= j < n ==> s[..n][j] == s[j];
  }

  lemma {:induction false} AfterLastUnique(a: string, b: string, c: char)
    requires c !in b
    ensures AfterLast(a + [c] + b, c) == |a| + 1
  {
    var s := a + [c] + b;
    if b == "" {
      assert s[|s| - 1] == c;
    } else {
      assert s[..|s| - 1] == a + [c] + b[..|b| - 1];
      assert s[|s| - 1] == b[|b| - 1];
      AfterLastUnique(a, b[..|b| - 1], c);
    }
  }

  datatype Entry = Skip | Pair(key: string, value: string)

  /** One line of the configuration format: blank lines, `#` comments and lines without `=`
      carry nothing; otherwise the text around the first `=`, trimmed. */
  function ParseLine(line: string): Entry {
    var p := Trim(line);
    if p == "" || p[0] == '#' then Skip
    else
      var eq := IndexOf(p, '=');
      if eq == |p| then Skip else Pair(Trim(p[..eq]), Trim(p[eq + 1..]))
  }

  /** A written `key=value` line reads back as the trimmed key and the trimmed value. */
  lemma ParseWritten(k: string, v: string)
    requires k != "" && !IsSpace(k[0]) && k[0] != '#' && '=' !in k
    ensures ParseLine(k + "=" + v) == Pair(TrimRight(k), Trim(v))
  {
    var line := k + "=" + v;
    assert line == (k + "=") + v;
    assert TrimLeft(line) == line;
    TrimRightAppend(k + "=", v);
    var p := Trim(line);
    assert p == k + ['='] + TrimRight(v);
    IndexOfUnique(k, TrimRight(v), '=');
    assert p[..|k|] == k && p[|k| + 1..] == TrimRight(v);
    assert TrimLeft(k) == k;
    TrimOfTrimRight(v);
  }

  /** The newline that `fgets` leaves at the end of a line is trimmed away. */
  lemma ParseIgnoresNewline(line: string)
    ensures ParseLine(line + [NL]) == ParseLine(line)
  {
    TrimAppendSpaces(line, [NL]);
  }

  // --------------------------------------------------------------- ASCII case

  function UpperChar(c: char): char {
    if 'a' <= c <= 'z' then c - 'a' + 'A' else c
  }

  function LowerChar(c: char): char {
    if 'A' <= c <= 'Z' then c - 'A' + 'a' else c
  }

  function ToUpper(s: string): (t: string)
    ensures |t| == |s| && forall i :: 0 <= i < |s| ==> t[i] == UpperChar(s[i])
  {
    seq(|s|, i requires 0 <= i < |s| => UpperChar(s[i]))
  }

  function ToLower(s: string): (t: string)
    ensures |t| == |s| && forall i :: 0 <= i < |s| ==> t[i] == LowerChar(s[i])
  {
    seq(|s|, i requires 0 <= i < |s| => LowerChar(s[i]))
  }

  lemma UpperIdempotent(s: string)
    ensures ToUpper(ToUpper(s)) == ToUpper(s)
  {}

  lemma LowerIdempotent(s: string)
    ensures ToLower(ToLower(s)) == ToLower(s)
  {}

  /** Case mapping neither adds nor removes a character that is not a letter. */
  lemma UpperKeeps(s: string, c: char)
    requires !('a' <= c <= 'z') && !('A' <= c <= 'Z')
    ensures c in ToUpper(s) <==> c in s
    ensures c in ToLower(s) <==> c in s
  {
    forall i | 0 <= i < |s| ensures (ToUpper(s)[i] == c <==> s[i] == c) && (ToLower(s)[i] == c <==> s[i] == c) {}
    if c in s { var i :| 0 <= i < |s| && s[i] == c; assert ToUpper(s)[i] == c && ToLower(s)[i] == c; }
  }

  lemma {:induction false} UpperTrimRight(s: string)
    ensures TrimRight(ToUpper(s)) == ToUpper(TrimRight(s))
  {
    if s != "" && IsSpace(s[|s| - 1]) {
      assert ToUpper(s)[..|s| - 1] == ToUpper(s[..|s| - 1]);
      UpperTrimRight(s[..|s| - 1]);
    }
  }

  lemma CaseKeepsTrimmed(s: string)
    requires Trimmed(s)
    ensures Trimmed(ToUpper(s)) && Trimmed(ToLower(s))
  {}

  // ------------------------------------------------------ lexicographic order

  /** Go's `<` on strings. */
  predicate Less(a: string, b: string) {
    b != "" && (a == "" || a[0] < b[0] || (a[0] == b[0] && Less(a[1..], b[1..])))
  }

  lemma {:induction false} LessTotal(a: string, b: string)
    ensures Less(a, b) || Less(b, a) || a == b
    ensures !(Less(a, b) && Less(b, a))
    ensures !Less(a, a)
  {
    if a != "" && b != "" {
      LessTotal(a[1..], b[1..]);
      LessTotal(a[1..], a[1..]);
      assert a == [a[0]] + a[1..] && b == [b[0]] + b[1..];
    } else if a != "" {
      LessTotal(a[1..], a[1..]);
    }
  }

  lemma {:induction false} LessTransitive(a: string, b: string, c: string)
    requires Less(a, b) && Less(b, c)
    ensures Less(a, c)
  {
    if a != "" && a[0] == b[0] && b[0] == c[0] { LessTransitive(a[1..], b[1..], c[1..]); }
  }

  // -------------------------------------------------------------- chord pieces

  function CommaToPlus(c: char): char {
    if c == ',' then '+' else c
  }

  function MapChars(m: char -> char, s: string): (t: string)
    ensures |t| == |s| && forall i :: 0 <= i < |s| ==> t[i] == m(s[i])
  {
    seq(|s|, i requires 0 <= i < |s| => m(s[i]))
  }

  /** The pieces of a chord: `+` and `,` separate them (`splitChord` of the web tool, and the tokenisers
      of both daemons). */
  function SplitChord(v: string): seq<string> {
    Split(MapChars(CommaToPlus, v), '+')
  }
}
