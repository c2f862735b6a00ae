/** The passthrough daemon's reader of the mode-toggle chord (`hotkey_load`). */
module ChordFile {
  import opened Text
  import opened Names
  import opened MapperConfig

  const PREFIX := "hotkey.mode_toggle="

  predicate Blank(c: char) {
    c == ' ' || c == '\t'
  }

  function SkipBlanks(s: string): string {
    if s != "" && Blank(s[0]) then SkipBlanks(s[1..]) else s
  }

  function DropBlanks(s: string): string {
    if s != "" && Blank(s[|s| - 1]) then DropBlanks(s[..|s| - 1]) else s
  }

  function CutAt(s: string, c: char): string {
    s[..IndexOf(s, c)]
  }

  /** The codes of the known names among the pieces, blanks trimmed, at most n of them. */
  function TakeChord(pieces: seq<string>, n: nat): seq<int> {
    if n == 0 || pieces == [] then []
    else
      var name := DropBlanks(SkipBlanks(pieces[0]));
      var code := Lookup(CHORD_KEYS, name);
      if name != "" && code >= 0 then [code] + TakeChord(pieces[1..], n - 1) else TakeChord(pieces[1..], n)
  }

  /** The chord of one chunk of the file, if that is a chord line. */
  function ChordOf(chunk: string): Option<seq<int>> {
    var p := SkipBlanks(chunk);
    if !HasPrefix(p, PREFIX) then None
    else Some(TakeChord(SplitChord(CutAt(CutAt(p[|PREFIX|..], NL), '#')), 8))
  }

  /** The first chord line decides. */
  function FirstChord(chunks: seq<string>): Option<seq<int>> {
    if chunks == [] then None
    else if ChordOf(chunks[0]).Some? then ChordOf(chunks[0])
    else FirstChord(chunks[1..])
  }

  /** The chord in force: LEFTCTRL+ESC when the file has none that names a known key. */
  function LoadChord(file: Option<string>): seq<int> {
    if file.None? then DEFAULT_CHORD
    else
      var c := FirstChord(Chunks(file.value));
      if c.None? || c.value == [] then DEFAULT_CHORD else c.value
  }

  method ReadPieces(v: string) returns (codes: seq<int>)
    ensures codes == TakeChord(SplitChord(v), 8)
  {
    hide Lookup, TakeChord, Split, MapChars, SkipBlanks, DropBlanks;
    var w := MapChars(CommaToPlus, v);
    codes := [];
    var p := 0;
    assert w[0..] == w;
    while p < |w| && |codes| < 8
      invariant 0 <= p <= |w| && |codes| <= 8
      invariant codes + TakeChord(Split(w[p..], '+'), 8 - |codes|) == TakeChord(SplitChord(v), 8)
      decreases |w| - p
    {
      var sep := FindSeparator(v, p);
      ghost var rest := if sep < |w| then Split(w[sep + 1..], '+') else [];
      NextPiece(w, p, sep);
      TakeChordStep(w[p..sep], rest, 8 - |codes|);
      var name := DropBlanks(SkipBlanks(w[p..sep]));
      if name != "" {
        var code := LookupCi(CHORD_KEYS, name);
        if code >= 0 {
          assert (codes + [code]) + TakeChord(rest, 7 - |codes|) == codes + ([code] + TakeChord(rest, 7 - |codes|));
          codes := codes + [code];
        }
      }
      if sep == |w| {
        NoChord(8 - |codes|);
        return;
      }
      p := sep + 1;
    }
    if p == |w| { assert w[p..] == ""; }
    NoChord(8 - |codes|);
    NoRoom(Split(w[p..], '+'));
  }

  lemma TakeChordStep(piece: string, rest: seq<string>, n: nat)
    requires n > 0
    ensures var name := DropBlanks(SkipBlanks(piece));
            TakeChord([piece] + rest, n) ==
              if name != "" && Lookup(CHORD_KEYS, name) >= 0 then [Lookup(CHORD_KEYS, name)] + TakeChord(rest, n - 1)
              else TakeChord(rest, n)
  {
    hide Lookup;
    assert ([piece] + rest)[1..] == rest;
  }

  lemma NoChord(n: nat)
    ensures TakeChord([], n) == [] && TakeChord(Split("", '+'), n) == []
  {
    hide Lookup;
    assert DropBlanks(SkipBlanks("")) == "" && [""][1..] == [];
  }

  lemma NoRoom(pieces: seq<string>)
    ensures TakeChord(pieces, 0) == []
  {}

  /** `hotkey_load`: chunk after chunk until the first chord line. */
  method HotkeyLoad(file: Option<string>) returns (codes: seq<int>)
    ensures codes == LoadChord(file)
  {
    hide Chunk, TakeChord, SplitChord, CutAt, SkipBlanks;
    codes := DEFAULT_CHORD;
    if file.None? { return; }
    var rest := file.value;
    while rest != ""
      invariant codes == DEFAULT_CHORD
      invariant FirstChord(Chunks(rest)) == FirstChord(Chunks(file.value))
      decreases |rest|
    {
      var n := Chunk(rest);
      var p := SkipBlanks(rest[..n]);
      ghost var tail := Chunks(rest[n..]);
      assert Chunks(rest) == [rest[..n]] + tail && ([rest[..n]] + tail)[1..] == tail;
      if HasPrefix(p, PREFIX) {
        codes := ReadPieces(CutAt(CutAt(p[|PREFIX|..], NL), '#'));
        break;
      }
      rest := rest[n..];
    }
    if codes == [] { codes := DEFAULT_CHORD; }
  }
}
