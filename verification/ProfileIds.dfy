/** Profile ids: `slugify` and the search for an unused id. */
module ProfileIds {
  import opened Text

  // ------------------------------------------------------------------ slugify

  predicate SlugChar(c: char) {
    'a' <= c <= 'z' || '0' <= c <= '9' || c == '-'
  }

  predicate SlugText(s: string) {
    forall i :: 0 <= i < |s| ==> SlugChar(s[i])
  }

  /** Every maximal run of other characters becomes one dash (`[^a-z0-9-]+`). */
  function Dashed(s: string, inRun: bool): (r: string)
    ensures SlugText(r)
  {
    if s == "" then ""
    else if SlugChar(s[0]) then [s[0]] + Dashed(s[1..], false)
    else (if inRun then "" else "-") + Dashed(s[1..], true)
  }

  function TrimDashLeft(s: string): string {
    if s != "" && s[0] == '-' then TrimDashLeft(s[1..]) else s
  }

  function TrimDashRight(s: string): string {
    if s != "" && s[|s| - 1] == '-' then TrimDashRight(s[..|s| - 1]) else s
  }

  function Cut(s: string): string {
    if |s| > 48 then s[..48] else s
  }

  /** The slug before it is cut. */
  function Uncut(name: string): string {
    var s := TrimDashRight(TrimDashLeft(Dashed(ToLower(Trim(name)), false)));
    if s == "" then "profile" else s
  }

  function Slugify(name: string): string {
    Cut(Uncut(name))
  }

  lemma {:induction false} TrimDashLeftLaw(s: string)
    requires SlugText(s)
    ensures SlugText(TrimDashLeft(s)) && (TrimDashLeft(s) == "" || TrimDashLeft(s)[0] != '-')
  {
    if s != "" && s[0] == '-' { TrimDashLeftLaw(s[1..]); }
  }

  lemma {:induction false} TrimDashRightLaw(s: string)
    requires SlugText(s)
    ensures TrimDashRight(s) <= s
    ensures TrimDashRight(s) == "" || TrimDashRight(s)[|TrimDashRight(s)| - 1] != '-'
    ensures s != "" && s[0] != '-' ==> TrimDashRight(s) != ""
  {
    if s != "" && s[|s| - 1] == '-' { TrimDashRightLaw(s[..|s| - 1]); }
  }

  lemma UncutLaw(name: string)
    ensures var s := Uncut(name); SlugText(s) && s != "" && s[0] != '-' && s[|s| - 1] != '-'
  {
    var d := Dashed(ToLower(Trim(name)), false);
    TrimDashLeftLaw(d);
    TrimDashRightLaw(TrimDashLeft(d));
  }

  /** A slug is never empty, at most 48 characters of [a-z0-9-], and does not start with a dash. */
  lemma SlugifyLaw(name: string)
    ensures var s := Slugify(name); SlugText(s) && 0 < |s| <= 48 && s[0] != '-'
  {
    hide Uncut;
    UncutLaw(name);
  }

  lemma {:induction false} DashedFixed(s: string)
    requires SlugText(s)
    ensures Dashed(s, false) == s
  {
    if s != "" { DashedFixed(s[1..]); }
  }

  lemma SlugIsTrimmed(s: string)
    requires SlugText(s)
    ensures Trim(s) == s && ToLower(s) == s
  {
    TrimFixed(s);
  }

  /** Slugifying a slug changes it exactly when the cut falls right after a dash. */
  lemma SlugifyAgain(name: string)
    ensures Slugify(Slugify(name)) == Slugify(name) <==> !(|Uncut(name)| > 48 && Uncut(name)[47] == '-')
  {
    hide Uncut;
    UncutLaw(name);
    SlugAgain(Slugify(name));
  }

  const FORTY_SEVEN := seq(47, _ => 'a')

  /** A name for which it does: 47 letters, a dash and one letter more. */
  lemma SlugifyAgainDiffers()
    ensures var name := FORTY_SEVEN + "-b"; Slugify(name) == FORTY_SEVEN + "-" && Slugify(Slugify(name)) != Slugify(name)
  {
    hide Trim, ToLower, Dashed;
    var name := FORTY_SEVEN + "-b";
    assert SlugText(name);
    SlugIsTrimmed(name);
    DashedFixed(name);
    assert Uncut(name) == name;
    assert name[..48] == FORTY_SEVEN + "-";
    SlugifyAgain(name);
  }

  lemma SlugAgain(s: string)
    requires SlugText(s) && 0 < |s| <= 48 && s[0] != '-'
    ensures Slugify(s) == s <==> s[|s| - 1] != '-'
  {
    hide Trim, ToLower, Dashed;
    SlugIsTrimmed(s);
    DashedFixed(s);
    TrimDashRightLaw(s);
  }

  // ------------------------------------------------------ what a slug says

  predicate Alnum(c: char) {
    'a' <= c <= 'z' || '0' <= c <= '9'
  }

  /** The maximal runs of letters and digits, in order. */
  function Runs(s: string): (rs: seq<string>)
    ensures s != "" && Alnum(s[0]) ==> rs != []
  {
    if s == "" then []
    else if !Alnum(s[0]) then Runs(s[1..])
    else if |s| == 1 || !Alnum(s[1]) then [[s[0]]] + Runs(s[1..])
    else
      var rs := Runs(s[1..]);
      [[s[0]] + rs[0]] + rs[1..]
  }

  /** Runs depend on the rest only through its own runs and through how it begins. */
  lemma RunsCons(c: char, s: string, t: string)
    requires Runs(s) == Runs(t) && (s != "" && Alnum(s[0]) <==> t != "" && Alnum(t[0]))
    ensures Runs([c] + s) == Runs([c] + t)
  {
    assert ([c] + s)[1..] == s && ([c] + t)[1..] == t;
  }

  lemma {:induction false} DashedRuns(s: string, inRun: bool)
    ensures Runs(Dashed(s, inRun)) == Runs(s)
    ensures Dashed(s, inRun) != "" && Alnum(Dashed(s, inRun)[0]) ==> s != ""
    ensures !inRun ==> (Dashed(s, inRun) != "" && Alnum(Dashed(s, inRun)[0]) <==> s != "" && Alnum(s[0]))
  {
    if s != "" {
      assert s == [s[0]] + s[1..];
      if SlugChar(s[0]) {
        DashedRuns(s[1..], false);
        RunsCons(s[0], Dashed(s[1..], false), s[1..]);
      } else {
        DashedRuns(s[1..], true);
        var d := Dashed(s[1..], true);
        assert "" + d == d && ("-" + d)[1..] == d;
      }
    }
  }

  lemma {:induction false} RunsSnoc(s: string, c: char)
    requires !Alnum(c)
    ensures Runs(s + [c]) == Runs(s)
  {
    if s == "" {
      assert (s + [c])[1..] == "";
    } else {
      RunsSnoc(s[1..], c);
      assert s + [c] == [s[0]] + (s[1..] + [c]) && s == [s[0]] + s[1..];
      RunsCons(s[0], s[1..] + [c], s[1..]);
    }
  }

  lemma {:induction false} TrimDashLeftRuns(s: string)
    ensures Runs(TrimDashLeft(s)) == Runs(s)
  {
    if s != "" && s[0] == '-' { TrimDashLeftRuns(s[1..]); }
  }

  lemma {:induction false} TrimDashRightRuns(s: string)
    ensures Runs(TrimDashRight(s)) == Runs(s)
  {
    if s != "" && s[|s| - 1] == '-' {
      var init := s[..|s| - 1];
      TrimDashRightRuns(init);
      RunsSnoc(init, '-');
      assert s == init + ['-'];
    }
  }

  lemma {:induction false} TrimLeftRuns(s: string)
    ensures Runs(ToLower(TrimLeft(s))) == Runs(ToLower(s))
  {
    if s != "" && IsSpace(s[0]) {
      TrimLeftRuns(s[1..]);
      assert ToLower(s)[1..] == ToLower(s[1..]);
      assert ToLower(s)[0] == LowerChar(s[0]);
    }
  }

  lemma {:induction false} TrimRightRuns(s: string)
    ensures Runs(ToLower(TrimRight(s))) == Runs(ToLower(s))
  {
    if s != "" && IsSpace(s[|s| - 1]) {
      var init, c := s[..|s| - 1], s[|s| - 1];
      TrimRightRuns(init);
      RunsSnoc(ToLower(init), LowerChar(c));
      assert ToLower(s) == ToLower(init) + [LowerChar(c)];
    }
  }

  /** The slug spells the name: its runs of letters and digits are those of the name in lower case, in
      the same order, as long as the name has any; the rest of the name only separates them. */
  lemma SlugSpellsName(name: string)
    ensures var s, runs := Uncut(name), Runs(ToLower(name));
            if runs == [] then s == "profile" else Runs(s) == runs
    ensures Slugify(name) <= Uncut(name) && |Slugify(name)| == if |Uncut(name)| > 48 then 48 else |Uncut(name)|
  {
    var lower := ToLower(Trim(name));
    var d := Dashed(lower, false);
    TrimLeftRuns(name);
    TrimRightRuns(TrimLeft(name));
    DashedRuns(lower, false);
    TrimDashLeftRuns(d);
    TrimDashRightRuns(TrimDashLeft(d));
    TrimDashLeftLaw(d);
    TrimDashRightLaw(TrimDashLeft(d));
    var t := TrimDashRight(TrimDashLeft(d));
    hide Trim, ToLower, Dashed, TrimDashLeft, TrimDashRight;
    if t != "" { assert Alnum(t[0]); }
  }

  // --------------------------------------------------------------- candidates

  /** `%d` of a natural number. */
  function Decimal(n: nat): (s: string)
    ensures |s| > 0 && SlugText(s)
  {
    if n < 10 then [Digit(n)] else Decimal(n / 10) + [Digit(n % 10)]
  }

  function Digit(n: nat): (c: char)
    requires n < 10
    ensures SlugChar(c)
  {
    '0' + n as char
  }

  function NumberOf(s: string): int {
    if s == "" then 0 else 10 * NumberOf(s[..|s| - 1]) + (s[|s| - 1] as int - '0' as int)
  }

  lemma {:induction false} DecimalReads(n: nat)
    ensures NumberOf(Decimal(n)) == n
  {
    if n >= 10 {
      DecimalReads(n / 10);
      var s := Decimal(n);
      assert s[..|s| - 1] == Decimal(n / 10);
    } else {
      assert NumberOf([Digit(n)][..0]) == 0;
    }
  }

  /** The i-th id tried: the slug itself, then `slug-2`, `slug-3`, ... */
  function Candidate(base: string, i: nat): string {
    if i <= 1 then base else base + "-" + Decimal(i)
  }

  lemma CandidatesDiffer(base: string, i: nat, k: nat)
    requires 1 <= i < k
    ensures Candidate(base, i) != Candidate(base, k)
  {
    if i == 1 {
      assert |Candidate(base, k)| > |base|;
    } else {
      DecimalReads(i);
      DecimalReads(k);
      assert Candidate(base, i)[|base| + 1..] == Decimal(i);
      assert Candidate(base, k)[|base| + 1..] == Decimal(k);
    }
  }

  lemma CandidateIsSlug(base: string, i: nat)
    requires SlugText(base) && base != ""
    ensures SlugText(Candidate(base, i)) && Candidate(base, i) != ""
  {}

  /** The candidate the search settles on, starting with the i-th: the first unused one, or the
      thousandth untested. */
  function FirstFree(used: set<string>, base: string, i: nat): (k: nat)
    requires 1 <= i <= 1000
    ensures i <= k <= 1000
    ensures forall j :: i <= j < k ==> Candidate(base, j) in used
    ensures k < 1000 ==> Candidate(base, k) !in used
    decreases 1000 - i
  {
    if i == 1000 || Candidate(base, i) !in used then i else FirstFree(used, base, i + 1)
  }

  function UniqueId(used: set<string>, name: string): string {
    Candidate(Slugify(name), FirstFree(used, Slugify(name), 1))
  }

  /** `uniqueProfileID`: the loop as written, which stops testing once its counter passes 999. */
  method UniqueProfileId(used: set<string>, name: string) returns (id: string)
    ensures id == UniqueId(used, name)
  {
    var base := Slugify(name);
    id := base;
    var i := 2;
    while true
      invariant 2 <= i <= 1000
      invariant id == Candidate(base, i - 1)
      invariant FirstFree(used, base, 1) == FirstFree(used, base, i - 1)
      decreases 1000 - i
    {
      if id !in used { return; }
      id := base + "-" + Decimal(i);
      if i > 999 { return; }
      i := i + 1;
    }
  }

  /** A name gets its slug as its id when that is unused; otherwise the slug, a dash and the least number
      from 2 on that makes it unused, or 1000 if none below does. */
  lemma UniqueIdLaw(used: set<string>, name: string)
    ensures var slug, id := Slugify(name), UniqueId(used, name);
            if slug !in used then id == slug
            else exists k :: 2 <= k <= 1000 && id == slug + "-" + Decimal(k) && NumberOf(Decimal(k)) == k
                   && (k < 1000 ==> id !in used)
                   && forall j :: 2 <= j < k ==> slug + "-" + Decimal(j) in used
  {
    hide Slugify, Decimal;
    var slug := Slugify(name);
    var k := FirstFree(used, slug, 1);
    if slug in used {
      assert Candidate(slug, 1) == slug;
      DecimalReads(k);
      forall j | 2 <= j < k ensures slug + "-" + Decimal(j) in used { assert Candidate(slug, j) in used; }
    }
  }

  /** The first n candidates, as a set. */
  function Candidates(base: string, n: nat): set<string> {
    if n == 0 then {} else Candidates(base, n - 1) + {Candidate(base, n)}
  }

  lemma {:induction false} CandidatesCount(base: string, n: nat)
    ensures |Candidates(base, n)| == n
    ensures forall s :: s in Candidates(base, n) <==> exists i :: 1 <= i <= n && s == Candidate(base, i)
  {
    hide Candidate;
    if n > 0 {
      CandidatesCount(base, n - 1);
      forall i | 1 <= i <= n - 1 ensures Candidate(base, i) != Candidate(base, n) { CandidatesDiffer(base, i, n); }
      assert Candidate(base, n) !in Candidates(base, n - 1);
    }
  }

  lemma SubsetSize(a: set<string>, b: set<string>)
    requires a <= b
    ensures |a| <= |b|
  {
    assert b == a + (b - a);
  }

  /** The id is unused exactly when one of the thousand candidates is. */
  lemma FreshIffSomeFree(used: set<string>, name: string)
    ensures UniqueId(used, name) !in used <==> exists i :: 1 <= i <= 1000 && Candidate(Slugify(name), i) !in used
  {
    hide Slugify, Candidate, FirstFree;
    var k := FirstFree(used, Slugify(name), 1);
    assert UniqueId(used, name) == Candidate(Slugify(name), k);
  }

  /** With fewer than a thousand profiles the id is always new. */
  lemma FreshWithRoom(used: set<string>, name: string)
    requires |used| < 1000
    ensures UniqueId(used, name) !in used
  {
    var base := Slugify(name);
    CandidatesCount(base, 1000);
    if !exists i :: 1 <= i <= 1000 && Candidate(base, i) !in used {
      assert Candidates(base, 1000) <= used;
      SubsetSize(Candidates(base, 1000), used);
    }
    FreshIffSomeFree(used, name);
  }

  /** A thousand profiles can be too many: the id returned untested may be taken. */
  lemma FullStoreCollides(name: string)
    ensures var used := Candidates(Slugify(name), 1000); |used| == 1000 && UniqueId(used, name) in used
  {
    CandidatesCount(Slugify(name), 1000);
    FreshIffSomeFree(Candidates(Slugify(name), 1000), name);
  }

  lemma UniqueIsSlug(used: set<string>, name: string)
    ensures SlugText(UniqueId(used, name)) && UniqueId(used, name) != ""
  {
    SlugifyLaw(name);
    CandidateIsSlug(Slugify(name), FirstFree(used, Slugify(name), 1));
  }
}
