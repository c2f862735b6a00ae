/** Which configurations survive a save unchanged, and what a saved file keeps of the others. */
module Canonical {
  import opened Text
  import opened StableSort
  import opened WebConfig
  import opened RoundTrip

  predicate CanonicalTuning(t: Tuning) {
    && Trimmed(t.recoilAction) && ToLower(t.recoilAction) == t.recoilAction
    && Trimmed(t.adsAction) && ToLower(t.adsAction) == t.adsAction
    && t.adsSensScale > 0.0 && t.fireSensScale > 0.0
  }

  predicate CanonicalBinding(b: Binding) {
    && KeptBinding(b)
    && ToUpper(b.code) == b.code && (b.code == "" || !IsSpace(b.code[|b.code| - 1]))
    && Trimmed(b.action)
  }

  predicate CanonicalBurst(b: Burst) {
    KeptBurst(b) && b.duty >= 0.0 && b.jitter >= 0.0 && b.dutyJitter >= 0.0 && b.skipProb >= 0.0
  }

  predicate PlainName(h: string) {
    h != "" && Trimmed(h) && ToUpper(h) == h && '+' !in h && ',' !in h
  }

  ghost predicate IsCanonical(c: Config) {
    && CanonicalTuning(c.tuning)
    && (forall b :: b in c.bindings ==> CanonicalBinding(b)) && Sorted(BindingLess, c.bindings)
    && (forall b :: b in c.bursts ==> CanonicalBurst(b)) && Sorted(BurstLess, c.bursts) && NoTies(BurstLess, c.bursts)
    && c.hotkey != [] && (forall h :: h in c.hotkey ==> PlainName(h))
  }

  // ------------------------------------------------- canonical implies unchanged

  lemma {:induction false} BindingsUnchanged(bs: seq<Binding>)
    requires forall b :: b in bs ==> CanonicalBinding(b)
    ensures NormalBindings(bs) == bs
  {
    if bs != [] {
      var b := bs[0];
      assert CanonicalBinding(b);
      TrimFixed(b.action);
      BindingsUnchanged(bs[1..]);
    }
  }

  lemma {:induction false} BurstsUnchanged(list: seq<Burst>, bs: seq<Burst>)
    requires forall b :: b in bs ==> CanonicalBurst(b)
    requires forall i, j :: 0 <= i < j < |list + bs| ==> (list + bs)[i].action != (list + bs)[j].action
    ensures MergeBursts(list, bs) == list + bs
    decreases |bs|
  {
    if bs == [] {
      assert list + bs == list;
    } else {
      var b := bs[0];
      assert CanonicalBurst(b) && (list + bs)[|list|] == b;
      assert Position(list, b.action) == |list| by {
        forall i | 0 <= i < |list| ensures list[i].action != b.action { assert (list + bs)[i] == list[i]; }
      }
      var l := WithBurst(list, b.action);
      PositionAtEnd(list, l[|list|]);
      assert MergeBurst(list, b) == list + [b];
      assert (list + [b]) + bs[1..] == list + bs;
      BurstsUnchanged(list + [b], bs[1..]);
    }
  }

  lemma PositionAtEnd(list: seq<Burst>, b: Burst)
    requires Position(list, b.action) == |list|
    ensures Position(list + [b], b.action) == |list|
  {
    assert forall i :: 0 <= i < |list| ==> (list + [b])[i] == list[i];
    assert (list + [b])[|list|] == b;
  }

  lemma DistinctActions(bs: seq<Burst>)
    requires NoTies(BurstLess, bs)
    ensures forall i, j :: 0 <= i < j < |bs| ==> bs[i].action != bs[j].action
  {
    forall i, j | 0 <= i < j < |bs| ensures bs[i].action != bs[j].action {
      LessTotal(bs[i].action, bs[j].action);
      LessTotal(bs[i].action, bs[i].action);
      assert !Tie(BurstLess, bs[i], bs[j]);
    }
  }

  lemma PlainChord(h: string)
    requires PlainName(h)
    ensures ChordNames(h) == [h]
  {
    var w := MapChars(CommaToPlus, h);
    assert w == h;
    SplitAbsent(h, '+');
    TrimFixed(h);
    assert KeyNames([h][1..]) == [];
  }

  lemma {:induction false} ChordUnchanged(hotkey: seq<string>)
    requires forall h :: h in hotkey ==> PlainName(h)
    ensures NormalChord(hotkey) == hotkey
  {
    if hotkey != [] {
      PlainChord(hotkey[0]);
      ChordUnchanged(hotkey[1..]);
    }
  }

  lemma CanonicalUnchanged(c: Config)
    requires IsCanonical(c)
    ensures Normal(c) == c
  {
    TrimFixed(c.tuning.recoilAction);
    TrimFixed(c.tuning.adsAction);
    BindingsUnchanged(c.bindings);
    SortFixed(BindingLess, c.bindings);
    DistinctActions(c.bursts);
    assert [] + c.bursts == c.bursts;
    BurstsUnchanged([], c.bursts);
    SortFixed(BurstLess, c.bursts);
    ChordUnchanged(c.hotkey);
  }

  // --------------------------------------------------- every normal form is canonical

  lemma {:induction false} NormalBindingsCanonical(bs: seq<Binding>)
    ensures forall b :: b in NormalBindings(bs) ==> CanonicalBinding(b)
  {
    if bs != [] {
      var b := bs[0];
      TrimIsTrimmed(b.action);
      TrimRightPrefix(ToUpper(b.code));
      UpperTrimRight(b.code);
      UpperIdempotent(TrimRight(b.code));
      NormalBindingsCanonical(bs[1..]);
    }
  }

  predicate MergedList(list: seq<Burst>) {
    && (forall b :: b in list ==> CanonicalBurst(b))
    && (forall i, j :: 0 <= i < j < |list| ==> list[i].action != list[j].action)
  }

  lemma MergeKeepsList(list: seq<Burst>, b: Burst)
    requires MergedList(list) && KeptBurst(b)
    ensures MergedList(MergeBurst(list, b))
  {
    var l := WithBurst(list, b.action);
    var i := Position(l, b.action);
    var r := MergeBurst(list, b);
    if i < |list| { assert list[i] in list; }
    forall j | 0 <= j < |r| ensures CanonicalBurst(r[j]) {
      if j != i { assert r[j] in list; }
    }
  }

  lemma {:induction false} MergeIsList(list: seq<Burst>, bs: seq<Burst>)
    requires MergedList(list)
    ensures MergedList(MergeBursts(list, bs))
    decreases |bs|
  {
    if bs != [] {
      if KeptBurst(bs[0]) {
        MergeKeepsList(list, bs[0]);
        MergeIsList(MergeBurst(list, bs[0]), bs[1..]);
      } else {
        MergeIsList(list, bs[1..]);
      }
    }
  }

  lemma DistinctNoTies(bs: seq<Burst>)
    requires MergedList(bs)
    ensures NoTies(BurstLess, bs)
  {
    forall i, j | 0 <= i < j < |bs| ensures !Tie(BurstLess, bs[i], bs[j]) {
      LessTotal(bs[i].action, bs[j].action);
    }
  }

  lemma BindingOrder()
    ensures WeakOrder(BindingLess)
  {
    forall a: Binding ensures !BindingLess(a, a) { LessTotal(a.code, a.code); }
    forall a, b, c | BindingLess(a, b) && BindingLess(b, c) ensures BindingLess(a, c) { BindingTransitive(a, b, c); }
    forall a, b, c | BindingLess(a, b) ensures BindingLess(a, c) || BindingLess(c, b) { BindingSplit(a, b, c); }
  }

  lemma BindingTransitive(a: Binding, b: Binding, c: Binding)
    requires BindingLess(a, b) && BindingLess(b, c)
    ensures BindingLess(a, c)
  {
    LessTotal(a.source, b.source);
    if a.source != b.source && b.source != c.source {
      LessTransitive(a.source, b.source, c.source);
      LessTotal(a.source, c.source);
    } else if a.source == b.source == c.source {
      LessTransitive(a.code, b.code, c.code);
    }
  }

  lemma BindingSplit(a: Binding, b: Binding, c: Binding)
    requires BindingLess(a, b)
    ensures BindingLess(a, c) || BindingLess(c, b)
  {
    LessTotal(a.source, c.source);
    LessTotal(c.source, b.source);
    LessTotal(a.code, c.code);
    LessTotal(c.code, b.code);
    if Less(c.source, a.source) && a.source != b.source { LessTransitive(c.source, a.source, b.source); }
    if Less(c.code, a.code) && a.source == b.source { LessTransitive(c.code, a.code, b.code); }
  }

  lemma BurstOrder()
    ensures WeakOrder(BurstLess)
  {
    forall a: Burst ensures !BurstLess(a, a) { LessTotal(a.action, a.action); }
    forall a, b, c | BurstLess(a, b) && BurstLess(b, c) ensures BurstLess(a, c) {
      LessTransitive(a.action, b.action, c.action);
    }
    forall a, b, c | BurstLess(a, b) ensures BurstLess(a, c) || BurstLess(c, b) {
      LessTotal(a.action, c.action);
      LessTotal(c.action, b.action);
      if Less(c.action, a.action) { LessTransitive(c.action, a.action, b.action); }
    }
  }

  predicate NoSeparator(p: string) {
    '+' !in p && ',' !in p
  }

  lemma PieceIsPlain(p: string)
    requires NoSeparator(p) && Trim(p) != ""
    ensures PlainName(ToUpper(Trim(p)))
  {
    TrimIsTrimmed(p);
    TrimMembers(p);
    CaseKeepsTrimmed(Trim(p));
    UpperIdempotent(Trim(p));
    UpperKeeps(Trim(p), '+');
    UpperKeeps(Trim(p), ',');
  }

  lemma {:induction false} KeyNamesPlain(pieces: seq<string>)
    requires forall p :: p in pieces ==> NoSeparator(p)
    ensures forall h :: h in KeyNames(pieces) ==> PlainName(h)
  {
    if pieces != [] {
      assert NoSeparator(pieces[0]);
      if Trim(pieces[0]) != "" { PieceIsPlain(pieces[0]); }
      KeyNamesPlain(pieces[1..]);
    }
  }

  lemma {:induction false} SplitMembers(s: string, sep: char, c: char)
    requires c !in s
    ensures forall p :: p in Split(s, sep) ==> c !in p
  {
    if s != "" { SplitMembers(s[1..], sep, c); }
  }

  lemma NamesPlain(v: string)
    ensures forall h :: h in ChordNames(v) ==> PlainName(h)
  {
    var w := MapChars(CommaToPlus, v);
    assert ',' !in w;
    SplitMembers(w, '+', ',');
    SplitPieces(w, '+');
    forall p | p in Split(w, '+') ensures NoSeparator(p) {}
    KeyNamesPlain(Split(w, '+'));
  }

  lemma {:induction false} ChordPlain(hotkey: seq<string>)
    ensures forall h :: h in NormalChord(hotkey) ==> PlainName(h)
  {
    if hotkey != [] {
      NamesPlain(hotkey[0]);
      ChordPlain(hotkey[1..]);
    }
  }

  lemma NormalTuningCanonical(t: Tuning)
    ensures CanonicalTuning(NormalTuning(t))
  {
    TrimIsTrimmed(t.recoilAction);
    TrimIsTrimmed(t.adsAction);
    CaseKeepsTrimmed(Trim(t.recoilAction));
    CaseKeepsTrimmed(Trim(t.adsAction));
    LowerIdempotent(Trim(t.recoilAction));
    LowerIdempotent(Trim(t.adsAction));
  }

  lemma NormalBurstsCanonical(bs: seq<Burst>)
    ensures var r := SortBy(BurstLess, MergeBursts([], bs));
            (forall b :: b in r ==> CanonicalBurst(b)) && Sorted(BurstLess, r) && NoTies(BurstLess, r)
  {
    var m := MergeBursts([], bs);
    MergeIsList([], bs);
    DistinctNoTies(m);
    BurstOrder();
    SortMembers(BurstLess, m);
    SortSorted(BurstLess, m);
    SortNoTies(BurstLess, m);
  }

  lemma NormalIsCanonical(c: Config)
    ensures IsCanonical(Normal(c))
  {
    hide CanonicalTuning, CanonicalBinding, CanonicalBurst, PlainName, Sorted, NoTies, NormalTuning, WeakOrder;
    NormalTuningCanonical(c.tuning);
    NormalBindingsCanonical(c.bindings);
    BindingOrder();
    SortMembers(BindingLess, NormalBindings(c.bindings));
    SortSorted(BindingLess, NormalBindings(c.bindings));
    NormalBurstsCanonical(c.bursts);
    ChordPlain(c.hotkey);
    DefaultPlain();
  }

  lemma DefaultPlain()
    ensures PlainName("LEFTCTRL") && PlainName("ESC")
  {}

  /** A configuration survives a save and a load unchanged exactly when it is canonical. */
  lemma SurvivesIffCanonical(f: Floats, c: Config)
    requires Lawful(f) && Writable(f, c)
    ensures Load(f, Save(f, c)) == c <==> IsCanonical(c)
  {
    LoadSave(f, c);
    NormalIsCanonical(c);
    if IsCanonical(c) { CanonicalUnchanged(c); }
  }

  /** Normalising twice is normalising once. */
  lemma NormalIsFixpoint(c: Config)
    ensures Normal(Normal(c)) == Normal(c)
  {
    NormalIsCanonical(c);
    CanonicalUnchanged(Normal(c));
  }

  /** The chord of a configuration read from an existing file is never empty: an empty chord is
      not kept as "disabled", it comes back as the default one. */
  lemma EmptyChordComesBack(f: Floats, c: Config)
    requires Lawful(f) && Writable(f, c)
    ensures Load(f, Save(f, c)).hotkey == c.hotkey <==> c.hotkey != [] && forall h :: h in c.hotkey ==> PlainName(h)
    ensures c.hotkey == [] ==> Load(f, Save(f, c)).hotkey == ["LEFTCTRL", "ESC"]
  {
    LoadSave(f, c);
    NormalIsCanonical(c);
    if c.hotkey != [] && forall h :: h in c.hotkey ==> PlainName(h) { ChordUnchanged(c.hotkey); }
  }

  // ------------------------------------------------------ what merging keeps

  /** The entry for one action, computed from that action's own kept entries alone. */
  function Collapse(acc: Option<Burst>, bs: seq<Burst>, action: string): Option<Burst>
    decreases |bs|
  {
    if bs == [] then acc
    else if KeptBurst(bs[0]) && bs[0].action == action then
      Collapse(Some(Overlay(if acc.Some? then acc.value else Burst(action, 0.0, 0.0, 0.0, 0.0, 0.0), bs[0])), bs[1..], action)
    else Collapse(acc, bs[1..], action)
  }

  function Lookup(list: seq<Burst>, action: string): Option<Burst> {
    var i := Position(list, action);
    if i < |list| then Some(list[i]) else None
  }

  lemma LookupAfterMerge(list: seq<Burst>, b: Burst, action: string)
    ensures Lookup(MergeBurst(list, b), action) == Collapse(Lookup(list, action), [b], action) || !KeptBurst(b)
  {
    if KeptBurst(b) {
      var l := WithBurst(list, b.action);
      var i := Position(l, b.action);
      var r := MergeBurst(list, b);
      assert Collapse(Lookup(list, action), [b], action) ==
        if b.action != action then Lookup(list, action)
        else Some(Overlay(if Lookup(list, action).Some? then Lookup(list, action).value else Burst(action, 0.0, 0.0, 0.0, 0.0, 0.0), b));
      assert forall j :: 0 <= j < |r| ==> r[j].action == l[j].action;
      if b.action == action {
        assert r[i].action == action;
      } else {
        var p := Position(list, action);
        var q := Position(r, action);
        if p < |list| { assert r[p].action == action; }
        if q < |r| { assert q != i && q < |list|; }
      }
    }
  }

  /** Merging keeps, for every action, exactly what that action's own entries say: the last
      frequency and the last positive value of each other field. */
  lemma {:induction false} MergedEntry(list: seq<Burst>, bs: seq<Burst>, action: string)
    ensures Lookup(MergeBursts(list, bs), action) == Collapse(Lookup(list, action), bs, action)
    decreases |bs|
  {
    if bs != [] {
      LookupAfterMerge(list, bs[0], action);
      MergedEntry(if KeptBurst(bs[0]) then MergeBurst(list, bs[0]) else list, bs[1..], action);
    }
  }

  // ----------------------------------------------------- saving what was read

  lemma {:induction false} NormalBindingsWritable(bs: seq<Binding>)
    requires forall b :: b in bs ==> WritableBinding(b)
    ensures forall b :: b in NormalBindings(bs) ==> WritableBinding(b)
  {
    if bs != [] {
      var b := bs[0];
      assert b in bs;
      UpperKeeps(b.code, NL);
      UpperKeeps(b.code, '=');
      TrimMembers(ToUpper(b.code));
      TrimMembers(b.action);
      NormalBindingsWritable(bs[1..]);
    }
  }

  lemma MergeWritable(f: Floats, list: seq<Burst>, b: Burst)
    requires Lawful(f) && WritableBurst(f, b) && KeptBurst(b) && MergedList(list)
    requires forall x :: x in list ==> WritableBurst(f, x)
    ensures forall x :: x in MergeBurst(list, b) ==> WritableBurst(f, x)
  {
    var l := WithBurst(list, b.action);
    var i := Position(l, b.action);
    var r := MergeBurst(list, b);
    if i < |list| { assert list[i] in list; }
    forall j | 0 <= j < |r| ensures WritableBurst(f, r[j]) {
      if j != i { assert r[j] in list; }
    }
  }

  lemma {:induction false} MergedWritable(f: Floats, list: seq<Burst>, bs: seq<Burst>)
    requires Lawful(f) && MergedList(list)
    requires (forall x :: x in list ==> WritableBurst(f, x)) && (forall x :: x in bs ==> WritableBurst(f, x))
    ensures forall x :: x in MergeBursts(list, bs) ==> WritableBurst(f, x)
    decreases |bs|
  {
    if bs != [] {
      if KeptBurst(bs[0]) {
        MergeKeepsList(list, bs[0]);
        MergeWritable(f, list, bs[0]);
      }
      MergedWritable(f, if KeptBurst(bs[0]) then MergeBurst(list, bs[0]) else list, bs[1..]);
    }
  }

  lemma {:induction false} KeyNamesOneLine(pieces: seq<string>)
    requires forall p :: p in pieces ==> NL !in p
    ensures forall h :: h in KeyNames(pieces) ==> NL !in h
  {
    if pieces != [] {
      TrimMembers(pieces[0]);
      UpperKeeps(Trim(pieces[0]), NL);
      KeyNamesOneLine(pieces[1..]);
    }
  }

  lemma {:induction false} ChordOneLine(hotkey: seq<string>)
    requires forall h :: h in hotkey ==> NL !in h
    ensures forall h :: h in NormalChord(hotkey) ==> NL !in h
  {
    if hotkey != [] {
      var w := MapChars(CommaToPlus, hotkey[0]);
      assert forall i :: 0 <= i < |w| ==> w[i] == CommaToPlus(hotkey[0][i]);
      assert hotkey[0] in hotkey;
      SplitMembers(w, '+', NL);
      KeyNamesOneLine(SplitChord(hotkey[0]));
      ChordOneLine(hotkey[1..]);
    }
  }

  lemma NormalWritable(f: Floats, c: Config)
    requires Lawful(f) && Writable(f, c)
    ensures Writable(f, Normal(c))
  {
    hide WritableBinding, WritableBurst, WeakOrder, MergeBursts;
    TrimMembers(c.tuning.recoilAction);
    TrimMembers(c.tuning.adsAction);
    UpperKeeps(Trim(c.tuning.recoilAction), NL);
    UpperKeeps(Trim(c.tuning.adsAction), NL);
    NormalBindingsWritable(c.bindings);
    SortMembers(BindingLess, NormalBindings(c.bindings));
    MergedWritable(f, [], c.bursts);
    SortMembers(BurstLess, MergeBursts([], c.bursts));
    ChordOneLine(c.hotkey);
    DefaultOneLine();
  }

  lemma DefaultOneLine()
    ensures forall h :: h in DEFAULT_HOTKEY ==> NL !in h
  {}

  /** Whatever was saved first, saving what was then read and reading again changes nothing. */
  lemma ResaveKeeps(f: Floats, c: Config)
    requires Lawful(f) && Writable(f, c)
    ensures var c1 := Load(f, Save(f, c)); Load(f, Save(f, c1)) == c1
  {
    hide Load, Save, Writable, IsCanonical;
    LoadSave(f, c);
    NormalWritable(f, c);
    NormalIsCanonical(c);
    SurvivesIffCanonical(f, Normal(c));
  }
}
