/** Loading a file in the web tool and saving it unchanged: exactly when the mapper daemon behaves the
    same afterwards. The web tool keeps two spellings of one action apart and sorts them, the daemon
    takes them for the same action; and a chord of blanks comes back as the default one. */
module Resaved {
  import opened Text
  import opened Names
  import opened NameCodes
  import opened StableSort
  import opened WebConfig
  import opened RoundTrip
  import opened Canonical
  import opened MapperConfig
  import opened Readers
  import opened ReadersAgree
  import D = DaemonConfig

  // ------------------------------------------------------------------ scalars

  lemma LowerUpper(s: string)
    ensures ToUpper(ToLower(s)) == ToUpper(s)
  {}

  lemma {:induction false} LookupLower(table: seq<Named>, name: string)
    ensures Names.Lookup(table, ToLower(name)) == Names.Lookup(table, name)
  {
    LowerUpper(name);
    if table != [] { LookupLower(table[1..], name); }
  }

  lemma NormalAction(action: string)
    ensures ActionId(Trim(ToLower(Trim(action)))) == ActionId(Trim(action))
  {
    hide Names.Lookup;
    TrimIsTrimmed(action);
    CaseKeepsTrimmed(Trim(action));
    TrimFixed(ToLower(Trim(action)));
    LookupLower(ACTION_NAMES, Trim(action));
  }

  lemma SameTuning(t: Tuning)
    ensures ViewTuning(NormalTuning(t)) == ViewTuning(t)
  {
    hide ActionId, Trim, ToLower, Defaults;
    NormalAction(t.recoilAction);
    NormalAction(t.adsAction);
  }

  // ----------------------------------------------------------------- bindings

  lemma {:induction false} NormalSnoc(bs: seq<Binding>, b: Binding)
    ensures NormalBindings(bs + [b]) == NormalBindings(bs) + NormalOne(b)
  {
    hide NormalBindings;
    if bs == [] {
      assert [] + [b] == [b] && [b][1..] == [];
      NormalFirst([b]);
      NormalOfNone();
    } else {
      TailOfConcat(bs, [b]);
      NormalFirst(bs);
      NormalFirst(bs + [b]);
      NormalSnoc(bs[1..], b);
      ConcatAssociates(NormalOne(bs[0]), NormalBindings(bs[1..]), NormalOne(b));
    }
  }

  function NormalOne(b: Binding): seq<Binding> {
    if KeptBinding(b) then [NormalBinding(b)] else []
  }

  lemma NormalFirst(bs: seq<Binding>)
    requires bs != []
    ensures NormalBindings(bs) == NormalOne(bs[0]) + NormalBindings(bs[1..])
  {}

  lemma NormalOfNone()
    ensures NormalBindings([]) == []
  {}

  lemma BoundSnoc(bs: seq<Binding>, b: Binding, binds: Binding -> bool, otherwise: nat)
    ensures LastBound(bs + [b], binds, otherwise) == if binds(b) then ActionId(Trim(b.action)) else LastBound(bs, binds, otherwise)
  {
    assert (bs + [b])[..|bs|] == bs;
  }

  /** A chooser that sees no difference between a binding and its normal form, and no other source. */
  ghost predicate Settled(binds: Binding -> bool) {
    forall b: Binding :: (binds(NormalBinding(b)) <==> binds(b)) && (binds(b) ==> KeptBinding(b))
  }

  lemma NormalCode(code: string)
    ensures TrimRight(ToUpper(TrimRight(ToUpper(code)))) == TrimRight(ToUpper(code))
  {
    UpperTrimRight(code);
    UpperIdempotent(TrimRight(code));
    UpperTrimRight(TrimRight(code));
    TrimRightTwice(code);
  }

  lemma {:induction false} TrimRightTwice(s: string)
    ensures TrimRight(TrimRight(s)) == TrimRight(s)
  {
    if s != "" && IsSpace(s[|s| - 1]) { TrimRightTwice(s[..|s| - 1]); }
  }

  lemma BindersSettled(i: nat)
    ensures Settled(KeyBinder(i)) && Settled(ButtonBinder(i))
  {
    hide Names.Lookup, TrimRight, ToUpper, Trim, ActionId;
    forall b: Binding
      ensures (BindsKey(NormalBinding(b), i) <==> BindsKey(b, i)) && (BindsButton(NormalBinding(b), i) <==> BindsButton(b, i))
    {
      NormalCode(b.code);
      TrimTwice(b.action);
    }
  }

  lemma TrimTwice(s: string)
    ensures Trim(Trim(s)) == Trim(s)
  {
    TrimIsTrimmed(s);
    TrimFixed(Trim(s));
  }

  lemma {:induction false} BoundInNormal(bs: seq<Binding>, binds: Binding -> bool, otherwise: nat)
    requires Settled(binds)
    ensures LastBound(NormalBindings(bs), binds, otherwise) == LastBound(bs, binds, otherwise)
  {
    hide ActionId, Trim, ToUpper, TrimRight;
    if bs != [] {
      var init, b := bs[..|bs| - 1], bs[|bs| - 1];
      assert bs == init + [b];
      BoundInNormal(init, binds, otherwise);
      NormalSnoc(init, b);
      BoundSnoc(init, b, binds, otherwise);
      if KeptBinding(b) {
        TrimTwice(b.action);
        BoundSnoc(NormalBindings(init), NormalBinding(b), binds, otherwise);
      } else {
        assert NormalBindings(init) + [] == NormalBindings(init);
      }
      hide LastBound;
    }
  }

  /** Only the bindings that tie with x matter, if x ties with all that are chosen. */
  lemma {:induction false} BoundInClass(s: seq<Binding>, x: Binding, binds: Binding -> bool, otherwise: nat)
    requires forall b :: b in s && binds(b) ==> Tie(BindingLess, b, x)
    ensures LastBound(Class(BindingLess, s, x), binds, otherwise) == LastBound(s, binds, otherwise)
  {
    hide ActionId, Trim, Tie;
    if s != [] {
      var init, b := s[..|s| - 1], s[|s| - 1];
      assert s == init + [b];
      BoundInClass(init, x, binds, otherwise);
      ClassAppend(BindingLess, init, x, b);
      BoundSnoc(init, b, binds, otherwise);
      var cl := Class(BindingLess, init, x);
      if Tie(BindingLess, b, x) {
        BoundSnoc(cl, b, binds, otherwise);
      } else {
        assert cl + [] == cl;
      }
      hide LastBound, Class;
    }
  }

  lemma {:induction false} NothingBound(s: seq<Binding>, binds: Binding -> bool, otherwise: nat)
    requires forall b :: b in s ==> !binds(b)
    ensures LastBound(s, binds, otherwise) == otherwise
  {
    if s != [] {
      assert s[|s| - 1] in s;
      NothingBound(s[..|s| - 1], binds, otherwise);
    }
  }

  /** Sorting does not change the last binding of a key if all its bindings tie. */
  lemma BoundInSorted(s: seq<Binding>, binds: Binding -> bool, otherwise: nat)
    requires forall a, b :: a in s && b in s && binds(a) && binds(b) ==> Tie(BindingLess, a, b)
    ensures LastBound(SortBy(BindingLess, s), binds, otherwise) == LastBound(s, binds, otherwise)
  {
    hide LastBound, SortBy, Class, WeakOrder, Tie;
    SortMembers(BindingLess, s);
    if x :| x in s && binds(x) {
      BindingOrder();
      SortClass(BindingLess, s, x);
      BoundInClass(s, x, binds, otherwise);
      BoundInClass(SortBy(BindingLess, s), x, binds, otherwise);
    } else {
      NothingBound(s, binds, otherwise);
      NothingBound(SortBy(BindingLess, s), binds, otherwise);
    }
  }

  lemma SameTextTies(a: Binding, b: Binding)
    requires a.source == b.source && a.code == b.code
    ensures Tie(BindingLess, a, b)
  {
    LessTotal(a.code, a.code);
  }

  lemma {:induction false} EndsInText(s: string)
    requires s == "" || !IsSpace(s[|s| - 1])
    ensures TrimRight(s) == s
  {}

  /** Two canonical bindings of one key, or of one mouse button, have the same text. */
  lemma SameKeyTies(a: Binding, b: Binding, i: nat)
    requires CanonicalBinding(a) && CanonicalBinding(b)
    requires (BindsKey(a, i) && BindsKey(b, i)) || (BindsButton(a, i) && BindsButton(b, i))
    ensures Tie(BindingLess, a, b)
  {
    hide Names.Lookup, ActionId, Trim, Tie;
    EndsInText(a.code);
    EndsInText(b.code);
    if BindsKey(a, i) && BindsKey(b, i) {
      OneNamePerKey(a.code, b.code);
    } else {
      OneNamePerButton(a.code, b.code);
    }
    SameTextTies(a, b);
  }

  /** The key tables survive a save by the web tool. */
  lemma SameBindings(bs: seq<Binding>, i: nat, otherwise: nat)
    ensures var r := SortBy(BindingLess, NormalBindings(bs));
            && LastBound(r, KeyBinder(i), otherwise) == LastBound(bs, KeyBinder(i), otherwise)
            && LastBound(r, ButtonBinder(i), otherwise) == LastBound(bs, ButtonBinder(i), otherwise)
  {
    hide LastBound, SortBy, Tie, CanonicalBinding, BindsKey, BindsButton, Settled;
    var n := NormalBindings(bs);
    NormalBindingsCanonical(bs);
    forall a, b | a in n && b in n && BindsKey(a, i) && BindsKey(b, i) ensures Tie(BindingLess, a, b) { SameKeyTies(a, b, i); }
    forall a, b | a in n && b in n && BindsButton(a, i) && BindsButton(b, i) ensures Tie(BindingLess, a, b) { SameKeyTies(a, b, i); }
    BindersSettled(i);
    BoundInSorted(n, KeyBinder(i), otherwise);
    BoundInSorted(n, ButtonBinder(i), otherwise);
    BoundInNormal(bs, KeyBinder(i), otherwise);
    BoundInNormal(bs, ButtonBinder(i), otherwise);
  }

  // ------------------------------------------------------------------- bursts

  /** The last positive value of a field among the kept entries spelt `action`, or else `before`. */
  function Latest(before: real, bs: seq<Burst>, action: string, field: Field): real
    decreases |bs|
  {
    if bs == [] then before
    else if KeptBurst(bs[0]) && bs[0].action == action && FieldOf(bs[0], field) > 0.0 then Latest(FieldOf(bs[0], field), bs[1..], action, field)
    else Latest(before, bs[1..], action, field)
  }

  lemma {:induction false} LatestSnoc(before: real, bs: seq<Burst>, b: Burst, action: string, field: Field)
    ensures Latest(before, bs + [b], action, field) ==
      if KeptBurst(b) && b.action == action && FieldOf(b, field) > 0.0 then FieldOf(b, field) else Latest(before, bs, action, field)
    decreases |bs|
  {
    hide FieldOf;
    if bs == [] {
      assert [] + [b] == [b] && [b][1..] == [];
    } else {
      assert (bs + [b])[1..] == bs[1..] + [b];
      LatestSnoc(if KeptBurst(bs[0]) && bs[0].action == action && FieldOf(bs[0], field) > 0.0 then FieldOf(bs[0], field) else before,
                 bs[1..], b, action, field);
    }
  }

  /** A value that is not the one before comes from an entry. */
  lemma {:induction false} LatestSource(bs: seq<Burst>, action: string, field: Field) returns (i: nat)
    requires Latest(0.0, bs, action, field) > 0.0
    ensures i < |bs| && KeptBurst(bs[i]) && bs[i].action == action && FieldOf(bs[i], field) > 0.0
  {
    hide FieldOf;
    i := |bs| - 1;
    var init := bs[..i];
    assert bs == init + [bs[i]];
    LatestSnoc(0.0, init, bs[i], action, field);
    if !(KeptBurst(bs[i]) && bs[i].action == action && FieldOf(bs[i], field) > 0.0) { i := LatestSource(init, action, field); }
  }

  function FieldIn(b: Option<Burst>, field: Field): real {
    if b.Some? then FieldOf(b.value, field) else 0.0
  }

  lemma OverlayField(previous: Burst, b: Burst, field: Field)
    requires KeptBurst(b)
    ensures FieldOf(Overlay(previous, b), field) == if FieldOf(b, field) > 0.0 then FieldOf(b, field) else FieldOf(previous, field)
  {}

  /** Collapsing the entries of one spelling keeps the latest value of each field. */
  lemma {:induction false} CollapseField(acc: Option<Burst>, bs: seq<Burst>, action: string, field: Field)
    ensures FieldIn(Collapse(acc, bs, action), field) == Latest(FieldIn(acc, field), bs, action, field)
    decreases |bs|
  {
    hide Overlay;
    if bs != [] {
      if KeptBurst(bs[0]) && bs[0].action == action {
        var previous := if acc.Some? then acc.value else Burst(action, 0.0, 0.0, 0.0, 0.0, 0.0);
        OverlayField(previous, bs[0], field);
        assert FieldOf(previous, field) == FieldIn(acc, field);
        CollapseField(Some(Overlay(previous, bs[0])), bs[1..], action, field);
      } else {
        CollapseField(acc, bs[1..], action, field);
      }
    }
  }

  /** The entry of a merged list holds the latest values of its spelling. */
  lemma MergedField(bs: seq<Burst>, b: Burst, field: Field)
    requires b in MergeBursts([], bs)
    ensures FieldOf(b, field) == Latest(0.0, bs, b.action, field)
  {
    hide FieldOf, Latest, Collapse, MergeBursts;
    var m := MergeBursts([], bs);
    MergeIsList([], bs);
    var i :| 0 <= i < |m| && m[i] == b;
    assert Position(m, b.action) == i;
    MergedEntry([], bs, b.action);
    CollapseField(None, bs, b.action, field);
  }

  lemma {:induction false} CollapseSome(acc: Option<Burst>, bs: seq<Burst>, i: nat)
    requires i < |bs| && KeptBurst(bs[i])
    ensures Collapse(acc, bs, bs[i].action).Some?
    decreases |bs|
  {
    hide Overlay;
    if i > 0 {
      var a := bs[i].action;
      CollapseSome(if KeptBurst(bs[0]) && bs[0].action == a
                   then Some(Overlay(if acc.Some? then acc.value else Burst(a, 0.0, 0.0, 0.0, 0.0, 0.0), bs[0])) else acc, bs[1..], i - 1);
    } else {
      CollapseStays(Some(Overlay(if acc.Some? then acc.value else Burst(bs[0].action, 0.0, 0.0, 0.0, 0.0, 0.0), bs[0])), bs[1..], bs[0].action);
    }
  }

  lemma {:induction false} CollapseStays(acc: Option<Burst>, bs: seq<Burst>, action: string)
    requires acc.Some?
    ensures Collapse(acc, bs, action).Some?
    decreases |bs|
  {
    hide Overlay;
    if bs != [] {
      CollapseStays(if KeptBurst(bs[0]) && bs[0].action == action then Some(Overlay(acc.value, bs[0])) else acc, bs[1..], action);
    }
  }

  /** Every spelling with a kept entry has an entry in the merged list. */
  lemma MergedHas(bs: seq<Burst>, i: nat) returns (b: Burst)
    requires i < |bs| && KeptBurst(bs[i])
    ensures b in MergeBursts([], bs) && b.action == bs[i].action
  {
    hide Collapse, MergeBursts;
    MergedEntry([], bs, bs[i].action);
    CollapseSome(None, bs, i);
    var m := MergeBursts([], bs);
    b := m[Position(m, bs[i].action)];
  }

  /** The last of the entries with the greatest spelling, among those that set the field. */
  function Top(bs: seq<Burst>, act: nat, field: Field): Option<Burst> {
    if bs == [] then None
    else
      var t, b := Top(bs[..|bs| - 1], act, field), bs[|bs| - 1];
      if Sets(b, act, field) && (t.None? || !Less(b.action, t.value.action)) then Some(b) else t
  }

  function TopField(bs: seq<Burst>, act: nat, field: Field): real {
    var t := Top(bs, act, field);
    if t.None? then 0.0 else Stored(field, FieldOf(t.value, field))
  }

  lemma {:induction false} TopLaw(bs: seq<Burst>, act: nat, field: Field)
    ensures var t := Top(bs, act, field);
            && (t.None? ==> forall b :: b in bs ==> !Sets(b, act, field))
            && (t.Some? ==>
                  && t.value in bs && Sets(t.value, act, field)
                  && FieldOf(t.value, field) == Latest(0.0, bs, t.value.action, field)
                  && forall b :: b in bs && Sets(b, act, field) ==> !Less(t.value.action, b.action))
  {
    hide FieldOf, Less, ActionId, Latest;
    if bs != [] {
      var init, b := bs[..|bs| - 1], bs[|bs| - 1];
      assert bs == init + [b];
      TopLaw(init, act, field);
      var t := Top(init, act, field);
      LatestSnoc(0.0, init, b, b.action, field);
      LessTotal(b.action, b.action);
      if t.Some? {
        LatestSnoc(0.0, init, b, t.value.action, field);
        LessTotal(b.action, t.value.action);
        if Sets(b, act, field) && !Less(b.action, t.value.action) {
          forall x | x in init && Sets(x, act, field) ensures !Less(b.action, x.action) { NotBelow(t.value.action, b.action, x.action); }
        }
      }
    }
  }

  lemma NotBelow(t: string, b: string, x: string)
    requires !Less(b, t) && !Less(t, x)
    ensures !Less(b, x)
  {
    LessTotal(b, t);
    LessTotal(t, x);
    if Less(b, x) {
      if t != b { LessTransitive(t, b, x); }
    }
  }

  /** The entry that the last-wins rule takes from a list. */
  lemma {:induction false} LastSetter(bs: seq<Burst>, act: nat, field: Field) returns (k: int)
    ensures -1 <= k < |bs| && forall j :: k < j < |bs| ==> !Sets(bs[j], act, field)
    ensures k >= 0 ==> Sets(bs[k], act, field) && LastField(bs, act, field, 0.0) == Stored(field, FieldOf(bs[k], field))
    ensures k < 0 ==> LastField(bs, act, field, 0.0) == 0.0
  {
    hide Sets, Stored, FieldOf;
    if bs == [] {
      k := -1;
    } else if Sets(bs[|bs| - 1], act, field) {
      k := |bs| - 1;
    } else {
      k := LastSetter(bs[..|bs| - 1], act, field);
    }
  }

  /** In the sorted merged list the greatest spelling wins. */
  lemma TopWins(bs: seq<Burst>, act: nat, field: Field)
    ensures LastField(SortBy(BurstLess, MergeBursts([], bs)), act, field, 0.0) == TopField(bs, act, field)
  {
    hide FieldOf, Less, ActionId, Latest, MergeBursts, SortBy, Sorted, Top, Stored, LastField, NoTies, CanonicalBurst;
    var m := MergeBursts([], bs);
    var r := SortBy(BurstLess, m);
    NormalBurstsCanonical(bs);
    SortMembers(BurstLess, m);
    TopLaw(bs, act, field);
    var t := Top(bs, act, field);
    var k := LastSetter(r, act, field);
    if k >= 0 {
      var e := r[k];
      assert e in r && e in m;
      MergedField(bs, e, field);
      var i := LatestSource(bs, e.action, field);
      assert bs[i] in bs && Sets(bs[i], act, field);
      SameWinner(bs, act, field, r, k);
    } else if t.Some? {
      var j := MergedSetter(bs, act, field, r, t.value);
      assert false;
    }
  }

  /** The merged entry of a spelling that sets the field sets it too. */
  lemma MergedSetter(bs: seq<Burst>, act: nat, field: Field, r: seq<Burst>, t: Burst) returns (j: nat)
    requires t in bs && Sets(t, act, field) && FieldOf(t, field) == Latest(0.0, bs, t.action, field)
    requires r == SortBy(BurstLess, MergeBursts([], bs))
    ensures j < |r| && Sets(r[j], act, field) && r[j].action == t.action && FieldOf(r[j], field) == FieldOf(t, field)
  {
    hide FieldOf, ActionId, Latest, MergeBursts, SortBy, Sorted, NoTies, CanonicalBurst;
    SortMembers(BurstLess, MergeBursts([], bs));
    var n :| 0 <= n < |bs| && bs[n] == t;
    var x := MergedHas(bs, n);
    MergedField(bs, x, field);
    NormalBurstsCanonical(bs);
    assert x in r;
    assert CanonicalBurst(x);
    CanonicalIsKept(x);
    j :| 0 <= j < |r| && r[j] == x;
  }

  lemma CanonicalIsKept(b: Burst)
    requires CanonicalBurst(b)
    ensures KeptBurst(b)
  {}

  lemma SameWinner(bs: seq<Burst>, act: nat, field: Field, r: seq<Burst>, k: nat)
    requires r == SortBy(BurstLess, MergeBursts([], bs)) && k < |r| && Sets(r[k], act, field)
    requires forall j :: k < j < |r| ==> !Sets(r[j], act, field)
    requires Top(bs, act, field).Some?
    ensures FieldOf(r[k], field) == FieldOf(Top(bs, act, field).value, field)
  {
    hide FieldOf, Less, ActionId, Latest, MergeBursts, SortBy, Top, CanonicalBurst, Sets;
    TopLaw(bs, act, field);
    var t := Top(bs, act, field).value;
    var j := MergedSetter(bs, act, field, r, t);
    NormalBurstsCanonical(bs);
    if j != k {
      assert j < k;
      assert !BurstLess(r[k], r[j]);
      var i := SetterOf(bs, act, field, r, k);
      assert false;
    }
  }

  /** An entry of the list behind a merged entry. */
  lemma SetterOf(bs: seq<Burst>, act: nat, field: Field, r: seq<Burst>, k: nat) returns (i: nat)
    requires r == SortBy(BurstLess, MergeBursts([], bs)) && k < |r| && Sets(r[k], act, field)
    ensures i < |bs| && Sets(bs[i], act, field) && bs[i].action == r[k].action
  {
    hide FieldOf, ActionId, Latest, MergeBursts, SortBy;
    SortMembers(BurstLess, MergeBursts([], bs));
    assert r[k] in r;
    MergedField(bs, r[k], field);
    i := LatestSource(bs, r[k].action, field);
  }

  // --------------------------------------------------------------- the whole

  /** The chord is left at its default, or some name is left of it. */
  predicate KeepsChord(hotkey: seq<string>) {
    hotkey == [] || NormalChord(hotkey) != []
  }

  /** For every action and field the last value set is also the last one set under the greatest
      spelling of the action. */
  predicate SpellingsAgree(bs: seq<Burst>) {
    forall act, field :: 0 < act < D.ACTION_COUNT ==> TopField(bs, act, field) == LastField(bs, act, field, 0.0)
  }

  lemma DefaultCodes()
    ensures CodesOf(MAPPER_KEYS, DEFAULT_HOTKEY, 8) == DEFAULT_CHORD
  {
    hide Names.Lookup;
    CodeOfCtrl();
    CodeOfEsc();
    assert DEFAULT_HOTKEY[1..] == ["ESC"] && ["ESC"][1..] == [];
    assert CodesOf(MAPPER_KEYS, ["ESC"], 7) == [1] + CodesOf(MAPPER_KEYS, [], 6);
    assert CodesOf(MAPPER_KEYS, DEFAULT_HOTKEY, 8) == [29] + CodesOf(MAPPER_KEYS, ["ESC"], 7);
  }

  lemma CodeOfCtrl()
    ensures Names.Lookup(MAPPER_KEYS, "LEFTCTRL") == 29
  {
    assert ToUpper("LEFTCTRL") == "LEFTCTRL";
    MapperLookup("LEFTCTRL");
  }

  lemma CodeOfEsc()
    ensures Names.Lookup(MAPPER_KEYS, "ESC") == 1
  {
    assert ToUpper("ESC") == "ESC";
    MapperLookup("ESC");
  }

  /** The daemon's chord after the web tool has normalised it. */
  lemma NormalChordView(c: Config)
    ensures View(Normal(c)).hotkey == if KeepsChord(c.hotkey) then View(c).hotkey else DEFAULT_CHORD
    ensures !KeepsChord(c.hotkey) ==> View(c).hotkey == []
  {
    hide Names.Lookup, ViewTuning, ViewBindings, ViewBursts, ChordNames, NormalTuning, NormalBindings, MergeBursts, SortBy, PlainName;
    ChordPlain(c.hotkey);
    DefaultPlain();
    ChordUnchanged(Normal(c).hotkey);
    DefaultCodes();
    if c.hotkey == [] { DefaultChordKept(c); }
    assert CodesOf(MAPPER_KEYS, [], 8) == [];
  }

  /** A record is its scalars, its key tables, its burst tables and its chord. */
  lemma ViewShape(c: Config)
    ensures var v, t := View(c), ViewTuning(c.tuning);
            v == WithBurstTables(t, v).(keyAction := v.keyAction, btnAction := v.btnAction, hotkey := v.hotkey)
  {
    hide ViewTuning, ViewBindings, ViewBursts, CodesOf, NormalChord;
    var t := ViewTuning(c.tuning);
    BindingsKeepRest(t, c.bindings);
    BurstsKeepRest(ViewBindings(t, c.bindings), c.bursts);
  }

  lemma SameKeyTables(c: Config)
    ensures View(Normal(c)).keyAction == View(c).keyAction && View(Normal(c)).btnAction == View(c).btnAction
  {
    hide View, LastBound, KeyBinder, ButtonBinder, NormalTuning, NormalBindings, NormalChord, MergeBursts, SortBy, DefaultKey, DefaultButton;
    BindingTables(c);
    BindingTables(Normal(c));
    forall i | 0 <= i < D.KEYTABLE
      ensures View(Normal(c)).keyAction[i] == View(c).keyAction[i] && View(Normal(c)).btnAction[i] == View(c).btnAction[i]
    {
      SameBindings(c.bindings, i, DefaultKey(i));
      SameBindings(c.bindings, i, DefaultButton(i));
    }
  }

  lemma SameFieldIff(c: Config)
    ensures SpellingsAgree(c.bursts) <==> forall field :: TableOf(View(Normal(c)), field) == TableOf(View(c), field)
  {
    hide View, TableOf, LastField, TopField, NormalTuning, NormalBindings, NormalChord, MergeBursts, SortBy;
    BurstTables(c);
    BurstTables(Normal(c));
    forall act, field | 0 <= act < D.ACTION_COUNT
      ensures TableOf(View(Normal(c)), field)[act] == if act == 0 then 0.0 else TopField(c.bursts, act, field)
      ensures TableOf(View(c), field)[act] == if act == 0 then 0.0 else LastField(c.bursts, act, field, 0.0)
    {
      TopWins(c.bursts, act, field);
    }
  }

  lemma SameTablesIff(a: D.Config, b: D.Config)
    ensures WithBurstTables(a, b) == a <==> forall field :: TableOf(a, field) == TableOf(b, field)
  {
    if forall field :: TableOf(a, field) == TableOf(b, field) {
      assert TableOf(a, Hz) == TableOf(b, Hz) && TableOf(a, Duty) == TableOf(b, Duty) && TableOf(a, Jitter) == TableOf(b, Jitter);
      assert TableOf(a, DutyJitter) == TableOf(b, DutyJitter) && TableOf(a, Field.Skip) == TableOf(b, Field.Skip);
    }
  }

  /** The daemon sees no difference between a configuration and its normal form exactly when the
      spellings of its burst actions agree and its chord is not all blank. */
  lemma NormalViewIff(c: Config)
    ensures View(Normal(c)) == View(c) <==> KeepsChord(c.hotkey) && SpellingsAgree(c.bursts)
  {
    hide View, TableOf, KeepsChord, SpellingsAgree, ViewTuning, NormalTuning, NormalBindings, NormalChord, MergeBursts, SortBy;
    ViewShape(c);
    ViewShape(Normal(c));
    SameTuning(c.tuning);
    SameKeyTables(c);
    SameFieldIff(c);
    NormalChordView(c);
    SameTablesIff(View(Normal(c)), View(c));
  }

  /** On files: loading what was saved and saving it again leaves the mapper daemon with the same
      record exactly under that condition. */
  lemma ResaveKeepsDaemon(f: Floats, atof: string -> real, c: Config)
    requires Lawful(f) && ReadsBack(f, atof) && Writable(f, c)
    requires ShortLines(Lines(f, c)) && ShortLines(Lines(f, Normal(c)))
    ensures MapperConfig.Load(atof, Some(Save(f, WebConfig.Load(f, Save(f, c))))) == MapperConfig.Load(atof, Some(Save(f, c)))
      <==> KeepsChord(c.hotkey) && SpellingsAgree(c.bursts)
  {
    hide Lawful, ReadsBack, Writable, ShortLines, Lines, Save, View, Normal, KeepsChord, SpellingsAgree;
    LoadSave(f, c);
    NormalWritable(f, c);
    MapperReadsSaved(f, atof, c);
    MapperReadsSaved(f, atof, Normal(c));
    NormalViewIff(c);
  }

  // ------------------------------------------------------- meeting it, missing it

  /** It is met when no action is spelt in two ways; unknown names do not count. */
  predicate OneSpelling(bs: seq<Burst>) {
    forall a, b :: a in bs && b in bs && ActionId(a.action) == ActionId(b.action) != 0 ==> a.action == b.action
  }

  lemma {:induction false} OneSpellingTop(bs: seq<Burst>, act: nat, field: Field)
    requires OneSpelling(bs) && act != 0
    ensures TopField(bs, act, field) == LastField(bs, act, field, 0.0)
    ensures Top(bs, act, field).Some? ==> Top(bs, act, field).value in bs && Sets(Top(bs, act, field).value, act, field)
  {
    hide ActionId, FieldOf, Stored;
    if bs != [] {
      var init, b := bs[..|bs| - 1], bs[|bs| - 1];
      assert b in bs && forall x :: x in init ==> x in bs;
      OneSpellingTop(init, act, field);
      LessTotal(b.action, b.action);
    }
  }

  lemma OneSpellingAgrees(bs: seq<Burst>)
    requires OneSpelling(bs)
    ensures SpellingsAgree(bs)
  {
    hide TopField, LastField, OneSpelling;
    forall act, field | 0 < act < D.ACTION_COUNT ensures TopField(bs, act, field) == LastField(bs, act, field, 0.0) {
      OneSpellingTop(bs, act, field);
    }
  }

  /** `lookup_ci` passes over the entries whose names differ. */
  lemma {:induction false} LookupSkips(t: seq<Named>, name: string, n: nat)
    requires n < |t| && forall i :: 0 <= i < n ==> ToUpper(t[i].name) != ToUpper(name)
    requires ToUpper(t[n].name) == ToUpper(name)
    ensures Names.Lookup(t, name) == t[n].code
  {
    if n > 0 { LookupSkips(t[1..], name, n - 1); }
  }

  lemma TriggerName(u: string)
    requires u == "r2" || u == "R2"
    ensures ToUpper(u) == "R2"
  {}

  lemma NotTrigger(u: string)
    requires |u| != 2 || (u[0] != 'r' && u[0] != 'R') || u[1] != '2'
    ensures ToUpper(u) != "R2"
  {}

  lemma LongNames()
    ensures forall i :: 0 <= i < 16 ==> |ACTION_NAMES[i].name| > 2
  {}

  lemma NamesBefore(i: nat)
    requires i < 19
    ensures ToUpper(ACTION_NAMES[i].name) != "R2"
  {
    hide ToUpper;
    LongNames();
    NotTrigger(ACTION_NAMES[i].name);
  }

  lemma TriggerId(u: string)
    requires u == "r2" || u == "R2"
    ensures ActionId(u) == 20
  {
    hide ToUpper, Names.Lookup;
    TriggerName(u);
    TriggerName("r2");
    forall i | 0 <= i < 19 ensures ToUpper(ACTION_NAMES[i].name) != ToUpper(u) { NamesBefore(i); }
    LookupSkips(ACTION_NAMES, u, 19);
  }

  /** A configuration that misses it: bursts for `r2` at 10 Hz and then for `R2` at 5 Hz. The daemon
      plays 5 Hz; once the web tool has loaded and saved the file, it plays 10 Hz. */
  lemma SpellingChangesRate(c: Config)
    requires c.bursts == [Burst("r2", 10.0, 0.0, 0.0, 0.0, 0.0), Burst("R2", 5.0, 0.0, 0.0, 0.0, 0.0)]
    ensures View(c).burstHz[20] == 5.0 && View(Normal(c)).burstHz[20] == 10.0
  {
    hide View, ActionId, NormalTuning, NormalBindings, NormalChord, MergeBursts, SortBy, LastField, Top;
    BurstTables(c);
    BurstTables(Normal(c));
    TopWins(c.bursts, 20, Hz);
    TwoSpellings(c.bursts);
    assert TableOf(View(c), Hz)[20] == LastField(c.bursts, 20, Hz, 0.0);
    assert TableOf(View(Normal(c)), Hz)[20] == LastField(Normal(c).bursts, 20, Hz, 0.0);
  }

  lemma TwoSpellings(bs: seq<Burst>)
    requires bs == [Burst("r2", 10.0, 0.0, 0.0, 0.0, 0.0), Burst("R2", 5.0, 0.0, 0.0, 0.0, 0.0)]
    ensures LastField(bs, 20, Hz, 0.0) == 5.0
    ensures Top(bs, 20, Hz) == Some(bs[0])
  {
    hide ActionId;
    TriggerId("r2");
    TriggerId("R2");
    assert bs[..1] == [bs[0]] && [bs[0]][..0] == [];
    assert Less("R2", "r2");
    assert Sets(bs[0], 20, Hz) && Sets(bs[1], 20, Hz);
    assert Top([], 20, Hz) == None;
    assert Top([bs[0]], 20, Hz) == Some(bs[0]);
  }

  /** A configuration with a chord of one blank: the daemon has no chord before, and the default one
      after. */
  lemma BlankChordComesBack(c: Config)
    requires c.hotkey == [" "]
    ensures View(c).hotkey == [] && View(Normal(c)).hotkey == DEFAULT_CHORD
  {
    hide View, Normal;
    assert MapChars(CommaToPlus, " ") == " ";
    SplitAbsent(" ", '+');
    assert Trim(" ") == "" && [" "][1..] == [] && KeyNames([" "]) == [];
    assert NormalChord([" "]) == ChordNames(" ") + NormalChord([" "][1..]);
    NormalChordView(c);
  }
}
