/** Stable sorting (`sort.SliceStable`), specified by what a stable sort is: an ordered arrangement
    that keeps, for every key, the elements with that key in their original order. */
module StableSort {

  ghost predicate WeakOrder<T(!new)>(less: (T, T) -> bool) {
    && (forall a :: !less(a, a))
    && (forall a, b, c :: less(a, b) && less(b, c) ==> less(a, c))
    && (forall a, b, c :: less(a, b) ==> less(a, c) || less(c, b))
  }

  predicate Tie<T>(less: (T, T) -> bool, a: T, b: T) {
    !less(a, b) && !less(b, a)
  }

  ghost predicate Sorted<T>(less: (T, T) -> bool, s: seq<T>) {
    forall i, j :: 0 <= i < j < |s| ==> !less(s[j], s[i])
  }

  ghost predicate NoTies<T>(less: (T, T) -> bool, s: seq<T>) {
    forall i, j :: 0 <= i < j < |s| ==> !Tie(less, s[i], s[j])
  }

  /** The elements of `s` whose key equals that of `x`, in order. */
  function Class<T>(less: (T, T) -> bool, s: seq<T>, x: T): seq<T> {
    if s == [] then []
    else (if Tie(less, s[0], x) then [s[0]] else []) + Class(less, s[1..], x)
  }

  ghost predicate IsStableSort<T(!new)>(less: (T, T) -> bool, s: seq<T>, t: seq<T>) {
    Sorted(less, t) && forall x :: Class(less, t, x) == Class(less, s, x)
  }

  function Insert<T>(less: (T, T) -> bool, s: seq<T>, x: T): seq<T> {
    if s == [] || less(x, s[0]) then [x] + s else [s[0]] + Insert(less, s[1..], x)
  }

  function SortBy<T>(less: (T, T) -> bool, s: seq<T>): seq<T> {
    if s == [] then [] else Insert(less, SortBy(less, s[..|s| - 1]), s[|s| - 1])
  }

  lemma {:induction false} InsertMembers<T(!new)>(less: (T, T) -> bool, s: seq<T>, x: T)
    ensures forall y :: y in Insert(less, s, x) <==> y in s || y == x
  {
    if !(s == [] || less(x, s[0])) {
      InsertMembers(less, s[1..], x);
      assert s == [s[0]] + s[1..];
    }
  }

  lemma {:induction false} SortMembers<T(!new)>(less: (T, T) -> bool, s: seq<T>)
    ensures forall y :: y in SortBy(less, s) <==> y in s
  {
    if s != [] {
      SortMembers(less, s[..|s| - 1]);
      InsertMembers(less, SortBy(less, s[..|s| - 1]), s[|s| - 1]);
      assert s == s[..|s| - 1] + [s[|s| - 1]];
    }
  }

  lemma {:induction false} InsertSorted<T(!new)>(less: (T, T) -> bool, s: seq<T>, x: T)
    requires WeakOrder(less) && Sorted(less, s)
    ensures Sorted(less, Insert(less, s, x))
  {
    if s == [] {
    } else if less(x, s[0]) {
      forall j | 0 <= j < |s| ensures !less(s[j], x) {
        assert !less(s[j], s[0]);
      }
    } else {
      InsertSorted(less, s[1..], x);
      InsertMembers(less, s[1..], x);
      var r := Insert(less, s[1..], x);
      forall j | 0 <= j < |r| ensures !less(r[j], s[0]) {
        assert r[j] in s[1..] || r[j] == x;
      }
    }
  }

  lemma {:induction false} SortSorted<T(!new)>(less: (T, T) -> bool, s: seq<T>)
    requires WeakOrder(less)
    ensures Sorted(less, SortBy(less, s))
  {
    if s != [] {
      SortSorted(less, s[..|s| - 1]);
      InsertSorted(less, SortBy(less, s[..|s| - 1]), s[|s| - 1]);
    }
  }

  lemma {:induction false} InsertLast<T>(less: (T, T) -> bool, s: seq<T>, x: T)
    requires forall i :: 0 <= i < |s| ==> !less(x, s[i])
    ensures Insert(less, s, x) == s + [x]
  {
    if s != [] { InsertLast(less, s[1..], x); }
  }

  /** Sorting an ordered list changes nothing. */
  lemma {:induction false} SortFixed<T>(less: (T, T) -> bool, s: seq<T>)
    requires Sorted(less, s)
    ensures SortBy(less, s) == s
  {
    if s != [] {
      SortFixed(less, s[..|s| - 1]);
      InsertLast(less, s[..|s| - 1], s[|s| - 1]);
    }
  }

  lemma {:induction false} InsertNoTies<T(!new)>(less: (T, T) -> bool, s: seq<T>, x: T)
    requires NoTies(less, s) && forall y :: y in s ==> !Tie(less, x, y)
    ensures NoTies(less, Insert(less, s, x))
  {
    if s != [] && !less(x, s[0]) {
      InsertNoTies(less, s[1..], x);
      InsertMembers(less, s[1..], x);
      var r := Insert(less, s[1..], x);
      forall j | 0 <= j < |r| ensures !Tie(less, s[0], r[j]) {
        assert r[j] in r && s[0] in s;
        if r[j] != x {
          assert r[j] in s[1..];
          var i :| 0 <= i < |s[1..]| && s[1..][i] == r[j];
          assert s[i + 1] == r[j];
        }
      }
    }
  }

  lemma {:induction false} SortNoTies<T(!new)>(less: (T, T) -> bool, s: seq<T>)
    requires NoTies(less, s)
    ensures NoTies(less, SortBy(less, s))
  {
    if s != [] {
      var init := s[..|s| - 1];
      var t := SortBy(less, init);
      SortNoTies(less, init);
      SortMembers(less, init);
      forall y | y in t ensures !Tie(less, s[|s| - 1], y) {
        assert y in init;
        var i :| 0 <= i < |init| && init[i] == y;
      }
      InsertNoTies(less, t, s[|s| - 1]);
    }
  }

  lemma {:induction false} ClassAppend<T>(less: (T, T) -> bool, s: seq<T>, x: T, y: T)
    ensures Class(less, s + [y], x) == Class(less, s, x) + (if Tie(less, y, x) then [y] else [])
  {
    if s != [] {
      assert (s + [y])[1..] == s[1..] + [y];
      ClassAppend(less, s[1..], x, y);
    }
  }

  lemma {:induction false} ClassEmpty<T>(less: (T, T) -> bool, s: seq<T>, x: T)
    requires forall y :: y in s ==> !Tie(less, y, x)
    ensures Class(less, s, x) == []
  {
    if s != [] {
      assert s[0] in s;
      ClassEmpty(less, s[1..], x);
    }
  }

  lemma TailSorted<T>(less: (T, T) -> bool, s: seq<T>)
    requires s != [] && Sorted(less, s)
    ensures Sorted(less, s[1..])
  {}

  lemma BelowAll<T(!new)>(less: (T, T) -> bool, s: seq<T>, y: T)
    requires WeakOrder(less) && Sorted(less, s) && s != [] && less(y, s[0])
    ensures forall z :: z in s ==> less(y, z)
  {
    forall i | 0 <= i < |s| ensures less(y, s[i]) {
      if i > 0 { assert !less(s[i], s[0]); }
    }
  }

  lemma TieTransfers<T(!new)>(less: (T, T) -> bool, x: T, y: T, z: T)
    requires WeakOrder(less) && Tie(less, y, x) && less(y, z)
    ensures !Tie(less, z, x)
  {
    assert less(y, x) || less(x, z);
  }

  lemma {:induction false} InsertClass<T(!new)>(less: (T, T) -> bool, s: seq<T>, y: T, x: T)
    requires WeakOrder(less) && Sorted(less, s)
    ensures Class(less, Insert(less, s, y), x) == Class(less, s, x) + (if Tie(less, y, x) then [y] else [])
  {
    hide WeakOrder, Sorted;
    if s != [] { TailSorted(less, s); }
    if s == [] {
    } else if less(y, s[0]) {
      assert ([y] + s)[1..] == s;
      if Tie(less, y, x) {
        BelowAll(less, s, y);
        forall z | z in s ensures !Tie(less, z, x) { TieTransfers(less, x, y, z); }
        ClassEmpty(less, s, x);
      }
    } else {
      var r := Insert(less, s[1..], y);
      InsertClass(less, s[1..], y, x);
      assert ([s[0]] + r)[1..] == r;
    }
  }

  lemma {:induction false} SortClass<T(!new)>(less: (T, T) -> bool, s: seq<T>, x: T)
    requires WeakOrder(less)
    ensures Class(less, SortBy(less, s), x) == Class(less, s, x)
  {
    if s != [] {
      var init := s[..|s| - 1];
      SortClass(less, init, x);
      SortSorted(less, init);
      InsertClass(less, SortBy(less, init), s[|s| - 1], x);
      assert s == init + [s[|s| - 1]];
      ClassAppend(less, init, x, s[|s| - 1]);
    }
  }

  lemma {:induction false} ClassMember<T>(less: (T, T) -> bool, s: seq<T>, x: T)
    requires Class(less, s, x) != []
    ensures Class(less, s, x)[0] in s && Tie(less, Class(less, s, x)[0], x)
  {
    if !Tie(less, s[0], x) { ClassMember(less, s[1..], x); }
  }

  /** The heads of two stable arrangements of the same list agree. */
  lemma SameHead<T(!new)>(less: (T, T) -> bool, s: seq<T>, t: seq<T>)
    requires WeakOrder(less) && Sorted(less, s) && Sorted(less, t)
    requires forall x :: Class(less, s, x) == Class(less, t, x)
    requires s != []
    ensures t != [] && s[0] == t[0]
  {
    assert Class(less, s, s[0])[0] == s[0];
    ClassMember(less, t, s[0]);
    var y := Class(less, t, s[0])[0];
    assert Class(less, t, t[0])[0] == t[0];
    ClassMember(less, s, t[0]);
    var z := Class(less, s, t[0])[0];
    assert !less(y, t[0]) && !less(z, s[0]);
    assert Tie(less, s[0], t[0]);
    assert Class(less, t, s[0])[0] == t[0];
  }

  /** A stable sort has exactly one result, so any implementation computes `SortBy`. */
  lemma {:induction false} StableSortUnique<T(!new)>(less: (T, T) -> bool, s: seq<T>, t: seq<T>)
    requires WeakOrder(less) && Sorted(less, s) && Sorted(less, t)
    requires forall x :: Class(less, s, x) == Class(less, t, x)
    ensures s == t
    decreases |s|
  {
    if s == [] {
      if t != [] { SameHead(less, t, s); }
    } else {
      SameHead(less, s, t);
      forall x ensures Class(less, s[1..], x) == Class(less, t[1..], x) {
        assert Class(less, s, x) == Class(less, t, x);
        var h := if Tie(less, s[0], x) then [s[0]] else [];
        assert Class(less, s[1..], x) == Class(less, s, x)[|h|..];
        assert Class(less, t[1..], x) == Class(less, t, x)[|h|..];
      }
      StableSortUnique(less, s[1..], t[1..]);
    }
  }

  lemma SortIsStable<T(!new)>(less: (T, T) -> bool, s: seq<T>, t: seq<T>)
    requires WeakOrder(less)
    ensures IsStableSort(less, s, t) <==> t == SortBy(less, s)
  {
    SortSorted(less, s);
    forall x ensures Class(less, SortBy(less, s), x) == Class(less, s, x) { SortClass(less, s, x); }
    if IsStableSort(less, s, t) { StableSortUnique(less, t, SortBy(less, s)); }
  }
}
