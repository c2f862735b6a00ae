/** Mouse samples: the history the mapper commits, the part its ring remembers, and the velocity
    window read from it. */
module Samples {

  const RING := 256

  datatype Sample = Sample(t: int, dx: int, dy: int)

  /** What a ring of 256 slots can still hold: the last samples, oldest first. */
  function Recent(h: seq<Sample>): seq<Sample> {
    if |h| <= RING then h else h[|h| - RING..]
  }

  /** The ring slot of sample number k. */
  function Slot(k: int): (i: int)
    ensures 0 <= i < RING
  {
    k % RING
  }

  lemma SlotsDiffer(k: int, n: int)
    requires n - RING < k < n
    ensures Slot(k) != Slot(n)
  {}

  lemma NextSlot(n: int)
    ensures (Slot(n) + 1) % RING == Slot(n + 1)
  {}

  /** The index expression of the backward scan. */
  lemma BackwardSlot(n: int, i: int)
    requires 0 <= i < RING
    ensures (Slot(n) - 1 - i + RING) % RING == Slot(n - 1 - i)
  {}

  function SumX(s: seq<Sample>): int {
    if s == [] then 0 else s[|s| - 1].dx + SumX(s[..|s| - 1])
  }

  function SumY(s: seq<Sample>): int {
    if s == [] then 0 else s[|s| - 1].dy + SumY(s[..|s| - 1])
  }

  /** The samples a backward scan meets before the first one older than the cutoff. */
  function Tail(s: seq<Sample>, cutoff: int): seq<Sample> {
    if s == [] || s[|s| - 1].t < cutoff then [] else Tail(s[..|s| - 1], cutoff) + [s[|s| - 1]]
  }

  /** All samples inside the window, wherever they are. */
  function Inside(s: seq<Sample>, cutoff: int): seq<Sample> {
    if s == [] then []
    else Inside(s[..|s| - 1], cutoff) + (if s[|s| - 1].t < cutoff then [] else [s[|s| - 1]])
  }

  predicate Ordered(s: seq<Sample>) {
    forall i, j :: 0 <= i <= j < |s| ==> s[i].t <= s[j].t
  }

  lemma {:induction false} NoneInside(s: seq<Sample>, cutoff: int)
    requires forall i :: 0 <= i < |s| ==> s[i].t < cutoff
    ensures Inside(s, cutoff) == []
  {
    if s != [] { NoneInside(s[..|s| - 1], cutoff); }
  }

  /** Stopping at the first old sample loses nothing when timestamps do not go back. */
  lemma {:induction false} TailIsInside(s: seq<Sample>, cutoff: int)
    requires Ordered(s)
    ensures Tail(s, cutoff) == Inside(s, cutoff)
  {
    if s != [] {
      if s[|s| - 1].t < cutoff {
        NoneInside(s, cutoff);
      } else {
        TailIsInside(s[..|s| - 1], cutoff);
      }
    }
  }

  /** A suffix of the front part, with the last element added, is a suffix of the whole. */
  lemma SuffixGrows(s: seq<Sample>, n: nat)
    requires n < |s|
    ensures s[..|s| - 1][|s| - 1 - n..] + [s[|s| - 1]] == s[|s| - (n + 1)..]
  {}

  lemma TailUnfolds(s: seq<Sample>, cutoff: int)
    requires s != [] && s[|s| - 1].t >= cutoff
    ensures Tail(s, cutoff) == Tail(s[..|s| - 1], cutoff) + [s[|s| - 1]]
  {}

  lemma TailStops(s: seq<Sample>, cutoff: int)
    requires s == [] || s[|s| - 1].t < cutoff
    ensures Tail(s, cutoff) == []
  {}

  /** The tail is the longest suffix without an old sample. */
  lemma {:induction false} TailSuffix(s: seq<Sample>, cutoff: int) returns (n: nat)
    ensures n <= |s| && Tail(s, cutoff) == s[|s| - n..]
    ensures forall i :: |s| - n <= i < |s| ==> s[i].t >= cutoff
    ensures n < |s| ==> s[|s| - n - 1].t < cutoff
  {
    hide Tail;
    if s != [] && s[|s| - 1].t >= cutoff {
      n := TailSuffix(s[..|s| - 1], cutoff);
      TailUnfolds(s, cutoff);
      SuffixGrows(s, n);
      n := n + 1;
    } else {
      TailStops(s, cutoff);
      n := 0;
    }
  }

  lemma {:induction false} TailLength(s: seq<Sample>, cutoff: int, n: nat)
    requires n <= |s| && (forall i :: |s| - n <= i < |s| ==> s[i].t >= cutoff)
    requires n < |s| ==> s[|s| - n - 1].t < cutoff
    ensures Tail(s, cutoff) == s[|s| - n..]
  {
    if n > 0 { TailLength(s[..|s| - 1], cutoff, n - 1); }
  }

  /** Scanning the ring is scanning the whole history, cut to the 256 newest samples. */
  lemma TailOfRecent(h: seq<Sample>, cutoff: int)
    ensures Tail(Recent(h), cutoff) == Recent(Tail(h, cutoff))
  {
    hide Tail;
    var m := TailSuffix(h, cutoff);
    var tail, r := Tail(h, cutoff), Recent(h);
    var n := if m < |r| then m else |r|;
    RecentEnd(h, n);
    forall i | |r| - n <= i < |r| ensures r[i].t >= cutoff { assert r[i] == h[|h| - |r| + i]; }
    if n < |r| { assert r[|r| - n - 1] == h[|h| - n - 1]; }
    TailLength(r, cutoff, n);
    assert Recent(tail) == h[|h| - n..];
  }

  lemma RecentEnd(h: seq<Sample>, n: nat)
    requires n <= |Recent(h)|
    ensures Recent(h)[|Recent(h)| - n..] == h[|h| - n..]
  {}

  /** The window the mapper reads, for ordered samples: every sample of the whole history inside
      the window when at most 256 are, and the 256 newest of them otherwise. */
  lemma WindowOfHistory(h: seq<Sample>, cutoff: int)
    requires Ordered(h)
    ensures Tail(Recent(h), cutoff) == Recent(Inside(h, cutoff))
    ensures |Inside(h, cutoff)| <= RING ==> Tail(Recent(h), cutoff) == Inside(h, cutoff)
  {
    TailOfRecent(h, cutoff);
    TailIsInside(h, cutoff);
  }

  /** `(int64_t)x`: truncation towards zero. */
  function Trunc(x: real): int {
    if x >= 0.0 then x.Floor else -((-x).Floor)
  }

  function Cutoff(now: int, windowMs: real): int {
    now - Trunc(windowMs * 1000000.0)
  }

  /** The span reported for a window: from its oldest sample to now, or the nominal width when
      that is under a millisecond. */
  function Span(w: seq<Sample>, now: int, windowMs: real): real {
    var dt := (now - (if w == [] then now else w[0].t)) as real / 1000000.0;
    if dt < 1.0 then windowMs else dt
  }

  // --------------------------------------------------------- the backward scan

  /** What the scan has after i samples: all of them inside the window, their sums, and the time
      of the oldest. */
  predicate Scanned(h: seq<Sample>, cutoff: int, now: int, i: nat, x: int, y: int, oldest: int) {
    && i <= |h| && (forall k :: |h| - i <= k < |h| ==> h[k].t >= cutoff)
    && x == SumX(h[|h| - i..]) && y == SumY(h[|h| - i..])
    && oldest == if i == 0 then now else h[|h| - i].t
  }

  lemma ScanStart(h: seq<Sample>, cutoff: int, now: int)
    ensures Scanned(h, cutoff, now, 0, 0, 0, now)
  {}

  lemma ScanStep(h: seq<Sample>, cutoff: int, now: int, i: nat, x: int, y: int, oldest: int)
    requires Scanned(h, cutoff, now, i, x, y, oldest) && i < |h| && h[|h| - 1 - i].t >= cutoff
    ensures var s := h[|h| - 1 - i]; Scanned(h, cutoff, now, i + 1, x + s.dx, y + s.dy, s.t)
  {
    hide SumX, SumY;
    var w := h[|h| - i..];
    SumFront(h[|h| - 1 - i], w);
    assert h[|h| - (i + 1)..] == [h[|h| - 1 - i]] + w;
  }

  /** A scan that met an old sample, or the end, has read exactly the window. */
  lemma ScanDone(h: seq<Sample>, cutoff: int, now: int, i: nat, x: int, y: int, oldest: int)
    requires Scanned(h, cutoff, now, i, x, y, oldest) && (i < |h| ==> h[|h| - 1 - i].t < cutoff)
    ensures var w := Tail(h, cutoff); x == SumX(w) && y == SumY(w) && oldest == if w == [] then now else w[0].t
  {
    hide SumX, SumY, Tail;
    TailLength(h, cutoff, i);
  }

  lemma {:induction false} SumFront(s: Sample, w: seq<Sample>)
    ensures SumX([s] + w) == s.dx + SumX(w) && SumY([s] + w) == s.dy + SumY(w)
  {
    if w == [] {
      assert [s] + w == [s];
      assert [s][..0] == [];
    } else {
      assert ([s] + w)[..|[s] + w| - 1] == [s] + w[..|w| - 1];
      SumFront(s, w[..|w| - 1]);
    }
  }

  /** A sample is in the window exactly when it is at most `window_ms` old. */
  lemma CutoffLaw(t: int, now: int, windowMs: real)
    requires windowMs >= 0.0
    ensures t >= Cutoff(now, windowMs) <==> (now - t) as real <= windowMs * 1000000.0
  {
    assert windowMs * 1000000.0 >= 0.0;
    FloorLaw(now - t, windowMs * 1000000.0);
  }

  lemma FloorLaw(n: int, x: real)
    ensures n <= x.Floor <==> n as real <= x
  {}

  /** The span is the age of the oldest sample in the window, in ms, or the whole window if that age is
      under a millisecond or there is none. */
  lemma SpanLaw(w: seq<Sample>, now: int, windowMs: real)
    ensures var span := Span(w, now, windowMs);
            if w == [] || now - w[0].t < 1000000 then span == windowMs else span * 1000000.0 == (now - w[0].t) as real
  {}

  /** The velocity divisor is never under a millisecond and never over the nominal width. */
  lemma SpanBounds(h: seq<Sample>, now: int, windowMs: real)
    requires windowMs >= 1.0
    requires forall i :: 0 <= i < |h| ==> h[i].t <= now
    ensures 1.0 <= Span(Tail(h, Cutoff(now, windowMs)), now, windowMs) <= windowMs
  {
    hide Tail;
    var n := TailSuffix(h, Cutoff(now, windowMs));
    var w := Tail(h, Cutoff(now, windowMs));
    if w != [] {
      assert w[0] == h[|h| - n];
      assert now - w[0].t <= Trunc(windowMs * 1000000.0);
      assert (now - w[0].t) as real <= windowMs * 1000000.0;
    }
  }
}
