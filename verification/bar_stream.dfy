/**
 * The bar-stream merge of the daily CSV price handler: every subscribed
 * ticker's bars are concatenated, sorted by (day, ticker) and optionally
 * cut down to the days between a start bound (inclusive) and an end bound
 * (exclusive), the cut positions being found by a left-side binary search
 * over the sorted days.
 */
module BarStream {
  import opened Common

  /** One daily OHLCV row of one ticker, prices already parsed to integers. */
  datatype Bar = Bar(
    ticker: Ticker,
    time: Date,
    open: int,
    high: int,
    low: int,
    close: int,
    volume: int,
    adjClose: int)

  /** The sort key of a bar: its day first, its ticker name second. */
  function Key(b: Bar): (Date, Ticker)
  {
    (b.time, b.ticker)
  }

  /** The (day, ticker) order the merged frame is sorted by. */
  predicate KeyLe(x: Bar, y: Bar)
  {
    x.time < y.time || (x.time == y.time && LexLe(x.ticker, y.ticker))
  }

  lemma KeyLeTotal(x: Bar, y: Bar)
    ensures KeyLe(x, y) || KeyLe(y, x)
  {
    LexLeTotal(x.ticker, y.ticker);
  }

  lemma KeyLeTransitive(x: Bar, y: Bar, z: Bar)
    requires KeyLe(x, y) && KeyLe(y, z)
    ensures KeyLe(x, z)
  {
    if x.time == y.time == z.time {
      LexLeTransitive(x.ticker, y.ticker, z.ticker);
    }
  }

  lemma KeyLeAntisymmetric(x: Bar, y: Bar)
    requires KeyLe(x, y) && KeyLe(y, x)
    ensures Key(x) == Key(y)
  {
    LexLeAntisymmetric(x.ticker, y.ticker);
  }

  predicate Sorted(s: seq<Bar>)
  {
    forall i, j :: 0 <= i < j < |s| ==> KeyLe(s[i], s[j])
  }

  predicate TimeSorted(s: seq<Bar>)
  {
    forall i, j :: 0 <= i < j < |s| ==> s[i].time <= s[j].time
  }

  /**
   * No two different bars share a (day, ticker) key; the same bar may
   * still occur more than once (see `DistinctKeys` for the stronger
   * notion).
   */
  predicate KeyDetermines(s: seq<Bar>)
  {
    forall x, y :: x in s && y in s && Key(x) == Key(y) ==> x == y
  }

  lemma SortedIsTimeSorted(s: seq<Bar>)
    requires Sorted(s)
    ensures TimeSorted(s)
  {
  }

  lemma HeadIsLeast(s: seq<Bar>)
    requires Sorted(s) && s != []
    ensures forall y :: y in s ==> KeyLe(s[0], y)
  {
    forall y | y in s
      ensures KeyLe(s[0], y)
    {
      var k :| 0 <= k < |s| && s[k] == y;
      if k == 0 {
        KeyLeTotal(y, y);
      }
    }
  }

  // ---------------------------------------------------------------------
  // Concatenation of the per-ticker tables (`pd.concat`)
  // ---------------------------------------------------------------------

  /** The per-ticker tables laid end to end, in the order given. */
  function Concat(tables: seq<seq<Bar>>): seq<Bar>
  {
    if tables == [] then [] else tables[0] + Concat(tables[1..])
  }

  lemma {:induction false} ConcatAppend(a: seq<seq<Bar>>, b: seq<seq<Bar>>)
    ensures Concat(a + b) == Concat(a) + Concat(b)
    decreases |a|
  {
    if a != [] {
      assert (a + b)[0] == a[0];
      assert (a + b)[1..] == a[1..] + b;
      ConcatAppend(a[1..], b);
      calc {
        Concat(a + b);
        a[0] + Concat(a[1..] + b);
        a[0] + (Concat(a[1..]) + Concat(b));
        (a[0] + Concat(a[1..])) + Concat(b);
        Concat(a) + Concat(b);
      }
    } else {
      assert a + b == b;
    }
  }

  /** Every bar of the concatenation comes from one of the tables, and back. */
  lemma {:induction false} ConcatMembers(tables: seq<seq<Bar>>)
    ensures forall b :: b in Concat(tables) <==> exists k :: 0 <= k < |tables| && b in tables[k]
    decreases |tables|
  {
    if tables != [] {
      var rest := Concat(tables[1..]);
      assert Concat(tables) == tables[0] + rest;
      ConcatMembers(tables[1..]);
      forall b | b in Concat(tables)
        ensures exists k :: 0 <= k < |tables| && b in tables[k]
      {
        if b in tables[0] {
          assert 0 < |tables| && b in tables[0];
        } else {
          assert b in rest;
          var k :| 0 <= k < |tables[1..]| && b in tables[1..][k];
          assert b in tables[k + 1];
        }
      }
      forall b, k | 0 <= k < |tables| && b in tables[k]
        ensures b in Concat(tables)
      {
        if k > 0 {
          assert b in tables[1..][k - 1];
          assert b in rest;
        }
      }
    }
  }

  /** Dropping position `k` removes one occurrence of the element found there. */
  lemma MultisetRemove<T>(s: seq<T>, k: nat)
    requires k < |s|
    ensures multiset(s[..k] + s[k + 1..]) == multiset(s) - multiset{s[k]}
  {
    assert s == s[..k] + [s[k]] + s[k + 1..];
  }

  lemma MultisetTail<T>(s: seq<T>)
    requires s != []
    ensures multiset(s[1..]) == multiset(s) - multiset{s[0]}
  {
    assert s == [s[0]] + s[1..];
  }

  /** Taking table `k` out of the concatenation removes exactly its bars. */
  lemma {:induction false} ConcatSplitAt(t: seq<seq<Bar>>, k: nat)
    requires k < |t|
    ensures Concat(t) == Concat(t[..k]) + t[k] + Concat(t[k + 1..])
    decreases k
  {
    if k == 0 {
      assert |t[..0]| == 0;
    } else {
      var tail := t[1..];
      ConcatSplitAt(tail, k - 1);
      assert tail[k - 1] == t[k];
      assert tail[k..] == t[k + 1..];
      assert t[..k][0] == t[0];
      assert t[..k][1..] == tail[..k - 1];
    }
  }

  lemma ConcatRemove(t: seq<seq<Bar>>, k: nat)
    requires k < |t|
    ensures multiset(Concat(t)) == multiset(t[k]) + multiset(Concat(t[..k] + t[k + 1..]))
  {
    var pre, post := Concat(t[..k]), Concat(t[k + 1..]);
    ConcatSplitAt(t, k);
    ConcatAppend(t[..k], t[k + 1..]);
    assert multiset(pre + t[k] + post) == multiset(t[k]) + multiset(pre + post);
  }

  /** Permuting the tables permutes the bars of their concatenation. */
  lemma {:induction false} ConcatPermutation(t1: seq<seq<Bar>>, t2: seq<seq<Bar>>)
    requires multiset(t1) == multiset(t2)
    ensures multiset(Concat(t1)) == multiset(Concat(t2))
    decreases |t1|
  {
    if t1 == [] {
      assert |t2| == |multiset(t2)| == 0;
    } else {
      assert t1[0] in multiset(t2);
      var k :| 0 <= k < |t2| && t2[k] == t1[0];
      var rest := t2[..k] + t2[k + 1..];
      assert multiset(t1[1..]) == multiset(rest) by {
        MultisetRemove(t2, k);
        MultisetTail(t1);
      }
      ConcatPermutation(t1[1..], rest);
      ConcatRemove(t2, k);
    }
  }

  // ---------------------------------------------------------------------
  // Sorting by (day, ticker)
  // ---------------------------------------------------------------------

  lemma PrependSorted(x: Bar, s: seq<Bar>)
    requires Sorted(s) && s != [] && KeyLe(x, s[0])
    ensures Sorted([x] + s)
  {
    forall j | 0 <= j < |s|
      ensures KeyLe(x, s[j])
    {
      if j > 0 {
        KeyLeTransitive(x, s[0], s[j]);
      }
    }
  }

  lemma InsertBehindHead(s: seq<Bar>, x: Bar, rest: seq<Bar>)
    requires Sorted(s) && s != [] && KeyLe(s[0], x)
    requires Sorted(rest) && multiset(rest) == multiset(s[1..]) + multiset{x}
    ensures Sorted([s[0]] + rest)
    ensures multiset([s[0]] + rest) == multiset(s) + multiset{x}
  {
    HeadIsLeast(s);
    forall j | 0 <= j < |rest|
      ensures KeyLe(s[0], rest[j])
    {
      assert rest[j] in multiset(rest);
      if rest[j] != x {
        assert rest[j] in multiset(s[1..]);
        assert rest[j] in s;
      }
    }
    assert s == [s[0]] + s[1..];
  }

  /** Places `x` into an already sorted sequence. */
  function Insert(x: Bar, s: seq<Bar>): (r: seq<Bar>)
    requires Sorted(s)
    ensures Sorted(r)
    ensures multiset(r) == multiset(s) + multiset{x}
    decreases |s|
  {
    if s == [] then [x]
    else if KeyLe(x, s[0]) then
      PrependSorted(x, s);
      [x] + s
    else
      var rest := Insert(x, s[1..]);
      KeyLeTotal(x, s[0]);
      InsertBehindHead(s, x, rest);
      [s[0]] + rest
  }

  /**
   * `sort_values(by=[date, Ticker])`: the bars in (day, ticker) order,
   * nothing dropped and nothing duplicated.
   */
  function SortBars(s: seq<Bar>): (r: seq<Bar>)
    ensures Sorted(r)
    ensures multiset(r) == multiset(s)
  {
    if s == [] then []
    else
      assert s == [s[0]] + s[1..];
      Insert(s[0], SortBars(s[1..]))
  }

  lemma KeyDeterminesPermutation(a: seq<Bar>, b: seq<Bar>)
    requires multiset(a) == multiset(b) && KeyDetermines(a)
    ensures KeyDetermines(b)
  {
    forall x | x in b
      ensures x in a
    {
      assert x in multiset(b);
    }
  }

  /** Two sorted arrangements of the same bars start with the same bar. */
  lemma SortedHeadsAgree(a: seq<Bar>, b: seq<Bar>)
    requires Sorted(a) && Sorted(b) && a != []
    requires multiset(a) == multiset(b)
    requires KeyDetermines(a)
    ensures b != [] && a[0] == b[0]
  {
    assert a[0] in multiset(b);
    assert b[0] in multiset(a);
    HeadIsLeast(a);
    HeadIsLeast(b);
    KeyLeAntisymmetric(a[0], b[0]);
  }

  lemma KeyDeterminesTail(a: seq<Bar>)
    requires a != [] && KeyDetermines(a)
    ensures KeyDetermines(a[1..])
  {
    forall x | x in a[1..]
      ensures x in a
    {
    }
  }

  lemma SortedTail(a: seq<Bar>)
    requires a != [] && Sorted(a)
    ensures Sorted(a[1..])
  {
    forall i, j | 0 <= i < j < |a| - 1
      ensures KeyLe(a[1..][i], a[1..][j])
    {
      assert a[1..][i] == a[i + 1] && a[1..][j] == a[j + 1];
    }
  }

  /** Two sorted arrangements of the same bars are identical when keys are unique. */
  lemma {:induction false} SortedUnique(a: seq<Bar>, b: seq<Bar>)
    requires Sorted(a) && Sorted(b)
    requires multiset(a) == multiset(b)
    requires KeyDetermines(a)
    ensures a == b
    decreases |a|
  {
    if a == [] {
      assert |b| == |multiset(b)| == 0;
    } else {
      assert b != [] && a[0] == b[0] by {
        SortedHeadsAgree(a, b);
      }
      assert multiset(a[1..]) == multiset(b[1..]) by {
        MultisetTail(a);
        MultisetTail(b);
      }
      assert KeyDetermines(a[1..]) by {
        KeyDeterminesTail(a);
      }
      assert Sorted(a[1..]) && Sorted(b[1..]) by {
        SortedTail(a);
        SortedTail(b);
      }
      SortedUnique(a[1..], b[1..]);
      assert a[1..] == b[1..];
      assert forall i :: 0 <= i < |a| ==> a[i] == b[i] by {
        forall i | 0 <= i < |a| ensures a[i] == b[i] {
          if i > 0 { assert a[i] == a[1..][i - 1] && b[i] == b[1..][i - 1]; }
        }
      }
    }
  }

  /**
   * The merged order depends only on which bars there are: concatenating
   * the tickers' tables in another order yields the same stream, provided
   * no two different bars share a (day, ticker) key.
   */
  lemma MergeIgnoresTableOrder(t1: seq<seq<Bar>>, t2: seq<seq<Bar>>)
    requires multiset(t1) == multiset(t2)
    requires KeyDetermines(Concat(t1))
    ensures SortBars(Concat(t1)) == SortBars(Concat(t2))
  {
    ConcatPermutation(t1, t2);
    var a := SortBars(Concat(t1));
    var b := SortBars(Concat(t2));
    KeyDeterminesPermutation(Concat(t1), a);
    SortedUnique(a, b);
  }

  // ---------------------------------------------------------------------
  // Date window (`searchsorted` + positional slice)
  // ---------------------------------------------------------------------

  /**
   * The left-side insertion point of day `d`: the first position whose
   * day is not before `d` (the whole length if there is none).
   */
  function LeftIndex(s: seq<Bar>, d: Date): (r: nat)
    ensures r <= |s|
    ensures forall j :: 0 <= j < r ==> s[j].time < d
    ensures r < |s| ==> s[r].time >= d
  {
    if s == [] || s[0].time >= d then 0 else 1 + LeftIndex(s[1..], d)
  }

  lemma LeftIndexSplits(s: seq<Bar>, d: Date)
    requires TimeSorted(s)
    ensures forall j :: LeftIndex(s, d) <= j < |s| ==> s[j].time >= d
  {
  }

  /** `Index.searchsorted(d)` over a day-sorted index, by binary search. */
  method SearchSorted(s: seq<Bar>, d: Date) returns (i: nat)
    requires TimeSorted(s)
    ensures i == LeftIndex(s, d)
  {
    var lo, hi := 0, |s|;
    while lo < hi
      invariant 0 <= lo <= hi <= |s|
      invariant forall j :: 0 <= j < lo ==> s[j].time < d
      invariant forall j :: hi <= j < |s| ==> s[j].time >= d
      decreases hi - lo
    {
      var mid := (lo + hi) / 2;
      if s[mid].time < d {
        lo := mid + 1;
      } else {
        hi := mid;
      }
    }
    i := lo;
    ghost var r := LeftIndex(s, d);
    if i < |s| {
      assert s[i].time >= d;
    }
    if r < |s| {
      assert s[r].time >= d;
    }
  }

  /** A bar lies in the window: not before `start`, strictly before `end`. */
  predicate InWindow(b: Bar, start: Option<Date>, end: Option<Date>)
  {
    (start.None? || start.value <= b.time) && (end.None? || b.time < end.value)
  }

  /** The bars of `s` inside the window, in their order in `s`. */
  function Select(s: seq<Bar>, start: Option<Date>, end: Option<Date>): (r: seq<Bar>)
    ensures |r| <= |s|
  {
    if s == [] then []
    else (if InWindow(s[0], start, end) then [s[0]] else []) + Select(s[1..], start, end)
  }

  /** Selection keeps each in-window bar as often as it occurs and drops the rest. */
  lemma {:induction false} SelectCounts(s: seq<Bar>, start: Option<Date>, end: Option<Date>)
    ensures forall b :: multiset(Select(s, start, end))[b] == if InWindow(b, start, end) then multiset(s)[b] else 0
    decreases |s|
  {
    if s != [] {
      SelectCounts(s[1..], start, end);
      assert s == [s[0]] + s[1..];
    }
  }

  lemma {:induction false} SelectAppend(a: seq<Bar>, b: seq<Bar>, start: Option<Date>, end: Option<Date>)
    ensures Select(a + b, start, end) == Select(a, start, end) + Select(b, start, end)
    decreases |a|
  {
    if a == [] {
      assert a + b == b;
    } else {
      var h := if InWindow(a[0], start, end) then [a[0]] else [];
      assert Select(a + b, start, end) == h + Select(a[1..] + b, start, end) by {
        assert (a + b)[0] == a[0];
        assert (a + b)[1..] == a[1..] + b;
      }
      SelectAppend(a[1..], b, start, end);
      assert h + (Select(a[1..], start, end) + Select(b, start, end))
          == (h + Select(a[1..], start, end)) + Select(b, start, end);
    }
  }

  lemma {:induction false} SelectAll(s: seq<Bar>, start: Option<Date>, end: Option<Date>)
    requires forall j :: 0 <= j < |s| ==> InWindow(s[j], start, end)
    ensures Select(s, start, end) == s
    decreases |s|
  {
    if s != [] {
      SelectAll(s[1..], start, end);
    }
  }

  lemma {:induction false} SelectNone(s: seq<Bar>, start: Option<Date>, end: Option<Date>)
    requires forall j :: 0 <= j < |s| ==> !InWindow(s[j], start, end)
    ensures Select(s, start, end) == []
    decreases |s|
  {
    if s != [] {
      SelectNone(s[1..], start, end);
    }
  }

  /**
   * The positional slice `[start:end]` of the merged frame, with each side
   * left open when its bound is absent.
   */
  function Window(s: seq<Bar>, start: Option<Date>, end: Option<Date>): seq<Bar>
  {
    var lo := if start.Some? then LeftIndex(s, start.value) else 0;
    var hi := if end.Some? then LeftIndex(s, end.value) else |s|;
    if lo <= hi then s[lo..hi] else []
  }

  lemma SliceOutside(s: seq<Bar>, i: nat, j: nat, start: Option<Date>, end: Option<Date>)
    requires i <= j <= |s|
    requires forall k :: i <= k < j ==> !InWindow(s[k], start, end)
    ensures Select(s[i..j], start, end) == []
  {
    var m := s[i..j];
    forall k | 0 <= k < |m|
      ensures !InWindow(m[k], start, end)
    {
      assert m[k] == s[i + k];
    }
    SelectNone(m, start, end);
  }

  lemma SliceInside(s: seq<Bar>, i: nat, j: nat, start: Option<Date>, end: Option<Date>)
    requires i <= j <= |s|
    requires forall k :: i <= k < j ==> InWindow(s[k], start, end)
    ensures Select(s[i..j], start, end) == s[i..j]
  {
    var m := s[i..j];
    forall k | 0 <= k < |m|
      ensures InWindow(m[k], start, end)
    {
      assert m[k] == s[i + k];
    }
    SelectAll(m, start, end);
  }

  lemma SelectSlice(s: seq<Bar>, lo: nat, hi: nat, start: Option<Date>, end: Option<Date>)
    requires lo <= hi <= |s|
    requires forall j :: 0 <= j < lo ==> !InWindow(s[j], start, end)
    requires forall j :: lo <= j < hi ==> InWindow(s[j], start, end)
    requires forall j :: hi <= j < |s| ==> !InWindow(s[j], start, end)
    ensures Select(s, start, end) == s[lo..hi]
  {
    assert s == s[0..lo] + s[lo..hi] + s[hi..|s|];
    SelectAppend(s[0..lo] + s[lo..hi], s[hi..|s|], start, end);
    SelectAppend(s[0..lo], s[lo..hi], start, end);
    SliceOutside(s, 0, lo, start, end);
    SliceInside(s, lo, hi, start, end);
    SliceOutside(s, hi, |s|, start, end);
  }

  /**
   * On a day-sorted sequence the positional window is exactly the
   * subsequence of bars whose day satisfies start <= day < end.
   */
  lemma WindowIsSelect(s: seq<Bar>, start: Option<Date>, end: Option<Date>)
    requires TimeSorted(s)
    ensures Window(s, start, end) == Select(s, start, end)
  {
    var lo := if start.Some? then LeftIndex(s, start.value) else 0;
    var hi := if end.Some? then LeftIndex(s, end.value) else |s|;
    if start.Some? {
      LeftIndexSplits(s, start.value);
    }
    if end.Some? {
      LeftIndexSplits(s, end.value);
    }
    assert forall j :: 0 <= j < lo ==> start.Some? && s[j].time < start.value;
    assert forall j :: lo <= j < |s| ==> start.None? || s[j].time >= start.value;
    assert forall j :: 0 <= j < hi ==> end.None? || s[j].time < end.value;
    assert forall j :: hi <= j < |s| ==> end.Some? && s[j].time >= end.value;
    if lo <= hi {
      SelectSlice(s, lo, hi, start, end);
    } else {
      SelectNone(s, start, end);
    }
  }

  lemma SliceSorted(s: seq<Bar>, lo: nat, hi: nat)
    requires Sorted(s) && lo <= hi <= |s|
    ensures Sorted(s[lo..hi])
  {
    var w := s[lo..hi];
    forall i, j | 0 <= i < j < |w|
      ensures KeyLe(w[i], w[j])
    {
      assert w[i] == s[lo + i] && w[j] == s[lo + j];
    }
  }

  lemma WindowSorted(s: seq<Bar>, start: Option<Date>, end: Option<Date>)
    requires Sorted(s)
    ensures Sorted(Window(s, start, end))
  {
    var lo := if start.Some? then LeftIndex(s, start.value) else 0;
    var hi := if end.Some? then LeftIndex(s, end.value) else |s|;
    if lo <= hi {
      SliceSorted(s, lo, hi);
    }
  }

  /**
   * The whole merge: sorted by (day, ticker); exactly the sorted bars that
   * fall in the window; every in-window input bar kept as many times as it
   * occurs and nothing else; a permutation of the input when unbounded.
   */
  function Merge(bars: seq<Bar>, start: Option<Date>, end: Option<Date>): (r: seq<Bar>)
    ensures Sorted(r)
    ensures r == Select(SortBars(bars), start, end)
    ensures forall b :: multiset(r)[b] == if InWindow(b, start, end) then multiset(bars)[b] else 0
    ensures start.None? && end.None? ==> multiset(r) == multiset(bars)
  {
    var sorted := SortBars(bars);
    SortedIsTimeSorted(sorted);
    WindowIsSelect(sorted, start, end);
    WindowSorted(sorted, start, end);
    SelectCounts(sorted, start, end);
    Window(sorted, start, end)
  }

  // ---------------------------------------------------------------------
  // Distinct keys: at most one bar per (day, ticker)
  // ---------------------------------------------------------------------

  /**
   * No two positions of `s` hold bars with the same (day, ticker) key, so
   * unlike `KeyDetermines` no bar is repeated either.
   */
  predicate DistinctKeys(s: seq<Bar>)
  {
    forall j, k :: 0 <= j < k < |s| ==> Key(s[j]) != Key(s[k])
  }

  /** Distinct keys are the stronger notion: the key then determines the bar. */
  lemma DistinctKeysDetermine(s: seq<Bar>)
    requires DistinctKeys(s)
    ensures KeyDetermines(s)
  {
    forall x, y | x in s && y in s && Key(x) == Key(y)
      ensures x == y
    {
      var j :| 0 <= j < |s| && s[j] == x;
      var k :| 0 <= k < |s| && s[k] == y;
    }
  }

  /** A bar found at two positions occurs at least twice. */
  lemma TwoPositionsCount(s: seq<Bar>, j: nat, k: nat)
    requires j < k < |s| && s[j] == s[k]
    ensures multiset(s)[s[k]] >= 2
  {
    assert s == s[..k] + [s[k]] + s[k + 1..];
    assert s[..k][j] == s[j];
  }

  /** A bar occurring at least twice is found at two positions. */
  lemma {:induction false} CountTwoPositions(s: seq<Bar>, x: Bar)
    requires multiset(s)[x] >= 2
    ensures exists j, k :: 0 <= j < k < |s| && s[j] == x && s[k] == x
    decreases |s|
  {
    assert s == [s[0]] + s[1..];
    if s[0] == x {
      assert x in multiset(s[1..]);
      var i :| 0 <= i < |s[1..]| && s[1..][i] == x;
      assert s[i + 1] == x;
    } else {
      CountTwoPositions(s[1..], x);
      var j, k :| 0 <= j < k < |s[1..]| && s[1..][j] == x && s[1..][k] == x;
      assert s[j + 1] == x && s[k + 1] == x;
    }
  }

  /**
   * Distinct keys survive taking a sub-multiset in any order: a permutation
   * or a selection of a sequence with distinct keys has distinct keys.
   */
  lemma DistinctKeysSubMultiset(a: seq<Bar>, b: seq<Bar>)
    requires DistinctKeys(a)
    requires multiset(b) <= multiset(a)
    ensures DistinctKeys(b)
  {
    forall j, k | 0 <= j < k < |b|
      ensures Key(b[j]) != Key(b[k])
    {
      if b[j] == b[k] {
        TwoPositionsCount(b, j, k);
        CountTwoPositions(a, b[k]);
      } else {
        assert b[j] in multiset(b) && b[k] in multiset(b);
        DistinctMembersKeys(a, b[j], b[k]);
      }
    }
  }

  lemma DistinctMembersKeys(a: seq<Bar>, x: Bar, y: Bar)
    requires DistinctKeys(a)
    requires x in a && y in a && x != y
    ensures Key(x) != Key(y)
  {
    var p :| 0 <= p < |a| && a[p] == x;
    var q :| 0 <= q < |a| && a[q] == y;
    assert p != q;
  }

  /** Two sequences with distinct keys and no key in common concatenate to one. */
  lemma DistinctKeysAppend(a: seq<Bar>, b: seq<Bar>)
    requires DistinctKeys(a) && DistinctKeys(b)
    requires forall x, y :: x in a && y in b ==> Key(x) != Key(y)
    ensures DistinctKeys(a + b)
  {
    var c := a + b;
    forall j, k | 0 <= j < k < |c|
      ensures Key(c[j]) != Key(c[k])
    {
      if k < |a| {
        assert c[j] == a[j] && c[k] == a[k];
      } else if j >= |a| {
        assert c[j] == b[j - |a|] && c[k] == b[k - |a|];
      } else {
        assert c[j] == a[j] && c[k] == b[k - |a|];
      }
    }
  }

  /** The merge of bars with distinct keys streams each key at most once. */
  lemma MergeKeepsDistinctKeys(bars: seq<Bar>, start: Option<Date>, end: Option<Date>)
    requires DistinctKeys(bars)
    ensures DistinctKeys(Merge(bars, start, end))
  {
    var r := Merge(bars, start, end);
    assert multiset(r) <= multiset(bars) by {
      forall b
        ensures multiset(r)[b] <= multiset(bars)[b]
      {
      }
    }
    DistinctKeysSubMultiset(bars, r);
  }
}
