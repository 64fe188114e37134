/**
  The column-width solver of the grid, `columnWidthCalculator` (src/lib/grid.ts).

  It splits the client width of the grid head between the columns, from a
  base width and an extend / shrink flex weight per column, and a minimum
  width that every column should keep. It runs passes over the columns;
  a column whose width would fall below the minimum is excluded and the
  pass is repeated, until a pass excludes nothing.

  Widths and flexes are `real`s. The exclusion step is modelled twice:
  `AsWritten` is what lines 521-524 do, `Corrected` is the accounting that
  makes the widths add up to the client width whenever it produces widths
  (see `CorrectedSumsToClientWidth`, `MixedShrinkStalls` and
  `AsWrittenOvershoots`).
*/
module ColumnWidths {
  import opened Wrappers

  /** One `[baseWidth, extendFlex, shrinkFlex]` entry of `widthAndFlexArray`. */
  datatype ColumnFlex = ColumnFlex(base: real, extend: real, shrink: real)

  /** One of the three numbers of an entry. */
  datatype Field = Base | Extend | Shrink

  function Get(c: ColumnFlex, f: Field): real
  {
    match f
    case Base => c.base
    case Extend => c.extend
    case Shrink => c.shrink
  }

  /** Sum of field `f` over the columns `k < n` whose index is not in `excluded`. */
  function SumOutside(cols: seq<ColumnFlex>, f: Field, excluded: set<int>, n: nat): real
    requires n <= |cols|
  {
    if n == 0 then 0.0
    else SumOutside(cols, f, excluded, n - 1) + (if n - 1 in excluded then 0.0 else Get(cols[n - 1], f))
  }

  /** The minimum width taken by the columns `k < n` whose index is in `excluded`. */
  function Pinned(minColumnWidth: real, excluded: set<int>, n: nat): real
  {
    if n == 0 then 0.0 else Pinned(minColumnWidth, excluded, n - 1) + (if n - 1 in excluded then minColumnWidth else 0.0)
  }

  /** The minimum width needed by the columns `k < n` whose index is not in `excluded`. */
  function Minimums(minColumnWidth: real, excluded: set<int>, n: nat): real
  {
    if n == 0 then 0.0 else Minimums(minColumnWidth, excluded, n - 1) + (if n - 1 in excluded then 0.0 else minColumnWidth)
  }

  /** Sum of field `f` over all columns. */
  function Total(cols: seq<ColumnFlex>, f: Field): real
  {
    SumOutside(cols, f, {}, |cols|)
  }

  /** Sum of a sequence of widths. */
  function Sum(ws: seq<real>): real
  {
    if ws == [] then 0.0 else Sum(ws[..|ws| - 1]) + ws[|ws| - 1]
  }

  /**
    The zero-flex defaulting of lines 496-504: when the extend flexes add up
    to zero, every extend flex becomes 1, and independently so for the
    shrink flexes.
  */
  function Defaulted(cols: seq<ColumnFlex>): seq<ColumnFlex>
  {
    var noExtend := Total(cols, Extend) == 0.0;
    var noShrink := Total(cols, Shrink) == 0.0;
    seq(|cols|, k requires 0 <= k < |cols| =>
      ColumnFlex(cols[k].base,
                 if noExtend then 1.0 else cols[k].extend,
                 if noShrink then 1.0 else cols[k].shrink))
  }

  lemma {:induction false} SumOutsideOfOnes(cols: seq<ColumnFlex>, f: Field, n: nat)
    requires n <= |cols|
    requires forall k :: 0 <= k < n ==> Get(cols[k], f) == 1.0
    ensures SumOutside(cols, f, {}, n) == n as real
  {
    if n > 0 {
      SumOutsideOfOnes(cols, f, n - 1);
    }
  }

  lemma {:induction false} SumOutsideAgrees(a: seq<ColumnFlex>, b: seq<ColumnFlex>, f: Field, excluded: set<int>, n: nat)
    requires n <= |a| && n <= |b|
    requires forall k :: 0 <= k < n ==> Get(a[k], f) == Get(b[k], f)
    ensures SumOutside(a, f, excluded, n) == SumOutside(b, f, excluded, n)
  {
    if n > 0 {
      SumOutsideAgrees(a, b, f, excluded, n - 1);
    }
  }

  /**
    Defaulting keeps every base width; a flex kind whose total was zero
    becomes 1 in every column and then totals the column count; a flex kind
    whose total was not zero is left as it was.
  */
  lemma DefaultedFlexes(cols: seq<ColumnFlex>)
    ensures |Defaulted(cols)| == |cols|
    ensures forall k :: 0 <= k < |cols| ==> Defaulted(cols)[k].base == cols[k].base
    ensures Total(cols, Extend) == 0.0 ==>
      (forall k :: 0 <= k < |cols| ==> Defaulted(cols)[k].extend == 1.0) &&
      Total(Defaulted(cols), Extend) == |cols| as real
    ensures Total(cols, Extend) != 0.0 ==>
      (forall k :: 0 <= k < |cols| ==> Defaulted(cols)[k].extend == cols[k].extend) &&
      Total(Defaulted(cols), Extend) == Total(cols, Extend)
    ensures Total(cols, Shrink) == 0.0 ==>
      (forall k :: 0 <= k < |cols| ==> Defaulted(cols)[k].shrink == 1.0) &&
      Total(Defaulted(cols), Shrink) == |cols| as real
    ensures Total(cols, Shrink) != 0.0 ==>
      (forall k :: 0 <= k < |cols| ==> Defaulted(cols)[k].shrink == cols[k].shrink) &&
      Total(Defaulted(cols), Shrink) == Total(cols, Shrink)
    ensures Total(Defaulted(cols), Base) == Total(cols, Base)
  {
    var d := Defaulted(cols);
    SumOutsideAgrees(d, cols, Base, {}, |cols|);
    if Total(cols, Extend) == 0.0 {
      SumOutsideOfOnes(d, Extend, |cols|);
    } else {
      SumOutsideAgrees(d, cols, Extend, {}, |cols|);
    }
    if Total(cols, Shrink) == 0.0 {
      SumOutsideOfOnes(d, Shrink, |cols|);
    } else {
      SumOutsideAgrees(d, cols, Shrink, {}, |cols|);
    }
  }

  /** How an exclusion updates the running totals. */
  datatype Accounting =
    | AsWritten  // lines 521-524: subtract the minimum from both widths, the chosen flex from the extend total
    | Corrected  // subtract the column's own base and flexes, and pin its width to the minimum

  /** The variables of one pass of the `while (true)` loop. */
  datatype Pass = Pass(clientWidth: real, totalBase: real, totalExtend: real, totalShrink: real,
                       excluded: set<int>, widths: seq<real>, moreExcluded: bool)

  /** The flex a column uses in a pass: chosen by the sign of `widthPerFlex` (line 517). */
  function FlexFor(c: ColumnFlex, widthPerFlex: real): real
  {
    if widthPerFlex >= 0.0 then c.extend else c.shrink
  }

  /** The width a column would get in a pass (line 518). */
  function Candidate(c: ColumnFlex, widthPerFlex: real): real
  {
    FlexFor(c, widthPerFlex) * widthPerFlex + c.base
  }

  /** The updates of an exclusion of column `index`. */
  function Exclude(acc: Accounting, st: Pass, c: ColumnFlex, widthPerFlex: real, minColumnWidth: real, index: nat): Pass
    requires index < |st.widths|
  {
    match acc
    case AsWritten =>
      st.(clientWidth := st.clientWidth - minColumnWidth,
          totalBase := st.totalBase - minColumnWidth,
          totalExtend := st.totalExtend - FlexFor(c, widthPerFlex),
          excluded := st.excluded + {index},
          moreExcluded := true)
    case Corrected =>
      st.(clientWidth := st.clientWidth - minColumnWidth,
          totalBase := st.totalBase - c.base,
          totalExtend := st.totalExtend - c.extend,
          totalShrink := st.totalShrink - c.shrink,
          excluded := st.excluded + {index},
          widths := st.widths[index := minColumnWidth],
          moreExcluded := true)
  }

  /** One iteration of the inner `for` loop, at column `index` (lines 512-529). */
  function Step(acc: Accounting, cols: seq<ColumnFlex>, minColumnWidth: real, widthPerFlex: real,
                st: Pass, index: nat): Pass
    requires index < |cols| == |st.widths|
  {
    if index in st.excluded then st
    else
      var width := Candidate(cols[index], widthPerFlex);
      if width < minColumnWidth then Exclude(acc, st, cols[index], widthPerFlex, minColumnWidth, index)
      else st.(widths := st.widths[index := width])
  }

  /** The inner `for` loop of one pass (lines 511-530), from column `index` on. */
  function PassFrom(acc: Accounting, cols: seq<ColumnFlex>, minColumnWidth: real, widthPerFlex: real,
                    st: Pass, index: nat): (r: Pass)
    requires index <= |cols| == |st.widths|
    decreases |cols| - index
    ensures |r.widths| == |cols|
  {
    if index == |cols| then st
    else PassFrom(acc, cols, minColumnWidth, widthPerFlex, Step(acc, cols, minColumnWidth, widthPerFlex, st, index), index + 1)
  }

  /**
    A pass only adds exclusions, each of a column from `index` on whose
    candidate fell below the minimum, and its flag says whether it added any.
  */
  lemma {:induction false} PassFromExcludes(acc: Accounting, cols: seq<ColumnFlex>, minColumnWidth: real,
                                            widthPerFlex: real, st: Pass, index: nat)
    requires index <= |cols| == |st.widths|
    decreases |cols| - index
    ensures var r := PassFrom(acc, cols, minColumnWidth, widthPerFlex, st, index);
      && st.excluded <= r.excluded
      && (forall k :: k in r.excluded && k !in st.excluded ==>
            index <= k < |cols| && Candidate(cols[k], widthPerFlex) < minColumnWidth)
      && r.moreExcluded == (st.moreExcluded || exists k :: k in r.excluded && k !in st.excluded)
  {
    if index < |cols| {
      var next := Step(acc, cols, minColumnWidth, widthPerFlex, st, index);
      var r := PassFrom(acc, cols, minColumnWidth, widthPerFlex, next, index + 1);
      PassFromExcludes(acc, cols, minColumnWidth, widthPerFlex, next, index + 1);
      if next.excluded != st.excluded {
        assert next.excluded == st.excluded + {index} && next.moreExcluded;
        assert index in r.excluded && index !in st.excluded;
      } else {
        assert next.moreExcluded == st.moreExcluded;
      }
    }
  }

  /** Slots that start at or above the minimum stay there through a pass. */
  lemma {:induction false} PassFromKeepsMinimum(acc: Accounting, cols: seq<ColumnFlex>, minColumnWidth: real,
                                                widthPerFlex: real, st: Pass, index: nat)
    requires index <= |cols| == |st.widths|
    requires forall k :: 0 <= k < |cols| ==> st.widths[k] >= minColumnWidth
    decreases |cols| - index
    ensures forall k :: 0 <= k < |cols| ==>
      PassFrom(acc, cols, minColumnWidth, widthPerFlex, st, index).widths[k] >= minColumnWidth
  {
    if index < |cols| {
      var next := Step(acc, cols, minColumnWidth, widthPerFlex, st, index);
      var width := Candidate(cols[index], widthPerFlex);
      if index in st.excluded {
      } else if width < minColumnWidth {
        assert next.widths == st.widths || next.widths == st.widths[index := minColumnWidth];
      } else {
        assert next.widths == st.widths[index := width];
      }
      assert forall k :: 0 <= k < |cols| ==> next.widths[k] >= minColumnWidth;
      assert PassFrom(acc, cols, minColumnWidth, widthPerFlex, st, index)
          == PassFrom(acc, cols, minColumnWidth, widthPerFlex, next, index + 1);
      PassFromKeepsMinimum(acc, cols, minColumnWidth, widthPerFlex, next, index + 1);
    } else {
      assert PassFrom(acc, cols, minColumnWidth, widthPerFlex, st, index) == st;
    }
  }

  /** The columns not excluded yet. */
  function Remaining(n: nat, excluded: set<int>): set<int>
  {
    set k | 0 <= k < n && k !in excluded
  }

  lemma RemainingShrinks(n: nat, before: set<int>, after: set<int>)
    requires before <= after
    requires exists k :: k in after && k !in before
    requires forall k :: k in after && k !in before ==> 0 <= k < n
    ensures Remaining(n, after) < Remaining(n, before)
    ensures |Remaining(n, after)| < |Remaining(n, before)|
  {
    var k :| k in after && k !in before;
    var a, b := Remaining(n, after), Remaining(n, before);
    assert k in b && k !in a;
    assert a <= b;
    assert b * a == a && a - b == {} && b + a == b;
    assert |b - a| > 0 by {
      assert k in b - a;
    }
  }

  /** The flex total a pass divides by (line 507). */
  function TotalFlex(st: Pass): real
  {
    if st.clientWidth >= st.totalBase then st.totalExtend else st.totalShrink
  }

  /**
    The outer loop (lines 506-535). A pass that would divide by a zero flex
    total while some column is still in play yields `None`: the source would
    compute widths from `Infinity` or `NaN` there.
  */
  function Iterate(acc: Accounting, cols: seq<ColumnFlex>, minColumnWidth: real, st: Pass): (r: Option<seq<real>>)
    requires |st.widths| == |cols|
    requires forall k :: k in st.excluded ==> 0 <= k < |cols|
    decreases Remaining(|cols|, st.excluded)
    ensures r.Some? ==> |r.value| == |cols|
  {
    var totalFlex := TotalFlex(st);
    if totalFlex == 0.0 then
      if Remaining(|cols|, st.excluded) == {} then Some(st.widths) else None
    else
      var widthPerFlex := (st.clientWidth - st.totalBase) / totalFlex;
      var next := PassFrom(acc, cols, minColumnWidth, widthPerFlex, st.(moreExcluded := false), 0);
      if next.moreExcluded then
        PassFromExcludes(acc, cols, minColumnWidth, widthPerFlex, st.(moreExcluded := false), 0);
        RemainingShrinks(|cols|, st.excluded, next.excluded);
        Iterate(acc, cols, minColumnWidth, next)
      else
        Some(next.widths)
  }

  /** One turn of the outer loop when there is flex to divide by. */
  lemma IterateUnfolds(acc: Accounting, cols: seq<ColumnFlex>, minColumnWidth: real, st: Pass)
    requires |st.widths| == |cols| && forall k :: k in st.excluded ==> 0 <= k < |cols|
    requires TotalFlex(st) != 0.0
    ensures var next := PassFrom(acc, cols, minColumnWidth, (st.clientWidth - st.totalBase) / TotalFlex(st),
                                 st.(moreExcluded := false), 0);
      && (forall k :: k in next.excluded ==> 0 <= k < |cols|)
      && (next.moreExcluded ==> Iterate(acc, cols, minColumnWidth, st) == Iterate(acc, cols, minColumnWidth, next))
      && (!next.moreExcluded ==> Iterate(acc, cols, minColumnWidth, st) == Some(next.widths))
  {
    PassFromExcludes(acc, cols, minColumnWidth, (st.clientWidth - st.totalBase) / TotalFlex(st), st.(moreExcluded := false), 0);
  }

  /** When the slots start at or above the minimum, so do the widths the outer loop yields. */
  lemma {:induction false} IterateRespectsMinimum(acc: Accounting, cols: seq<ColumnFlex>, minColumnWidth: real, st: Pass)
    requires |st.widths| == |cols|
    requires forall k :: k in st.excluded ==> 0 <= k < |cols|
    requires forall k :: 0 <= k < |cols| ==> st.widths[k] >= minColumnWidth
    decreases Remaining(|cols|, st.excluded)
    ensures var r := Iterate(acc, cols, minColumnWidth, st);
      r.Some? ==> forall k :: 0 <= k < |cols| ==> r.value[k] >= minColumnWidth
  {
    var totalFlex := TotalFlex(st);
    if totalFlex != 0.0 {
      var widthPerFlex := (st.clientWidth - st.totalBase) / totalFlex;
      var start := st.(moreExcluded := false);
      var next := PassFrom(acc, cols, minColumnWidth, widthPerFlex, start, 0);
      PassFromKeepsMinimum(acc, cols, minColumnWidth, widthPerFlex, start, 0);
      if next.moreExcluded {
        PassFromExcludes(acc, cols, minColumnWidth, widthPerFlex, start, 0);
        RemainingShrinks(|cols|, st.excluded, next.excluded);
        IterateRespectsMinimum(acc, cols, minColumnWidth, next);
      } else {
        assert Iterate(acc, cols, minColumnWidth, st) == Some(next.widths);
        assert forall k :: 0 <= k < |cols| ==> next.widths[k] >= minColumnWidth;
      }
    }
  }

  /** The outer loop resets the flag before each pass, so where it starts from does not matter. */
  lemma IterateIgnoresFlag(acc: Accounting, cols: seq<ColumnFlex>, minColumnWidth: real, st: Pass)
    requires |st.widths| == |cols|
    requires forall k :: k in st.excluded ==> 0 <= k < |cols|
    ensures Iterate(acc, cols, minColumnWidth, st) == Iterate(acc, cols, minColumnWidth, st.(moreExcluded := false))
  {
    assert st.(moreExcluded := false).(moreExcluded := false) == st.(moreExcluded := false);
  }

  /** `repeatTimes(clientWidth / n, n)`: the equal split of line 480. */
  function EqualShares(clientWidth: real, n: nat): seq<real>
  {
    if n == 0 then [] else seq(n, _ => clientWidth / n as real)
  }

  /** The state before the first pass (lines 483-504). */
  function InitialPass(cols: seq<ColumnFlex>, clientWidth: real, minColumnWidth: real): Pass
  {
    var n := |cols|;
    var totalExtend := Total(cols, Extend);
    var totalShrink := Total(cols, Shrink);
    Pass(clientWidth, Total(cols, Base),
         if totalExtend == 0.0 then n as real else totalExtend,
         if totalShrink == 0.0 then n as real else totalShrink,
         {}, seq(n, _ => minColumnWidth), false)
  }

  /** Whether the client width cannot give every column its minimum (line 479). */
  predicate TooNarrow(cols: seq<ColumnFlex>, clientWidth: real, minColumnWidth: real)
  {
    clientWidth < minColumnWidth * |cols| as real
  }

  /** `columnWidthCalculator`, with the given exclusion accounting. */
  function Solve(acc: Accounting, cols: seq<ColumnFlex>, clientWidth: real, minColumnWidth: real): Option<seq<real>>
  {
    if TooNarrow(cols, clientWidth, minColumnWidth) then Some(EqualShares(clientWidth, |cols|))
    else Iterate(acc, Defaulted(cols), minColumnWidth, InitialPass(cols, clientWidth, minColumnWidth))
  }

  /** The solver yields one width per column, in column order. */
  lemma SolveKeepsColumnCount(acc: Accounting, cols: seq<ColumnFlex>, clientWidth: real, minColumnWidth: real)
    ensures Solve(acc, cols, clientWidth, minColumnWidth).Some? ==>
      |Solve(acc, cols, clientWidth, minColumnWidth).value| == |cols|
  {
    DefaultedFlexes(cols);
  }

  /** Too narrow a client width is split evenly, below the minimum if need be. */
  lemma TooNarrowSplitsEvenly(acc: Accounting, cols: seq<ColumnFlex>, clientWidth: real, minColumnWidth: real)
    requires TooNarrow(cols, clientWidth, minColumnWidth)
    ensures Solve(acc, cols, clientWidth, minColumnWidth).Some?
    ensures var ws := Solve(acc, cols, clientWidth, minColumnWidth).value;
      |ws| == |cols| && forall k :: 0 <= k < |ws| ==> ws[k] == clientWidth / |cols| as real
  {
  }

  /** Otherwise no width is below the minimum: slots start at it and are only overwritten by wider values. */
  lemma SolveRespectsMinimum(acc: Accounting, cols: seq<ColumnFlex>, clientWidth: real, minColumnWidth: real)
    requires !TooNarrow(cols, clientWidth, minColumnWidth)
    ensures var r := Solve(acc, cols, clientWidth, minColumnWidth);
      r.Some? ==> forall k :: 0 <= k < |r.value| ==> r.value[k] >= minColumnWidth
  {
    DefaultedFlexes(cols);
    IterateRespectsMinimum(acc, Defaulted(cols), minColumnWidth, InitialPass(cols, clientWidth, minColumnWidth));
  }

  /** The number of passes the outer loop runs. */
  ghost function PassCount(acc: Accounting, cols: seq<ColumnFlex>, minColumnWidth: real, st: Pass): (r: nat)
    requires |st.widths| == |cols|
    requires forall k :: k in st.excluded ==> 0 <= k < |cols|
    decreases Remaining(|cols|, st.excluded)
    ensures r <= |Remaining(|cols|, st.excluded)| + 1
  {
    var totalFlex := TotalFlex(st);
    if totalFlex == 0.0 then 0
    else
      var widthPerFlex := (st.clientWidth - st.totalBase) / totalFlex;
      var next := PassFrom(acc, cols, minColumnWidth, widthPerFlex, st.(moreExcluded := false), 0);
      if next.moreExcluded then
        PassFromExcludes(acc, cols, minColumnWidth, widthPerFlex, st.(moreExcluded := false), 0);
        RemainingShrinks(|cols|, st.excluded, next.excluded);
        1 + PassCount(acc, cols, minColumnWidth, next)
      else 1
  }

  lemma {:induction false} RemainingOfNone(n: nat)
    ensures |Remaining(n, {})| == n
  {
    if n > 0 {
      RemainingOfNone(n - 1);
      assert Remaining(n, {}) == Remaining(n - 1, {}) + {n - 1};
    }
  }

  /** The loop terminates after at most one pass per column plus the final quiet pass. */
  lemma AtMostOnePassPerColumn(acc: Accounting, cols: seq<ColumnFlex>, clientWidth: real, minColumnWidth: real)
    ensures PassCount(acc, Defaulted(cols), minColumnWidth, InitialPass(cols, clientWidth, minColumnWidth)) <= |cols| + 1
  {
    DefaultedFlexes(cols);
    RemainingOfNone(|cols|);
  }

  // ---------------------------------------------------------------------
  // Where the widths add up to the client width.

  /**
    The running totals of a pass state agree with its excluded set:
    each total sums the columns still in play, each exclusion took one
    minimum off the client width, and excluded columns are at the minimum.
  */
  ghost predicate Balanced(cols: seq<ColumnFlex>, clientWidth0: real, minColumnWidth: real, st: Pass)
  {
    && |st.widths| == |cols|
    && (forall k :: k in st.excluded ==> 0 <= k < |cols|)
    && st.totalBase == SumOutside(cols, Base, st.excluded, |cols|)
    && st.totalExtend == SumOutside(cols, Extend, st.excluded, |cols|)
    && st.totalShrink == SumOutside(cols, Shrink, st.excluded, |cols|)
    && st.clientWidth == clientWidth0 - Pinned(minColumnWidth, st.excluded, |cols|)
    && (forall k :: k in st.excluded ==> st.widths[k] == minColumnWidth)
  }

  ghost predicate NonNegativeFlexes(cols: seq<ColumnFlex>)
  {
    forall k :: 0 <= k < |cols| ==> cols[k].extend >= 0.0 && cols[k].shrink >= 0.0
  }

  lemma {:induction false} ExcludeOneMore(cols: seq<ColumnFlex>, f: Field, excluded: set<int>, i: nat, n: nat)
    requires n <= |cols| && i !in excluded
    ensures SumOutside(cols, f, excluded + {i}, n) ==
      SumOutside(cols, f, excluded, n) - (if i < n then Get(cols[i], f) else 0.0)
  {
    if n > 0 {
      ExcludeOneMore(cols, f, excluded, i, n - 1);
    }
  }

  lemma {:induction false} PinOneMore(minColumnWidth: real, excluded: set<int>, i: nat, n: nat)
    requires i !in excluded
    ensures Pinned(minColumnWidth, excluded + {i}, n) ==
      Pinned(minColumnWidth, excluded, n) + (if i < n then minColumnWidth else 0.0)
  {
    if n > 0 {
      PinOneMore(minColumnWidth, excluded, i, n - 1);
    }
  }

  lemma {:induction false} PinnedPlusMinimums(minColumnWidth: real, excluded: set<int>, n: nat)
    ensures Pinned(minColumnWidth, excluded, n) + Minimums(minColumnWidth, excluded, n) == Minimums(minColumnWidth, {}, n)
  {
    if n > 0 {
      PinnedPlusMinimums(minColumnWidth, excluded, n - 1);
    }
  }

  lemma {:induction false} MinimumsOfAll(minColumnWidth: real, n: nat)
    ensures Minimums(minColumnWidth, {}, n) == minColumnWidth * n as real
  {
    if n > 0 {
      MinimumsOfAll(minColumnWidth, n - 1);
      Distribute(minColumnWidth, n - 1);
    }
  }

  lemma {:induction false} SumOutsideNonNegative(cols: seq<ColumnFlex>, f: Field, excluded: set<int>, n: nat)
    requires n <= |cols| && f != Base
    requires NonNegativeFlexes(cols)
    ensures SumOutside(cols, f, excluded, n) >= 0.0
  {
    if n > 0 {
      SumOutsideNonNegative(cols, f, excluded, n - 1);
    }
  }

  /** Excluding a column in play, with corrected accounting, keeps the totals balanced. */
  lemma ExclusionKeepsBalanced(cols: seq<ColumnFlex>, clientWidth0: real, minColumnWidth: real,
                               widthPerFlex: real, st: Pass, index: nat)
    requires Balanced(cols, clientWidth0, minColumnWidth, st)
    requires index < |cols| && index !in st.excluded
    ensures Balanced(cols, clientWidth0, minColumnWidth,
                     Exclude(Corrected, st, cols[index], widthPerFlex, minColumnWidth, index))
  {
    var next := Exclude(Corrected, st, cols[index], widthPerFlex, minColumnWidth, index);
    ExcludeOneMore(cols, Base, st.excluded, index, |cols|);
    ExcludeOneMore(cols, Extend, st.excluded, index, |cols|);
    ExcludeOneMore(cols, Shrink, st.excluded, index, |cols|);
    PinOneMore(minColumnWidth, st.excluded, index, |cols|);
  }

  /** A pass keeps the totals balanced when exclusions are corrected. */
  lemma {:induction false} CorrectedPassStaysBalanced(cols: seq<ColumnFlex>, clientWidth0: real, minColumnWidth: real,
                                                      widthPerFlex: real, st: Pass, index: nat)
    requires index <= |cols|
    requires Balanced(cols, clientWidth0, minColumnWidth, st)
    decreases |cols| - index
    ensures Balanced(cols, clientWidth0, minColumnWidth, PassFrom(Corrected, cols, minColumnWidth, widthPerFlex, st, index))
  {
    if index == |cols| {
    } else if index in st.excluded {
      CorrectedPassStaysBalanced(cols, clientWidth0, minColumnWidth, widthPerFlex, st, index + 1);
    } else if Candidate(cols[index], widthPerFlex) < minColumnWidth {
      ExclusionKeepsBalanced(cols, clientWidth0, minColumnWidth, widthPerFlex, st, index);
      var next := Exclude(Corrected, st, cols[index], widthPerFlex, minColumnWidth, index);
      CorrectedPassStaysBalanced(cols, clientWidth0, minColumnWidth, widthPerFlex, next, index + 1);
    } else {
      var next := st.(widths := st.widths[index := Candidate(cols[index], widthPerFlex)]);
      WidthKeepsBalanced(cols, clientWidth0, minColumnWidth, st, index, Candidate(cols[index], widthPerFlex));
      CorrectedPassStaysBalanced(cols, clientWidth0, minColumnWidth, widthPerFlex, next, index + 1);
    }
  }

  /** Setting the width of a column in play keeps the totals balanced. */
  lemma WidthKeepsBalanced(cols: seq<ColumnFlex>, clientWidth0: real, minColumnWidth: real, st: Pass, index: nat, width: real)
    requires Balanced(cols, clientWidth0, minColumnWidth, st)
    requires index < |cols| && index !in st.excluded
    ensures Balanced(cols, clientWidth0, minColumnWidth, st.(widths := st.widths[index := width]))
  {
  }

  /** A pass that excludes nothing gives every column in play its candidate width and touches nothing else. */
  lemma {:induction false} QuietPassWidths(acc: Accounting, cols: seq<ColumnFlex>, minColumnWidth: real,
                                           widthPerFlex: real, st: Pass, index: nat)
    requires index <= |cols| == |st.widths|
    requires PassFrom(acc, cols, minColumnWidth, widthPerFlex, st, index).excluded == st.excluded
    decreases |cols| - index
    ensures var r := PassFrom(acc, cols, minColumnWidth, widthPerFlex, st, index);
      forall k :: 0 <= k < |cols| ==>
        r.widths[k] == if index <= k && k !in st.excluded then Candidate(cols[k], widthPerFlex) else st.widths[k]
  {
    if index == |cols| {
    } else if index in st.excluded {
      QuietPassWidths(acc, cols, minColumnWidth, widthPerFlex, st, index + 1);
    } else if Candidate(cols[index], widthPerFlex) < minColumnWidth {
      PassFromExcludes(acc, cols, minColumnWidth, widthPerFlex, Step(acc, cols, minColumnWidth, widthPerFlex, st, index), index + 1);
      assert false;
    } else {
      var next := st.(widths := st.widths[index := Candidate(cols[index], widthPerFlex)]);
      QuietPassWidths(acc, cols, minColumnWidth, widthPerFlex, next, index + 1);
    }
  }

  /** Sum of the candidate widths of the columns `k < n` still in play. */
  function CandidateSum(cols: seq<ColumnFlex>, widthPerFlex: real, excluded: set<int>, n: nat): real
    requires n <= |cols|
  {
    if n == 0 then 0.0
    else CandidateSum(cols, widthPerFlex, excluded, n - 1) +
         (if n - 1 in excluded then 0.0 else Candidate(cols[n - 1], widthPerFlex))
  }

  lemma {:induction false} CandidateSumSplits(cols: seq<ColumnFlex>, widthPerFlex: real, excluded: set<int>, n: nat)
    requires n <= |cols|
    ensures CandidateSum(cols, widthPerFlex, excluded, n) ==
      SumOutside(cols, Base, excluded, n) +
      widthPerFlex * SumOutside(cols, if widthPerFlex >= 0.0 then Extend else Shrink, excluded, n)
  {
    if n > 0 {
      CandidateSumSplits(cols, widthPerFlex, excluded, n - 1);
    }
  }

  lemma Distribute(m: real, c: nat)
    ensures m * (c + 1) as real == m * c as real + m
  {
  }

  lemma {:induction false} CandidatesBelowMinimum(cols: seq<ColumnFlex>, widthPerFlex: real, excluded: set<int>,
                                                  minColumnWidth: real, n: nat)
    requires n <= |cols|
    requires forall k :: 0 <= k < n && k !in excluded ==> Candidate(cols[k], widthPerFlex) < minColumnWidth
    ensures CandidateSum(cols, widthPerFlex, excluded, n) <= Minimums(minColumnWidth, excluded, n)
  {
    if n > 0 {
      CandidatesBelowMinimum(cols, widthPerFlex, excluded, minColumnWidth, n - 1);
    }
  }

  lemma {:induction false} CandidatesBelowMinimumStrict(cols: seq<ColumnFlex>, widthPerFlex: real, excluded: set<int>,
                                                        minColumnWidth: real, n: nat, inPlay: nat)
    requires inPlay < n <= |cols| && inPlay !in excluded
    requires forall k :: 0 <= k < n && k !in excluded ==> Candidate(cols[k], widthPerFlex) < minColumnWidth
    ensures CandidateSum(cols, widthPerFlex, excluded, n) < Minimums(minColumnWidth, excluded, n)
  {
    if inPlay < n - 1 {
      CandidatesBelowMinimumStrict(cols, widthPerFlex, excluded, minColumnWidth, n - 1, inPlay);
    } else {
      CandidatesBelowMinimum(cols, widthPerFlex, excluded, minColumnWidth, n - 1);
    }
  }

  lemma {:induction false} SumOfPinnedAndCandidates(cols: seq<ColumnFlex>, widthPerFlex: real, excluded: set<int>,
                                                    minColumnWidth: real, ws: seq<real>, n: nat)
    requires n <= |cols| == |ws|
    requires forall k :: 0 <= k < n ==>
      ws[k] == if k in excluded then minColumnWidth else Candidate(cols[k], widthPerFlex)
    ensures Sum(ws[..n]) == Pinned(minColumnWidth, excluded, n) + CandidateSum(cols, widthPerFlex, excluded, n)
  {
    if n > 0 {
      SumOfPinnedAndCandidates(cols, widthPerFlex, excluded, minColumnWidth, ws, n - 1);
      assert ws[..n][..n - 1] == ws[..n - 1];
    }
  }

  /**
    In a balanced state with positive flex to divide by, the candidate widths
    of the columns in play add up to the current client width.
  */
  lemma CandidatesFillClientWidth(cols: seq<ColumnFlex>, clientWidth0: real, minColumnWidth: real, st: Pass)
    requires Balanced(cols, clientWidth0, minColumnWidth, st)
    requires NonNegativeFlexes(cols)
    requires TotalFlex(st) != 0.0
    ensures TotalFlex(st) > 0.0
    ensures CandidateSum(cols, (st.clientWidth - st.totalBase) / TotalFlex(st), st.excluded, |cols|) == st.clientWidth
  {
    var n := |cols|;
    SumOutsideNonNegative(cols, Extend, st.excluded, n);
    SumOutsideNonNegative(cols, Shrink, st.excluded, n);
    var f := TotalFlex(st);
    var wpf := (st.clientWidth - st.totalBase) / f;
    assert wpf * f == st.clientWidth - st.totalBase;
    CandidateSumSplits(cols, wpf, st.excluded, n);
    if st.clientWidth >= st.totalBase {
      assert wpf >= 0.0;
    } else {
      assert wpf < 0.0;
    }
  }

  /**
    When the candidates of the columns in play fill the client width, which
    leaves room for every such column's minimum, a pass cannot exclude all of them.
  */
  lemma SomeColumnSurvives(cols: seq<ColumnFlex>, clientWidth0: real, minColumnWidth: real, widthPerFlex: real,
                           st: Pass, next: Pass)
    requires Balanced(cols, clientWidth0, minColumnWidth, st)
    requires clientWidth0 >= Minimums(minColumnWidth, {}, |cols|)
    requires CandidateSum(cols, widthPerFlex, st.excluded, |cols|) == st.clientWidth
    requires Remaining(|cols|, st.excluded) != {}
    requires forall k :: k in next.excluded && k !in st.excluded ==>
      0 <= k < |cols| && Candidate(cols[k], widthPerFlex) < minColumnWidth
    ensures Remaining(|cols|, next.excluded) != {}
  {
    var n := |cols|;
    if Remaining(n, next.excluded) == {} {
      forall k | 0 <= k < n && k !in st.excluded
        ensures Candidate(cols[k], widthPerFlex) < minColumnWidth
      {
        assert k !in Remaining(n, next.excluded);
      }
      var inPlay :| inPlay in Remaining(n, st.excluded);
      CandidatesBelowMinimumStrict(cols, widthPerFlex, st.excluded, minColumnWidth, n, inPlay);
      PinnedPlusMinimums(minColumnWidth, st.excluded, n);
      assert false;
    }
  }

  /** Every column has a positive flex of each kind. */
  ghost predicate PositiveFlexes(cols: seq<ColumnFlex>)
  {
    forall k :: 0 <= k < |cols| ==> cols[k].extend > 0.0 && cols[k].shrink > 0.0
  }

  /** With positive flexes, a flex kind sums to more than 0 over columns that include one in play. */
  lemma {:induction false} SumOutsidePositive(cols: seq<ColumnFlex>, f: Field, excluded: set<int>, n: nat, inPlay: nat)
    requires n <= |cols| && f != Base
    requires PositiveFlexes(cols)
    requires inPlay < n && inPlay !in excluded
    ensures SumOutside(cols, f, excluded, n) > 0.0
  {
    assert NonNegativeFlexes(cols);
    if inPlay < n - 1 {
      SumOutsidePositive(cols, f, excluded, n - 1, inPlay);
    } else {
      SumOutsideNonNegative(cols, f, excluded, n - 1);
    }
  }

  /**
    From a balanced state with a column in play, a corrected run's widths,
    when it yields any, add up to the original client width; with a positive
    flex of each kind in every column it always yields widths.
  */
  lemma {:induction false} CorrectedIterateSums(cols: seq<ColumnFlex>, clientWidth0: real, minColumnWidth: real, st: Pass)
    requires Balanced(cols, clientWidth0, minColumnWidth, st)
    requires NonNegativeFlexes(cols)
    requires clientWidth0 >= Minimums(minColumnWidth, {}, |cols|)
    requires Remaining(|cols|, st.excluded) != {}
    decreases Remaining(|cols|, st.excluded)
    ensures var r := Iterate(Corrected, cols, minColumnWidth, st);
      r.Some? ==> Sum(r.value) == clientWidth0
    ensures PositiveFlexes(cols) ==> Iterate(Corrected, cols, minColumnWidth, st).Some?
  {
    var n := |cols|;
    if PositiveFlexes(cols) {
      var inPlay :| inPlay in Remaining(n, st.excluded);
      SumOutsidePositive(cols, Extend, st.excluded, n, inPlay);
      SumOutsidePositive(cols, Shrink, st.excluded, n, inPlay);
    }
    var f := TotalFlex(st);
    if f != 0.0 {
      var wpf := (st.clientWidth - st.totalBase) / f;
      var start := st.(moreExcluded := false);
      IterateUnfolds(Corrected, cols, minColumnWidth, st);
      assert Balanced(cols, clientWidth0, minColumnWidth, start);
      var next := PassFrom(Corrected, cols, minColumnWidth, wpf, start, 0);
      PassFromExcludes(Corrected, cols, minColumnWidth, wpf, start, 0);
      CandidatesFillClientWidth(cols, clientWidth0, minColumnWidth, st);
      if next.moreExcluded {
        CorrectedPassStaysBalanced(cols, clientWidth0, minColumnWidth, wpf, start, 0);
        SomeColumnSurvives(cols, clientWidth0, minColumnWidth, wpf, st, next);
        RemainingShrinks(n, st.excluded, next.excluded);
        CorrectedIterateSums(cols, clientWidth0, minColumnWidth, next);
      } else {
        assert !next.moreExcluded && !start.moreExcluded;
        assert !exists k :: k in next.excluded && k !in start.excluded;
        assert next.excluded == start.excluded;
        QuietPassSums(Corrected, cols, clientWidth0, minColumnWidth, wpf, start);
      }
    }
  }

  /**
    A pass from a balanced state that excludes nothing, run with a width per
    flex whose candidates fill the client width, ends with widths adding up
    to the original client width.
  */
  lemma QuietPassSums(acc: Accounting, cols: seq<ColumnFlex>, clientWidth0: real, minColumnWidth: real,
                      widthPerFlex: real, st: Pass)
    requires Balanced(cols, clientWidth0, minColumnWidth, st)
    requires CandidateSum(cols, widthPerFlex, st.excluded, |cols|) == st.clientWidth
    requires PassFrom(acc, cols, minColumnWidth, widthPerFlex, st, 0).excluded == st.excluded
    ensures Sum(PassFrom(acc, cols, minColumnWidth, widthPerFlex, st, 0).widths) == clientWidth0
  {
    var n := |cols|;
    var next := PassFrom(acc, cols, minColumnWidth, widthPerFlex, st, 0);
    QuietPassWidths(acc, cols, minColumnWidth, widthPerFlex, st, 0);
    forall k | 0 <= k < n
      ensures next.widths[k] == if k in st.excluded then minColumnWidth else Candidate(cols[k], widthPerFlex)
    {
    }
    SumOfPinnedAndCandidates(cols, widthPerFlex, st.excluded, minColumnWidth, next.widths, n);
    assert next.widths[..n] == next.widths;
    var pinned := Pinned(minColumnWidth, st.excluded, n);
    assert Sum(next.widths) == pinned + st.clientWidth;
    assert st.clientWidth == clientWidth0 - pinned;
  }

  /** The initial state is balanced, whatever the accounting. */
  lemma InitialPassBalanced(cols: seq<ColumnFlex>, clientWidth: real, minColumnWidth: real)
    ensures Balanced(Defaulted(cols), clientWidth, minColumnWidth, InitialPass(cols, clientWidth, minColumnWidth))
  {
    DefaultedFlexes(cols);
    NothingPinned(minColumnWidth, |cols|);
  }

  lemma {:induction false} NothingPinned(minColumnWidth: real, n: nat)
    ensures Pinned(minColumnWidth, {}, n) == 0.0
  {
    if n > 0 {
      NothingPinned(minColumnWidth, n - 1);
    }
  }

  /** With at least one column and no negative flex, the first division is by a positive total. */
  lemma InitialFlexPositive(cols: seq<ColumnFlex>, clientWidth: real, minColumnWidth: real)
    requires |cols| >= 1
    requires NonNegativeFlexes(cols)
    ensures TotalFlex(InitialPass(cols, clientWidth, minColumnWidth)) > 0.0
  {
    SumOutsideNonNegative(cols, Extend, {}, |cols|);
    SumOutsideNonNegative(cols, Shrink, {}, |cols|);
  }

  /**
    With corrected accounting, when every column can have its minimum, the
    widths add up to the client width, as the doc comment of
    `columnWidthCalculator` promises, whenever a result is produced; and a
    result is produced when, after the zero-total defaulting, every column
    has a positive flex of each kind. `MixedShrinkStalls` shows an input
    without that where the corrected run yields none.
  */
  lemma CorrectedSumsToClientWidth(cols: seq<ColumnFlex>, clientWidth: real, minColumnWidth: real)
    requires |cols| >= 1
    requires NonNegativeFlexes(cols)
    requires !TooNarrow(cols, clientWidth, minColumnWidth)
    ensures var r := Solve(Corrected, cols, clientWidth, minColumnWidth);
      r.Some? ==> Sum(r.value) == clientWidth
    ensures PositiveFlexes(Defaulted(cols)) ==> Solve(Corrected, cols, clientWidth, minColumnWidth).Some?
  {
    var d := Defaulted(cols);
    DefaultedFlexes(cols);
    assert NonNegativeFlexes(d);
    InitialPassBalanced(cols, clientWidth, minColumnWidth);
    assert 0 in Remaining(|cols|, {});
    MinimumsOfAll(minColumnWidth, |cols|);
    CorrectedIterateSums(d, clientWidth, minColumnWidth, InitialPass(cols, clientWidth, minColumnWidth));
  }

  /** The first pass, from the initial state. */
  function FirstPass(acc: Accounting, cols: seq<ColumnFlex>, clientWidth: real, minColumnWidth: real): Pass
  {
    var st := InitialPass(cols, clientWidth, minColumnWidth);
    if TotalFlex(st) == 0.0 then st
    else PassFrom(acc, Defaulted(cols), minColumnWidth, (st.clientWidth - st.totalBase) / TotalFlex(st), st, 0)
  }

  /**
    When the first pass excludes no column, the source's own accounting
    gives widths that add up to the client width.
  */
  lemma QuietFirstPassSums(acc: Accounting, cols: seq<ColumnFlex>, clientWidth: real, minColumnWidth: real)
    requires |cols| >= 1
    requires NonNegativeFlexes(cols)
    requires !TooNarrow(cols, clientWidth, minColumnWidth)
    requires FirstPass(acc, cols, clientWidth, minColumnWidth).excluded == {}
    ensures var r := Solve(acc, cols, clientWidth, minColumnWidth);
      r.Some? && Sum(r.value) == clientWidth
  {
    var d := Defaulted(cols);
    var st := InitialPass(cols, clientWidth, minColumnWidth);
    InitialFlexPositive(cols, clientWidth, minColumnWidth);
    InitialPassBalanced(cols, clientWidth, minColumnWidth);
    DefaultedFlexes(cols);
    assert NonNegativeFlexes(d);
    var wpf := (st.clientWidth - st.totalBase) / TotalFlex(st);
    CandidatesFillClientWidth(d, clientWidth, minColumnWidth, st);
    QuietPassSums(acc, d, clientWidth, minColumnWidth, wpf, st);
    QuietIterate(acc, d, minColumnWidth, st);
  }

  /** A pass that excludes nothing ends the outer loop with its widths. */
  lemma QuietIterate(acc: Accounting, cols: seq<ColumnFlex>, minColumnWidth: real, st: Pass)
    requires |st.widths| == |cols| && forall k :: k in st.excluded ==> 0 <= k < |cols|
    requires TotalFlex(st) != 0.0 && !st.moreExcluded
    requires var wpf := (st.clientWidth - st.totalBase) / TotalFlex(st);
      PassFrom(acc, cols, minColumnWidth, wpf, st, 0).excluded == st.excluded
    ensures Iterate(acc, cols, minColumnWidth, st) ==
      Some(PassFrom(acc, cols, minColumnWidth, (st.clientWidth - st.totalBase) / TotalFlex(st), st, 0).widths)
  {
    assert st.(moreExcluded := false) == st;
    PassFromExcludes(acc, cols, minColumnWidth, (st.clientWidth - st.totalBase) / TotalFlex(st), st, 0);
  }

  // ---------------------------------------------------------------------
  // Where the source's accounting overshoots.

  /** Bases 200, 50 and 50, every flex 1. */
  const Overshoot: seq<ColumnFlex> := [ColumnFlex(200.0, 1.0, 1.0), ColumnFlex(50.0, 1.0, 1.0), ColumnFlex(50.0, 1.0, 1.0)]

  /** The state before the first pass over `Overshoot` with client width 180 and minimum 40. */
  lemma OvershootStart()
    ensures !TooNarrow(Overshoot, 180.0, 40.0)
    ensures Defaulted(Overshoot) == Overshoot
    ensures InitialPass(Overshoot, 180.0, 40.0) == Pass(180.0, 300.0, 3.0, 3.0, {}, [40.0, 40.0, 40.0], false)
  {
    var cols := Overshoot;
    assert SumOutside(cols, Base, {}, 1) == 200.0 && SumOutside(cols, Base, {}, 2) == 250.0;
    assert SumOutside(cols, Extend, {}, 1) == 1.0 && SumOutside(cols, Extend, {}, 2) == 2.0;
    assert SumOutside(cols, Shrink, {}, 1) == 1.0 && SumOutside(cols, Shrink, {}, 2) == 2.0;
    assert Total(cols, Base) == 300.0 && Total(cols, Extend) == 3.0 && Total(cols, Shrink) == 3.0;
  }

  /** The first pass keeps 160 for the first column and excludes the other two, under either accounting. */
  lemma OvershootFirstPass()
    ensures var st := Pass(180.0, 300.0, 3.0, 3.0, {}, [40.0, 40.0, 40.0], false);
      && PassFrom(AsWritten, Overshoot, 40.0, -40.0, st, 0) == Pass(100.0, 220.0, 1.0, 3.0, {1, 2}, [160.0, 40.0, 40.0], true)
      && PassFrom(Corrected, Overshoot, 40.0, -40.0, st, 0) == Pass(100.0, 200.0, 1.0, 1.0, {1, 2}, [160.0, 40.0, 40.0], true)
  {
    var cols := Overshoot;
    assert Candidate(cols[0], -40.0) == 160.0;
    assert Candidate(cols[1], -40.0) == 10.0;
    assert Candidate(cols[2], -40.0) == 10.0;
    var st0 := Pass(180.0, 300.0, 3.0, 3.0, {}, [40.0, 40.0, 40.0], false);
    var w0 := st0.(widths := [160.0, 40.0, 40.0]);
    assert st0.widths[0 := 160.0] == w0.widths;
    assert w0.widths[1 := 40.0] == w0.widths;
    assert w0.widths[2 := 40.0] == w0.widths;
    assert {} + {1} == {1} && {1} + {2} == {1, 2};
    var a1 := Pass(140.0, 260.0, 2.0, 3.0, {1}, [160.0, 40.0, 40.0], true);
    var a2 := Pass(100.0, 220.0, 1.0, 3.0, {1, 2}, [160.0, 40.0, 40.0], true);
    assert Exclude(AsWritten, w0, cols[1], -40.0, 40.0, 1) == a1;
    assert Exclude(AsWritten, a1, cols[2], -40.0, 40.0, 2) == a2;
    assert PassFrom(AsWritten, cols, 40.0, -40.0, a2, 3) == a2;
    assert PassFrom(AsWritten, cols, 40.0, -40.0, a1, 2) == a2;
    assert PassFrom(AsWritten, cols, 40.0, -40.0, w0, 1) == a2;
    assert PassFrom(AsWritten, cols, 40.0, -40.0, st0, 0) == a2;
    var c1 := Pass(140.0, 250.0, 2.0, 2.0, {1}, [160.0, 40.0, 40.0], true);
    var c2 := Pass(100.0, 200.0, 1.0, 1.0, {1, 2}, [160.0, 40.0, 40.0], true);
    assert Exclude(Corrected, w0, cols[1], -40.0, 40.0, 1) == c1;
    assert Exclude(Corrected, c1, cols[2], -40.0, 40.0, 2) == c2;
    assert PassFrom(Corrected, cols, 40.0, -40.0, c2, 3) == c2;
    assert PassFrom(Corrected, cols, 40.0, -40.0, c1, 2) == c2;
    assert PassFrom(Corrected, cols, 40.0, -40.0, w0, 1) == c2;
    assert PassFrom(Corrected, cols, 40.0, -40.0, st0, 0) == c2;
  }

  /** The second pass of each accounting, which excludes nothing more. */
  lemma OvershootSecondPass()
    ensures var a := Pass(100.0, 220.0, 1.0, 3.0, {1, 2}, [160.0, 40.0, 40.0], false);
      PassFrom(AsWritten, Overshoot, 40.0, -40.0, a, 0) == a
    ensures var c := Pass(100.0, 200.0, 1.0, 1.0, {1, 2}, [160.0, 40.0, 40.0], false);
      PassFrom(Corrected, Overshoot, 40.0, -100.0, c, 0) == c.(widths := [100.0, 40.0, 40.0])
  {
    var cols := Overshoot;
    assert Candidate(cols[0], -40.0) == 160.0;
    assert Candidate(cols[0], -100.0) == 100.0;
    var a := Pass(100.0, 220.0, 1.0, 3.0, {1, 2}, [160.0, 40.0, 40.0], false);
    assert a.widths[0 := 160.0] == a.widths;
    assert 1 in a.excluded && 2 in a.excluded;
    assert PassFrom(AsWritten, cols, 40.0, -40.0, a, 2) == a;
    assert PassFrom(AsWritten, cols, 40.0, -40.0, a, 1) == a;
    var c := Pass(100.0, 200.0, 1.0, 1.0, {1, 2}, [160.0, 40.0, 40.0], false);
    var c4 := c.(widths := [100.0, 40.0, 40.0]);
    assert c.widths[0 := 100.0] == c4.widths;
    assert PassFrom(Corrected, cols, 40.0, -100.0, c4, 2) == c4;
    assert PassFrom(Corrected, cols, 40.0, -100.0, c4, 1) == c4;
  }

  lemma OvershootAsWrittenRun()
    ensures Solve(AsWritten, Overshoot, 180.0, 40.0) == Some([160.0, 40.0, 40.0])
  {
    OvershootStart();
    OvershootFirstPass();
    OvershootSecondPass();
    var st0 := Pass(180.0, 300.0, 3.0, 3.0, {}, [40.0, 40.0, 40.0], false);
    assert (st0.clientWidth - st0.totalBase) / TotalFlex(st0) == -40.0;
    assert st0.(moreExcluded := false) == st0;
    var a2 := Pass(100.0, 220.0, 1.0, 3.0, {1, 2}, [160.0, 40.0, 40.0], true);
    assert (a2.clientWidth - a2.totalBase) / TotalFlex(a2) == -40.0;
    assert Iterate(AsWritten, Overshoot, 40.0, a2) == Some([160.0, 40.0, 40.0]);
  }

  lemma OvershootCorrectedRun()
    ensures Solve(Corrected, Overshoot, 180.0, 40.0) == Some([100.0, 40.0, 40.0])
  {
    OvershootStart();
    OvershootFirstPass();
    OvershootSecondPass();
    var st0 := Pass(180.0, 300.0, 3.0, 3.0, {}, [40.0, 40.0, 40.0], false);
    assert (st0.clientWidth - st0.totalBase) / TotalFlex(st0) == -40.0;
    assert st0.(moreExcluded := false) == st0;
    var c2 := Pass(100.0, 200.0, 1.0, 1.0, {1, 2}, [160.0, 40.0, 40.0], true);
    assert (c2.clientWidth - c2.totalBase) / TotalFlex(c2) == -100.0;
    assert Iterate(Corrected, Overshoot, 40.0, c2) == Some([100.0, 40.0, 40.0]);
  }

  /**
    With client width 180 and minimum 40, the source's accounting keeps the
    first pass's 160 for the first column after excluding the other two, so
    the widths add up to 240; the corrected accounting gives 100, 40, 40.
  */
  lemma AsWrittenOvershoots()
    ensures Solve(AsWritten, Overshoot, 180.0, 40.0) == Some([160.0, 40.0, 40.0])
    ensures Sum([160.0, 40.0, 40.0]) == 240.0
    ensures Solve(Corrected, Overshoot, 180.0, 40.0) == Some([100.0, 40.0, 40.0])
    ensures Sum([100.0, 40.0, 40.0]) == 180.0
  {
    OvershootAsWrittenRun();
    OvershootCorrectedRun();
    var ws := [160.0, 40.0, 40.0];
    assert ws[..2][..1] == [160.0] && ws[..2] == [160.0, 40.0];
    assert Sum([160.0]) == 160.0;
    assert Sum(ws[..2]) == 200.0;
    var vs := [100.0, 40.0, 40.0];
    assert vs[..2][..1] == [100.0] && vs[..2] == [100.0, 40.0];
    assert Sum([100.0]) == 100.0;
    assert Sum(vs[..2]) == 140.0;
  }

  /** Bases 100 and 100, extend flexes 0, shrink flexes 0 and 1. */
  const MixedShrink: seq<ColumnFlex> := [ColumnFlex(100.0, 0.0, 0.0), ColumnFlex(100.0, 0.0, 1.0)]

  /**
    With client width 150 and minimum 60, the first pass shrinks by 50 per
    flex: the first column keeps 100 and the second is excluded. No shrink
    flex is left in play after that.
  */
  lemma MixedShrinkFirstPass()
    ensures !TooNarrow(MixedShrink, 150.0, 60.0)
    ensures Defaulted(MixedShrink) == [ColumnFlex(100.0, 1.0, 0.0), ColumnFlex(100.0, 1.0, 1.0)]
    ensures InitialPass(MixedShrink, 150.0, 60.0) == Pass(150.0, 200.0, 2.0, 1.0, {}, [60.0, 60.0], false)
    ensures var cols := Defaulted(MixedShrink);
      var st := Pass(150.0, 200.0, 2.0, 1.0, {}, [60.0, 60.0], false);
      && PassFrom(AsWritten, cols, 60.0, -50.0, st, 0) == Pass(90.0, 140.0, 1.0, 1.0, {1}, [100.0, 60.0], true)
      && PassFrom(Corrected, cols, 60.0, -50.0, st, 0) == Pass(90.0, 100.0, 1.0, 0.0, {1}, [100.0, 60.0], true)
  {
    var raw := MixedShrink;
    assert SumOutside(raw, Base, {}, 1) == 100.0;
    assert SumOutside(raw, Extend, {}, 1) == 0.0 && SumOutside(raw, Shrink, {}, 1) == 0.0;
    assert Total(raw, Base) == 200.0 && Total(raw, Extend) == 0.0 && Total(raw, Shrink) == 1.0;
    var cols := [ColumnFlex(100.0, 1.0, 0.0), ColumnFlex(100.0, 1.0, 1.0)];
    assert Defaulted(raw) == cols;
    assert Candidate(cols[0], -50.0) == 100.0;
    assert Candidate(cols[1], -50.0) == 50.0;
    var st0 := Pass(150.0, 200.0, 2.0, 1.0, {}, [60.0, 60.0], false);
    var w0 := st0.(widths := [100.0, 60.0]);
    assert st0.widths[0 := 100.0] == w0.widths;
    assert w0.widths[1 := 60.0] == w0.widths;
    assert {} + {1} == {1};
    var a1 := Pass(90.0, 140.0, 1.0, 1.0, {1}, [100.0, 60.0], true);
    assert Exclude(AsWritten, w0, cols[1], -50.0, 60.0, 1) == a1;
    assert PassFrom(AsWritten, cols, 60.0, -50.0, a1, 2) == a1;
    assert PassFrom(AsWritten, cols, 60.0, -50.0, w0, 1) == a1;
    var c1 := Pass(90.0, 100.0, 1.0, 0.0, {1}, [100.0, 60.0], true);
    assert Exclude(Corrected, w0, cols[1], -50.0, 60.0, 1) == c1;
    assert PassFrom(Corrected, cols, 60.0, -50.0, c1, 2) == c1;
    assert PassFrom(Corrected, cols, 60.0, -50.0, w0, 1) == c1;
  }

  /**
    On `MixedShrink` with client width 150 and minimum 60, which leaves room
    for both minimums, the corrected run is left with the first column in
    play and a shrink total of 0, so it yields no widths; the code's own
    accounting ends at 100 and 60, which add up to 160.
  */
  lemma MixedShrinkStalls()
    ensures Solve(Corrected, MixedShrink, 150.0, 60.0) == None
    ensures Solve(AsWritten, MixedShrink, 150.0, 60.0) == Some([100.0, 60.0])
    ensures Sum([100.0, 60.0]) == 160.0
  {
    MixedShrinkFirstPass();
    var cols := Defaulted(MixedShrink);
    var st0 := Pass(150.0, 200.0, 2.0, 1.0, {}, [60.0, 60.0], false);
    assert (st0.clientWidth - st0.totalBase) / TotalFlex(st0) == -50.0;
    assert st0.(moreExcluded := false) == st0;
    var c1 := Pass(90.0, 100.0, 1.0, 0.0, {1}, [100.0, 60.0], true);
    assert TotalFlex(c1) == 0.0;
    assert 0 in Remaining(2, {1});
    assert Iterate(Corrected, cols, 60.0, c1) == None;
    var a1 := Pass(90.0, 140.0, 1.0, 1.0, {1}, [100.0, 60.0], true);
    assert (a1.clientWidth - a1.totalBase) / TotalFlex(a1) == -50.0;
    var a2 := a1.(moreExcluded := false);
    assert a2.widths[0 := 100.0] == a2.widths;
    assert PassFrom(AsWritten, cols, 60.0, -50.0, a2, 1) == a2;
    assert PassFrom(AsWritten, cols, 60.0, -50.0, a2, 0) == a2;
    assert Iterate(AsWritten, cols, 60.0, a1) == Some([100.0, 60.0]);
    assert [100.0, 60.0][..1] == [100.0];
  }

  // ---------------------------------------------------------------------
  // The calculator itself.

  /** The totals of lines 488-492. */
  method SumColumns(table: array<ColumnFlex>) returns (totalBaseWidth: real, totalExtendFlex: real, totalShrinkFlex: real)
    ensures totalBaseWidth == Total(table[..], Base)
    ensures totalExtendFlex == Total(table[..], Extend)
    ensures totalShrinkFlex == Total(table[..], Shrink)
  {
    totalBaseWidth, totalExtendFlex, totalShrinkFlex := 0.0, 0.0, 0.0;
    for i := 0 to table.Length
      invariant totalBaseWidth == SumOutside(table[..], Base, {}, i)
      invariant totalExtendFlex == SumOutside(table[..], Extend, {}, i)
      invariant totalShrinkFlex == SumOutside(table[..], Shrink, {}, i)
    {
      totalBaseWidth := totalBaseWidth + table[i].base;
      totalExtendFlex := totalExtendFlex + table[i].extend;
      totalShrinkFlex := totalShrinkFlex + table[i].shrink;
    }
  }

  /** `widthAndFlexArray.forEach(a => a[1] = 1)`. */
  method SetExtendFlexesToOne(table: array<ColumnFlex>)
    modifies table
    ensures forall k :: 0 <= k < table.Length ==> table[k] == old(table[k]).(extend := 1.0)
  {
    for i := 0 to table.Length
      invariant forall k :: 0 <= k < i ==> table[k] == old(table[k]).(extend := 1.0)
      invariant forall k :: i <= k < table.Length ==> table[k] == old(table[k])
    {
      table[i] := table[i].(extend := 1.0);
    }
  }

  /** `widthAndFlexArray.forEach(a => a[2] = 1)`. */
  method SetShrinkFlexesToOne(table: array<ColumnFlex>)
    modifies table
    ensures forall k :: 0 <= k < table.Length ==> table[k] == old(table[k]).(shrink := 1.0)
  {
    for i := 0 to table.Length
      invariant forall k :: 0 <= k < i ==> table[k] == old(table[k]).(shrink := 1.0)
      invariant forall k :: i <= k < table.Length ==> table[k] == old(table[k])
    {
      table[i] := table[i].(shrink := 1.0);
    }
  }

  /**
    One pass of the `for` loop of lines 511-530 over the (defaulted) entries:
    kept widths go into `widths`, excluded columns update the running totals.
  */
  method RunPass(table: array<ColumnFlex>, widths: array<real>, minColumnWidth: real, widthPerFlex: real,
                 clientWidth: real, totalBaseWidth: real, totalExtendFlex: real, totalShrinkFlex: real,
                 excludedIndexSet: set<int>)
    returns (restWidth: real, restBase: real, restExtend: real, excluded: set<int>, moreColumnExcluded: bool)
    requires widths.Length == table.Length
    modifies widths
    ensures Pass(restWidth, restBase, restExtend, totalShrinkFlex, excluded, widths[..], moreColumnExcluded)
      == PassFrom(AsWritten, table[..], minColumnWidth, widthPerFlex,
                  Pass(clientWidth, totalBaseWidth, totalExtendFlex, totalShrinkFlex, excludedIndexSet, old(widths[..]), false), 0)
  {
    ghost var cols := table[..];
    ghost var start := Pass(clientWidth, totalBaseWidth, totalExtendFlex, totalShrinkFlex, excludedIndexSet, widths[..], false);
    restWidth, restBase, restExtend, excluded, moreColumnExcluded :=
      clientWidth, totalBaseWidth, totalExtendFlex, excludedIndexSet, false;
    for index := 0 to table.Length
      invariant PassFrom(AsWritten, cols, minColumnWidth, widthPerFlex,
                         Pass(restWidth, restBase, restExtend, totalShrinkFlex, excluded, widths[..], moreColumnExcluded),
                         index)
                == PassFrom(AsWritten, cols, minColumnWidth, widthPerFlex, start, 0)
    {
      ghost var before := Pass(restWidth, restBase, restExtend, totalShrinkFlex, excluded, widths[..], moreColumnExcluded);
      if index !in excluded {
        var column := table[index];
        var flex := FlexFor(column, widthPerFlex);
        var width := Candidate(column, widthPerFlex);
        if width < minColumnWidth {
          restWidth := restWidth - minColumnWidth;
          restBase := restBase - minColumnWidth;
          restExtend := restExtend - flex;
          excluded := excluded + {index};
          moreColumnExcluded := true;
        } else {
          widths[index] := width;
          assert widths[..] == before.widths[index := width];
        }
      }
      assert Pass(restWidth, restBase, restExtend, totalShrinkFlex, excluded, widths[..], moreColumnExcluded)
          == Step(AsWritten, cols, minColumnWidth, widthPerFlex, before, index);
    }
  }

  /** Whether some column below `n` is not excluded, found by a scan. */
  method AnyInPlay(n: nat, excluded: set<int>) returns (found: bool)
    ensures found <==> Remaining(n, excluded) != {}
  {
    var k := 0;
    while k < n && k in excluded
      invariant 0 <= k <= n
      invariant forall j :: 0 <= j < k ==> j in excluded
    {
      k := k + 1;
    }
    found := k < n;
    if found {
      assert k in Remaining(n, excluded);
    } else {
      assert Remaining(n, excluded) == {};
    }
  }

  /**
    One turn of the `while (true)` loop of lines 506-535: either it ends the
    loop with the result `Iterate` gives from the current variables, or it
    excludes more columns and leaves variables from which `Iterate` gives
    the same result.
  */
  method Turn(table: array<ColumnFlex>, widths: array<real>, minColumnWidth: real,
              available: real, totalBase: real, totalExtend: real, totalShrink: real, excluded: set<int>)
    returns (done: bool, r: Option<seq<real>>,
             available': real, totalBase': real, totalExtend': real, excluded': set<int>)
    requires widths.Length == table.Length
    requires forall k :: k in excluded ==> 0 <= k < table.Length
    modifies widths
    ensures done ==> r == Iterate(AsWritten, table[..], minColumnWidth,
                                  Pass(available, totalBase, totalExtend, totalShrink, excluded, old(widths[..]), false))
    ensures !done ==> forall k :: k in excluded' ==> 0 <= k < table.Length
    ensures !done ==> Remaining(table.Length, excluded') < Remaining(table.Length, excluded)
    ensures !done ==>
      Iterate(AsWritten, table[..], minColumnWidth,
              Pass(available', totalBase', totalExtend', totalShrink, excluded', widths[..], false))
      == Iterate(AsWritten, table[..], minColumnWidth,
                 Pass(available, totalBase, totalExtend, totalShrink, excluded, old(widths[..]), false))
  {
    ghost var cols := table[..];
    ghost var start := Pass(available, totalBase, totalExtend, totalShrink, excluded, widths[..], false);
    var totalFlex := if available >= totalBase then totalExtend else totalShrink;
    if totalFlex == 0.0 {
      var anyInPlay := AnyInPlay(table.Length, excluded);
      done, r := true, if anyInPlay then None else Some(widths[..]);
      available', totalBase', totalExtend', excluded' := available, totalBase, totalExtend, excluded;
      return;
    }
    var widthPerFlex := (available - totalBase) / totalFlex;
    var moreColumnExcluded;
    available', totalBase', totalExtend', excluded', moreColumnExcluded :=
      RunPass(table, widths, minColumnWidth, widthPerFlex, available, totalBase, totalExtend, totalShrink, excluded);
    ghost var next := Pass(available', totalBase', totalExtend', totalShrink, excluded', widths[..], moreColumnExcluded);
    assert start.(moreExcluded := false) == start;
    PassFromExcludes(AsWritten, cols, minColumnWidth, widthPerFlex, start, 0);
    if !moreColumnExcluded {
      done, r := true, Some(widths[..]);
      return;
    }
    done, r := false, None;
    RemainingShrinks(table.Length, excluded, excluded');
    assert Iterate(AsWritten, cols, minColumnWidth, start) == Iterate(AsWritten, cols, minColumnWidth, next);
    IterateIgnoresFlag(AsWritten, cols, minColumnWidth, next);
  }

  /**
    The `while (true)` loop of lines 506-535 over the (defaulted) entries,
    from the given totals: it yields what `Iterate` specifies.
  */
  method DistributeWidths(table: array<ColumnFlex>, clientWidth: real, totalBaseWidth: real,
                          totalExtendFlex: real, totalShrinkFlex: real, minColumnWidth: real)
    returns (r: Option<seq<real>>)
    ensures r == Iterate(AsWritten, table[..], minColumnWidth,
                         Pass(clientWidth, totalBaseWidth, totalExtendFlex, totalShrinkFlex, {},
                              seq(table.Length, _ => minColumnWidth), false))
  {
    var n := table.Length;
    ghost var cols := table[..];
    ghost var goal := Iterate(AsWritten, cols, minColumnWidth,
                              Pass(clientWidth, totalBaseWidth, totalExtendFlex, totalShrinkFlex, {},
                                   seq(n, _ => minColumnWidth), false));
    var available, totalBase, totalExtend := clientWidth, totalBaseWidth, totalExtendFlex;
    var widths := new real[n](_ => minColumnWidth);
    var excluded: set<int> := {};
    assert widths[..] == seq(n, _ => minColumnWidth);

    while true
      invariant widths.Length == n && table[..] == cols
      invariant forall k :: k in excluded ==> 0 <= k < n
      invariant Iterate(AsWritten, cols, minColumnWidth,
                        Pass(available, totalBase, totalExtend, totalShrinkFlex, excluded, widths[..], false)) == goal
      decreases Remaining(n, excluded)
    {
      var done;
      done, r, available, totalBase, totalExtend, excluded :=
        Turn(table, widths, minColumnWidth, available, totalBase, totalExtend, totalShrinkFlex, excluded);
      if done {
        return;
      }
    }
  }

  /** Lines 496-504: flex kinds that total zero become 1 in every entry, and the totals the column count. */
  method DefaultFlexes(table: array<ColumnFlex>, totalExtendFlex: real, totalShrinkFlex: real)
    returns (extendTotal: real, shrinkTotal: real)
    requires totalExtendFlex == Total(table[..], Extend) && totalShrinkFlex == Total(table[..], Shrink)
    modifies table
    ensures table[..] == Defaulted(old(table[..]))
    ensures extendTotal == if totalExtendFlex == 0.0 then table.Length as real else totalExtendFlex
    ensures shrinkTotal == if totalShrinkFlex == 0.0 then table.Length as real else totalShrinkFlex
  {
    ghost var cols := table[..];
    extendTotal, shrinkTotal := totalExtendFlex, totalShrinkFlex;
    if extendTotal == 0.0 {
      extendTotal := table.Length as real;
      SetExtendFlexesToOne(table);
    }
    ghost var extended := table[..];
    if shrinkTotal == 0.0 {
      shrinkTotal := table.Length as real;
      SetShrinkFlexesToOne(table);
    }
    forall k | 0 <= k < table.Length
      ensures table[k] == Defaulted(cols)[k]
    {
      assert extended[k] == Defaulted(cols)[k].(shrink := cols[k].shrink);
    }
    assert table[..] == Defaulted(cols);
  }

  /**
    `columnWidthCalculator`: `table` holds the `[baseWidth, extendFlex,
    shrinkFlex]` entries, which the zero-flex defaulting rewrites in place.
  */
  method ColumnWidthCalculator(table: array<ColumnFlex>, clientWidth: real, minColumnWidth: real)
    returns (r: Option<seq<real>>)
    modifies table
    ensures r == Solve(AsWritten, old(table[..]), clientWidth, minColumnWidth)
    ensures TooNarrow(old(table[..]), clientWidth, minColumnWidth) ==> table[..] == old(table[..])
    ensures !TooNarrow(old(table[..]), clientWidth, minColumnWidth) ==> table[..] == Defaulted(old(table[..]))
  {
    var n := table.Length;
    if clientWidth < minColumnWidth * n as real {
      return Some(EqualShares(clientWidth, n));
    }
    ghost var cols := table[..];
    assert !TooNarrow(cols, clientWidth, minColumnWidth);
    var totalBaseWidth, totalExtendFlex, totalShrinkFlex := SumColumns(table);
    totalExtendFlex, totalShrinkFlex := DefaultFlexes(table, totalExtendFlex, totalShrinkFlex);
    assert InitialPass(cols, clientWidth, minColumnWidth)
        == Pass(clientWidth, totalBaseWidth, totalExtendFlex, totalShrinkFlex, {}, seq(n, _ => minColumnWidth), false);
    r := DistributeWidths(table, clientWidth, totalBaseWidth, totalExtendFlex, totalShrinkFlex, minColumnWidth);
  }
}
