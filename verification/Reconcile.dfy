/** Cross-host reconciliation of one book hour, `cli/archive/reconcile.py`: silences, their witnesses, the splice,
    and what a splice leaves unfilled. Instants and widths are whole microseconds. */
module Reconcile {
  import opened Prelude
  import opened Clock
  import opened Sorting

  /** One row of a book stream: many rows share the `ts` of one wire message. */
  datatype BookRow = BookRow(ts: int, isUpdate: bool, body: int)

  datatype Error = BadHour | OutsideHour | OutOfOrder

  /** A window, and whether each of its bounds is a primary wire message. */
  datatype Gap = Gap(start: int, end: int, startIsPrimary: bool, endIsPrimary: bool)

  function Width(g: Gap): int {
    g.end - g.start
  }

  predicate Inside(g: Gap, ts: int) {
    && (if g.startIsPrimary then ts > g.start else ts >= g.start)
    && (if g.endIsPrimary then ts < g.end else ts <= g.end)
  }

  // ---- rows and messages

  ghost predicate NonDecreasing(rows: seq<BookRow>) {
    forall i, j :: 0 <= i < j < |rows| ==> rows[i].ts <= rows[j].ts
  }

  /** `np.diff(raw) < 0` somewhere. */
  predicate Drops(rows: seq<BookRow>) {
    exists i :: 0 <= i < |rows| - 1 && rows[i + 1].ts < rows[i].ts
  }

  /** The stamps with equal neighbours dropped. */
  function Stamps(rows: seq<BookRow>): seq<int> {
    if rows == [] then []
    else
      var n := |rows| - 1;
      if n > 0 && rows[n].ts == rows[n - 1].ts then Stamps(rows[..n]) else Stamps(rows[..n]) + [rows[n].ts]
  }

  function MessageTs(rows: seq<BookRow>): Result<seq<int>, Error> {
    if Drops(rows) then Err(OutOfOrder) else Ok(Stamps(rows))
  }

  function TsOf(rows: seq<BookRow>): set<int> {
    set i | 0 <= i < |rows| :: rows[i].ts
  }

  lemma {:induction false} StepwiseIsOrdered(rows: seq<BookRow>)
    ensures Drops(rows) <==> !NonDecreasing(rows)
  {
    if !Drops(rows) && rows != [] {
      var n := |rows| - 1;
      StepwiseIsOrdered(rows[..n]);
      forall i | 0 <= i < n - 1 ensures rows[..n][i + 1].ts >= rows[..n][i].ts {
        assert rows[i + 1].ts >= rows[i].ts;
      }
      assert NonDecreasing(rows[..n]);
      forall i, j | 0 <= i < j < |rows| ensures rows[i].ts <= rows[j].ts {
        if j < n {
          assert rows[..n][i].ts <= rows[..n][j].ts;
        } else if i < n - 1 {
          assert rows[..n][i].ts <= rows[..n][n - 1].ts;
          assert rows[n - 1 + 1].ts >= rows[n - 1].ts;
        }
      }
    }
  }

  lemma TsOfSnoc(rows: seq<BookRow>)
    requires rows != []
    ensures TsOf(rows) == TsOf(rows[..|rows| - 1]) + {rows[|rows| - 1].ts}
  {
    var n := |rows| - 1;
    forall t | t in TsOf(rows) ensures t in TsOf(rows[..n]) + {rows[n].ts} {
      var i :| 0 <= i < |rows| && rows[i].ts == t;
      if i < n { assert rows[..n][i].ts == t; }
    }
    forall t | t in TsOf(rows[..n]) ensures t in TsOf(rows) {
      var i :| 0 <= i < n && rows[..n][i].ts == t;
      assert rows[i].ts == t;
    }
  }

  lemma TsOfSum(a: seq<BookRow>, b: seq<BookRow>)
    ensures TsOf(a + b) == TsOf(a) + TsOf(b)
  {
    forall t | t in TsOf(a + b) ensures t in TsOf(a) + TsOf(b) {
      var i :| 0 <= i < |a + b| && (a + b)[i].ts == t;
      if i < |a| { assert a[i].ts == t; } else { assert b[i - |a|].ts == t; }
    }
    forall t | t in TsOf(a) ensures t in TsOf(a + b) {
      var i :| 0 <= i < |a| && a[i].ts == t;
      assert (a + b)[i].ts == t;
    }
    forall t | t in TsOf(b) ensures t in TsOf(a + b) {
      var i :| 0 <= i < |b| && b[i].ts == t;
      assert (a + b)[|a| + i].ts == t;
    }
  }

  lemma NewestIsAbove(rows: seq<BookRow>)
    requires NonDecreasing(rows) && |rows| > 1
    ensures var n := |rows| - 1;
      if rows[n].ts == rows[n - 1].ts then TsOf(rows) == TsOf(rows[..n])
      else forall t :: t in TsOf(rows[..n]) ==> t < rows[n].ts
  {
    var n := |rows| - 1;
    TsOfSnoc(rows);
    assert rows[..n][n - 1].ts in TsOf(rows[..n]);
    forall t | t in TsOf(rows[..n]) ensures t <= rows[n - 1].ts <= rows[n].ts {
      var i :| 0 <= i < n && rows[..n][i].ts == t;
      assert rows[i].ts <= rows[n - 1].ts;
    }
  }

  /** In a stream that never steps back, dropping equal neighbours leaves each stamp exactly once, ascending. */
  lemma {:induction false} StampsAreAscending(rows: seq<BookRow>)
    requires NonDecreasing(rows)
    ensures Stamps(rows) == Ascending(TsOf(rows))
    ensures rows != [] ==> Stamps(rows) != []
  {
    if rows == [] {
      assert TsOf(rows) == {};
    } else {
      var n := |rows| - 1;
      assert NonDecreasing(rows[..n]);
      hide NonDecreasing, Ascending;
      StampsAreAscending(rows[..n]);
      TsOfSnoc(rows);
      if n > 0 { NewestIsAbove(rows); }
      AscendingAboveAll(TsOf(rows[..n]), rows[n].ts);
    }
  }

  lemma AscendingAboveAll(s: set<int>, x: int)
    ensures (forall t :: t in s ==> t < x) ==> Ascending(s + {x}) == Ascending(s) + [x]
  {
    if forall t :: t in s ==> t < x { AscendingAbove(s, x); }
  }

  /** The rows with `lo <= ts < hi`, in order. */
  function Slice(rows: seq<BookRow>, lo: int, hi: int): seq<BookRow> {
    if rows == [] then []
    else
      var last := rows[|rows| - 1];
      Slice(rows[..|rows| - 1], lo, hi) + if lo <= last.ts < hi then [last] else []
  }

  lemma {:induction false} SliceHolds(rows: seq<BookRow>, lo: int, hi: int)
    ensures forall i :: 0 <= i < |Slice(rows, lo, hi)| ==> lo <= Slice(rows, lo, hi)[i].ts < hi
    ensures NonDecreasing(rows) ==> NonDecreasing(Slice(rows, lo, hi))
    ensures forall t :: t in TsOf(Slice(rows, lo, hi)) <==> t in TsOf(rows) && lo <= t < hi
  {
    if rows != [] {
      var n := |rows| - 1;
      var front, last := rows[..n], rows[n];
      SliceHolds(front, lo, hi);
      TsOfSnoc(rows);
      var s := Slice(front, lo, hi);
      TsOfSum(s, [last]);
      assert TsOf([last]) == {last.ts} by { assert [last][0].ts == last.ts; }
      assert Slice(rows, lo, hi) == if lo <= last.ts < hi then s + [last] else s;
      if NonDecreasing(rows) {
        assert NonDecreasing(front);
        forall i | 0 <= i < |s| ensures s[i].ts <= last.ts {
          assert s[i].ts in TsOf(s);
          var j :| 0 <= j < n && front[j].ts == s[i].ts;
          assert rows[j].ts <= rows[n].ts;
        }
      }
    }
  }

  /** No row of a stream that never steps back is past its last one. */
  lemma NothingPastLast(rows: seq<BookRow>, lo: int, hi: int)
    requires NonDecreasing(rows) && rows != [] && rows[|rows| - 1].ts < lo
    ensures Slice(rows[..|rows| - 1], lo, hi) == []
  {
    var front := rows[..|rows| - 1];
    forall t | t in TsOf(front) ensures t < lo {
      var i :| 0 <= i < |front| && front[i].ts == t;
      assert rows[i].ts <= rows[|rows| - 1].ts;
    }
    SliceEmpty(front, lo, hi);
  }

  /** Neighbouring slices of a stream that never steps back concatenate. */
  lemma {:induction false} SliceJoins(rows: seq<BookRow>, lo: int, mid: int, hi: int)
    requires NonDecreasing(rows) && lo <= mid <= hi
    ensures Slice(rows, lo, mid) + Slice(rows, mid, hi) == Slice(rows, lo, hi)
  {
    if rows != [] {
      var front, last := rows[..|rows| - 1], rows[|rows| - 1];
      SliceJoins(front, lo, mid, hi);
      var a, b := Slice(front, lo, mid), Slice(front, mid, hi);
      if last.ts < mid {
        NothingPastLast(rows, mid, hi);
        assert Slice(rows, mid, hi) == [] && a + b == a;
        assert Slice(rows, lo, mid) == Slice(rows, lo, hi);
      } else {
        assert Slice(rows, lo, mid) == a + [] == a;
        assert a + (b + [last]) == a + b + [last];
      }
    }
  }

  lemma SliceSnoc(rows: seq<BookRow>, lo: int, hi: int)
    requires rows != []
    ensures var front, last := rows[..|rows| - 1], rows[|rows| - 1];
      && rows == front + [last]
      && Slice(rows, lo, hi) == if lo <= last.ts < hi then Slice(front, lo, hi) + [last] else Slice(front, lo, hi)
  {
  }

  lemma {:induction false} SliceEmpty(rows: seq<BookRow>, lo: int, hi: int)
    requires forall t :: t in TsOf(rows) ==> !(lo <= t < hi)
    ensures Slice(rows, lo, hi) == []
  {
    hide TsOf;
    if rows != [] {
      TsOfSnoc(rows);
      SliceEmpty(rows[..|rows| - 1], lo, hi);
      hide Slice;
      assert rows[|rows| - 1].ts in TsOf(rows);
      SliceSnoc(rows, lo, hi);
    } else {
      assert Slice(rows, lo, hi) == [];
    }
  }

  lemma {:induction false} SliceWhole(rows: seq<BookRow>, lo: int, hi: int)
    requires forall t :: t in TsOf(rows) ==> lo <= t < hi
    ensures Slice(rows, lo, hi) == rows
  {
    hide TsOf;
    if rows != [] {
      var front, last := rows[..|rows| - 1], rows[|rows| - 1];
      TsOfSnoc(rows);
      SliceWhole(front, lo, hi);
      hide Slice;
      assert last.ts in TsOf(rows);
      SliceSnoc(rows, lo, hi);
    }
  }

  // ---- silences

  predicate ValidHour(hourStart: int, hourEnd: int) {
    hourStart % HOUR == 0 && hourEnd == hourStart + HOUR
  }

  predicate WithinHour(rows: seq<BookRow>, hourStart: int, hourEnd: int) {
    forall i :: 0 <= i < |rows| ==> hourStart <= rows[i].ts < hourEnd
  }

  /** The windows between the first `n + 1` edges wider than the threshold. */
  function Wide(edges: seq<int>, threshold: int, n: nat): seq<Gap>
    requires n < |edges|
  {
    if n == 0 then []
    else
      Wide(edges, threshold, n - 1)
        + if edges[n] - edges[n - 1] > threshold then [Gap(edges[n - 1], edges[n], n - 1 != 0, n != |edges| - 1)] else []
  }

  function Edges(stamps: seq<int>, hourStart: int, hourEnd: int): seq<int> {
    [hourStart] + stamps + [hourEnd]
  }

  function PrimarySilence(primary: seq<BookRow>, threshold: int, hourStart: int, hourEnd: int): Result<seq<Gap>, Error> {
    if !ValidHour(hourStart, hourEnd) then Err(BadHour)
    else if !WithinHour(primary, hourStart, hourEnd) then Err(OutsideHour)
    else
      var stamps :- MessageTs(primary);
      if stamps == [] then Ok([Gap(hourStart, hourEnd, false, false)])
      else Ok(Wide(Edges(stamps, hourStart, hourEnd), threshold, |stamps| + 1))
  }

  /** A secondary snapshot never testifies: only an update row inside the window does. */
  predicate Covers(secondary: seq<BookRow>, g: Gap) {
    exists i :: 0 <= i < |secondary| && secondary[i].isUpdate && Inside(g, secondary[i].ts)
  }

  function Witnessed(secondary: seq<BookRow>, gaps: seq<Gap>): seq<Gap> {
    if gaps == [] then []
    else
      var last := gaps[|gaps| - 1];
      Witnessed(secondary, gaps[..|gaps| - 1]) + if Covers(secondary, last) then [last] else []
  }

  function Unwitnessed(secondary: seq<BookRow>, gaps: seq<Gap>): seq<Gap> {
    if gaps == [] then []
    else
      var last := gaps[|gaps| - 1];
      Unwitnessed(secondary, gaps[..|gaps| - 1]) + if Covers(secondary, last) then [] else [last]
  }

  function Partition(primary: seq<BookRow>, secondary: seq<BookRow>, threshold: int, hourStart: int, hourEnd: int)
    : Result<(seq<Gap>, seq<Gap>), Error>
  {
    if !ValidHour(hourStart, hourEnd) then Err(BadHour)
    else if !WithinHour(secondary, hourStart, hourEnd) then Err(OutsideHour)
    else
      var _ :- MessageTs(secondary);
      var gaps :- PrimarySilence(primary, threshold, hourStart, hourEnd);
      Ok((Witnessed(secondary, gaps), Unwitnessed(secondary, gaps)))
  }

  method PartitionGaps(primary: seq<BookRow>, secondary: seq<BookRow>, threshold: int, hourStart: int, hourEnd: int)
    returns (r: Result<(seq<Gap>, seq<Gap>), Error>)
    ensures r == Partition(primary, secondary, threshold, hourStart, hourEnd)
  {
    if !ValidHour(hourStart, hourEnd) { return Err(BadHour); }
    if !WithinHour(secondary, hourStart, hourEnd) { return Err(OutsideHour); }
    var _ :- MessageTs(secondary);
    var gaps :- PrimarySilence(primary, threshold, hourStart, hourEnd);
    var witnessed, blind: seq<Gap> := [], [];
    var i := 0;
    assert gaps[..|gaps|] == gaps;
    while i < |gaps|
      invariant 0 <= i <= |gaps|
      invariant witnessed == Witnessed(secondary, gaps[..i]) && blind == Unwitnessed(secondary, gaps[..i])
    {
      assert gaps[..i + 1][..i] == gaps[..i];
      if Covers(secondary, gaps[i]) {
        witnessed := witnessed + [gaps[i]];
      } else {
        blind := blind + [gaps[i]];
      }
      i := i + 1;
    }
    return Ok((witnessed, blind));
  }

  // ---- what the windows between edges are

  /** Every window is one between neighbouring edges, in order, wider than the threshold. */
  lemma {:induction false} WideIs(edges: seq<int>, threshold: int, n: nat)
    requires n < |edges| && Ordered(edges)
    ensures forall g :: g in Wide(edges, threshold, n) <==> exists i :: 0 <= i < n && WindowAt(edges, threshold, i, g)
    ensures InOrder(Wide(edges, threshold, n))
  {
    if n > 0 {
      WideIs(edges, threshold, n - 1);
      var front := Wide(edges, threshold, n - 1);
      var last := Gap(edges[n - 1], edges[n], n - 1 != 0, n != |edges| - 1);
      forall k | 0 <= k < |front| ensures front[k].end <= edges[n - 1] {
        assert front[k] in front;
        var i :| 0 <= i < n - 1 && WindowAt(edges, threshold, i, front[k]);
        assert edges[i + 1] <= edges[n - 1];
      }
      forall g ensures g in Wide(edges, threshold, n) <==> exists i :: 0 <= i < n && WindowAt(edges, threshold, i, g) {
        assert g in Wide(edges, threshold, n) <==> g in front || WindowAt(edges, threshold, n - 1, g);
      }
    }
  }

  ghost predicate InOrder(gaps: seq<Gap>) {
    forall k, l :: 0 <= k < l < |gaps| ==> gaps[k].end <= gaps[l].start
  }

  predicate WindowAt(edges: seq<int>, threshold: int, i: nat, g: Gap)
    requires i + 1 < |edges|
  {
    && g == Gap(edges[i], edges[i + 1], i != 0, i + 1 != |edges| - 1)
    && edges[i + 1] - edges[i] > threshold
  }

  // ---- every silence, and nothing but silences

  /** The first instant the secondary owns, and the first it no longer does. */
  function Lo(g: Gap): int {
    if g.startIsPrimary then g.start + 1 else g.start
  }

  function Hi(g: Gap): int {
    if g.endIsPrimary then g.end else g.end + 1
  }

  lemma InsideIsSlice(g: Gap, ts: int)
    ensures Inside(g, ts) <==> Lo(g) <= ts < Hi(g)
  {
  }

  /** A window of the hour with no primary message in it, whose bounds are the messages the flags say they are. */
  ghost predicate Silent(primary: seq<BookRow>, hourStart: int, hourEnd: int, g: Gap) {
    && hourStart <= g.start <= g.end <= hourEnd
    && (if g.startIsPrimary then g.start < g.end && g.start in TsOf(primary) else g.start == hourStart)
    && (if g.endIsPrimary then g.end in TsOf(primary) else g.end == hourEnd)
    && (forall t :: t in TsOf(primary) ==> !Inside(g, t))
  }

  ghost predicate EdgesOk(stamps: set<int>, edges: seq<int>, hourStart: int, hourEnd: int)
    ensures EdgesOk(stamps, edges, hourStart, hourEnd) ==> |edges| >= 2
  {
    && edges == [hourStart] + Ascending(stamps) + [hourEnd]
    && hourStart < hourEnd
    && (forall t :: t in stamps ==> hourStart <= t < hourEnd)
  }

  lemma EdgeAt(stamps: set<int>, edges: seq<int>, hourStart: int, hourEnd: int, i: nat)
    requires EdgesOk(stamps, edges, hourStart, hourEnd) && i < |edges|
    ensures |edges| == |Ascending(stamps)| + 2
    ensures edges[i] ==
      if i == 0 then hourStart else if i == |edges| - 1 then hourEnd else Ascending(stamps)[i - 1]
    ensures 0 < i < |edges| - 1 ==> edges[i] in stamps
  {
    hide Ascending;
    if 0 < i < |edges| - 1 { assert Ascending(stamps)[i - 1] in Ascending(stamps); }
  }

  lemma EdgeBefore(stamps: set<int>, edges: seq<int>, hourStart: int, hourEnd: int, i: nat, j: nat)
    requires EdgesOk(stamps, edges, hourStart, hourEnd) && i < j < |edges|
    ensures edges[i] <= edges[j] && (i > 0 ==> edges[i] < edges[j])
  {
    hide Ascending;
    EdgeAt(stamps, edges, hourStart, hourEnd, i);
    EdgeAt(stamps, edges, hourStart, hourEnd, j);
  }

  lemma EdgesOrdered(stamps: set<int>, edges: seq<int>, hourStart: int, hourEnd: int)
    requires EdgesOk(stamps, edges, hourStart, hourEnd)
    ensures Ordered(edges)
    ensures |edges| == |Ascending(stamps)| + 2 && edges[0] == hourStart && edges[|edges| - 1] == hourEnd
    ensures forall i, j :: 0 < i < j < |edges| ==> edges[i] < edges[j]
    ensures forall t :: t in stamps ==> exists i :: 0 < i < |edges| - 1 && edges[i] == t
  {
    hide Ascending, EdgesOk;
    EdgeAt(stamps, edges, hourStart, hourEnd, 0);
    EdgeAt(stamps, edges, hourStart, hourEnd, |edges| - 1);
    forall i, j | 0 <= i < j < |edges| ensures edges[i] <= edges[j] && (i > 0 ==> edges[i] < edges[j]) {
      EdgeBefore(stamps, edges, hourStart, hourEnd, i, j);
    }
    forall t | t in stamps ensures exists i :: 0 < i < |edges| - 1 && edges[i] == t {
      var k :| 0 <= k < |Ascending(stamps)| && Ascending(stamps)[k] == t;
      EdgeAt(stamps, edges, hourStart, hourEnd, k + 1);
      assert edges[k + 1] == t;
    }
  }

  lemma WindowSilent(primary: seq<BookRow>, edges: seq<int>, threshold: int, i: nat, g: Gap, hourStart: int, hourEnd: int)
    requires EdgesOk(TsOf(primary), edges, hourStart, hourEnd)
    requires i + 1 < |edges| && WindowAt(edges, threshold, i, g)
    ensures Silent(primary, hourStart, hourEnd, g)
  {
    EdgesOrdered(TsOf(primary), edges, hourStart, hourEnd);
    hide TsOf, Ascending;
    forall t | t in TsOf(primary) ensures !Inside(g, t) {
      var j :| 0 < j < |edges| - 1 && edges[j] == t;
      if j <= i { assert edges[j] <= edges[i]; } else { assert edges[i + 1] <= edges[j]; }
    }
  }

  lemma EmptyIsSilent(hourStart: int, hourEnd: int)
    requires hourStart <= hourEnd
    ensures Stamps([]) == [] && Silent([], hourStart, hourEnd, Gap(hourStart, hourEnd, false, false))
  {
  }

  /** What a silence is: in order, each a stretch of the hour the primary says nothing in, bounded by its own
      messages or by the hour, and wider than the threshold unless the primary said nothing at all. */
  lemma SilencesAreSilent(primary: seq<BookRow>, threshold: int, hourStart: int, hourEnd: int)
    requires PrimarySilence(primary, threshold, hourStart, hourEnd).Ok?
    ensures var gaps := PrimarySilence(primary, threshold, hourStart, hourEnd).value;
      && InOrder(gaps)
      && (forall g :: g in gaps ==> Silent(primary, hourStart, hourEnd, g) && (primary != [] ==> Width(g) > threshold))
  {
    hide TsOf, Stamps, Wide, Silent;
    StepwiseIsOrdered(primary);
    StampsAreAscending(primary);
    var gaps := PrimarySilence(primary, threshold, hourStart, hourEnd).value;
    if primary == [] {
      EmptyIsSilent(hourStart, hourEnd);
    } else {
      var edges := Edges(Stamps(primary), hourStart, hourEnd);
      TsWithin(primary, hourStart, hourEnd);
      EdgesOrdered(TsOf(primary), edges, hourStart, hourEnd);
      WideIs(edges, threshold, |edges| - 1);
      forall g | g in gaps ensures Silent(primary, hourStart, hourEnd, g) && Width(g) > threshold {
        var i :| 0 <= i < |edges| - 1 && WindowAt(edges, threshold, i, g);
        WindowSilent(primary, edges, threshold, i, g, hourStart, hourEnd);
      }
    }
  }

  /** No silence goes unreported: any stretch of the hour wider than the threshold without a primary message
      strictly inside it lies in one of the windows, the hour's two edges included. */
  lemma EverySilenceFound(primary: seq<BookRow>, threshold: int, hourStart: int, hourEnd: int, a: int, b: int)
    requires PrimarySilence(primary, threshold, hourStart, hourEnd).Ok?
    requires hourStart <= a < b <= hourEnd && b - a > threshold
    requires forall t :: t in TsOf(primary) ==> !(a < t < b)
    ensures exists g :: g in PrimarySilence(primary, threshold, hourStart, hourEnd).value && g.start <= a && b <= g.end
  {
    hide Ascending, Stamps, TsOf, Wide;
    StepwiseIsOrdered(primary);
    StampsAreAscending(primary);
    NoStamps();
    if primary == [] {
      assert Gap(hourStart, hourEnd, false, false) in PrimarySilence(primary, threshold, hourStart, hourEnd).value;
    } else {
      TsWithin(primary, hourStart, hourEnd);
      WideFinds(TsOf(primary), Edges(Stamps(primary), hourStart, hourEnd), threshold, hourStart, hourEnd, a, b);
    }
  }

  lemma NoStamps()
    ensures Stamps([]) == []
  {
  }

  lemma WideFinds(stamps: set<int>, edges: seq<int>, threshold: int, hourStart: int, hourEnd: int, a: int, b: int)
    requires EdgesOk(stamps, edges, hourStart, hourEnd)
    requires hourStart <= a < b <= hourEnd && b - a > threshold
    requires forall t :: t in stamps ==> !(a < t < b)
    ensures exists g :: g in Wide(edges, threshold, |edges| - 1) && g.start <= a && b <= g.end
  {
    hide Wide, Ascending;
    EdgesOrdered(stamps, edges, hourStart, hourEnd);
    forall k | 0 <= k < |edges| ensures !(a < edges[k] < b) {
      EdgeAt(stamps, edges, hourStart, hourEnd, k);
    }
    var i := BetweenNeighbours(edges, |edges| - 1, a, b);
    WideIs(edges, threshold, |edges| - 1);
    assert WindowAt(edges, threshold, i, Gap(edges[i], edges[i + 1], i != 0, i + 1 != |edges| - 1));
  }

  lemma {:induction false} Split(secondary: seq<BookRow>, gaps: seq<Gap>, g: Gap)
    ensures g in Witnessed(secondary, gaps) <==> g in gaps && Covers(secondary, g)
    ensures g in Unwitnessed(secondary, gaps) <==> g in gaps && !Covers(secondary, g)
  {
    hide Covers;
    if gaps != [] {
      var n := |gaps| - 1;
      Split(secondary, gaps[..n], g);
      assert g in gaps <==> g in gaps[..n] || g == gaps[n] by { assert gaps == gaps[..n] + [gaps[n]]; }
    }
  }

  /** The two halves of the partition hold every silence once, each on the side its witness decides. */
  lemma {:induction false} PartitionSplits(secondary: seq<BookRow>, gaps: seq<Gap>)
    ensures forall g :: g in Witnessed(secondary, gaps) <==> g in gaps && Covers(secondary, g)
    ensures forall g :: g in Unwitnessed(secondary, gaps) <==> g in gaps && !Covers(secondary, g)
    ensures multiset(Witnessed(secondary, gaps)) + multiset(Unwitnessed(secondary, gaps)) == multiset(gaps)
  {
    forall g
      ensures g in Witnessed(secondary, gaps) <==> g in gaps && Covers(secondary, g)
      ensures g in Unwitnessed(secondary, gaps) <==> g in gaps && !Covers(secondary, g)
    {
      Split(secondary, gaps, g);
    }
    SplitCounts(secondary, gaps);
  }

  lemma {:induction false} SplitCounts(secondary: seq<BookRow>, gaps: seq<Gap>)
    ensures multiset(Witnessed(secondary, gaps)) + multiset(Unwitnessed(secondary, gaps)) == multiset(gaps)
  {
    hide Covers;
    if gaps != [] {
      var n := |gaps| - 1;
      var front, g := gaps[..n], gaps[n];
      var a, b := Witnessed(secondary, front), Unwitnessed(secondary, front);
      SplitCounts(secondary, front);
      assert gaps == front + [g];
      assert Witnessed(secondary, gaps) == if Covers(secondary, g) then a + [g] else a;
      assert Unwitnessed(secondary, gaps) == if Covers(secondary, g) then b else b + [g];
      hide Witnessed, Unwitnessed;
    }
  }

  lemma InOrderSnoc(gaps: seq<Gap>, front: seq<Gap>, n: nat)
    requires InOrder(gaps) && n < |gaps| && InOrder(front)
    requires forall g :: g in front ==> g in gaps[..n]
    ensures InOrder(front + [gaps[n]])
  {
    forall k | 0 <= k < |front| ensures front[k].end <= gaps[n].start {
      assert front[k] in front;
      var i :| 0 <= i < n && gaps[..n][i] == front[k];
      assert gaps[i].end <= gaps[n].start;
    }
  }

  lemma {:induction false} WitnessedInOrder(secondary: seq<BookRow>, gaps: seq<Gap>)
    requires InOrder(gaps)
    ensures InOrder(Witnessed(secondary, gaps))
  {
    if gaps != [] {
      var n := |gaps| - 1;
      assert InOrder(gaps[..n]);
      hide Covers, InOrder;
      WitnessedInOrder(secondary, gaps[..n]);
      PartitionSplits(secondary, gaps[..n]);
      InOrderSnoc(gaps, Witnessed(secondary, gaps[..n]), n);
    }
  }

  // ---- the splice

  datatype Source = Primary | Secondary

  datatype Block = Block(source: Source, rows: seq<BookRow>)

  predicate Between(from: Option<int>, t: int, until: Option<int>) {
    (from.Some? ==> t >= from.value) && (until.Some? ==> t < until.value)
  }

  /** The rows a filter on `ts` keeps. */
  function Select(rows: seq<BookRow>, from: Option<int>, until: Option<int>): seq<BookRow> {
    if rows == [] then []
    else
      var last := rows[|rows| - 1];
      Select(rows[..|rows| - 1], from, until) + if Between(from, last.ts, until) then [last] else []
  }

  function InsideRows(rows: seq<BookRow>, g: Gap): seq<BookRow> {
    if rows == [] then []
    else
      var last := rows[|rows| - 1];
      InsideRows(rows[..|rows| - 1], g) + if Inside(g, last.ts) then [last] else []
  }

  function OneBlock(source: Source, rows: seq<BookRow>): seq<Block> {
    if rows == [] then [] else [Block(source, rows)]
  }

  /** The primary up to a gap: through its first bound when that is a primary message, else up to it. */
  function Head(primary: seq<BookRow>, gaps: seq<Gap>, n: nat): seq<BookRow>
    requires n < |gaps|
  {
    Select(primary, if n == 0 then None else Some(gaps[n - 1].end), Some(Lo(gaps[n])))
  }

  function BlocksOf(primary: seq<BookRow>, secondary: seq<BookRow>, gaps: seq<Gap>, n: nat): seq<Block>
    requires n <= |gaps|
  {
    if n == 0 then []
    else
      BlocksOf(primary, secondary, gaps, n - 1)
        + OneBlock(Primary, Head(primary, gaps, n - 1))
        + OneBlock(Secondary, InsideRows(secondary, gaps[n - 1]))
  }

  function Spliced(primary: seq<BookRow>, secondary: seq<BookRow>, gaps: seq<Gap>): seq<Block> {
    if gaps == [] then OneBlock(Primary, primary)
    else
      BlocksOf(primary, secondary, gaps, |gaps|)
        + OneBlock(Primary, Select(primary, Some(gaps[|gaps| - 1].end), None))
  }

  method SpliceBook(primary: seq<BookRow>, secondary: seq<BookRow>, gaps: seq<Gap>) returns (blocks: seq<Block>)
    ensures blocks == Spliced(primary, secondary, gaps)
  {
    hide Select, InsideRows, Lo;
    blocks := [];
    if gaps == [] {
      if primary != [] { blocks := [Block(Primary, primary)]; }
      return;
    }
    var cursor: Option<int> := None;
    var i := 0;
    while i < |gaps|
      invariant 0 <= i <= |gaps|
      invariant cursor == if i == 0 then None else Some(gaps[i - 1].end)
      invariant blocks == BlocksOf(primary, secondary, gaps, i)
    {
      var head := Select(primary, cursor, Some(Lo(gaps[i])));
      if head != [] { blocks := blocks + [Block(Primary, head)]; }
      var middle := InsideRows(secondary, gaps[i]);
      if middle != [] { blocks := blocks + [Block(Secondary, middle)]; }
      cursor := Some(gaps[i].end);
      i := i + 1;
    }
    var tail := Select(primary, Some(gaps[|gaps| - 1].end), None);
    if tail != [] { blocks := blocks + [Block(Primary, tail)]; }
  }

  function Minted(blocks: seq<Block>): seq<BookRow> {
    if blocks == [] then [] else Minted(blocks[..|blocks| - 1]) + blocks[|blocks| - 1].rows
  }

  function RowsFrom(source: Source, blocks: seq<Block>): seq<BookRow> {
    if blocks == [] then []
    else
      var last := blocks[|blocks| - 1];
      RowsFrom(source, blocks[..|blocks| - 1]) + if last.source == source then last.rows else []
  }

  lemma MintedMore(blocks: seq<Block>, source: Source, rows: seq<BookRow>)
    ensures Minted(blocks + OneBlock(source, rows)) == Minted(blocks) + rows
    ensures RowsFrom(source, blocks + OneBlock(source, rows)) == RowsFrom(source, blocks) + rows
    ensures forall other :: other != source ==> RowsFrom(other, blocks + OneBlock(source, rows)) == RowsFrom(other, blocks)
  {
    if rows == [] {
      assert blocks + [] == blocks;
    } else {
      var more := blocks + [Block(source, rows)];
      assert more[..|more| - 1] == blocks;
    }
  }

  /** One gap more: the primary up to it, then the secondary inside it. */
  lemma BlocksStep(primary: seq<BookRow>, secondary: seq<BookRow>, gaps: seq<Gap>, n: nat)
    requires n < |gaps|
    ensures var before, after := BlocksOf(primary, secondary, gaps, n), BlocksOf(primary, secondary, gaps, n + 1);
      && Minted(after) == Minted(before) + Head(primary, gaps, n) + InsideRows(secondary, gaps[n])
      && RowsFrom(Primary, after) == RowsFrom(Primary, before) + Head(primary, gaps, n)
      && RowsFrom(Secondary, after) == RowsFrom(Secondary, before) + InsideRows(secondary, gaps[n])
  {
    hide Head, InsideRows, Minted, RowsFrom, OneBlock;
    var before := BlocksOf(primary, secondary, gaps, n);
    var head := Head(primary, gaps, n);
    MintedMore(before, Primary, head);
    MintedMore(before + OneBlock(Primary, head), Secondary, InsideRows(secondary, gaps[n]));
  }

  lemma BlocksNone(primary: seq<BookRow>, secondary: seq<BookRow>, gaps: seq<Gap>)
    ensures Minted(BlocksOf(primary, secondary, gaps, 0)) == []
    ensures RowsFrom(Primary, BlocksOf(primary, secondary, gaps, 0)) == []
    ensures RowsFrom(Secondary, BlocksOf(primary, secondary, gaps, 0)) == []
  {
  }

  lemma {:induction false} SelectIsSlice(rows: seq<BookRow>, from: Option<int>, until: Option<int>, lo: int, hi: int)
    requires forall t :: t in TsOf(rows) ==> (Between(from, t, until) <==> lo <= t < hi)
    ensures Select(rows, from, until) == Slice(rows, lo, hi)
  {
    if rows != [] {
      TsOfSnoc(rows);
      SelectIsSlice(rows[..|rows| - 1], from, until, lo, hi);
    }
  }

  lemma {:induction false} InsideRowsIsSlice(rows: seq<BookRow>, g: Gap)
    ensures InsideRows(rows, g) == Slice(rows, Lo(g), Hi(g))
  {
    if rows != [] {
      InsideRowsIsSlice(rows[..|rows| - 1], g);
    }
  }

  /** What the gaps of a partition are to the primary they were found in. */
  ghost predicate Placed(primary: seq<BookRow>, gaps: seq<Gap>, hourStart: int, hourEnd: int) {
    && hourStart < hourEnd
    && NonDecreasing(primary)
    && (forall t :: t in TsOf(primary) ==> hourStart <= t < hourEnd)
    && InOrder(gaps)
    && (forall i :: 0 <= i < |gaps| ==> Silent(primary, hourStart, hourEnd, gaps[i]) && Lo(gaps[i]) < Hi(gaps[i]))
  }

  /** One gap after another: what the first owns ends where the next begins, at the latest. */
  lemma Neighbours(primary: seq<BookRow>, gaps: seq<Gap>, hourStart: int, hourEnd: int, n: nat)
    requires Placed(primary, gaps, hourStart, hourEnd) && n + 1 < |gaps|
    ensures gaps[n].endIsPrimary && Hi(gaps[n]) <= Lo(gaps[n + 1])
  {
    assert Silent(primary, hourStart, hourEnd, gaps[n]) && Silent(primary, hourStart, hourEnd, gaps[n + 1]);
    assert gaps[n].end <= gaps[n + 1].start;
    assert Lo(gaps[n + 1]) < Hi(gaps[n + 1]);
  }

  /** The instant the first `n` gaps have been spliced up to. */
  function Reach(gaps: seq<Gap>, n: nat, hourStart: int): int
    requires n <= |gaps|
  {
    if n == 0 then hourStart else Hi(gaps[n - 1])
  }

  lemma HeadIs(primary: seq<BookRow>, gaps: seq<Gap>, hourStart: int, hourEnd: int, n: nat)
    requires Placed(primary, gaps, hourStart, hourEnd) && n < |gaps|
    ensures Reach(gaps, n, hourStart) <= Lo(gaps[n]) < Hi(gaps[n])
    ensures Head(primary, gaps, n) == Slice(primary, Reach(gaps, n, hourStart), Lo(gaps[n]))
    ensures Slice(primary, Reach(gaps, n, hourStart), Hi(gaps[n])) == Head(primary, gaps, n)
  {
    var g := gaps[n];
    assert Silent(primary, hourStart, hourEnd, g);
    if n > 0 { Neighbours(primary, gaps, hourStart, hourEnd, n - 1); }
    var lo := Reach(gaps, n, hourStart);
    SelectIsSlice(primary, if n == 0 then None else Some(gaps[n - 1].end), Some(Lo(g)), lo, Lo(g));
    forall t | t in TsOf(primary) ensures !(Lo(g) <= t < Hi(g)) {
      InsideIsSlice(g, t);
    }
    SliceEmpty(primary, Lo(g), Hi(g));
    SliceJoins(primary, lo, Lo(g), Hi(g));
  }

  // ---- conservation and order

  /** The secondary owns `t`: some gap does. */
  ghost predicate Owned(gaps: seq<Gap>, n: nat, t: int)
    requires n <= |gaps|
  {
    exists i :: 0 <= i < n && Inside(gaps[i], t)
  }

  lemma {:induction false} PrimaryConserved(primary: seq<BookRow>, secondary: seq<BookRow>, gaps: seq<Gap>, hourStart: int, hourEnd: int, n: nat)
    requires Placed(primary, gaps, hourStart, hourEnd) && n <= |gaps|
    ensures hourStart <= Reach(gaps, n, hourStart)
    ensures RowsFrom(Primary, BlocksOf(primary, secondary, gaps, n)) == Slice(primary, hourStart, Reach(gaps, n, hourStart))
  {
    hide BlocksOf, RowsFrom, Minted, Head, InsideRows, TsOf, Select;
    if n == 0 {
      BlocksNone(primary, secondary, gaps);
      SliceEmpty(primary, hourStart, hourStart);
    } else {
      PrimaryConserved(primary, secondary, gaps, hourStart, hourEnd, n - 1);
      HeadIs(primary, gaps, hourStart, hourEnd, n - 1);
      BlocksStep(primary, secondary, gaps, n - 1);
      SliceJoins(primary, hourStart, Reach(gaps, n - 1, hourStart), Hi(gaps[n - 1]));
    }
  }

  function Rejoined(secondary: seq<BookRow>, gaps: seq<Gap>, n: nat): seq<BookRow>
    requires n <= |gaps|
  {
    if n == 0 then [] else Rejoined(secondary, gaps, n - 1) + InsideRows(secondary, gaps[n - 1])
  }

  lemma {:induction false} SecondaryTaken(primary: seq<BookRow>, secondary: seq<BookRow>, gaps: seq<Gap>, n: nat)
    requires n <= |gaps|
    ensures RowsFrom(Secondary, BlocksOf(primary, secondary, gaps, n)) == Rejoined(secondary, gaps, n)
  {
    hide BlocksOf, RowsFrom, Head, InsideRows;
    if n == 0 {
      BlocksNone(primary, secondary, gaps);
    } else {
      SecondaryTaken(primary, secondary, gaps, n - 1);
      BlocksStep(primary, secondary, gaps, n - 1);
    }
  }

  /** The tail is what the primary says from the last gap on. */
  lemma TailIs(primary: seq<BookRow>, gaps: seq<Gap>, hourStart: int, hourEnd: int)
    requires Placed(primary, gaps, hourStart, hourEnd) && gaps != []
    ensures hourStart <= Hi(gaps[|gaps| - 1]) <= hourEnd + 1
    ensures Select(primary, Some(gaps[|gaps| - 1].end), None) == Slice(primary, Hi(gaps[|gaps| - 1]), hourEnd + 1)
  {
    var g := gaps[|gaps| - 1];
    assert Silent(primary, hourStart, hourEnd, g);
    forall t | t in TsOf(primary) ensures Between(Some(g.end), t, None) <==> Hi(g) <= t < hourEnd + 1 {
      InsideIsSlice(g, t);
    }
    SelectIsSlice(primary, Some(g.end), None, Hi(g), hourEnd + 1);
  }

  lemma {:induction false} NonDecreasingSum(a: seq<BookRow>, b: seq<BookRow>, mid: int)
    requires NonDecreasing(a) && NonDecreasing(b)
    requires forall t :: t in TsOf(a) ==> t < mid
    requires forall t :: t in TsOf(b) ==> t >= mid
    ensures NonDecreasing(a + b)
  {
    forall i, j | 0 <= i < j < |a + b| ensures (a + b)[i].ts <= (a + b)[j].ts {
      if i < |a| <= j {
        assert a[i].ts in TsOf(a) && b[j - |a|].ts in TsOf(b);
      }
    }
  }

  lemma PlacedOrdered(primary: seq<BookRow>, gaps: seq<Gap>, hourStart: int, hourEnd: int)
    requires Placed(primary, gaps, hourStart, hourEnd)
    ensures NonDecreasing(primary)
  {
  }

  lemma NoRows(lo: int, hi: int)
    ensures NonDecreasing([]) && TsOf([]) == {} && Slice([], lo, hi) == []
  {
  }

  /** Stamps below `mid`, then `b` from it up to `hi`. */
  lemma Appended(a: seq<BookRow>, b: seq<BookRow>, mid: int, hi: int)
    requires NonDecreasing(a) && (forall t :: t in TsOf(a) ==> t < mid)
    requires NonDecreasing(b) && (forall t :: t in TsOf(b) ==> mid <= t < hi)
    requires mid <= hi
    ensures NonDecreasing(a + b) && (forall t :: t in TsOf(a + b) ==> t < hi)
  {
    NonDecreasingSum(a, b, mid);
    TsOfSum(a, b);
  }

  lemma {:induction false} MintedInOrder(primary: seq<BookRow>, secondary: seq<BookRow>, gaps: seq<Gap>, hourStart: int, hourEnd: int, n: nat)
    requires Placed(primary, gaps, hourStart, hourEnd) && n <= |gaps|
    requires NonDecreasing(secondary)
    ensures NonDecreasing(Minted(BlocksOf(primary, secondary, gaps, n)))
    ensures forall t :: t in TsOf(Minted(BlocksOf(primary, secondary, gaps, n))) ==> t < Reach(gaps, n, hourStart)
  {
    hide BlocksOf, RowsFrom, Minted, Head, InsideRows, TsOf, Select, NonDecreasing, Slice, Placed;
    PlacedOrdered(primary, gaps, hourStart, hourEnd);
    if n == 0 {
      BlocksNone(primary, secondary, gaps);
      NoRows(0, 0);
    } else {
      MintedInOrder(primary, secondary, gaps, hourStart, hourEnd, n - 1);
      HeadIs(primary, gaps, hourStart, hourEnd, n - 1);
      var g, lo := gaps[n - 1], Reach(gaps, n - 1, hourStart);
      var before := Minted(BlocksOf(primary, secondary, gaps, n - 1));
      var head, middle := Head(primary, gaps, n - 1), InsideRows(secondary, g);
      BlocksStep(primary, secondary, gaps, n - 1);
      InsideRowsIsSlice(secondary, g);
      SliceHolds(primary, lo, Lo(g));
      SliceHolds(secondary, Lo(g), Hi(g));
      Appended(before, head, lo, Lo(g));
      Appended(before + head, middle, Lo(g), Hi(g));
    }
  }

  lemma {:induction false} SliceSum(a: seq<BookRow>, b: seq<BookRow>, lo: int, hi: int)
    ensures Slice(a + b, lo, hi) == Slice(a, lo, hi) + Slice(b, lo, hi)
  {
    if b == [] {
      assert a + b == a;
    } else {
      var front, last := b[..|b| - 1], b[|b| - 1];
      SliceSum(a, front, lo, hi);
      assert (a + b)[..|a + b| - 1] == a + front;
    }
  }

  /** A slice of a slice, at one instant. */
  lemma {:induction false} InstantOfSlice(rows: seq<BookRow>, lo: int, hi: int, t: int)
    ensures Slice(Slice(rows, lo, hi), t, t + 1) == if lo <= t < hi then Slice(rows, t, t + 1) else []
  {
    if rows != [] {
      var front, last := rows[..|rows| - 1], rows[|rows| - 1];
      InstantOfSlice(front, lo, hi, t);
      SliceSum(Slice(front, lo, hi), if lo <= last.ts < hi then [last] else [], t, t + 1);
      assert Slice([last], t, t + 1) == if last.ts == t then [last] else [] by {
        assert [last][..0] == [];
      }
    }
  }

  /** At every instant the spliced hour has one source's rows, whole: the secondary's inside a gap, else the primary's. */
  lemma {:induction false} InstantOfBlocks(primary: seq<BookRow>, secondary: seq<BookRow>, gaps: seq<Gap>, hourStart: int, hourEnd: int, n: nat, t: int)
    requires Placed(primary, gaps, hourStart, hourEnd) && n <= |gaps| && t >= hourStart
    ensures Slice(Minted(BlocksOf(primary, secondary, gaps, n)), t, t + 1) ==
      if t >= Reach(gaps, n, hourStart) then []
      else if Owned(gaps, n, t) then Slice(secondary, t, t + 1)
      else Slice(primary, t, t + 1)
  {
    hide BlocksOf, RowsFrom, Minted, Head, InsideRows, TsOf, Select, Slice, Placed, Silent;
    if n == 0 {
      BlocksNone(primary, secondary, gaps);
      NoRows(t, t + 1);
    } else {
      InstantOfBlocks(primary, secondary, gaps, hourStart, hourEnd, n - 1, t);
      HeadIs(primary, gaps, hourStart, hourEnd, n - 1);
      var g, lo := gaps[n - 1], Reach(gaps, n - 1, hourStart);
      var before := Minted(BlocksOf(primary, secondary, gaps, n - 1));
      var head, middle := Head(primary, gaps, n - 1), InsideRows(secondary, g);
      BlocksStep(primary, secondary, gaps, n - 1);
      InsideRowsIsSlice(secondary, g);
      InstantOfSlice(primary, lo, Lo(g), t);
      InstantOfSlice(secondary, Lo(g), Hi(g), t);
      SliceSum(before, head, t, t + 1);
      SliceSum(before + head, middle, t, t + 1);
      InsideIsSlice(g, t);
      OwnedBefore(primary, gaps, hourStart, hourEnd, n - 1, t);
      assert Owned(gaps, n, t) <==> Owned(gaps, n - 1, t) || Inside(g, t);
    }
  }

  /** What the first gaps own is behind their reach. */
  lemma {:induction false} OwnedBefore(primary: seq<BookRow>, gaps: seq<Gap>, hourStart: int, hourEnd: int, n: nat, t: int)
    requires Placed(primary, gaps, hourStart, hourEnd) && n <= |gaps|
    ensures Owned(gaps, n, t) ==> t < Reach(gaps, n, hourStart)
  {
    if n > 0 {
      OwnedBefore(primary, gaps, hourStart, hourEnd, n - 1, t);
      InsideIsSlice(gaps[n - 1], t);
      HeadIs(primary, gaps, hourStart, hourEnd, n - 1);
    }
  }

  /** The gaps a partition admits are placed in the primary it partitioned. */
  lemma WitnessedPlaced(primary: seq<BookRow>, secondary: seq<BookRow>, threshold: int, hourStart: int, hourEnd: int)
    requires Partition(primary, secondary, threshold, hourStart, hourEnd).Ok?
    ensures Placed(primary, Partition(primary, secondary, threshold, hourStart, hourEnd).value.0, hourStart, hourEnd)
    ensures NonDecreasing(secondary) && WithinHour(primary, hourStart, hourEnd) && WithinHour(secondary, hourStart, hourEnd)
  {
    hide Stamps, Wide, TsOf, Silent;
    StepwiseIsOrdered(primary);
    StepwiseIsOrdered(secondary);
    SilencesAreSilent(primary, threshold, hourStart, hourEnd);
    var all := PrimarySilence(primary, threshold, hourStart, hourEnd).value;
    var gaps := Partition(primary, secondary, threshold, hourStart, hourEnd).value.0;
    PartitionSplits(secondary, all);
    WitnessedInOrder(secondary, all);
    TsWithin(primary, hourStart, hourEnd);
    forall i | 0 <= i < |gaps| ensures Silent(primary, hourStart, hourEnd, gaps[i]) && Lo(gaps[i]) < Hi(gaps[i]) {
      assert gaps[i] in gaps;
      var k :| 0 <= k < |secondary| && secondary[k].isUpdate && Inside(gaps[i], secondary[k].ts);
      InsideIsSlice(gaps[i], secondary[k].ts);
    }
  }

  lemma TsWithin(rows: seq<BookRow>, hourStart: int, hourEnd: int)
    requires WithinHour(rows, hourStart, hourEnd)
    ensures forall t :: t in TsOf(rows) ==> hourStart <= t < hourEnd
  {
  }

  function RowsAt(rows: seq<BookRow>, t: int): seq<BookRow> {
    Slice(rows, t, t + 1)
  }

  /** The rows a minted hour must have at `t`: the secondary's inside a gap, else the primary's. */
  function OwnersRows(primary: seq<BookRow>, secondary: seq<BookRow>, gaps: seq<Gap>, t: int): seq<BookRow> {
    if exists i :: 0 <= i < |gaps| && Inside(gaps[i], t) then RowsAt(secondary, t) else RowsAt(primary, t)
  }

  lemma MintedTail(primary: seq<BookRow>, secondary: seq<BookRow>, gaps: seq<Gap>)
    requires gaps != []
    ensures var before, after := BlocksOf(primary, secondary, gaps, |gaps|), Spliced(primary, secondary, gaps);
      var tail := Select(primary, Some(gaps[|gaps| - 1].end), None);
      && Minted(after) == Minted(before) + tail
      && RowsFrom(Primary, after) == RowsFrom(Primary, before) + tail
      && RowsFrom(Secondary, after) == RowsFrom(Secondary, before)
  {
    hide BlocksOf, Select, Minted, RowsFrom, OneBlock;
    MintedMore(BlocksOf(primary, secondary, gaps, |gaps|), Primary, Select(primary, Some(gaps[|gaps| - 1].end), None));
  }

  lemma SplicedNothing(primary: seq<BookRow>, secondary: seq<BookRow>)
    ensures Minted(Spliced(primary, secondary, [])) == primary
    ensures RowsFrom(Primary, Spliced(primary, secondary, [])) == primary
    ensures RowsFrom(Secondary, Spliced(primary, secondary, [])) == []
  {
    MintedMore([], Primary, primary);
    assert [] + OneBlock(Primary, primary) == OneBlock(Primary, primary);
  }

  lemma SplicedRows(primary: seq<BookRow>, secondary: seq<BookRow>, gaps: seq<Gap>, hourStart: int, hourEnd: int)
    requires Placed(primary, gaps, hourStart, hourEnd)
    ensures RowsFrom(Primary, Spliced(primary, secondary, gaps)) == primary
    ensures RowsFrom(Secondary, Spliced(primary, secondary, gaps)) == Rejoined(secondary, gaps, |gaps|)
  {
    hide BlocksOf, RowsFrom, Minted, Spliced, Select, Slice, TsOf;
    if gaps == [] {
      SplicedNothing(primary, secondary);
    } else {
      MintedTail(primary, secondary, gaps);
      PrimaryConserved(primary, secondary, gaps, hourStart, hourEnd, |gaps|);
      SecondaryTaken(primary, secondary, gaps, |gaps|);
      TailIs(primary, gaps, hourStart, hourEnd);
      SliceJoins(primary, hourStart, Hi(gaps[|gaps| - 1]), hourEnd + 1);
      SliceWhole(primary, hourStart, hourEnd + 1);
    }
  }

  lemma SplicedInOrder(primary: seq<BookRow>, secondary: seq<BookRow>, gaps: seq<Gap>, hourStart: int, hourEnd: int)
    requires Placed(primary, gaps, hourStart, hourEnd) && NonDecreasing(secondary)
    ensures NonDecreasing(Minted(Spliced(primary, secondary, gaps)))
  {
    hide BlocksOf, Minted, Spliced, Select, Slice, TsOf, NonDecreasing, Placed;
    PlacedOrdered(primary, gaps, hourStart, hourEnd);
    if gaps == [] {
      SplicedNothing(primary, secondary);
    } else {
      var reach := Hi(gaps[|gaps| - 1]);
      MintedTail(primary, secondary, gaps);
      MintedInOrder(primary, secondary, gaps, hourStart, hourEnd, |gaps|);
      TailIs(primary, gaps, hourStart, hourEnd);
      SliceHolds(primary, reach, hourEnd + 1);
      Appended(Minted(BlocksOf(primary, secondary, gaps, |gaps|)), Slice(primary, reach, hourEnd + 1), reach, hourEnd + 1);
    }
  }

  lemma SplicedAt(primary: seq<BookRow>, secondary: seq<BookRow>, gaps: seq<Gap>, hourStart: int, hourEnd: int, t: int)
    requires Placed(primary, gaps, hourStart, hourEnd) && hourStart <= t <= hourEnd
    ensures Slice(Minted(Spliced(primary, secondary, gaps)), t, t + 1) == OwnersRows(primary, secondary, gaps, t)
  {
    hide BlocksOf, Minted, Spliced, Select, Slice, TsOf, Placed;
    if gaps == [] {
      SplicedNothing(primary, secondary);
    } else {
      var n, reach := |gaps|, Hi(gaps[|gaps| - 1]);
      MintedTail(primary, secondary, gaps);
      InstantOfBlocks(primary, secondary, gaps, hourStart, hourEnd, n, t);
      OwnedBefore(primary, gaps, hourStart, hourEnd, n, t);
      TailIs(primary, gaps, hourStart, hourEnd);
      InstantOfSlice(primary, reach, hourEnd + 1, t);
      SliceSum(Minted(BlocksOf(primary, secondary, gaps, n)), Slice(primary, reach, hourEnd + 1), t, t + 1);
      assert Owned(gaps, n, t) <==> exists i :: 0 <= i < |gaps| && Inside(gaps[i], t);
    }
  }

  /** Splicing the gaps a partition admits: the primary blocks are the whole primary, unchanged; the secondary
      blocks are the rows each gap owns, gap after gap; the minted hour never steps back, so measuring it is never
      refused; and at every instant it holds one source's rows, whole, the secondary's exactly where a gap owns the
      instant, which no primary row shares. */
  lemma SpliceConserves(primary: seq<BookRow>, secondary: seq<BookRow>, threshold: int, hourStart: int, hourEnd: int)
    requires Partition(primary, secondary, threshold, hourStart, hourEnd).Ok?
    ensures var gaps := Partition(primary, secondary, threshold, hourStart, hourEnd).value.0;
      var blocks := Spliced(primary, secondary, gaps);
      && RowsFrom(Primary, blocks) == primary
      && RowsFrom(Secondary, blocks) == Rejoined(secondary, gaps, |gaps|)
      && MessageTs(Minted(blocks)) == Ok(Ascending(TsOf(Minted(blocks))))
      && (forall t: int :: RowsAt(Minted(blocks), t) == OwnersRows(primary, secondary, gaps, t))
      && (forall t, i :: t in TsOf(primary) && 0 <= i < |gaps| ==> !Inside(gaps[i], t))
  {
    hide Partition, Spliced, Minted, RowsFrom, Slice, Select, TsOf, OwnersRows, Ascending, Stamps;
    WitnessedPlaced(primary, secondary, threshold, hourStart, hourEnd);
    var gaps := Partition(primary, secondary, threshold, hourStart, hourEnd).value.0;
    var minted := Minted(Spliced(primary, secondary, gaps));
    SplicedRows(primary, secondary, gaps, hourStart, hourEnd);
    SplicedInOrder(primary, secondary, gaps, hourStart, hourEnd);
    StepwiseIsOrdered(minted);
    StampsAreAscending(minted);
    forall t: int ensures RowsAt(minted, t) == OwnersRows(primary, secondary, gaps, t) {
      if hourStart <= t <= hourEnd {
        SplicedAt(primary, secondary, gaps, hourStart, hourEnd, t);
      } else {
        NothingOutside(primary, secondary, gaps, hourStart, hourEnd, t);
      }
    }
    forall t, i | t in TsOf(primary) && 0 <= i < |gaps| ensures !Inside(gaps[i], t) {
      assert Silent(primary, hourStart, hourEnd, gaps[i]);
    }
  }

  lemma {:induction false} RowsOfEither(blocks: seq<Block>, t: int)
    ensures t in TsOf(Minted(blocks)) <==> t in TsOf(RowsFrom(Primary, blocks)) || t in TsOf(RowsFrom(Secondary, blocks))
  {
    if blocks != [] {
      var front, last := blocks[..|blocks| - 1], blocks[|blocks| - 1];
      RowsOfEither(front, t);
      TsOfSum(Minted(front), last.rows);
      TsOfSum(RowsFrom(Primary, front), last.rows);
      TsOfSum(RowsFrom(Secondary, front), last.rows);
      assert RowsFrom(Primary, front) + [] == RowsFrom(Primary, front);
      assert RowsFrom(Secondary, front) + [] == RowsFrom(Secondary, front);
    }
  }

  lemma {:induction false} RejoinedTs(secondary: seq<BookRow>, gaps: seq<Gap>, n: nat)
    requires n <= |gaps|
    ensures TsOf(Rejoined(secondary, gaps, n)) <= TsOf(secondary)
  {
    if n > 0 {
      RejoinedTs(secondary, gaps, n - 1);
      InsideRowsIsSlice(secondary, gaps[n - 1]);
      SliceHolds(secondary, Lo(gaps[n - 1]), Hi(gaps[n - 1]));
      TsOfSum(Rejoined(secondary, gaps, n - 1), InsideRows(secondary, gaps[n - 1]));
    }
  }

  /** Outside the hour there is nothing on either side. */
  lemma NothingOutside(primary: seq<BookRow>, secondary: seq<BookRow>, gaps: seq<Gap>, hourStart: int, hourEnd: int, t: int)
    requires Placed(primary, gaps, hourStart, hourEnd)
    requires WithinHour(primary, hourStart, hourEnd) && WithinHour(secondary, hourStart, hourEnd)
    requires !(hourStart <= t <= hourEnd)
    ensures Slice(Minted(Spliced(primary, secondary, gaps)), t, t + 1) == []
    ensures OwnersRows(primary, secondary, gaps, t) == []
  {
    hide Spliced, Minted, RowsFrom, Slice, TsOf, Placed;
    var blocks := Spliced(primary, secondary, gaps);
    TsWithin(primary, hourStart, hourEnd);
    TsWithin(secondary, hourStart, hourEnd);
    SplicedRows(primary, secondary, gaps, hourStart, hourEnd);
    RejoinedTs(secondary, gaps, |gaps|);
    RowsOfEither(blocks, t);
    SliceEmpty(Minted(blocks), t, t + 1);
    SliceEmpty(primary, t, t + 1);
    SliceEmpty(secondary, t, t + 1);
  }

  // ---- the rows at every instant are the stream

  lemma RowsAtSnoc(rows: seq<BookRow>, t: int)
    requires rows != []
    ensures var front, last := rows[..|rows| - 1], rows[|rows| - 1];
      RowsAt(rows, t) == if last.ts == t then RowsAt(front, t) + [last] else RowsAt(front, t)
  {
    assert RowsAt(rows[..|rows| - 1], t) + [] == RowsAt(rows[..|rows| - 1], t);
  }

  lemma SeenAt(rows: seq<BookRow>, t: int)
    ensures t in TsOf(rows) <==> RowsAt(rows, t) != []
  {
    SliceHolds(rows, t, t + 1);
    var s := Slice(rows, t, t + 1);
    if s != [] {
      assert s[0].ts in TsOf(s);
    }
  }

  lemma LastIsLatest(rows: seq<BookRow>, t: int)
    requires NonDecreasing(rows) && rows != []
    ensures t in TsOf(rows) ==> t <= rows[|rows| - 1].ts
    ensures RowsAt(rows, rows[|rows| - 1].ts) != []
  {
    assert rows[|rows| - 1].ts in TsOf(rows);
    SeenAt(rows, rows[|rows| - 1].ts);
  }

  lemma SameLast(a: seq<BookRow>, b: seq<BookRow>)
    requires NonDecreasing(a) && NonDecreasing(b) && a != [] && b != []
    requires forall t: int :: RowsAt(a, t) == RowsAt(b, t)
    ensures a[|a| - 1].ts == b[|b| - 1].ts
  {
    var s, t := a[|a| - 1].ts, b[|b| - 1].ts;
    hide RowsAt, TsOf;
    LastIsLatest(a, t);
    LastIsLatest(b, s);
    SeenAt(a, t);
    SeenAt(b, s);
  }

  lemma SomewhereMeansSome(a: seq<BookRow>, t: int)
    ensures RowsAt(a, t) != [] ==> a != []
  {
  }

  lemma SameEmpty(a: seq<BookRow>, b: seq<BookRow>)
    requires NonDecreasing(b) && forall t: int :: RowsAt(a, t) == RowsAt(b, t)
    ensures b != [] ==> a != []
  {
    hide RowsAt, TsOf;
    if b != [] {
      LastIsLatest(b, 0);
      SomewhereMeansSome(a, b[|b| - 1].ts);
    }
  }

  /** Two streams that never step back and agree at every instant are the same stream: `SpliceConserves` leaves
      nothing of the minted hour open. */
  lemma {:induction false} SameInstants(a: seq<BookRow>, b: seq<BookRow>)
    requires NonDecreasing(a) && NonDecreasing(b)
    requires forall t: int :: RowsAt(a, t) == RowsAt(b, t)
    ensures a == b
    decreases |a| + |b|
  {
    hide RowsAt, TsOf;
    if a == [] || b == [] {
      SameEmpty(a, b);
      SameEmpty(b, a);
    } else {
      var x, y := a[|a| - 1], b[|b| - 1];
      var c, d := a[..|a| - 1], b[..|b| - 1];
      SameLast(a, b);
      RowsAtSnoc(a, x.ts);
      RowsAtSnoc(b, x.ts);
      SnocSame(RowsAt(c, x.ts), RowsAt(d, x.ts), x, y);
      forall t: int ensures RowsAt(c, t) == RowsAt(d, t) {
        RowsAtSnoc(a, t);
        RowsAtSnoc(b, t);
        assert RowsAt(a, t) == RowsAt(b, t);
      }
      SameInstants(c, d);
      assert a == c + [x] && b == d + [y];
    }
  }
}
