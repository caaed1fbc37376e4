/** What a splice leaves unfilled, `measure_residual` of `cli/archive/reconcile.py`: the same whether the witness or the
    minted hour is measured, and never more than what was claimed. */
module Residuals {
  import opened Prelude
  import opened Sorting
  import opened Reconcile

  /** The marks a gap is measured against. */
  function Marks(stamps: seq<int>, g: Gap): seq<int> {
    if stamps == [] then []
    else
      var last := stamps[|stamps| - 1];
      Marks(stamps[..|stamps| - 1], g) + if g.start <= last <= g.end then [last] else []
  }

  function Bounds(stamps: seq<int>, g: Gap): seq<int> {
    [g.start] + Marks(stamps, g) + [g.end]
  }

  /** A window inside `g`: a bound that is the gap's own keeps its ownership. */
  function Residue(g: Gap, lo: int, hi: int): Gap {
    Gap(lo, hi, lo == g.start && g.startIsPrimary, hi == g.end && g.endIsPrimary)
  }

  function Unfilled(bounds: seq<int>, threshold: int, g: Gap, n: nat): seq<Gap>
    requires n < |bounds|
  {
    if n == 0 then []
    else
      Unfilled(bounds, threshold, g, n - 1)
        + if bounds[n] - bounds[n - 1] <= threshold then [] else [Residue(g, bounds[n - 1], bounds[n])]
  }

  function ResidueOf(stamps: seq<int>, threshold: int, g: Gap): seq<Gap> {
    Unfilled(Bounds(stamps, g), threshold, g, |Bounds(stamps, g)| - 1)
  }

  function Residual(gaps: seq<Gap>, stamps: seq<int>, threshold: int): seq<Gap> {
    if gaps == [] then []
    else Residual(gaps[..|gaps| - 1], stamps, threshold) + ResidueOf(stamps, threshold, gaps[|gaps| - 1])
  }

  function Measured(gaps: seq<Gap>, rows: seq<BookRow>, threshold: int): Result<seq<Gap>, Error> {
    if gaps == [] then Ok([])
    else
      var stamps :- MessageTs(rows);
      Ok(Residual(gaps, stamps, threshold))
  }

  method MeasureResidual(gaps: seq<Gap>, rows: seq<BookRow>, threshold: int) returns (r: Result<seq<Gap>, Error>)
    ensures r == Measured(gaps, rows, threshold)
  {
    hide Bounds;
    if gaps == [] { return Ok([]); }
    var stamps :- MessageTs(rows);
    var residual: seq<Gap> := [];
    var i := 0;
    assert gaps[..|gaps|] == gaps;
    while i < |gaps|
      invariant 0 <= i <= |gaps|
      invariant residual == Residual(gaps[..i], stamps, threshold)
    {
      var g := gaps[i];
      ghost var before := residual;
      var bounds := [g.start] + Marks(stamps, g) + [g.end];
      var k := 0;
      while k < |bounds| - 1
        invariant 0 <= k <= |bounds| - 1
        invariant residual == before + Unfilled(bounds, threshold, g, k)
      {
        if bounds[k + 1] - bounds[k] > threshold {
          residual := residual + [Residue(g, bounds[k], bounds[k + 1])];
        }
        k := k + 1;
      }
      ResidualSnoc(gaps, stamps, threshold, i);
      i := i + 1;
    }
    return Ok(residual);
  }

  lemma ResidualSnoc(gaps: seq<Gap>, stamps: seq<int>, threshold: int, i: nat)
    requires i < |gaps|
    ensures Residual(gaps[..i + 1], stamps, threshold) == Residual(gaps[..i], stamps, threshold) + ResidueOf(stamps, threshold, gaps[i])
    ensures Bounds(stamps, gaps[i]) == [gaps[i].start] + Marks(stamps, gaps[i]) + [gaps[i].end]
  {
    hide ResidueOf;
    assert gaps[..i + 1][..i] == gaps[..i];
  }

  // ---- what is left of one gap

  /** The instants that bound a gap's windows: its own ends and every stamp strictly inside it. */
  ghost predicate Bound(stamps: set<int>, g: Gap, t: int) {
    t == g.start || t == g.end || (t in stamps && g.start < t < g.end)
  }

  /** `h` is a hole of `g`: wider than the threshold, between two bounds, with none strictly inside. */
  ghost predicate Hole(stamps: set<int>, threshold: int, g: Gap, h: Gap) {
    && Bound(stamps, g, h.start) && Bound(stamps, g, h.end)
    && h.end - h.start > threshold
    && h == Residue(g, h.start, h.end)
    && (forall t: int :: Bound(stamps, g, t) ==> !(h.start < t < h.end))
  }

  lemma {:induction false} MarksOf(stamps: seq<int>, g: Gap)
    requires Increasing(stamps)
    ensures Increasing(Marks(stamps, g))
    ensures forall t :: t in Marks(stamps, g) <==> t in stamps && g.start <= t <= g.end
  {
    if stamps != [] {
      var n := |stamps| - 1;
      var front, last := stamps[..n], stamps[n];
      MarksOf(front, g);
      assert stamps == front + [last];
      forall i | 0 <= i < |Marks(front, g)| ensures Marks(front, g)[i] < last {
        assert Marks(front, g)[i] in Marks(front, g);
        var k :| 0 <= k < n && front[k] == Marks(front, g)[i];
      }
    }
  }

  lemma BoundsOf(stamps: set<int>, g: Gap)
    requires g.start <= g.end
    ensures Ordered(Bounds(Ascending(stamps), g))
    ensures forall t :: t in Bounds(Ascending(stamps), g) <==> Bound(stamps, g, t)
  {
    var s := Ascending(stamps);
    MarksOf(s, g);
    hide Ascending;
    var marks, bounds := Marks(s, g), Bounds(s, g);
    forall i | 0 <= i < |bounds| ensures g.start <= bounds[i] <= g.end {
      if 0 < i < |bounds| - 1 { assert bounds[i] == marks[i - 1] && marks[i - 1] in marks; }
    }
    forall i, j | 0 <= i < j < |bounds| ensures bounds[i] <= bounds[j] {
      if 0 < i && j < |bounds| - 1 { assert bounds[i] == marks[i - 1] && bounds[j] == marks[j - 1]; }
    }
    forall t ensures t in bounds <==> Bound(stamps, g, t) {
      assert t in bounds <==> t == g.start || t in marks || t == g.end;
    }
  }

  predicate UnfilledAt(bounds: seq<int>, threshold: int, g: Gap, i: nat, h: Gap)
    requires i + 1 < |bounds|
  {
    bounds[i + 1] - bounds[i] > threshold && h == Residue(g, bounds[i], bounds[i + 1])
  }

  lemma {:induction false} UnfilledIs(bounds: seq<int>, threshold: int, g: Gap, n: nat)
    requires n < |bounds| && Ordered(bounds)
    ensures forall h :: h in Unfilled(bounds, threshold, g, n) <==> exists i :: 0 <= i < n && UnfilledAt(bounds, threshold, g, i, h)
    ensures InOrder(Unfilled(bounds, threshold, g, n))
  {
    if n > 0 {
      UnfilledIs(bounds, threshold, g, n - 1);
      var front := Unfilled(bounds, threshold, g, n - 1);
      forall k | 0 <= k < |front| ensures front[k].end <= bounds[n - 1] {
        assert front[k] in front;
        var i :| 0 <= i < n - 1 && UnfilledAt(bounds, threshold, g, i, front[k]);
        assert bounds[i + 1] <= bounds[n - 1];
      }
      forall h ensures h in Unfilled(bounds, threshold, g, n) <==> exists i :: 0 <= i < n && UnfilledAt(bounds, threshold, g, i, h) {
        assert h in Unfilled(bounds, threshold, g, n) <==> h in front || UnfilledAt(bounds, threshold, g, n - 1, h);
      }
    }
  }

  lemma WindowIsHole(bounds: seq<int>, stamps: set<int>, threshold: int, g: Gap, i: nat, h: Gap)
    requires Ordered(bounds) && forall t :: t in bounds <==> Bound(stamps, g, t)
    requires i + 1 < |bounds| && UnfilledAt(bounds, threshold, g, i, h)
    ensures Hole(stamps, threshold, g, h)
  {
    assert bounds[i] in bounds && bounds[i + 1] in bounds;
    forall t: int | Bound(stamps, g, t) ensures !(h.start < t < h.end) {
      var j :| 0 <= j < |bounds| && bounds[j] == t;
      if j <= i { assert j == i || bounds[j] <= bounds[i]; } else { assert j == i + 1 || bounds[i + 1] <= bounds[j]; }
    }
  }

  lemma HoleIsWindow(bounds: seq<int>, stamps: set<int>, threshold: int, g: Gap, h: Gap) returns (i: nat)
    requires Ordered(bounds) && |bounds| > 1 && bounds[0] == g.start && bounds[|bounds| - 1] == g.end
    requires g.start <= g.end && threshold >= 0
    requires forall t :: t in bounds <==> Bound(stamps, g, t)
    requires Hole(stamps, threshold, g, h)
    ensures i + 1 < |bounds| && UnfilledAt(bounds, threshold, g, i, h)
  {
    assert g.start <= h.start < h.end <= g.end;
    forall k | 0 <= k < |bounds| ensures !(h.start < bounds[k] < h.end) {
      assert bounds[k] in bounds;
    }
    i := BetweenNeighbours(bounds, |bounds| - 1, h.start, h.end);
    assert h.start in bounds && h.end in bounds;
    var a :| 0 <= a < |bounds| && bounds[a] == h.start;
    var b :| 0 <= b < |bounds| && bounds[b] == h.end;
    OrderedAt(bounds, i + 1, a);
    OrderedAt(bounds, a, i);
    OrderedAt(bounds, b, i);
    OrderedAt(bounds, i + 1, b);
  }

  /** What one gap is left with: in order, exactly its holes. */
  lemma ResidueExact(stamps: set<int>, threshold: int, g: Gap)
    requires g.start <= g.end && threshold >= 0
    ensures InOrder(ResidueOf(Ascending(stamps), threshold, g))
    ensures forall h :: h in ResidueOf(Ascending(stamps), threshold, g) <==> Hole(stamps, threshold, g, h)
  {
    hide Ascending, Hole, UnfilledAt;
    BoundsOf(stamps, g);
    var bounds := Bounds(Ascending(stamps), g);
    UnfilledIs(bounds, threshold, g, |bounds| - 1);
    forall h ensures h in ResidueOf(Ascending(stamps), threshold, g) <==> Hole(stamps, threshold, g, h) {
      if h in ResidueOf(Ascending(stamps), threshold, g) {
        var i :| 0 <= i < |bounds| - 1 && UnfilledAt(bounds, threshold, g, i, h);
        WindowIsHole(bounds, stamps, threshold, g, i, h);
      }
      if Hole(stamps, threshold, g, h) {
        var i := HoleIsWindow(bounds, stamps, threshold, g, h);
      }
    }
  }

  /** Every stretch of a gap wider than the threshold that no message interrupts is reported. */
  lemma EveryHoleFound(stamps: set<int>, threshold: int, g: Gap, a: int, b: int)
    requires threshold >= 0 && g.start <= a < b <= g.end && b - a > threshold
    requires forall t :: t in stamps ==> !(a < t < b)
    ensures exists h :: h in ResidueOf(Ascending(stamps), threshold, g) && h.start <= a && b <= h.end
  {
    hide Ascending, Marks;
    BoundsOf(stamps, g);
    var bounds := Bounds(Ascending(stamps), g);
    forall k | 0 <= k < |bounds| ensures !(a < bounds[k] < b) {
      assert bounds[k] in bounds;
    }
    var i := BetweenNeighbours(bounds, |bounds| - 1, a, b);
    UnfilledIs(bounds, threshold, g, |bounds| - 1);
    assert UnfilledAt(bounds, threshold, g, i, Residue(g, bounds[i], bounds[i + 1]));
  }

  // ---- two measurements of the same holes agree

  ghost predicate Proper(gaps: seq<Gap>) {
    InOrder(gaps) && forall i :: 0 <= i < |gaps| ==> gaps[i].start < gaps[i].end
  }

  /** A list of proper windows in order is determined by its members. */
  lemma {:induction false} SameWindows(a: seq<Gap>, b: seq<Gap>)
    requires Proper(a) && Proper(b)
    requires forall g :: g in a <==> g in b
    ensures a == b
    decreases |a|
  {
    if a == [] {
      assert forall k :: 0 <= k < |b| ==> b[k] in b;
    } else {
      assert a[0] in a && a[0] in b;
      assert b[0] in b && b[0] in a;
      FirstIsEarliest(a, b[0]);
      FirstIsEarliest(b, a[0]);
      forall g ensures g in a[1..] <==> g in b[1..] {
        RestMembers(a, g);
        RestMembers(b, g);
      }
      SameWindows(a[1..], b[1..]);
    }
  }

  lemma FirstIsEarliest(a: seq<Gap>, g: Gap)
    requires Proper(a) && g in a
    ensures a[0].start < a[0].end && (g == a[0] || a[0].end <= g.start)
  {
  }

  lemma RestMembers(a: seq<Gap>, g: Gap)
    requires Proper(a) && a != []
    ensures g in a[1..] <==> g in a && g != a[0]
  {
    if g in a[1..] {
      var i :| 0 <= i < |a| - 1 && a[1..][i] == g;
      assert a[i + 1] == g && a[0].end <= a[i + 1].start;
    }
    if g in a && g != a[0] {
      var i :| 0 <= i < |a| && a[i] == g;
      assert a[1..][i - 1] == g;
    }
  }

  lemma ResidueProper(stamps: set<int>, threshold: int, g: Gap)
    requires g.start <= g.end && threshold >= 0
    ensures Proper(ResidueOf(Ascending(stamps), threshold, g))
  {
    ResidueExact(stamps, threshold, g);
    hide ResidueOf, Ascending, Bound;
    var r := ResidueOf(Ascending(stamps), threshold, g);
    forall i | 0 <= i < |r| ensures r[i].start < r[i].end {
      assert r[i] in r;
    }
  }

  lemma ResidueDepends(a: set<int>, b: set<int>, threshold: int, g: Gap)
    requires g.start <= g.end && threshold >= 0
    requires forall t :: g.start < t < g.end ==> (t in a <==> t in b)
    ensures ResidueOf(Ascending(a), threshold, g) == ResidueOf(Ascending(b), threshold, g)
  {
    ResidueExact(a, threshold, g);
    ResidueExact(b, threshold, g);
    ResidueProper(a, threshold, g);
    ResidueProper(b, threshold, g);
    hide ResidueOf, Ascending;
    forall h ensures Hole(a, threshold, g, h) <==> Hole(b, threshold, g, h) {
      assert forall t: int :: Bound(a, g, t) <==> Bound(b, g, t);
    }
    hide Hole;
    SameWindows(ResidueOf(Ascending(a), threshold, g), ResidueOf(Ascending(b), threshold, g));
  }

  lemma {:induction false} ResidualDepends(a: set<int>, b: set<int>, threshold: int, gaps: seq<Gap>)
    requires threshold >= 0
    requires forall i :: 0 <= i < |gaps| ==> gaps[i].start <= gaps[i].end
    requires forall i, t :: 0 <= i < |gaps| && gaps[i].start < t < gaps[i].end ==> (t in a <==> t in b)
    ensures Residual(gaps, Ascending(a), threshold) == Residual(gaps, Ascending(b), threshold)
  {
    hide ResidueOf, Ascending;
    if gaps != [] {
      var n := |gaps| - 1;
      assert forall i :: 0 <= i < n ==> gaps[..n][i] == gaps[i];
      ResidualDepends(a, b, threshold, gaps[..n]);
      ResidueDepends(a, b, threshold, gaps[n]);
    }
  }

  lemma OwnedBySecondary(primary: seq<BookRow>, secondary: seq<BookRow>, gaps: seq<Gap>, i: nat, t: int)
    requires i < |gaps| && Inside(gaps[i], t)
    ensures OwnersRows(primary, secondary, gaps, t) == RowsAt(secondary, t)
  {
  }

  /** Detect-only predicts the mint: measuring the witness gives, gap by gap and flag by flag, what measuring the
      spliced hour gives. */
  lemma DetectPredictsMint(primary: seq<BookRow>, secondary: seq<BookRow>, threshold: int, hourStart: int, hourEnd: int)
    requires threshold >= 0
    requires Partition(primary, secondary, threshold, hourStart, hourEnd).Ok?
    ensures var gaps := Partition(primary, secondary, threshold, hourStart, hourEnd).value.0;
      && Measured(gaps, secondary, threshold).Ok?
      && Measured(gaps, Minted(Spliced(primary, secondary, gaps)), threshold) == Measured(gaps, secondary, threshold)
  {
    hide Partition, Spliced, Minted, RowsAt, TsOf, OwnersRows, Ascending, Stamps, Residual, Placed;
    var gaps := Partition(primary, secondary, threshold, hourStart, hourEnd).value.0;
    var minted := Minted(Spliced(primary, secondary, gaps));
    SpliceConserves(primary, secondary, threshold, hourStart, hourEnd);
    WitnessedPlaced(primary, secondary, threshold, hourStart, hourEnd);
    GapsForward(primary, gaps, hourStart, hourEnd);
    StepwiseIsOrdered(secondary);
    StampsAreAscending(secondary);
    forall i, t | 0 <= i < |gaps| && gaps[i].start < t < gaps[i].end
      ensures t in TsOf(minted) <==> t in TsOf(secondary)
    {
      OwnedBySecondary(primary, secondary, gaps, i, t);
      SeenAt(minted, t);
      SeenAt(secondary, t);
    }
    ResidualDepends(TsOf(minted), TsOf(secondary), threshold, gaps);
  }

  lemma GapsForward(primary: seq<BookRow>, gaps: seq<Gap>, hourStart: int, hourEnd: int)
    requires Placed(primary, gaps, hourStart, hourEnd)
    ensures InOrder(gaps)
    ensures forall i :: 0 <= i < |gaps| ==> gaps[i].start <= gaps[i].end
  {
    forall i | 0 <= i < |gaps| ensures gaps[i].start <= gaps[i].end {
      assert Silent(primary, hourStart, hourEnd, gaps[i]);
    }
  }

  // ---- every residual window, and what they sum to

  /** `h` lies in one of the gaps, is wider than the threshold, has no message strictly inside and inherits its
      gap's ownership. */
  ghost predicate LeftOver(gaps: seq<Gap>, stamps: set<int>, threshold: int, h: Gap) {
    exists i :: 0 <= i < |gaps| && Hole(stamps, threshold, gaps[i], h)
  }

  lemma {:induction false} ResidualMembers(gaps: seq<Gap>, stamps: set<int>, threshold: int, h: Gap)
    requires threshold >= 0 && forall i :: 0 <= i < |gaps| ==> gaps[i].start <= gaps[i].end
    ensures h in Residual(gaps, Ascending(stamps), threshold) <==> LeftOver(gaps, stamps, threshold, h)
  {
    hide ResidueOf, Ascending, Hole;
    if gaps != [] {
      var n := |gaps| - 1;
      var front := gaps[..n];
      assert forall i :: 0 <= i < n ==> front[i] == gaps[i];
      ResidualMembers(front, stamps, threshold, h);
      ResidueExact(stamps, threshold, gaps[n]);
      assert LeftOver(gaps, stamps, threshold, h) <==> LeftOver(front, stamps, threshold, h) || Hole(stamps, threshold, gaps[n], h) by {
        if i :| 0 <= i < |gaps| && Hole(stamps, threshold, gaps[i], h) {
          if i < n { assert Hole(stamps, threshold, front[i], h); }
        }
        if i :| 0 <= i < n && Hole(stamps, threshold, front[i], h) {
          assert Hole(stamps, threshold, gaps[i], h);
        }
      }
    }
  }

  lemma {:induction false} ResidualProper(gaps: seq<Gap>, stamps: set<int>, threshold: int)
    requires threshold >= 0 && InOrder(gaps) && forall i :: 0 <= i < |gaps| ==> gaps[i].start <= gaps[i].end
    ensures Proper(Residual(gaps, Ascending(stamps), threshold))
  {
    if gaps != [] {
      var n := |gaps| - 1;
      var front := gaps[..n];
      assert InOrder(front);
      hide ResidueOf, Ascending, Hole, InOrder;
      ResidualProper(front, stamps, threshold);
      ResidueProper(stamps, threshold, gaps[n]);
      var a, b := Residual(front, Ascending(stamps), threshold), ResidueOf(Ascending(stamps), threshold, gaps[n]);
      forall x, y | x in a && y in b ensures x.end <= y.start {
        EarlierHole(gaps, n, stamps, threshold, x, y);
      }
      ProperSum(a, b);
    }
  }

  lemma EarlierHole(gaps: seq<Gap>, n: nat, stamps: set<int>, threshold: int, x: Gap, y: Gap)
    requires threshold >= 0 && InOrder(gaps) && forall i :: 0 <= i < |gaps| ==> gaps[i].start <= gaps[i].end
    requires n < |gaps| && x in Residual(gaps[..n], Ascending(stamps), threshold)
    requires y in ResidueOf(Ascending(stamps), threshold, gaps[n])
    ensures x.end <= y.start
  {
    var front := gaps[..n];
    assert forall i :: 0 <= i < n ==> front[i] == gaps[i];
    hide ResidueOf, Ascending, Hole;
    ResidualMembers(front, stamps, threshold, x);
    ResidueExact(stamps, threshold, gaps[n]);
    var i :| 0 <= i < n && Hole(stamps, threshold, front[i], x);
    HoleInside(stamps, threshold, front[i], x);
    HoleInside(stamps, threshold, gaps[n], y);
    assert gaps[i].end <= gaps[n].start;
  }

  lemma ProperSum(a: seq<Gap>, b: seq<Gap>)
    requires Proper(a) && Proper(b)
    requires forall x, y :: x in a && y in b ==> x.end <= y.start
    ensures Proper(a + b)
  {
    forall k, l | 0 <= k < |a| && 0 <= l < |b| ensures a[k].end <= b[l].start {
      assert a[k] in a && b[l] in b;
    }
  }

  lemma HoleInside(stamps: set<int>, threshold: int, g: Gap, h: Gap)
    requires Hole(stamps, threshold, g, h) && g.start <= g.end && threshold >= 0
    ensures g.start <= h.start < h.end <= g.end
    ensures forall t :: t in stamps ==> !(h.start < t < h.end)
  {
    forall t | t in stamps ensures !(h.start < t < h.end) {
      if h.start < t < h.end { assert Bound(stamps, g, t); }
    }
  }

  /** What a measurement reports: disjoint windows in order, each inside one of the gaps, wider than the threshold
      and without a message in it. */
  lemma ResidualSound(gaps: seq<Gap>, stamps: set<int>, threshold: int)
    requires threshold >= 0 && InOrder(gaps) && forall i :: 0 <= i < |gaps| ==> gaps[i].start <= gaps[i].end
    ensures var r := Residual(gaps, Ascending(stamps), threshold);
      && Proper(r)
      && (forall h :: h in r ==> Width(h) > threshold && (forall t :: t in stamps ==> !(h.start < t < h.end)))
      && (forall h :: h in r ==> exists i :: 0 <= i < |gaps| && gaps[i].start <= h.start && h.end <= gaps[i].end)
  {
    hide ResidueOf, Ascending, Bound, Residual, Proper;
    ResidualProper(gaps, stamps, threshold);
    var r := Residual(gaps, Ascending(stamps), threshold);
    forall h | h in r
      ensures Width(h) > threshold && (forall t :: t in stamps ==> !(h.start < t < h.end))
      ensures exists i :: 0 <= i < |gaps| && gaps[i].start <= h.start && h.end <= gaps[i].end
    {
      ResidualMembers(gaps, stamps, threshold, h);
      var i :| 0 <= i < |gaps| && Hole(stamps, threshold, gaps[i], h);
      HoleInside(stamps, threshold, gaps[i], h);
    }
  }

  /** And nothing else is left: any stretch of a gap wider than the threshold that no message interrupts lies in a
      reported window. */
  lemma ResidualComplete(gaps: seq<Gap>, stamps: set<int>, threshold: int, i: nat, a: int, b: int)
    requires threshold >= 0 && forall k :: 0 <= k < |gaps| ==> gaps[k].start <= gaps[k].end
    requires i < |gaps| && gaps[i].start <= a < b <= gaps[i].end && b - a > threshold
    requires forall t :: t in stamps ==> !(a < t < b)
    ensures exists h :: h in Residual(gaps, Ascending(stamps), threshold) && h.start <= a && b <= h.end
  {
    hide ResidueOf, Ascending, Bound, Residual, Hole;
    EveryHoleFound(stamps, threshold, gaps[i], a, b);
    ResidueExact(stamps, threshold, gaps[i]);
    var h :| h in ResidueOf(Ascending(stamps), threshold, gaps[i]) && h.start <= a && b <= h.end;
    assert Hole(stamps, threshold, gaps[i], h);
    ResidualMembers(gaps, stamps, threshold, h);
  }

  function Total(gaps: seq<Gap>): int {
    if gaps == [] then 0 else Total(gaps[..|gaps| - 1]) + Width(gaps[|gaps| - 1])
  }

  lemma {:induction false} TotalOfSum(a: seq<Gap>, b: seq<Gap>)
    ensures Total(a + b) == Total(a) + Total(b)
  {
    if b == [] {
      assert a + b == a;
    } else {
      TotalOfSum(a, b[..|b| - 1]);
      assert (a + b)[..|a + b| - 1] == a + b[..|b| - 1];
    }
  }

  lemma {:induction false} UnfilledTotal(bounds: seq<int>, threshold: int, g: Gap, n: nat)
    requires n < |bounds| && Ordered(bounds)
    ensures Total(Unfilled(bounds, threshold, g, n)) <= bounds[n] - bounds[0]
  {
    if n > 0 {
      UnfilledTotal(bounds, threshold, g, n - 1);
      var front := Unfilled(bounds, threshold, g, n - 1);
      if bounds[n] - bounds[n - 1] > threshold {
        TotalOfSum(front, [Residue(g, bounds[n - 1], bounds[n])]);
        assert [Residue(g, bounds[n - 1], bounds[n])][..0] == [];
      } else {
        assert front + [] == front;
        assert bounds[n - 1] <= bounds[n];
      }
    }
  }

  /** Healed is claimed minus unfilled, and never negative. */
  lemma {:induction false} HealedNeverNegative(gaps: seq<Gap>, stamps: set<int>, threshold: int)
    requires forall i :: 0 <= i < |gaps| ==> gaps[i].start <= gaps[i].end
    ensures Total(gaps) - Total(Residual(gaps, Ascending(stamps), threshold)) >= 0
  {
    hide Ascending, Marks, Unfilled;
    if gaps != [] {
      var n := |gaps| - 1;
      HealedNeverNegative(gaps[..n], stamps, threshold);
      var s := Ascending(stamps);
      BoundsOf(stamps, gaps[n]);
      UnfilledTotal(Bounds(s, gaps[n]), threshold, gaps[n], |Bounds(s, gaps[n])| - 1);
      TotalOfSum(Residual(gaps[..n], s, threshold), ResidueOf(s, threshold, gaps[n]));
    }
  }
}
