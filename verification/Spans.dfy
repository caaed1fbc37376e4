/** Windows of time as the microseconds they cover, and the overlap of two lists of them: `overlap_seconds` of
    `cli/archive/reconcile.py`. */
module Spans {
  import opened Prelude
  import opened Sorting

  datatype Span = Span(start: int, end: int)

  /** The microseconds of a window; none when it is empty or reversed. */
  function Points(s: Span): set<int> {
    set t | s.start <= t < s.end && In(s, t)
  }

  predicate In(s: Span, t: int) {
    s.start <= t < s.end
  }

  /** The microseconds of all of them, each once. */
  function Covered(windows: seq<Span>): set<int> {
    if windows == [] then {} else Covered(windows[..|windows| - 1]) + Points(windows[|windows| - 1])
  }

  function Length(s: Span): int {
    s.end - s.start
  }

  function TotalLength(windows: seq<Span>): int {
    if windows == [] then 0 else TotalLength(windows[..|windows| - 1]) + Length(windows[|windows| - 1])
  }

  /** What of `spans` lies inside `windows`, span by span. */
  function Overlap(spans: seq<Span>, windows: seq<Span>): nat {
    if spans == [] then 0
    else Overlap(spans[..|spans| - 1], windows) + |Points(spans[|spans| - 1]) * Covered(windows)|
  }

  // ---- counting microseconds

  lemma {:induction false} PointsCount(s: Span)
    ensures |Points(s)| == Max(0, s.end - s.start)
    decreases s.end - s.start
  {
    if s.end > s.start {
      var shorter := Span(s.start, s.end - 1);
      PointsCount(shorter);
      assert Points(s) == Points(shorter) + {s.end - 1};
    } else {
      assert Points(s) == {};
    }
  }

  lemma CoveredMember(windows: seq<Span>, t: int)
    ensures t in Covered(windows) <==> exists i :: 0 <= i < |windows| && t in Points(windows[i])
  {
    hide Points;
    if windows != [] {
      var n := |windows| - 1;
      CoveredMember(windows[..n], t);
      if i :| 0 <= i < |windows| && t in Points(windows[i]) {
        if i < n { assert t in Points(windows[..n][i]); }
      }
      if i :| 0 <= i < n && t in Points(windows[..n][i]) {
        assert t in Points(windows[i]);
      }
    }
  }

  lemma CoveredPermuted(a: seq<Span>, b: seq<Span>)
    requires multiset(a) == multiset(b)
    ensures Covered(a) == Covered(b)
  {
    hide Points, Covered;
    forall t ensures t in Covered(a) <==> t in Covered(b) {
      CoveredMember(a, t);
      CoveredMember(b, t);
      if i :| 0 <= i < |a| && t in Points(a[i]) {
        assert a[i] in multiset(a) && a[i] in b;
      }
      if i :| 0 <= i < |b| && t in Points(b[i]) {
        assert b[i] in multiset(b) && b[i] in a;
      }
    }
  }

  // ---- the merge

  /** Each ends before the next begins. */
  ghost predicate Apart(windows: seq<Span>) {
    forall i, j :: 0 <= i < j < |windows| ==> windows[i].end < windows[j].start
  }

  lemma CoveredBefore(windows: seq<Span>, x: int)
    requires forall i :: 0 <= i < |windows| ==> windows[i].end <= x
    ensures forall t :: t in Covered(windows) ==> t < x
  {
    forall t | t in Covered(windows) ensures t < x {
      CoveredMember(windows, t);
    }
  }

  lemma MergedInto(merged: seq<Span>, w: Span)
    requires merged != [] && merged[|merged| - 1].start <= w.start <= merged[|merged| - 1].end
    requires Apart(merged)
    ensures var n := |merged| - 1;
      var wider := merged[..n] + [Span(merged[n].start, Max(merged[n].end, w.end))];
      Apart(wider) && Covered(wider) == Covered(merged) + Points(w)
  {
    var n := |merged| - 1;
    var last := Span(merged[n].start, Max(merged[n].end, w.end));
    var wider := merged[..n] + [last];
    assert wider[..n] == merged[..n];
    assert Points(last) == Points(merged[n]) + Points(w);
  }

  /** The seconds of one span inside windows that are apart, added window by window. */
  lemma OverlapStep(a: Span, windows: seq<Span>, j: nat)
    requires Apart(windows) && j < |windows|
    ensures |Points(a) * Covered(windows[..j + 1])| ==
      |Points(a) * Covered(windows[..j])| + Max(0, Min(a.end, windows[j].end) - Max(a.start, windows[j].start))
  {
    var front, w := windows[..j], windows[j];
    var common := Span(Max(a.start, w.start), Min(a.end, w.end));
    assert windows[..j + 1][..j] == front;
    PointsCount(common);
    assert Points(a) * Points(w) == Points(common);
    assert (Points(a) * Covered(front)) * Points(common) == {} by {
      if Points(w) != {} {
        forall i | 0 <= i < j ensures front[i].end <= w.start {
          assert windows[i].end < windows[j].start;
        }
        CoveredBefore(front, w.start);
      }
    }
    assert Points(a) * Covered(windows[..j + 1]) == Points(a) * Covered(front) + Points(common);
  }

  /** `sorted(windows)`: by start, then by end. */
  function InSequence(windows: seq<Span>): seq<Span> {
    SortBy((w: Span) => w.start, SortBy((w: Span) => w.end, windows))
  }

  lemma InSequenceKeeps(windows: seq<Span>)
    ensures SortedBy((w: Span) => w.start, InSequence(windows))
    ensures Covered(InSequence(windows)) == Covered(windows)
  {
    var byEnd := SortBy((w: Span) => w.end, windows);
    SortByKeeps((w: Span) => w.end, windows);
    SortByKeeps((w: Span) => w.start, byEnd);
    CoveredPermuted(InSequence(windows), windows);
  }

  /** How much of one span lies inside windows that are apart. */
  method Common(a: Span, merged: seq<Span>) returns (common: int)
    requires Apart(merged)
    ensures common == |Points(a) * Covered(merged)|
  {
    hide Points, Covered, Apart;
    common := 0;
    assert merged[..|merged|] == merged;
    NoOverlap(a, merged);
    var j := 0;
    while j < |merged|
      invariant 0 <= j <= |merged|
      invariant common == |Points(a) * Covered(merged[..j])|
    {
      OverlapStep(a, merged, j);
      var span := Min(a.end, merged[j].end) - Max(a.start, merged[j].start);
      if span > 0 { common := common + span; }
      j := j + 1;
    }
  }

  /** How much of `spans` lies inside `windows`, no microsecond of a span counted twice however the windows
      overlap, for any two lists. */
  method OverlapSeconds(spans: seq<Span>, windows: seq<Span>) returns (total: int)
    ensures total == Overlap(spans, windows)
  {
    hide Points, Covered, Overlap, Apart, InSequence;
    InSequenceKeeps(windows);
    var merged := Merge(InSequence(windows));
    total := 0;
    OverlapNone(windows);
    assert spans[..|spans|] == spans && spans[..0] == [];
    var i := 0;
    while i < |spans|
      invariant 0 <= i <= |spans|
      invariant total == Overlap(spans[..i], windows)
    {
      var common := Common(spans[i], merged);
      OverlapSnoc(spans, windows, i);
      total := total + common;
      i := i + 1;
    }
  }

  lemma OverlapNone(windows: seq<Span>)
    ensures Overlap([], windows) == 0
  {
  }

  lemma OverlapSnoc(spans: seq<Span>, windows: seq<Span>, i: nat)
    requires i < |spans|
    ensures Overlap(spans[..i + 1], windows) == Overlap(spans[..i], windows) + |Points(spans[i]) * Covered(windows)|
  {
    assert spans[..i + 1][..i] == spans[..i];
  }

  lemma NoOverlap(a: Span, merged: seq<Span>)
    ensures |Points(a) * Covered(merged[..0])| == 0
  {
    assert Points(a) * Covered(merged[..0]) == {};
  }

  /** Windows sorted by start, the ones that touch merged. */
  method Merge(sorted: seq<Span>) returns (merged: seq<Span>)
    requires SortedBy((w: Span) => w.start, sorted)
    ensures Apart(merged) && Covered(merged) == Covered(sorted)
  {
    hide Points, Covered;
    merged := [];
    var key := (w: Span) => w.start;
    assert sorted[..|sorted|] == sorted;
    assert sorted[..0] == merged;
    var k := 0;
    while k < |sorted|
      invariant 0 <= k <= |sorted|
      invariant Apart(merged) && Covered(merged) == Covered(sorted[..k])
      invariant merged == [] <==> k == 0
      invariant merged != [] && k < |sorted| ==> merged[|merged| - 1].start <= sorted[k].start
    {
      var w := sorted[k];
      CoveredSnoc(sorted, k);
      if merged != [] && w.start <= merged[|merged| - 1].end {
        MergedInto(merged, w);
        var n := |merged| - 1;
        merged := merged[..n] + [Span(merged[n].start, Max(merged[n].end, w.end))];
      } else {
        CoveredMore(merged, w);
        AllBefore(merged, w);
        merged := merged + [w];
      }
      if k + 1 < |sorted| { assert key(sorted[k]) <= key(sorted[k + 1]); }
      k := k + 1;
    }
  }

  lemma AllBefore(merged: seq<Span>, w: Span)
    requires Apart(merged)
    requires merged != [] ==> merged[|merged| - 1].start <= w.start && merged[|merged| - 1].end < w.start
    ensures Apart(merged + [w])
  {
  }

  lemma CoveredSnoc(windows: seq<Span>, k: nat)
    requires k < |windows|
    ensures Covered(windows[..k + 1]) == Covered(windows[..k]) + Points(windows[k])
  {
    assert windows[..k + 1][..k] == windows[..k];
  }

  lemma CoveredMore(windows: seq<Span>, w: Span)
    ensures Covered(windows + [w]) == Covered(windows) + Points(w)
  {
    assert (windows + [w])[..|windows|] == windows;
  }

  // ---- windows that share nothing

  /** Forward windows, no two sharing a microsecond. */
  ghost predicate Disjoint(windows: seq<Span>) {
    && (forall i :: 0 <= i < |windows| ==> windows[i].start <= windows[i].end)
    && (forall i, j :: 0 <= i < j < |windows| ==> windows[i].end <= windows[j].start || windows[j].end <= windows[i].start)
  }

  lemma LastIsNew(windows: seq<Span>)
    requires Disjoint(windows) && windows != []
    ensures Disjoint(windows[..|windows| - 1])
    ensures Covered(windows[..|windows| - 1]) * Points(windows[|windows| - 1]) == {}
  {
    var n := |windows| - 1;
    var front, last := windows[..n], windows[n];
    forall t | t in Covered(front) ensures t !in Points(last) {
      CoveredMember(front, t);
      var i :| 0 <= i < n && t in Points(front[i]);
      assert windows[i] == front[i];
    }
  }

  /** The lengths of windows that share nothing sum to what they cover. */
  lemma {:induction false} DisjointTotal(windows: seq<Span>)
    requires Disjoint(windows)
    ensures TotalLength(windows) == |Covered(windows)|
  {
    hide Points, Disjoint;
    if windows != [] {
      LastIsNew(windows);
      DisjointTotal(windows[..|windows| - 1]);
      PointsCount(windows[|windows| - 1]);
      ForwardLast(windows);
    }
  }

  lemma ForwardLast(windows: seq<Span>)
    requires Disjoint(windows) && windows != []
    ensures Length(windows[|windows| - 1]) >= 0
  {
  }

  /** What windows that share nothing have in common with others is what they cover in common. */
  lemma {:induction false} DisjointOverlap(spans: seq<Span>, windows: seq<Span>)
    requires Disjoint(spans)
    ensures Overlap(spans, windows) == |Covered(spans) * Covered(windows)|
  {
    hide Points, Disjoint;
    if spans == [] {
      assert Covered(spans) * Covered(windows) == {};
    } else {
      var front, last := spans[..|spans| - 1], spans[|spans| - 1];
      LastIsNew(spans);
      DisjointOverlap(front, windows);
      CommonSplits(Covered(front), Points(last), Covered(windows));
    }
  }

  lemma CommonSplits(a: set<int>, b: set<int>, c: set<int>)
    requires a * b == {}
    ensures |(a + b) * c| == |a * c| + |b * c|
  {
    assert (a * c) * (b * c) == {};
    assert (a + b) * c == a * c + b * c;
  }

  /** What is left of windows that share nothing once what others already booked is taken off: the microseconds
      only they cover. */
  lemma BookedOnce(spans: seq<Span>, windows: seq<Span>)
    requires Disjoint(spans)
    ensures TotalLength(spans) - Overlap(spans, windows) == |Covered(spans) - Covered(windows)|
  {
    DisjointTotal(spans);
    DisjointOverlap(spans, windows);
    assert Covered(spans) == (Covered(spans) - Covered(windows)) + (Covered(spans) * Covered(windows));
  }
}
