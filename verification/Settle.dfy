/** Fleet-wide dark windows and each stream's own silence around them: `fleet_dark_windows` and
    `containing_dark_window` of `cli/archive/settle.py`. */
module Settle {
  import opened Prelude
  import opened Sorting
  import opened Spans

  function Clamped(stamps: seq<int>, lo: int, hi: int): set<int> {
    set t | t in stamps && lo <= t <= hi
  }

  /** The hour's bounds and every stamp between them, once each, in order. */
  function Edges(stamps: seq<int>, lo: int, hi: int): seq<int> {
    [lo] + Ascending(Clamped(stamps, lo, hi)) + [hi]
  }

  function WindowsBetween(edges: seq<int>, threshold: int, n: nat): seq<Span>
    requires n < |edges|
  {
    if n == 0 then []
    else
      WindowsBetween(edges, threshold, n - 1)
        + if edges[n] - edges[n - 1] > threshold then [Span(edges[n - 1], edges[n])] else []
  }

  function FleetDarkWindows(stamps: seq<int>, lo: int, hi: int, threshold: int): seq<Span> {
    var edges := Edges(stamps, lo, hi);
    WindowsBetween(edges, threshold, |edges| - 1)
  }

  /** `np.searchsorted(edges, x, side="right")` between two positions. */
  function SearchRight(edges: seq<int>, x: int, low: nat, high: nat): (r: nat)
    requires low <= high <= |edges| && Ordered(edges)
    requires forall k :: 0 <= k < low ==> x >= edges[k]
    requires forall k :: high <= k < |edges| ==> x < edges[k]
    ensures r <= |edges|
    ensures forall k :: 0 <= k < r ==> x >= edges[k]
    ensures forall k :: r <= k < |edges| ==> x < edges[k]
    decreases high - low
  {
    if low == high then low
    else
      var mid := (low + high) / 2;
      if edges[mid] <= x then SearchRight(edges, x, mid + 1, high) else SearchRight(edges, x, low, mid)
  }

  function ContainingDarkWindow(stamps: seq<int>, window: Span, lo: int, hi: int): Option<Span>
    requires lo <= hi
  {
    EdgesAre(stamps, lo, hi);
    var edges := Edges(stamps, lo, hi);
    var i := SearchRight(edges, window.start, 0, |edges|) as int - 1;
    if i < 0 || i + 1 >= |edges| then None
    else if edges[i] <= window.start && window.end <= edges[i + 1] then Some(Span(edges[i], edges[i + 1]))
    else None
  }

  /** The scan the search replaced: the first interval holding the window. */
  function Scanned(edges: seq<int>, window: Span, from: nat): Option<Span>
    decreases |edges| - from
  {
    if from + 1 >= |edges| then None
    else if edges[from] <= window.start && window.end <= edges[from + 1] then Some(Span(edges[from], edges[from + 1]))
    else Scanned(edges, window, from + 1)
  }

  // ---- edges

  ghost predicate Edge(stamps: seq<int>, lo: int, hi: int, t: int) {
    t == lo || t == hi || (t in stamps && lo <= t <= hi)
  }

  lemma EdgesAre(stamps: seq<int>, lo: int, hi: int)
    requires lo <= hi
    ensures Ordered(Edges(stamps, lo, hi))
    ensures forall t :: t in Edges(stamps, lo, hi) <==> Edge(stamps, lo, hi, t)
  {
    hide Ascending;
    var inside := Ascending(Clamped(stamps, lo, hi));
    var edges := Edges(stamps, lo, hi);
    forall i | 0 <= i < |edges| ensures lo <= edges[i] <= hi {
      if 0 < i < |edges| - 1 { assert edges[i] == inside[i - 1] && inside[i - 1] in inside; }
    }
    forall i, j | 0 <= i < j < |edges| ensures edges[i] <= edges[j] {
      if 0 < i && j < |edges| - 1 { assert edges[i] == inside[i - 1] && edges[j] == inside[j - 1]; }
    }
    forall t ensures t in edges <==> Edge(stamps, lo, hi, t) {
      assert t in edges <==> t == lo || t in inside || t == hi;
    }
  }

  /** One stream's silence: between two of its edges, with none strictly inside. */
  ghost predicate Silence(stamps: seq<int>, lo: int, hi: int, c: Span) {
    && c.start < c.end
    && Edge(stamps, lo, hi, c.start) && Edge(stamps, lo, hi, c.end)
    && (forall t: int :: Edge(stamps, lo, hi, t) ==> !(c.start < t < c.end))
  }

  predicate Holds(outer: Span, inner: Span) {
    outer.start <= inner.start && inner.end <= outer.end
  }

  lemma NeighboursAreSilent(stamps: seq<int>, lo: int, hi: int, i: nat)
    requires lo <= hi && i + 1 < |Edges(stamps, lo, hi)|
    requires Edges(stamps, lo, hi)[i] < Edges(stamps, lo, hi)[i + 1]
    ensures Silence(stamps, lo, hi, Span(Edges(stamps, lo, hi)[i], Edges(stamps, lo, hi)[i + 1]))
  {
    EdgesAre(stamps, lo, hi);
    var edges := Edges(stamps, lo, hi);
    assert edges[i] in edges && edges[i + 1] in edges;
    forall t: int | Edge(stamps, lo, hi, t) ensures !(edges[i] < t < edges[i + 1]) {
      assert t in edges;
      var j :| 0 <= j < |edges| && edges[j] == t;
      OrderedAt(edges, j, i);
      OrderedAt(edges, i + 1, j);
    }
  }

  /** Two silences of one stream are the same or share nothing. */
  lemma SilencesApart(stamps: seq<int>, lo: int, hi: int, c: Span, d: Span)
    requires Silence(stamps, lo, hi, c) && Silence(stamps, lo, hi, d)
    ensures c == d || c.end <= d.start || d.end <= c.start
  {
  }

  // ---- the window a stream books

  /** The search finds, for any window of positive width inside the hour, the one silence of the stream that holds
      it; and finds nothing exactly when a stamp of the stream is strictly inside the window. */
  lemma ContainingIsTheSilence(stamps: seq<int>, window: Span, lo: int, hi: int)
    requires lo <= window.start < window.end <= hi
    ensures var found := ContainingDarkWindow(stamps, window, lo, hi);
      && (found.Some? <==> forall t :: t in stamps ==> !(window.start < t < window.end))
      && (found.Some? ==> Silence(stamps, lo, hi, found.value) && Holds(found.value, window))
      && (found.Some? ==> forall d :: Silence(stamps, lo, hi, d) && Holds(d, window) ==> d == found.value)
  {
    hide Ascending, Clamped, Edges, Silence;
    EdgesAre(stamps, lo, hi);
    EdgeEnds(stamps, lo, hi);
    var edges := Edges(stamps, lo, hi);
    var r := SearchRight(edges, window.start, 0, |edges|);
    assert 1 <= r < |edges|;
    NeighboursAreSilent(stamps, lo, hi, r - 1);
    var c := Span(edges[r - 1], edges[r]);
    if window.end <= edges[r] {
      forall t | t in stamps ensures !(window.start < t < window.end) {
        if lo <= t <= hi {
          assert Edge(stamps, lo, hi, t);
          var k :| 0 <= k < |edges| && edges[k] == t;
          OrderedAt(edges, r, k);
        }
      }
      forall d | Silence(stamps, lo, hi, d) && Holds(d, window) ensures d == c {
        SilencesApart(stamps, lo, hi, c, d);
      }
    } else {
      assert edges[r] in edges && Edge(stamps, lo, hi, edges[r]);
      assert edges[r] in stamps && window.start < edges[r] < window.end;
    }
  }

  lemma EdgeEnds(stamps: seq<int>, lo: int, hi: int)
    ensures var edges := Edges(stamps, lo, hi);
      |edges| >= 2 && edges[0] == lo && edges[|edges| - 1] == hi
  {
    hide Ascending;
  }

  /** The binary search and the scan agree on every window of positive width. */
  lemma SearchIsScan(stamps: seq<int>, window: Span, lo: int, hi: int)
    requires lo <= hi && window.start < window.end
    ensures ContainingDarkWindow(stamps, window, lo, hi) == Scanned(Edges(stamps, lo, hi), window, 0)
  {
    EdgesAre(stamps, lo, hi);
    var edges := Edges(stamps, lo, hi);
    var r := SearchRight(edges, window.start, 0, |edges|);
    ScanFinds(edges, window, 0, r);
  }

  lemma {:induction false} ScanFinds(edges: seq<int>, window: Span, from: nat, r: nat)
    requires window.start < window.end && r <= |edges|
    requires forall k :: 0 <= k < r ==> edges[k] <= window.start
    requires forall k :: r <= k < |edges| ==> edges[k] > window.start
    requires from < r || r == 0
    ensures Scanned(edges, window, from) ==
      if r == 0 || r >= |edges| then None
      else if window.end <= edges[r] then Some(Span(edges[r - 1], edges[r]))
      else None
    decreases |edges| - from
  {
    if from + 1 < |edges| {
      if from + 1 < r || r == 0 {
        assert !(edges[from] <= window.start && window.end <= edges[from + 1]);
        ScanFinds(edges, window, from + 1, r);
      } else {
        assert from + 1 == r;
        PastNothing(edges, window, from + 1, r);
      }
    }
  }

  lemma {:induction false} PastNothing(edges: seq<int>, window: Span, from: nat, r: nat)
    requires r <= from
    requires forall k :: r <= k < |edges| ==> edges[k] > window.start
    ensures Scanned(edges, window, from) == None
    decreases |edges| - from
  {
    if from + 1 < |edges| {
      PastNothing(edges, window, from + 1, r);
    }
  }

  predicate Hit(edges: seq<int>, window: Span, f: nat)
    requires f + 1 < |edges|
  {
    edges[f] <= window.start && window.end <= edges[f + 1]
  }

  /** The scan stops at its first interval holding the window. */
  lemma {:induction false} ScanStops(edges: seq<int>, window: Span, from: nat, f: nat)
    requires from <= f && f + 1 < |edges| && Hit(edges, window, f) && forall k :: from <= k < f ==> !Hit(edges, window, k)
    ensures Scanned(edges, window, from) == Some(Span(edges[f], edges[f + 1]))
    decreases f - from
  {
    if from < f {
      assert !Hit(edges, window, from);
      ScanStops(edges, window, from + 1, f);
    }
  }

  lemma {:induction false} ScanStopsBy(edges: seq<int>, window: Span, from: nat, f: nat)
    requires Ordered(edges) && from <= f && f + 1 < |edges| && Hit(edges, window, f)
    ensures Scanned(edges, window, from).Some? && Scanned(edges, window, from).value.end <= edges[f + 1]
    decreases f - from
  {
    if Hit(edges, window, from) {
      OrderedAt(edges, from + 1, f + 1);
    } else {
      ScanStopsBy(edges, window, from + 1, f);
    }
  }

  lemma {:induction false} ScanMisses(edges: seq<int>, window: Span, from: nat)
    requires forall k :: from <= k < |edges| - 1 ==> !Hit(edges, window, k)
    ensures Scanned(edges, window, from) == None
    decreases |edges| - from
  {
    if from + 1 < |edges| {
      assert !Hit(edges, window, from);
      ScanMisses(edges, window, from + 1);
    }
  }

  /** Where `x` stands among the edges: as many are at or before it as there are before its last place. */
  lemma LastEdge(stamps: seq<int>, lo: int, hi: int, x: int, r: nat)
    requires lo <= hi && r <= |Edges(stamps, lo, hi)|
    requires forall k :: 0 <= k < r ==> Edges(stamps, lo, hi)[k] <= x
    requires forall k :: r <= k < |Edges(stamps, lo, hi)| ==> Edges(stamps, lo, hi)[k] > x
    ensures r == 0 <==> x < lo
    ensures r == |Edges(stamps, lo, hi)| <==> x >= hi
    ensures 0 < r < |Edges(stamps, lo, hi)| ==>
      (r >= 2 && Edges(stamps, lo, hi)[r - 1] == x <==> x in stamps && lo <= x <= hi)
  {
    hide Edges;
    EdgesAre(stamps, lo, hi);
    EdgeEnds(stamps, lo, hi);
    var edges := Edges(stamps, lo, hi);
    if 0 < r < |edges| {
      if x in stamps && lo <= x <= hi {
        var k := InnerEdgeOf(stamps, lo, hi, x);
        OrderedAt(edges, k, r - 1);
      }
      if r >= 2 { InnerEdge(stamps, lo, hi, r - 1); }
    }
  }

  lemma InnerEdge(stamps: seq<int>, lo: int, hi: int, k: nat)
    requires 0 < k < |Edges(stamps, lo, hi)| - 1
    ensures Edges(stamps, lo, hi)[k] in stamps && lo <= Edges(stamps, lo, hi)[k] <= hi
  {
    hide Ascending;
    var inside := Ascending(Clamped(stamps, lo, hi));
    assert Edges(stamps, lo, hi)[k] == inside[k - 1] && inside[k - 1] in inside;
  }

  lemma InnerEdgeOf(stamps: seq<int>, lo: int, hi: int, t: int) returns (k: nat)
    requires t in stamps && lo <= t <= hi
    ensures 0 < k < |Edges(stamps, lo, hi)| - 1 && Edges(stamps, lo, hi)[k] == t
  {
    hide Ascending;
    var inside := Ascending(Clamped(stamps, lo, hi));
    assert t in inside;
    var i :| 0 <= i < |inside| && inside[i] == t;
    k := i + 1;
  }

  lemma ZeroScan(edges: seq<int>, x: int, r: nat)
    requires Ordered(edges) && 2 <= |edges| && r <= |edges|
    requires forall k :: 0 <= k < r ==> edges[k] <= x
    requires forall k :: r <= k < |edges| ==> edges[k] > x
    ensures var found := Scanned(edges, Span(x, x), 0);
      && (r == 0 || edges[|edges| - 1] < x ==> found == None)
      && (r == |edges| && edges[|edges| - 1] == x ==> found.Some?)
      && (0 < r < |edges| ==> (found == Some(Span(edges[r - 1], edges[r])) <==> !(r >= 2 && edges[r - 1] == x)))
  {
    var w := Span(x, x);
    hide Scanned;
    if r == 0 {
      ScanMisses(edges, w, 0);
    } else if r == |edges| {
      if edges[r - 1] == x {
        ScanStopsBy(edges, w, 0, r - 2);
      } else {
        forall k | 0 <= k < |edges| - 1 ensures !Hit(edges, w, k) {
          OrderedAt(edges, k + 1, r - 1);
        }
        ScanMisses(edges, w, 0);
      }
    } else if r >= 2 && edges[r - 1] == x {
      ScanStopsBy(edges, w, 0, r - 2);
    } else {
      forall k | 0 <= k < r - 1 ensures !Hit(edges, w, k) {
        OrderedAt(edges, k + 1, r - 1);
      }
      ScanStops(edges, w, 0, r - 1);
    }
  }

  /** On a window without width search and scan agree exactly off the stream's stamps and the hour's end: on one of those
      the scan takes the interval ending there, the search the one starting there, if any. */
  lemma ZeroWidthExactly(stamps: seq<int>, x: int, lo: int, hi: int)
    requires lo <= hi
    ensures ContainingDarkWindow(stamps, Span(x, x), lo, hi) == Scanned(Edges(stamps, lo, hi), Span(x, x), 0)
      <==> !(x == hi || (x in stamps && lo <= x <= hi))
  {
    EdgesAre(stamps, lo, hi);
    var edges := Edges(stamps, lo, hi);
    var r := SearchRight(edges, x, 0, |edges|);
    LastEdge(stamps, lo, hi, x, r);
    assert edges[0] == lo && edges[|edges| - 1] == hi && |edges| >= 2;
    hide Edges, Clamped, Edge, Scanned;
    ZeroScan(edges, x, r);
  }

  // ---- the fleet's dark windows

  ghost predicate DarkAt(edges: seq<int>, threshold: int, i: nat, w: Span)
    requires i + 1 < |edges|
  {
    edges[i + 1] - edges[i] > threshold && w == Span(edges[i], edges[i + 1])
  }

  lemma {:induction false} WindowsAre(edges: seq<int>, threshold: int, n: nat, w: Span)
    requires n < |edges|
    ensures w in WindowsBetween(edges, threshold, n) <==> exists i :: 0 <= i < n && DarkAt(edges, threshold, i, w)
  {
    if n > 0 {
      WindowsAre(edges, threshold, n - 1, w);
      assert w in WindowsBetween(edges, threshold, n) <==>
        w in WindowsBetween(edges, threshold, n - 1) || DarkAt(edges, threshold, n - 1, w);
    }
  }

  /** What the fleet books: the silences of all its streams together, wider than the threshold, and every one. */
  lemma FleetDarkExact(stamps: seq<int>, lo: int, hi: int, threshold: int, w: Span)
    requires lo <= hi && threshold >= 0
    ensures w in FleetDarkWindows(stamps, lo, hi, threshold) <==> Silence(stamps, lo, hi, w) && w.end - w.start > threshold
  {
    hide Ascending, Clamped;
    EdgesAre(stamps, lo, hi);
    var edges := Edges(stamps, lo, hi);
    WindowsAre(edges, threshold, |edges| - 1, w);
    if w in FleetDarkWindows(stamps, lo, hi, threshold) {
      var i :| 0 <= i < |edges| - 1 && DarkAt(edges, threshold, i, w);
      NeighboursAreSilent(stamps, lo, hi, i);
    }
    if Silence(stamps, lo, hi, w) && w.end - w.start > threshold {
      forall k | 0 <= k <= |edges| - 1 ensures !(w.start < edges[k] < w.end) {
        assert edges[k] in edges;
      }
      var i := BetweenNeighbours(edges, |edges| - 1, w.start, w.end);
      NeighboursAreSilent(stamps, lo, hi, i);
      assert edges[i] in edges && edges[i + 1] in edges;
      SilencesApart(stamps, lo, hi, Span(edges[i], edges[i + 1]), w);
      assert DarkAt(edges, threshold, i, w);
    }
  }

  /** A stream of the fleet has exactly one silence around each dark window of the fleet, and the search finds it. */
  lemma StreamSilenceFound(fleet: seq<int>, stream: seq<int>, lo: int, hi: int, threshold: int, w: Span)
    requires lo <= hi && threshold >= 0
    requires forall t :: t in stream ==> t in fleet
    requires w in FleetDarkWindows(fleet, lo, hi, threshold)
    ensures var found := ContainingDarkWindow(stream, w, lo, hi);
      && found.Some? && Silence(stream, lo, hi, found.value) && Holds(found.value, w)
      && forall d :: Silence(stream, lo, hi, d) && Holds(d, w) ==> d == found.value
  {
    FleetDarkExact(fleet, lo, hi, threshold, w);
    forall t | t in stream ensures !(w.start < t < w.end) {
      if lo <= t <= hi { assert Edge(fleet, lo, hi, t); }
    }
    ContainingIsTheSilence(stream, w, lo, hi);
  }

  // ---- what one stream books in the hour

  /** The stream's own window around each dark window of the fleet, each once. */
  function Own(stream: seq<int>, windows: seq<Span>, lo: int, hi: int): seq<Span>
    requires lo <= hi
  {
    if windows == [] then []
    else
      var before := Own(stream, windows[..|windows| - 1], lo, hi);
      var found := ContainingDarkWindow(stream, windows[|windows| - 1], lo, hi);
      if found.Some? && found.value !in before then before + [found.value] else before
  }

  lemma {:induction false} OwnAreSilences(stream: seq<int>, windows: seq<Span>, lo: int, hi: int)
    requires lo <= hi
    requires forall i :: 0 <= i < |windows| ==> lo <= windows[i].start < windows[i].end <= hi
    ensures forall c :: c in Own(stream, windows, lo, hi) ==> Silence(stream, lo, hi, c)
    ensures forall i, j :: 0 <= i < j < |Own(stream, windows, lo, hi)| ==>
      Own(stream, windows, lo, hi)[i] != Own(stream, windows, lo, hi)[j]
  {
    hide ContainingDarkWindow, Silence;
    if windows != [] {
      var n := |windows| - 1;
      assert forall i :: 0 <= i < n ==> windows[..n][i] == windows[i];
      OwnAreSilences(stream, windows[..n], lo, hi);
      ContainingIsTheSilence(stream, windows[n], lo, hi);
    }
  }

  /** The windows one stream books share nothing, so their summed length is what they cover and never exceeds the
      hour, however many dark windows of the fleet fell into them. */
  lemma OwnNeverExceedsHour(stream: seq<int>, windows: seq<Span>, lo: int, hi: int)
    requires lo <= hi
    requires forall i :: 0 <= i < |windows| ==> lo <= windows[i].start < windows[i].end <= hi
    ensures Disjoint(Own(stream, windows, lo, hi))
    ensures TotalLength(Own(stream, windows, lo, hi)) == |Covered(Own(stream, windows, lo, hi))| <= hi - lo
  {
    OwnAreSilences(stream, windows, lo, hi);
    var own := Own(stream, windows, lo, hi);
    hide Own, Points, Covered, Edge;
    forall i | 0 <= i < |own| ensures lo <= own[i].start < own[i].end <= hi {
      assert own[i] in own;
      SilenceInside(stream, lo, hi, own[i]);
    }
    forall i, j | 0 <= i < j < |own| ensures own[i].end <= own[j].start || own[j].end <= own[i].start {
      assert own[i] in own && own[j] in own;
      SilencesApart(stream, lo, hi, own[i], own[j]);
    }
    DisjointTotal(own);
    CoveredInside(own, lo, hi);
  }

  lemma SilenceInside(stamps: seq<int>, lo: int, hi: int, c: Span)
    requires lo <= hi && Silence(stamps, lo, hi, c)
    ensures lo <= c.start < c.end <= hi
  {
  }

  lemma CoveredInside(windows: seq<Span>, lo: int, hi: int)
    requires lo <= hi && forall i :: 0 <= i < |windows| ==> lo <= windows[i].start && windows[i].end <= hi
    ensures |Covered(windows)| <= hi - lo
  {
    var hour := Span(lo, hi);
    PointsCount(hour);
    forall t | t in Covered(windows) ensures t in Points(hour) {
      CoveredMember(windows, t);
    }
    var rest := Points(hour) - Covered(windows);
    assert Points(hour) == Covered(windows) + rest;
  }
}
