/** The stationary bootstrap of `cli/alpha/b2.py`, drawn as index rows and as circular blocks, and the sums read off
    running totals. Arithmetic is exact. */
module Bootstrap {
  import opened Prelude

  /** The generator's calls, by number: what a `random()` made there would return, and what a `randrange(n)` would. */
  datatype Rng = Rng(uniform: nat -> real, drawn: nat -> int)

  ghost predicate Draws(rng: Rng, n: nat) {
    forall i :: 0 <= rng.drawn(i) < n
  }

  // ---- the circle of indices

  function Wrap(x: int, n: nat): (r: int)
    requires n > 0
    ensures 0 <= r < n
  {
    x % n
  }

  lemma WrapIs(x: int, n: nat, q: int, r: int)
    requires n > 0 && x == n * q + r && 0 <= r < n
    ensures Wrap(x, n) == r
  {
    var d := x / n - q;
    assert x == n * (x / n) + x % n;
    assert n * d == r - x % n;
    MulAtLeast(n, d);
  }

  lemma WrapNear(x: int, n: nat)
    requires n > 0 && 0 <= x < 2 * n
    ensures Wrap(x, n) == if x < n then x else x - n
  {
    if x < n { WrapIs(x, n, 0, x); } else { WrapIs(x, n, 1, x - n); }
  }

  /** The index after one is the index after it. */
  lemma WrapStep(x: int, n: nat)
    requires n > 0
    ensures Wrap(Wrap(x, n) + 1, n) == Wrap(x + 1, n)
  {
    var q, r := x / n, x % n;
    assert x == n * q + r;
    if r + 1 < n {
      WrapIs(x + 1, n, q, r + 1);
      WrapIs(r + 1, n, 0, r + 1);
    } else {
      assert x + 1 == n * (q + 1) + 0;
      WrapIs(x + 1, n, q + 1, 0);
      WrapIs(r + 1, n, 1, 0);
    }
  }

  // ---- index rows

  /** The first `m` indices of a resample whose first call is number `at`, and the number of the call after them. */
  function Indices(rng: Rng, n: nat, p: real, at: nat, m: nat): (r: (seq<int>, nat))
    requires n > 0 && m > 0
    ensures |r.0| == m
  {
    if m == 1 then ([rng.drawn(at)], at + 1)
    else
      var (idx, next) := Indices(rng, n, p, at, m - 1);
      if rng.uniform(next) < p then (idx + [rng.drawn(next + 1)], next + 2)
      else (idx + [Wrap(idx[m - 2] + 1, n)], next + 1)
  }

  /** The rows of the first `count` resamples, and the number of the call after them. */
  function Rows(rng: Rng, n: nat, p: real, count: nat): (r: (seq<seq<int>>, nat))
    requires n > 0
    ensures |r.0| == count
  {
    if count == 0 then ([], 0)
    else
      var (rows, at) := Rows(rng, n, p, count - 1);
      var (row, next) := Indices(rng, n, p, at, n);
      (rows + [row], next)
  }

  function Flattened(chunks: seq<seq<seq<int>>>): seq<seq<int>> {
    if chunks == [] then [] else Flattened(chunks[..|chunks| - 1]) + chunks[|chunks| - 1]
  }

  method DrawRow(rng: Rng, n: nat, p: real, at: nat) returns (row: seq<int>, next: nat)
    requires n > 0
    ensures (row, next) == Indices(rng, n, p, at, n)
  {
    row, next := [rng.drawn(at)], at + 1;
    while |row| < n
      invariant 0 < |row| <= n
      invariant (row, next) == Indices(rng, n, p, at, |row|)
    {
      if rng.uniform(next) < p {
        row, next := row + [rng.drawn(next + 1)], next + 2;
      } else {
        row, next := row + [Wrap(row[|row| - 1] + 1, n)], next + 1;
      }
    }
  }

  lemma FlattenedMore(chunks: seq<seq<seq<int>>>, rows: seq<seq<int>>)
    ensures Flattened(chunks + [rows]) == Flattened(chunks) + rows
  {
    assert (chunks + [rows])[..|chunks|] == chunks;
  }

  /** The next rows of a run that has drawn `first` of them. */
  method DrawChunk(rng: Rng, n: nat, p: real, first: nat, size: nat, at: nat) returns (rows: seq<seq<int>>, next: nat)
    requires n > 0 && at == Rows(rng, n, p, first).1
    ensures |rows| == size
    ensures Rows(rng, n, p, first + size) == (Rows(rng, n, p, first).0 + rows, next)
  {
    hide Indices;
    rows, next := [], at;
    ghost var before := Rows(rng, n, p, first).0;
    assert before + [] == before;
    while |rows| < size
      invariant |rows| <= size
      invariant Rows(rng, n, p, first + |rows|) == (before + rows, next)
    {
      var row, after := DrawRow(rng, n, p, next);
      assert before + (rows + [row]) == before + rows + [row];
      rows, next := rows + [row], after;
    }
  }

  /** The rows, `chunk` at a time. */
  method BootstrapChunks(rng: Rng, n: nat, p: real, resamples: nat, chunk: nat) returns (chunks: seq<seq<seq<int>>>)
    requires n > 0 && chunk > 0
    ensures Flattened(chunks) == Rows(rng, n, p, resamples).0
    ensures forall i :: 0 <= i < |chunks| ==> 0 < |chunks[i]| <= chunk
    ensures forall i :: 0 <= i < |chunks| - 1 ==> |chunks[i]| == chunk
  {
    hide Indices;
    chunks := [];
    var first, at := 0, 0;
    while first < resamples
      invariant 0 <= first <= resamples
      invariant (Flattened(chunks), at) == Rows(rng, n, p, first)
      invariant forall i :: 0 <= i < |chunks| ==> 0 < |chunks[i]| <= chunk
      invariant forall i :: 0 <= i < |chunks| && (i < |chunks| - 1 || first < resamples) ==> |chunks[i]| == chunk
    {
      var size := Min(chunk, resamples - first);
      var rows, next := DrawChunk(rng, n, p, first, size, at);
      FlattenedMore(chunks, rows);
      chunks := chunks + [rows];
      first, at := first + size, next;
    }
  }

  // ---- circular blocks

  /** `length` consecutive indices from `start`, mod `n`. */
  function Run(start: int, length: nat, n: nat): (r: seq<int>)
    requires n > 0
    ensures |r| == length
  {
    if length == 0 then [] else Run(start, length - 1, n) + [Wrap(start + length - 1, n)]
  }

  /** The indices of blocks that begin at `starts` and open at `opens`, read up to position `m`. */
  function Expanded(starts: seq<int>, opens: seq<int>, m: int, n: nat): seq<int>
    requires |starts| == |opens| && n > 0
  {
    if starts == [] then []
    else
      var last := |starts| - 1;
      Expanded(starts[..last], opens[..last], opens[last], n) + Run(starts[last], if m >= opens[last] then m - opens[last] else 0, n)
  }

  /** One resample as its blocks: the position each opens at, rising from the first index. */
  ghost predicate Opened(starts: seq<int>, opens: seq<int>, m: int, n: nat) {
    && |starts| == |opens| > 0 && opens[0] == 0
    && (forall i, j :: 0 <= i < j < |opens| ==> opens[i] < opens[j])
    && (forall i :: 0 <= i < |opens| ==> 0 <= opens[i] < m)
    && (forall i :: 0 <= i < |starts| ==> 0 <= starts[i] < n)
  }

  lemma RunGoesOn(start: int, length: nat, n: nat)
    requires n > 0 && length > 0
    ensures Run(start, length + 1, n) == Run(start, length, n) + [Wrap(Run(start, length, n)[length - 1] + 1, n)]
  {
    WrapStep(start + length - 1, n);
    hide Wrap;
  }

  lemma LastOpened(starts: seq<int>, opens: seq<int>, m: int, n: nat)
    requires Opened(starts, opens, m, n)
    ensures |starts| == |opens| > 0 && opens[|opens| - 1] < m
  {
  }

  lemma ExpandedLast(starts: seq<int>, opens: seq<int>, m: int, n: nat)
    requires |starts| == |opens| > 0 && n > 0 && m >= opens[|opens| - 1]
    ensures var last := |starts| - 1;
      Expanded(starts, opens, m, n) == Expanded(starts[..last], opens[..last], opens[last], n) + Run(starts[last], m - opens[last], n)
  {
    hide Run;
  }

  /** The last block goes on for one index more. */
  lemma BlockGoesOn(starts: seq<int>, opens: seq<int>, m: int, n: nat)
    requires n > 0 && Opened(starts, opens, m, n)
    ensures |starts| == |opens|
    ensures var idx := Expanded(starts, opens, m, n);
      idx != [] && Expanded(starts, opens, m + 1, n) == idx + [Wrap(idx[|idx| - 1] + 1, n)]
  {
    hide Wrap, Run, Opened, Expanded;
    LastOpened(starts, opens, m, n);
    ExpandedLast(starts, opens, m, n);
    ExpandedLast(starts, opens, m + 1, n);
    var last := |starts| - 1;
    var length := m - opens[last];
    RunGoesOn(starts[last], length, n);
    var before, run := Expanded(starts[..last], opens[..last], opens[last], n), Run(starts[last], length, n);
    var next := Wrap(run[length - 1] + 1, n);
    assert before + (run + [next]) == before + run + [next];
  }

  /** A new block opens at the next index. */
  lemma BlockOpens(starts: seq<int>, opens: seq<int>, m: int, n: nat, start: int)
    requires n > 0 && |starts| == |opens| && 0 <= start < n
    ensures Expanded(starts + [start], opens + [m], m + 1, n) == Expanded(starts, opens, m, n) + [start]
  {
    var s, o := starts + [start], opens + [m];
    assert s[..|starts|] == starts && o[..|opens|] == opens;
    WrapNear(start, n);
    hide Wrap;
    assert Run(start, 1, n) == Run(start, 0, n) + [start];
  }

  lemma NothingExpanded(n: nat)
    requires n > 0
    ensures Expanded([], [], 0, n) == []
  {
  }

  lemma FirstBlock(start: int, n: nat)
    requires 0 <= start < n
    ensures Opened([start], [0], 1, n) && Expanded([start], [0], 1, n) == [start]
  {
    hide Expanded, Wrap;
    NothingExpanded(n);
    BlockOpens([], [], 0, n, start);
    assert [] + [start] == [start] && [] + [0] == [0];
  }

  lemma OpenedNext(starts: seq<int>, opens: seq<int>, m: int, n: nat, start: int)
    requires Opened(starts, opens, m, n) && 0 <= start < n
    ensures Opened(starts, opens, m + 1, n) && Opened(starts + [start], opens + [m], m + 1, n)
  {
  }

  lemma NextIndex(rng: Rng, n: nat, p: real, at: nat, j: nat)
    requires n > 0 && j > 0
    ensures var (idx, next) := Indices(rng, n, p, at, j);
      Indices(rng, n, p, at, j + 1) ==
        if rng.uniform(next) < p then (idx + [rng.drawn(next + 1)], next + 2) else (idx + [Wrap(idx[|idx| - 1] + 1, n)], next + 1)
  {
    hide Wrap;
  }

  lemma FirstIndex(rng: Rng, n: nat, p: real, at: nat)
    requires n > 0
    ensures Indices(rng, n, p, at, 1) == ([rng.drawn(at)], at + 1)
  {
  }

  /** One resample drawn as its blocks. */
  method DrawBlocks(rng: Rng, n: nat, p: real, at: nat) returns (starts: seq<int>, opens: seq<int>, next: nat)
    requires n > 0 && Draws(rng, n)
    ensures Opened(starts, opens, n, n)
    ensures (Expanded(starts, opens, n, n), next) == Indices(rng, n, p, at, n)
  {
    starts, opens, next := [rng.drawn(at)], [0], at + 1;
    FirstBlock(rng.drawn(at), n);
    FirstIndex(rng, n, p, at);
    hide Expanded, Opened, Wrap, Indices;
    var j := 1;
    while j < n
      invariant 1 <= j <= n
      invariant |starts| == |opens| && Opened(starts, opens, j, n)
      invariant (Expanded(starts, opens, j, n), next) == Indices(rng, n, p, at, j)
    {
      var start := rng.drawn(next + 1);
      OpenedNext(starts, opens, j, n, start);
      NextIndex(rng, n, p, at, j);
      if rng.uniform(next) < p {
        BlockOpens(starts, opens, j, n, start);
        starts, opens, next := starts + [start], opens + [j], next + 2;
      } else {
        BlockGoesOn(starts, opens, j, n);
        next := next + 1;
      }
      j := j + 1;
    }
    OpenedPaired(starts, opens, n, n);
  }

  lemma OpenedPaired(starts: seq<int>, opens: seq<int>, m: int, n: nat)
    requires Opened(starts, opens, m, n)
    ensures |starts| == |opens|
  {
  }

  /** A draw held as its blocks: resample `r`'s run from `firsts[r]` to the next resample's first, and block `b` covers
      `lengths[b]` indices from `starts[b]`. */
  datatype Blocks = Blocks(nObs: nat, starts: seq<int>, lengths: seq<int>, firsts: seq<int>)

  function Bound(b: Blocks, r: nat): int {
    if r < |b.firsts| then b.firsts[r] else |b.starts|
  }

  predicate BoundOk(b: Blocks, r: nat) {
    0 <= Bound(b, r) <= Bound(b, r + 1) <= |b.starts|
  }

  ghost predicate BlocksOk(b: Blocks) {
    && b.nObs > 0 && |b.starts| == |b.lengths|
    && (forall r :: 0 <= r < |b.firsts| ==> BoundOk(b, r))
    && (forall i :: 0 <= i < |b.starts| ==> 0 <= b.starts[i] < b.nObs && 1 <= b.lengths[i] <= b.nObs)
  }

  function Runs(starts: seq<int>, lengths: seq<int>, n: nat): seq<int>
    requires |starts| == |lengths| && n > 0
  {
    if starts == [] then []
    else
      var last := |starts| - 1;
      Runs(starts[..last], lengths[..last], n) + Run(starts[last], if lengths[last] >= 0 then lengths[last] else 0, n)
  }

  /** Resample `r`'s indices, its blocks expanded. */
  function Expand(b: Blocks, r: nat): seq<int>
    requires r < |b.firsts| && BlocksOk(b)
  {
    assert BoundOk(b, r);
    Runs(b.starts[Bound(b, r)..Bound(b, r + 1)], b.lengths[Bound(b, r)..Bound(b, r + 1)], b.nObs)
  }

  /** Each block's length: to the next block's opening, or to the end of the resample. */
  function Lengths(opens: seq<int>, n: int): (lengths: seq<int>)
    ensures |lengths| == |opens|
  {
    seq(|opens|, i requires 0 <= i < |opens| => (if i + 1 < |opens| then opens[i + 1] else n) - opens[i])
  }

  lemma {:induction false} RunsOfLengths(starts: seq<int>, opens: seq<int>, m: int, n: nat)
    requires n > 0 && Opened(starts, opens, m, n)
    ensures Runs(starts, Lengths(opens, m), n) == Expanded(starts, opens, m, n)
    ensures forall i :: 0 <= i < |opens| ==> 1 <= Lengths(opens, m)[i] <= m
    decreases |starts|
  {
    var last := |starts| - 1;
    assert Lengths(opens, m)[..last] == Lengths(opens[..last], opens[last]);
    if last > 0 {
      RunsOfLengths(starts[..last], opens[..last], opens[last], n);
    } else {
      assert starts[..last] == [];
    }
  }

  /** Every resample as its blocks. */
  method StationaryBootstrapBlocks(rng: Rng, n: nat, p: real, resamples: nat) returns (b: Blocks)
    requires n > 0 && Draws(rng, n)
    ensures BlocksOk(b) && b.nObs == n && |b.firsts| == resamples
    ensures forall r :: 0 <= r < resamples ==> Expand(b, r) == Rows(rng, n, p, resamples).0[r]
  {
    hide Expanded, Opened;
    b := Blocks(n, [], [], []);
    var at := 0;
    while |b.firsts| < resamples
      invariant |b.firsts| <= resamples && b.nObs == n && BlocksOk(b)
      invariant at == Rows(rng, n, p, |b.firsts|).1
      invariant forall r :: 0 <= r < |b.firsts| ==> Expand(b, r) == Rows(rng, n, p, |b.firsts|).0[r]
    {
      var starts, opens, next := DrawBlocks(rng, n, p, at);
      RunsOfLengths(starts, opens, n, n);
      ghost var before := b;
      b := AddResample(b, starts, opens);
      ResampleAdded(before, starts, opens);
      forall r | 0 <= r < |before.firsts| ensures Expand(b, r) == Expand(before, r) {
        ResampleKept(before, starts, opens, r);
      }
      at := next;
    }
  }

  /** One resample's blocks behind the others. */
  function AddResample(b: Blocks, starts: seq<int>, opens: seq<int>): Blocks {
    Blocks(b.nObs, b.starts + starts, b.lengths + Lengths(opens, b.nObs), b.firsts + [|b.starts|])
  }

  lemma BoundsAdded(b: Blocks, starts: seq<int>, opens: seq<int>, r: nat)
    requires BlocksOk(b)
    ensures var c := AddResample(b, starts, opens);
      && (r <= |b.firsts| ==> Bound(c, r) == Bound(b, r))
      && (r == |b.firsts| + 1 ==> Bound(c, r) == |b.starts| + |starts|)
  {
  }

  lemma ResampleKept(b: Blocks, starts: seq<int>, opens: seq<int>, r: nat)
    requires BlocksOk(b) && BlocksOk(AddResample(b, starts, opens)) && r < |b.firsts|
    ensures Expand(AddResample(b, starts, opens), r) == Expand(b, r)
  {
    hide Runs, Lengths, Bound;
    var c := AddResample(b, starts, opens);
    assert BoundOk(b, r);
    BoundsAdded(b, starts, opens, r);
    BoundsAdded(b, starts, opens, r + 1);
    var from, to' := Bound(b, r), Bound(b, r + 1);
    assert c.starts[from..to'] == b.starts[from..to'];
    assert c.lengths[from..to'] == b.lengths[from..to'];
  }

  lemma ResampleAdded(b: Blocks, starts: seq<int>, opens: seq<int>)
    requires BlocksOk(b) && Opened(starts, opens, b.nObs, b.nObs)
    requires forall i :: 0 <= i < |opens| ==> 1 <= Lengths(opens, b.nObs)[i] <= b.nObs
    ensures var c := AddResample(b, starts, opens);
      BlocksOk(c) && Expand(c, |b.firsts|) == Runs(starts, Lengths(opens, b.nObs), b.nObs)
  {
    hide Runs, Lengths, Bound;
    var c := AddResample(b, starts, opens);
    forall r | 0 <= r < |c.firsts| ensures BoundOk(c, r) {
      BoundsAdded(b, starts, opens, r);
      BoundsAdded(b, starts, opens, r + 1);
      if r < |b.firsts| { assert BoundOk(b, r); } else { BoundAtEnd(b); }
    }
    BoundsAdded(b, starts, opens, |b.firsts|);
    BoundsAdded(b, starts, opens, |b.firsts| + 1);
    BoundAtEnd(b);
    assert c.starts[|b.starts|..|c.starts|] == starts;
    assert c.lengths[|b.starts|..|c.starts|] == Lengths(opens, b.nObs);
  }

  lemma BoundAtEnd(b: Blocks)
    ensures Bound(b, |b.firsts|) == |b.starts|
  {
  }

  // ---- sums off running totals

  function Sum(xs: seq<real>): real {
    if xs == [] then 0.0 else Sum(xs[..|xs| - 1]) + xs[|xs| - 1]
  }

  /** The sum of a column over the indices drawn. */
  function SumAt(xs: seq<real>, idx: seq<int>): real {
    if idx == [] then 0.0
    else
      var last := idx[|idx| - 1];
      SumAt(xs, idx[..|idx| - 1]) + if 0 <= last < |xs| then xs[last] else 0.0
  }

  /** The running totals of a column: entry `k` is the sum of its first `k` values. */
  ghost predicate Running(totals: seq<real>, xs: seq<real>) {
    |totals| == |xs| + 1 && forall k :: 0 <= k <= |xs| ==> totals[k] == Sum(xs[..k])
  }

  method CumulativeSum(xs: seq<real>) returns (totals: seq<real>)
    ensures Running(totals, xs)
  {
    totals := [0.0];
    while |totals| <= |xs|
      invariant 1 <= |totals| <= |xs| + 1
      invariant forall k :: 0 <= k < |totals| ==> totals[k] == Sum(xs[..k])
    {
      var k := |totals| - 1;
      assert xs[..k + 1][..k] == xs[..k];
      totals := totals + [totals[k] + xs[k]];
    }
  }

  lemma {:induction false} RunInside(start: int, length: nat, n: nat)
    requires n > 0
    ensures forall i :: 0 <= i < length ==> 0 <= Run(start, length, n)[i] < n
  {
    hide Wrap;
    if length > 0 { RunInside(start, length - 1, n); }
  }

  /** A block's sum off the running totals: its far end less its start, and what wrapped around from the front. */
  function BlockSum(totals: seq<real>, n: nat, start: int, length: int): real
    requires |totals| == n + 1 && 0 <= start < n && 1 <= length <= n
  {
    var end := start + length;
    totals[Min(end, n)] - totals[start] + if end > n then totals[end - n] else 0.0
  }

  lemma SumSnoc(xs: seq<real>, k: nat)
    requires k < |xs|
    ensures Sum(xs[..k + 1]) == Sum(xs[..k]) + xs[k]
  {
    assert xs[..k + 1][..k] == xs[..k];
  }

  lemma RunSnoc(xs: seq<real>, start: int, length: nat)
    requires xs != [] && length > 0
    ensures SumAt(xs, Run(start, length, |xs|)) == SumAt(xs, Run(start, length - 1, |xs|)) + xs[Wrap(start + length - 1, |xs|)]
  {
    hide Wrap;
    var run := Run(start, length, |xs|);
    assert run[..length - 1] == Run(start, length - 1, |xs|);
  }

  /** Reading a block off the running totals, wrap included, is adding its indices up. */
  lemma {:induction false} BlockSumIsDirect(totals: seq<real>, xs: seq<real>, start: int, length: int)
    requires Running(totals, xs) && 0 <= start < |xs| && 1 <= length <= |xs|
    ensures BlockSum(totals, |xs|, start, length) == SumAt(xs, Run(start, length, |xs|))
    decreases length
  {
    hide Wrap, Sum, Run;
    var n := |xs|;
    var end := start + length;
    RunSnoc(xs, start, length);
    WrapNear(end - 1, n);
    if end <= n {
      SumSnoc(xs, end - 1);
    } else {
      SumSnoc(xs, end - n - 1);
    }
    SumNone(xs);
    if length > 1 {
      BlockSumIsDirect(totals, xs, start, length - 1);
    } else {
      RunNone(xs, start);
    }
  }

  lemma SumNone(xs: seq<real>)
    ensures Sum(xs[..0]) == 0.0
  {
  }

  lemma RunNone(xs: seq<real>, start: int)
    requires xs != []
    ensures SumAt(xs, Run(start, 0, |xs|)) == 0.0
  {
  }

  lemma {:induction false} SumAtOfSum(xs: seq<real>, a: seq<int>, b: seq<int>)
    ensures SumAt(xs, a + b) == SumAt(xs, a) + SumAt(xs, b)
  {
    if b == [] {
      assert a + b == a;
    } else {
      SumAtOfSum(xs, a, b[..|b| - 1]);
      assert (a + b)[..|a + b| - 1] == a + b[..|b| - 1];
    }
  }

  lemma {:induction false} RunsInside(starts: seq<int>, lengths: seq<int>, n: nat)
    requires |starts| == |lengths| && n > 0
    ensures forall i :: 0 <= i < |Runs(starts, lengths, n)| ==> 0 <= Runs(starts, lengths, n)[i] < n
  {
    if starts != [] {
      var last := |starts| - 1;
      RunsInside(starts[..last], lengths[..last], n);
      RunInside(starts[last], if lengths[last] >= 0 then lengths[last] else 0, n);
    }
  }

  /** One resample's total of one column, block by block off the running totals: the sum of the column over the
      resample's indices, at the cost of its blocks. */
  method ResampleTotal(b: Blocks, r: nat, xs: seq<real>, totals: seq<real>) returns (total: real)
    requires BlocksOk(b) && r < |b.firsts| && |xs| == b.nObs && Running(totals, xs)
    ensures forall i :: 0 <= i < |Expand(b, r)| ==> 0 <= Expand(b, r)[i] < |xs|
    ensures total == SumAt(xs, Expand(b, r))
  {
    hide Run, Running, SumAt, Bound;
    var n := b.nObs;
    assert BoundOk(b, r);
    var first := Bound(b, r);
    var starts, lengths := b.starts[first..Bound(b, r + 1)], b.lengths[first..Bound(b, r + 1)];
    total := 0.0;
    SumAtNone(xs);
    RunsInside(starts, lengths, n);
    assert starts[..|starts|] == starts && lengths[..|starts|] == lengths;
    var i := 0;
    while i < |starts|
      invariant 0 <= i <= |starts|
      invariant total == SumAt(xs, Runs(starts[..i], lengths[..i], n))
    {
      assert starts[i] == b.starts[first + i] && lengths[i] == b.lengths[first + i];
      BlockSumIsDirect(totals, xs, starts[i], lengths[i]);
      SumAtOfSum(xs, Runs(starts[..i], lengths[..i], n), Run(starts[i], lengths[i], n));
      assert starts[..i + 1][..i] == starts[..i] && lengths[..i + 1][..i] == lengths[..i];
      assert |totals| == n + 1 by { RunningLength(totals, xs); }
      total := total + BlockSum(totals, n, starts[i], lengths[i]);
      i := i + 1;
    }
  }

  /** Every resample's total of every column, the running totals made once: the fast form of the contrast, equal to
      the direct sums over the resample's indices. */
  method ContrastTotals(b: Blocks, columns: seq<seq<real>>) returns (totals: seq<seq<real>>)
    requires BlocksOk(b) && forall j :: 0 <= j < |columns| ==> |columns[j]| == b.nObs
    ensures |totals| == |b.firsts|
    ensures forall r :: 0 <= r < |totals| ==> |totals[r]| == |columns|
    ensures forall r, j :: 0 <= r < |totals| && 0 <= j < |columns| ==> totals[r][j] == SumAt(columns[j], Expand(b, r))
  {
    hide SumAt, Running, Expand, BlocksOk;
    var running: seq<seq<real>> := [];
    while |running| < |columns|
      invariant |running| <= |columns|
      invariant forall j :: 0 <= j < |running| ==> Running(running[j], columns[j])
    {
      var total := CumulativeSum(columns[|running|]);
      running := running + [total];
    }
    totals := [];
    while |totals| < |b.firsts|
      invariant |totals| <= |b.firsts|
      invariant forall r :: 0 <= r < |totals| ==> |totals[r]| == |columns|
      invariant forall r, j :: 0 <= r < |totals| && 0 <= j < |columns| ==> totals[r][j] == SumAt(columns[j], Expand(b, r))
    {
      var row: seq<real> := [];
      while |row| < |columns|
        invariant |row| <= |columns|
        invariant forall j :: 0 <= j < |row| ==> row[j] == SumAt(columns[j], Expand(b, |totals|))
      {
        var total := ResampleTotal(b, |totals|, columns[|row|], running[|row|]);
        row := row + [total];
      }
      totals := totals + [row];
    }
  }

  lemma RunningLength(totals: seq<real>, xs: seq<real>)
    requires Running(totals, xs)
    ensures |totals| == |xs| + 1
  {
  }

  lemma SumAtNone(xs: seq<real>)
    ensures SumAt(xs, []) == 0.0
  {
  }

  // ---- re-entries

  /** The closes at which the arm is flat, from `from` up to `upTo`. */
  function Flats(positions: seq<real>, from: nat, upTo: nat): nat
    requires from <= upTo <= |positions|
    decreases upTo
  {
    if from == upTo then 0 else Flats(positions, from, upTo - 1) + if positions[upTo - 1] == 0.0 then 1 else 0
  }

  /** A close that fired, not long since, and fewer than `hold` flat closes from it up to this one. */
  ghost predicate OpenAt(positions: seq<real>, fires: seq<bool>, hold: nat, k: nat)
    requires k < |positions| == |fires|
  {
    exists f :: 0 <= f <= k && OpenSince(positions, fires, hold, k, f)
  }

  ghost predicate OpenSince(positions: seq<real>, fires: seq<bool>, hold: nat, k: nat, f: nat)
    requires f <= k < |positions| == |fires|
  {
    && fires[f] && (forall i :: f <= i <= k ==> positions[i] <= 0.0) && Flats(positions, f, k) < hold
  }

  /** What the counter holds before close `k`: what is left of the last fire, nothing once the arm has been long. */
  ghost predicate Left(positions: seq<real>, fires: seq<bool>, hold: nat, k: nat, left: nat)
    requires k <= |positions| == |fires|
  {
    && left <= hold
    && (left > 0 ==> exists f :: 0 <= f < k && Remains(positions, fires, hold, k, left, f))
    && (forall f :: 0 <= f < k && fires[f] && (forall i :: f <= i < k ==> positions[i] <= 0.0) ==>
         hold - Flats(positions, f, k) <= left)
  }

  ghost predicate Remains(positions: seq<real>, fires: seq<bool>, hold: nat, k: nat, left: nat, f: nat)
    requires f <= k <= |positions| == |fires| && f < |fires|
  {
    fires[f] && (forall i :: f <= i < k ==> positions[i] <= 0.0) && hold - Flats(positions, f, k) == left
  }

  /** Arm A's position, or the full-long size at exactly the flat closes an open re-entry covers. */
  method ReentryPositions(positions: seq<real>, fullLong: seq<real>, fires: seq<bool>, hold: nat) returns (out: seq<real>)
    requires |positions| == |fullLong| == |fires| && hold >= 1
    ensures |out| == |positions|
    ensures forall k :: 0 <= k < |out| ==>
      out[k] == if positions[k] == 0.0 && fullLong[k] > 0.0 && OpenAt(positions, fires, hold, k) then fullLong[k] else positions[k]
  {
    out := [];
    var left: nat := 0;
    while |out| < |positions|
      invariant |out| <= |positions|
      invariant Left(positions, fires, hold, |out|, left)
      invariant forall k :: 0 <= k < |out| ==>
        out[k] == if positions[k] == 0.0 && fullLong[k] > 0.0 && OpenAt(positions, fires, hold, k) then fullLong[k] else positions[k]
    {
      var k := |out|;
      var p := positions[k];
      ghost var before := left;
      if p > 0.0 {
        left := 0;
      } else if fires[k] {
        left := Max(left, hold);
      }
      CounterMeansOpen(positions, fires, hold, k, before, left);
      out := out + [if p == 0.0 && left > 0 && fullLong[k] > 0.0 then fullLong[k] else p];
      if p == 0.0 && left > 0 {
        left := left - 1;
      }
    }
  }

  lemma CounterMeansOpen(positions: seq<real>, fires: seq<bool>, hold: nat, k: nat, before: nat, left: nat)
    requires k < |positions| == |fires| && hold >= 1
    requires Left(positions, fires, hold, k, before)
    requires left == if positions[k] > 0.0 then 0 else if fires[k] then Max(before, hold) else before
    ensures left > 0 <==> OpenAt(positions, fires, hold, k)
    ensures Left(positions, fires, hold, k + 1, if positions[k] == 0.0 && left > 0 then left - 1 else left)
  {
    var after := if positions[k] == 0.0 && left > 0 then left - 1 else left;
    if OpenAt(positions, fires, hold, k) {
      var f :| 0 <= f <= k && OpenSince(positions, fires, hold, k, f);
      if f == k { assert Flats(positions, k, k) == 0; }
    }
    if left > 0 {
      if fires[k] {
        assert Flats(positions, k, k) == 0;
        assert OpenSince(positions, fires, hold, k, k);
        assert Remains(positions, fires, hold, k + 1, hold - Flats(positions, k, k + 1), k);
      } else {
        var f :| 0 <= f < k && Remains(positions, fires, hold, k, before, f);
        assert OpenSince(positions, fires, hold, k, f);
        assert Flats(positions, f, k + 1) == Flats(positions, f, k) + if positions[k] == 0.0 then 1 else 0;
        if after > 0 { assert Remains(positions, fires, hold, k + 1, after, f); }
      }
    }
    forall f | 0 <= f < k + 1 && fires[f] && (forall i :: f <= i < k + 1 ==> positions[i] <= 0.0)
      ensures hold - Flats(positions, f, k + 1) <= after
    {
      assert positions[k] <= 0.0;
      assert Flats(positions, f, k + 1) == Flats(positions, f, k) + if positions[k] == 0.0 then 1 else 0;
      if f == k { assert Flats(positions, k, k) == 0; }
    }
  }
}
