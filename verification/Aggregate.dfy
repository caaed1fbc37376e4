/** Minute bars into buckets, `aggregate_minutes` of `cli/backfill/aggregate.py`, and the roll-up of
    `cli/backfill/substrate15m.py` on top of it. Arithmetic is exact; instants are whole seconds. */
module Aggregate {
  import opened Prelude
  import opened Sorting

  datatype Bar = Bar(ts: int, open: real, high: real, low: real, close: real, volume: real, count: int)

  function Bucket(ts: int, secs: int): int
    requires secs > 0
  {
    ts / secs * secs
  }

  function Higher(a: real, b: real): real {
    if a >= b then a else b
  }

  function Lower(a: real, b: real): real {
    if a <= b then a else b
  }

  /** One stretch of trading behind another. */
  function Combine(a: Bar, b: Bar): Bar {
    Bar(a.ts, a.open, Higher(a.high, b.high), Lower(a.low, b.low), b.close, a.volume + b.volume, a.count + b.count)
  }

  /** First open, highest high, lowest low, last close, summed volume and count. */
  function Fold(rows: seq<Bar>): Bar
    requires rows != []
  {
    if |rows| == 1 then rows[0] else Combine(Fold(rows[..|rows| - 1]), rows[|rows| - 1])
  }

  function InBucket(rows: seq<Bar>, bucket: int, secs: int): seq<Bar>
    requires secs > 0
  {
    if rows == [] then []
    else
      var last := rows[|rows| - 1];
      InBucket(rows[..|rows| - 1], bucket, secs) + if Bucket(last.ts, secs) == bucket then [last] else []
  }

  function ByTs(rows: seq<Bar>): seq<Bar> {
    SortBy((r: Bar) => r.ts, rows)
  }

  function Buckets(rows: seq<Bar>, secs: int): set<int>
    requires secs > 0
  {
    set i | 0 <= i < |rows| :: Bucket(rows[i].ts, secs)
  }

  function BarAt(rows: seq<Bar>, bucket: int, secs: int): Bar
    requires secs > 0 && InBucket(rows, bucket, secs) != []
  {
    Fold(ByTs(InBucket(rows, bucket, secs))).(ts := bucket)
  }

  /** The bars of the first `n` buckets. */
  function BarsOf(rows: seq<Bar>, buckets: seq<int>, secs: int): seq<Bar>
    requires secs > 0 && forall i :: 0 <= i < |buckets| ==> InBucket(rows, buckets[i], secs) != []
  {
    if buckets == [] then []
    else BarsOf(rows, buckets[..|buckets| - 1], secs) + [BarAt(rows, buckets[|buckets| - 1], secs)]
  }

  /** Every bucket with a row in it, in order. */
  function Aggregated(rows: seq<Bar>, secs: int): seq<Bar>
    requires secs > 0
  {
    BucketsFilled(rows, secs);
    BarsOf(rows, Ascending(Buckets(rows, secs)), secs)
  }

  lemma {:induction false} BucketHas(rows: seq<Bar>, bucket: int, secs: int)
    requires secs > 0
    ensures InBucket(rows, bucket, secs) != [] <==> bucket in Buckets(rows, secs)
  {
    if rows != [] {
      var n := |rows| - 1;
      BucketHas(rows[..n], bucket, secs);
      if bucket in Buckets(rows, secs) {
        var i :| 0 <= i < |rows| && Bucket(rows[i].ts, secs) == bucket;
        if i < n { assert Bucket(rows[..n][i].ts, secs) == bucket; }
      }
      if bucket in Buckets(rows[..n], secs) {
        var i :| 0 <= i < n && Bucket(rows[..n][i].ts, secs) == bucket;
        assert Bucket(rows[i].ts, secs) == bucket;
      }
      assert Bucket(rows[n].ts, secs) in Buckets(rows, secs);
    }
  }

  lemma BucketsFilled(rows: seq<Bar>, secs: int)
    requires secs > 0
    ensures forall i :: 0 <= i < |Ascending(Buckets(rows, secs))| ==> InBucket(rows, Ascending(Buckets(rows, secs))[i], secs) != []
  {
    hide Bucket, Buckets, InBucket;
    var buckets := Ascending(Buckets(rows, secs));
    forall i | 0 <= i < |buckets| ensures InBucket(rows, buckets[i], secs) != [] {
      assert buckets[i] in buckets;
      BucketHas(rows, buckets[i], secs);
    }
  }

  // ---- the program

  datatype Priced = Priced(bar: Bar, vwap: real)

  /** Close-weighted volume. */
  function Turnover(rows: seq<Bar>): real {
    if rows == [] then 0.0 else Turnover(rows[..|rows| - 1]) + rows[|rows| - 1].close * rows[|rows| - 1].volume
  }

  function Vwap(rows: seq<Bar>): real
    requires rows != []
  {
    if Fold(rows).volume == 0.0 then Fold(rows).close else Turnover(rows) / Fold(rows).volume
  }

  method FoldRows(rows: seq<Bar>) returns (bar: Bar, turnover: real)
    requires rows != []
    ensures bar == Fold(rows) && turnover == Turnover(rows)
  {
    bar, turnover := rows[0], rows[0].close * rows[0].volume;
    var i := 1;
    assert rows[..1] == [rows[0]] && rows[..1][..0] == [];
    while i < |rows|
      invariant 1 <= i <= |rows|
      invariant bar == Fold(rows[..i]) && turnover == Turnover(rows[..i])
    {
      assert rows[..i + 1][..i] == rows[..i];
      bar := Combine(bar, rows[i]);
      turnover := turnover + rows[i].close * rows[i].volume;
      i := i + 1;
    }
    assert rows[..i] == rows;
  }

  /** Each row into its bucket, in the order it came. */
  method FillBuckets(rows: seq<Bar>, secs: int) returns (buckets: map<int, seq<Bar>>)
    requires secs > 0
    ensures buckets.Keys == Buckets(rows, secs)
    ensures forall b :: b in buckets ==> buckets[b] == InBucket(rows, b, secs)
  {
    hide Bucket, Buckets, InBucket;
    buckets := map[];
    var i := 0;
    assert rows[..|rows|] == rows;
    NoRows(rows, secs);
    while i < |rows|
      invariant 0 <= i <= |rows|
      invariant forall b :: (if b in buckets then buckets[b] else []) == InBucket(rows[..i], b, secs)
      invariant buckets.Keys == Buckets(rows[..i], secs)
    {
      var b := Bucket(rows[i].ts, secs);
      OneRowMore(rows, i, secs);
      buckets := buckets[b := (if b in buckets then buckets[b] else []) + [rows[i]]];
      i := i + 1;
    }
  }

  /** A bar and its reconstructed average price, as `aggregate_minutes` makes them of one bucket. */
  ghost predicate PricedFrom(rows: seq<Bar>, bucket: int, secs: int, p: Priced)
    requires secs > 0
  {
    InBucket(rows, bucket, secs) != [] && p == Priced(BarAt(rows, bucket, secs), Vwap(ByTs(InBucket(rows, bucket, secs))))
  }

  method AggregateMinutes(rows: seq<Bar>, secs: int) returns (out: seq<Priced>)
    requires secs > 0
    ensures |out| == |Aggregated(rows, secs)|
    ensures forall i :: 0 <= i < |out| ==> out[i].bar == Aggregated(rows, secs)[i] && PricedFrom(rows, out[i].bar.ts, secs, out[i])
  {
    hide Bucket, Fold, Vwap, Turnover, Buckets, InBucket, ByTs;
    var buckets := FillBuckets(rows, secs);
    var order := Ascending(buckets.Keys);
    BucketsFilled(rows, secs);
    out := [];
    while |out| < |order|
      invariant |out| <= |order|
      invariant forall j :: 0 <= j < |out| ==> PricedFrom(rows, order[j], secs, out[j])
    {
      var bucket := order[|out|];
      assert bucket in order;
      ByTsCount(buckets[bucket]);
      var sorted := ByTs(buckets[bucket]);
      var bar, turnover := FoldRows(sorted);
      VwapIs(sorted, bar, turnover);
      out := out + [Priced(bar.(ts := bucket), if bar.volume == 0.0 then bar.close else turnover / bar.volume)];
    }
    BarsOfCount(rows, order, secs);
    forall j | 0 <= j < |out| ensures out[j].bar == Aggregated(rows, secs)[j] && PricedFrom(rows, out[j].bar.ts, secs, out[j]) {
      BarsOfAt(rows, order, secs, j);
    }
  }

  lemma VwapIs(rows: seq<Bar>, bar: Bar, turnover: real)
    requires rows != [] && bar == Fold(rows) && turnover == Turnover(rows)
    ensures Vwap(rows) == if bar.volume == 0.0 then bar.close else turnover / bar.volume
  {
  }

  lemma NoRows(rows: seq<Bar>, secs: int)
    requires secs > 0
    ensures forall b :: InBucket(rows[..0], b, secs) == []
    ensures Buckets(rows[..0], secs) == {}
  {
  }

  lemma OneRowMore(rows: seq<Bar>, i: nat, secs: int)
    requires secs > 0 && i < |rows|
    ensures var b := Bucket(rows[i].ts, secs);
      && (forall c :: InBucket(rows[..i + 1], c, secs) == InBucket(rows[..i], c, secs) + if c == b then [rows[i]] else [])
      && Buckets(rows[..i + 1], secs) == Buckets(rows[..i], secs) + {b}
  {
    hide Bucket;
    assert rows[..i + 1][..i] == rows[..i];
    forall b ensures b in Buckets(rows[..i + 1], secs) <==> b in Buckets(rows[..i], secs) || b == Bucket(rows[i].ts, secs) {
      if b in Buckets(rows[..i + 1], secs) {
        var k :| 0 <= k < i + 1 && Bucket(rows[..i + 1][k].ts, secs) == b;
        if k < i { assert Bucket(rows[..i][k].ts, secs) == b; }
      }
      if b in Buckets(rows[..i], secs) {
        var k :| 0 <= k < i && Bucket(rows[..i][k].ts, secs) == b;
        assert Bucket(rows[..i + 1][k].ts, secs) == b;
      }
      assert Bucket(rows[..i + 1][i].ts, secs) in Buckets(rows[..i + 1], secs);
    }
  }

  lemma {:induction false} BarsOfAt(rows: seq<Bar>, buckets: seq<int>, secs: int, j: nat)
    requires secs > 0 && forall i :: 0 <= i < |buckets| ==> InBucket(rows, buckets[i], secs) != []
    requires j < |buckets|
    ensures |BarsOf(rows, buckets, secs)| == |buckets|
    ensures BarsOf(rows, buckets, secs)[j] == BarAt(rows, buckets[j], secs)
  {
    hide BarAt, InBucket;
    if j < |buckets| - 1 {
      BarsOfAt(rows, buckets[..|buckets| - 1], secs, j);
    } else {
      BarsOfCount(rows, buckets[..|buckets| - 1], secs);
    }
  }

  lemma {:induction false} BarsOfCount(rows: seq<Bar>, buckets: seq<int>, secs: int)
    requires secs > 0 && forall i :: 0 <= i < |buckets| ==> InBucket(rows, buckets[i], secs) != []
    ensures |BarsOf(rows, buckets, secs)| == |buckets|
  {
    hide BarAt, InBucket;
    if buckets != [] {
      BarsOfCount(rows, buckets[..|buckets| - 1], secs);
    }
  }

  // ---- what a fold is

  lemma {:induction false} FoldJoins(a: seq<Bar>, b: seq<Bar>)
    requires a != [] && b != []
    ensures Fold(a + b) == Combine(Fold(a), Fold(b))
  {
    assert (a + b)[..|a + b| - 1] == a + b[..|b| - 1];
    if |b| == 1 {
      assert a + b[..0] == a;
    } else {
      FoldJoins(a, b[..|b| - 1]);
    }
  }

  /** A fold says the first open, the last close, and the extremes any row reached. */
  lemma {:induction false} FoldIs(rows: seq<Bar>)
    requires rows != []
    ensures Fold(rows).open == rows[0].open && Fold(rows).close == rows[|rows| - 1].close
    ensures forall i :: 0 <= i < |rows| ==> Fold(rows).low <= rows[i].low && rows[i].high <= Fold(rows).high
    ensures exists i :: 0 <= i < |rows| && rows[i].high == Fold(rows).high
    ensures exists i :: 0 <= i < |rows| && rows[i].low == Fold(rows).low
  {
    if |rows| > 1 {
      var n := |rows| - 1;
      FoldIs(rows[..n]);
      assert forall i :: 0 <= i < n ==> rows[..n][i] == rows[i];
      var i :| 0 <= i < n && rows[..n][i].high == Fold(rows[..n]).high;
      var j :| 0 <= j < n && rows[..n][j].low == Fold(rows[..n]).low;
      assert rows[i].high == Fold(rows[..n]).high && rows[j].low == Fold(rows[..n]).low;
      assert rows[n].high == Fold(rows).high || rows[i].high == Fold(rows).high;
      assert rows[n].low == Fold(rows).low || rows[j].low == Fold(rows).low;
    }
  }

  // ---- a stable order is determined stamp by stamp

  function AtTs(rows: seq<Bar>, t: int): seq<Bar> {
    if rows == [] then []
    else
      var last := rows[|rows| - 1];
      AtTs(rows[..|rows| - 1], t) + if last.ts == t then [last] else []
  }

  ghost predicate TsOrdered(rows: seq<Bar>) {
    forall i, j :: 0 <= i < j < |rows| ==> rows[i].ts <= rows[j].ts
  }

  lemma AtTsSnoc(rows: seq<Bar>, row: Bar, t: int)
    ensures AtTs(rows + [row], t) == if row.ts == t then AtTs(rows, t) + [row] else AtTs(rows, t)
  {
    assert (rows + [row])[..|rows|] == rows;
    assert AtTs(rows, t) + [] == AtTs(rows, t);
  }

  lemma {:induction false} AtTsSum(a: seq<Bar>, b: seq<Bar>, t: int)
    ensures AtTs(a + b, t) == AtTs(a, t) + AtTs(b, t)
  {
    if b == [] {
      assert a + b == a;
    } else {
      AtTsSum(a, b[..|b| - 1], t);
      assert (a + b)[..|a + b| - 1] == a + b[..|b| - 1];
    }
  }

  lemma {:induction false} AtTsNone(rows: seq<Bar>, t: int)
    ensures AtTs(rows, t) == [] <==> forall i :: 0 <= i < |rows| ==> rows[i].ts != t
  {
    if rows != [] {
      var n := |rows| - 1;
      AtTsNone(rows[..n], t);
      assert forall i :: 0 <= i < n ==> rows[..n][i] == rows[i];
    }
  }

  lemma {:induction false} InsertStable(s: seq<Bar>, x: Bar, t: int)
    ensures AtTs(InsertBy((r: Bar) => r.ts, s, x), t) == AtTs(s + [x], t)
  {
    var key := (r: Bar) => r.ts;
    if s == [] || key(s[|s| - 1]) <= key(x) {
    } else {
      var front, last := s[..|s| - 1], s[|s| - 1];
      InsertStable(front, x, t);
      AtTsSnoc(InsertBy(key, front, x), last, t);
      AtTsSnoc(front, x, t);
      AtTsSnoc(s, x, t);
      assert s == front + [last];
      AtTsSnoc(front, last, t);
    }
  }

  /** The sort keeps the rows of one stamp in the order they came. */
  lemma {:induction false} SortStable(rows: seq<Bar>, t: int)
    ensures AtTs(ByTs(rows), t) == AtTs(rows, t)
  {
    if rows != [] {
      var front, last := rows[..|rows| - 1], rows[|rows| - 1];
      SortStable(front, t);
      InsertStable(ByTs(front), last, t);
      AtTsSnoc(ByTs(front), last, t);
      assert rows == front + [last];
      AtTsSnoc(front, last, t);
    }
  }

  lemma SortOrdered(rows: seq<Bar>)
    ensures TsOrdered(ByTs(rows))
  {
    var key := (r: Bar) => r.ts;
    SortByKeeps(key, rows);
    var s := ByTs(rows);
    forall i, j | 0 <= i < j < |s| ensures s[i].ts <= s[j].ts {
      assert key(s[i]) <= key(s[j]);
    }
  }

  lemma LastOf(rows: seq<Bar>)
    requires TsOrdered(rows) && rows != []
    ensures AtTs(rows, rows[|rows| - 1].ts) != []
    ensures forall t :: t > rows[|rows| - 1].ts ==> AtTs(rows, t) == []
  {
    AtTsNone(rows, rows[|rows| - 1].ts);
    forall t | t > rows[|rows| - 1].ts ensures AtTs(rows, t) == [] {
      AtTsNone(rows, t);
    }
  }

  lemma {:induction false} SameStamps(a: seq<Bar>, b: seq<Bar>)
    requires TsOrdered(a) && TsOrdered(b)
    requires forall t: int :: AtTs(a, t) == AtTs(b, t)
    ensures a == b
    decreases |a| + |b|
  {
    hide AtTs;
    if a == [] || b == [] {
      if a != [] { LastOf(a); AtTsNone(b, a[|a| - 1].ts); }
      if b != [] { LastOf(b); AtTsNone(a, b[|b| - 1].ts); }
    } else {
      var c, x, d, y := a[..|a| - 1], a[|a| - 1], b[..|b| - 1], b[|b| - 1];
      LastOf(a);
      LastOf(b);
      assert AtTs(a, x.ts) == AtTs(b, x.ts) && AtTs(a, y.ts) == AtTs(b, y.ts);
      assert x.ts == y.ts;
      assert a == c + [x] && b == d + [y];
      AtTsSnoc(c, x, x.ts);
      AtTsSnoc(d, y, x.ts);
      SnocSame(AtTs(c, x.ts), AtTs(d, x.ts), x, y);
      forall t: int ensures AtTs(c, t) == AtTs(d, t) {
        AtTsSnoc(c, x, t);
        AtTsSnoc(d, y, t);
        assert AtTs(a, t) == AtTs(b, t);
      }
      SameStamps(c, d);
    }
  }

  // ---- two stages

  lemma {:induction false} AtTsInBucket(rows: seq<Bar>, bucket: int, secs: int, t: int)
    requires secs > 0
    ensures AtTs(InBucket(rows, bucket, secs), t) == if Bucket(t, secs) == bucket then AtTs(rows, t) else []
  {
    hide Bucket;
    if rows != [] {
      var front, last := rows[..|rows| - 1], rows[|rows| - 1];
      AtTsInBucket(front, bucket, secs, t);
      assert rows == front + [last];
      AtTsSnoc(front, last, t);
      if Bucket(last.ts, secs) == bucket {
        AtTsSnoc(InBucket(front, bucket, secs), last, t);
      } else {
        assert InBucket(front, bucket, secs) + [] == InBucket(front, bucket, secs);
      }
    }
  }

  /** Euclidean floors: a bucket holds its stamps, and finer buckets nest in coarser ones. */
  lemma BucketHolds(t: int, secs: int)
    requires secs > 0
    ensures Bucket(t, secs) <= t < Bucket(t, secs) + secs
  {
    var q := t / secs;
    assert t == secs * q + t % secs;
    assert q * secs == secs * q;
  }

  lemma DivIs(x: int, n: int, q: int)
    requires n > 0 && n * q <= x < n * q + n
    ensures x / n == q
  {
    var d := x / n - q;
    assert x == n * (x / n) + x % n;
    assert n * d == x - x % n - n * q;
    if d != 0 { MulAtLeast(n, d); }
  }

  lemma BucketsNest(t: int, m: int, k: int)
    requires m > 0 && k > 0
    ensures m * k > 0 && Bucket(Bucket(t, m), m * k) == Bucket(t, m * k)
  {
    var big := m * k;
    MulAtLeast(m, k);
    var q, r := t / big, t / m;
    assert t == big * q + t % big && t == m * r + t % m;
    FloorNests(t, m, k, q, r);
    DivIs(m * r, big, q);
    assert r * m == m * r;
  }

  lemma FloorNests(t: int, m: int, k: int, q: int, r: int)
    requires m > 0 && m * k * q <= t < m * k * q + m * k && m * r <= t < m * r + m
    ensures m * k * q <= m * r < m * k * q + m * k
  {
    assert m * k * q == m * (k * q);
    assert m * (k * q + k) == m * (k * q) + m * k;
    NestFloor(m, k * q, r, t);
    NestCeil(m, k * q + k, r, t);
  }

  lemma NestFloor(m: int, a: int, r: int, t: int)
    requires m > 0 && m * a <= t < m * r + m
    ensures m * a <= m * r
  {
    MulAtLeast(m, r - a);
    assert m * (r - a) == m * r - m * a;
  }

  lemma NestCeil(m: int, a: int, r: int, t: int)
    requires m > 0 && m * r <= t < m * a
    ensures m * r < m * a
  {
  }

  /** The rows of the finer buckets, one bucket after the other. */
  function Joined(rows: seq<Bar>, buckets: seq<int>, secs: int): seq<Bar>
    requires secs > 0
  {
    if buckets == [] then []
    else Joined(rows, buckets[..|buckets| - 1], secs) + ByTs(InBucket(rows, buckets[|buckets| - 1], secs))
  }

  lemma {:induction false} JoinedAt(rows: seq<Bar>, buckets: seq<int>, secs: int, t: int)
    requires secs > 0 && Increasing(buckets)
    ensures AtTs(Joined(rows, buckets, secs), t) == if Bucket(t, secs) in buckets then AtTs(rows, t) else []
  {
    hide Bucket, AtTs, ByTs, InBucket;
    if buckets == [] {
      AtTsNone(Joined(rows, buckets, secs), t);
    } else {
      var front, last := buckets[..|buckets| - 1], buckets[|buckets| - 1];
      JoinedAt(rows, front, secs, t);
      var rest := InBucket(rows, last, secs);
      SortStable(rest, t);
      AtTsInBucket(rows, last, secs, t);
      AtTsSum(Joined(rows, front, secs), ByTs(rest), t);
      assert last !in front;
      assert buckets == front + [last];
    }
  }

  lemma {:induction false} JoinedOrdered(rows: seq<Bar>, buckets: seq<int>, secs: int)
    requires secs > 0 && Increasing(buckets)
    ensures TsOrdered(Joined(rows, buckets, secs))
    ensures forall i :: 0 <= i < |Joined(rows, buckets, secs)| ==> Bucket(Joined(rows, buckets, secs)[i].ts, secs) in buckets
  {
    hide Bucket, ByTs, InBucket;
    if buckets != [] {
      var front, last := buckets[..|buckets| - 1], buckets[|buckets| - 1];
      JoinedOrdered(rows, front, secs);
      var a, b := Joined(rows, front, secs), ByTs(InBucket(rows, last, secs));
      SortOrdered(InBucket(rows, last, secs));
      forall i | 0 <= i < |b| ensures Bucket(b[i].ts, secs) == last {
        SortedInBucket(rows, last, secs, i);
      }
      forall i, j | 0 <= i < |a| && 0 <= j < |b| ensures a[i].ts <= b[j].ts {
        assert Bucket(a[i].ts, secs) in front;
        BucketApart(a[i].ts, b[j].ts, secs);
      }
      assert buckets == front + [last];
    }
  }

  lemma BucketApart(s: int, t: int, secs: int)
    requires secs > 0 && Bucket(s, secs) < Bucket(t, secs)
    ensures s < t
  {
    if s >= t {
      BucketHolds(t, secs);
      BucketHolds(s, secs);
      BucketRises(t, s, secs);
    }
  }

  lemma BucketRises(s: int, t: int, secs: int)
    requires secs > 0 && s <= t
    ensures Bucket(s, secs) <= Bucket(t, secs)
  {
    var q, r := s / secs, t / secs;
    assert s == secs * q + s % secs && t == secs * r + t % secs;
    NestFloor(secs, q, r, t);
    assert q * secs == secs * q && r * secs == secs * r;
  }

  lemma {:induction false} SortedInBucket(rows: seq<Bar>, bucket: int, secs: int, i: nat)
    requires secs > 0 && i < |ByTs(InBucket(rows, bucket, secs))|
    ensures Bucket(ByTs(InBucket(rows, bucket, secs))[i].ts, secs) == bucket
  {
    hide Bucket, ByTs;
    var sorted := ByTs(InBucket(rows, bucket, secs));
    var t := sorted[i].ts;
    AtTsNone(sorted, t);
    SortStable(InBucket(rows, bucket, secs), t);
    AtTsInBucket(rows, bucket, secs, t);
  }

  /** The finer buckets inside one coarser bucket, in order. */
  function Within(buckets: seq<int>, bucket: int, secs: int): seq<int>
    requires secs > 0
  {
    if buckets == [] then []
    else
      var last := buckets[|buckets| - 1];
      Within(buckets[..|buckets| - 1], bucket, secs) + if Bucket(last, secs) == bucket then [last] else []
  }

  lemma {:induction false} WithinIs(buckets: seq<int>, bucket: int, secs: int)
    requires secs > 0 && Increasing(buckets)
    ensures Increasing(Within(buckets, bucket, secs))
    ensures forall k :: k in Within(buckets, bucket, secs) <==> k in buckets && Bucket(k, secs) == bucket
  {
    hide Bucket;
    if buckets != [] {
      var front, last := buckets[..|buckets| - 1], buckets[|buckets| - 1];
      WithinIs(front, bucket, secs);
      assert buckets == front + [last];
      var w := Within(front, bucket, secs);
      forall i | 0 <= i < |w| ensures w[i] < last {
        assert w[i] in w && w[i] in front;
      }
    }
  }

  /** The finer bars of one coarser bucket fold to what the rows of that bucket fold to. */
  lemma {:induction false} BarsFold(rows: seq<Bar>, buckets: seq<int>, secs: int)
    requires secs > 0 && buckets != []
    requires forall i :: 0 <= i < |buckets| ==> InBucket(rows, buckets[i], secs) != []
    ensures BarsOf(rows, buckets, secs) != [] && Joined(rows, buckets, secs) != []
    ensures Fold(BarsOf(rows, buckets, secs)).(ts := 0) == Fold(Joined(rows, buckets, secs)).(ts := 0)
  {
    hide InBucket, ByTs;
    var front, last := buckets[..|buckets| - 1], buckets[|buckets| - 1];
    var sorted := ByTs(InBucket(rows, last, secs));
    assert |sorted| == |InBucket(rows, last, secs)| by { ByTsCount(InBucket(rows, last, secs)); }
    var bar := BarAt(rows, last, secs);
    if front == [] {
      assert BarsOf(rows, buckets, secs) == [bar];
      assert Joined(rows, buckets, secs) == sorted;
    } else {
      BarsFold(rows, front, secs);
      FoldJoins(BarsOf(rows, front, secs), [bar]);
      FoldJoins(Joined(rows, front, secs), sorted);
      assert Fold([bar]) == bar;
    }
  }

  lemma ByTsCount(rows: seq<Bar>)
    ensures |ByTs(rows)| == |rows|
  {
  }

  lemma {:induction false} BarsInBucket(rows: seq<Bar>, buckets: seq<int>, m: int, bucket: int, big: int)
    requires m > 0 && big > 0 && forall i :: 0 <= i < |buckets| ==> InBucket(rows, buckets[i], m) != []
    requires forall i :: 0 <= i < |Within(buckets, bucket, big)| ==> InBucket(rows, Within(buckets, bucket, big)[i], m) != []
    ensures InBucket(BarsOf(rows, buckets, m), bucket, big) == BarsOf(rows, Within(buckets, bucket, big), m)
  {
    hide Bucket, Fold, ByTs;
    if buckets != [] {
      var front, last := buckets[..|buckets| - 1], buckets[|buckets| - 1];
      var w := Within(front, bucket, big);
      assert forall i :: 0 <= i < |w| ==> Within(buckets, bucket, big)[i] == w[i];
      BarsInBucket(rows, front, m, bucket, big);
      var bar := BarAt(rows, last, m);
      assert BarsOf(rows, buckets, m)[..|BarsOf(rows, buckets, m)| - 1] == BarsOf(rows, front, m);
      assert bar.ts == last;
      if Bucket(last, big) == bucket {
        assert Within(buckets, bucket, big)[..|w|] == w;
      } else {
        assert Within(buckets, bucket, big) == w;
        assert InBucket(BarsOf(rows, front, m), bucket, big) + [] == InBucket(BarsOf(rows, front, m), bucket, big);
      }
    }
  }

  lemma {:induction false} BarsOrdered(rows: seq<Bar>, buckets: seq<int>, secs: int)
    requires secs > 0 && Increasing(buckets) && forall i :: 0 <= i < |buckets| ==> InBucket(rows, buckets[i], secs) != []
    ensures ByTs(BarsOf(rows, buckets, secs)) == BarsOf(rows, buckets, secs)
  {
    var key := (r: Bar) => r.ts;
    var bars := BarsOf(rows, buckets, secs);
    BarsOfCount(rows, buckets, secs);
    hide InBucket, BarsOf, Fold, ByTs;
    forall i, j | 0 <= i < j < |bars| ensures key(bars[i]) <= key(bars[j]) {
      BarsOfAt(rows, buckets, secs, i);
      BarsOfAt(rows, buckets, secs, j);
    }
    assert ByTs(bars) == SortBy(key, bars) by { ByTsIs(bars); }
    SortByFixed(key, bars);
  }

  lemma ByTsIs(rows: seq<Bar>)
    ensures ByTs(rows) == SortBy((r: Bar) => r.ts, rows)
  {
  }

  /** The stable order of a coarser bucket's rows is the finer buckets' orders, one after the other. */
  lemma CoarserIsJoined(rows: seq<Bar>, m: int, k: int, bucket: int)
    requires m > 0 && k > 0
    ensures m * k > 0
    ensures ByTs(InBucket(rows, bucket, m * k)) == Joined(rows, Within(Ascending(Buckets(rows, m)), bucket, m * k), m)
  {
    BucketsNest(0, m, k);
    var big := m * k;
    var all := Ascending(Buckets(rows, m));
    var inside := Within(all, bucket, big);
    hide Bucket, Ascending, AtTs, ByTs, InBucket, Buckets, Joined, Within;
    WithinIs(all, bucket, big);
    var a, b := ByTs(InBucket(rows, bucket, big)), Joined(rows, inside, m);
    SortOrdered(InBucket(rows, bucket, big));
    JoinedOrdered(rows, inside, m);
    forall t: int ensures AtTs(a, t) == AtTs(b, t) {
      SortStable(InBucket(rows, bucket, big), t);
      AtTsInBucket(rows, bucket, big, t);
      JoinedAt(rows, inside, m, t);
      BucketsNest(t, m, k);
      BucketHas(rows, Bucket(t, m), m);
      AtTsOfBucket(rows, t, m);
    }
    SameStamps(a, b);
  }

  lemma AtTsOfBucket(rows: seq<Bar>, t: int, secs: int)
    requires secs > 0
    ensures AtTs(rows, t) != [] ==> Bucket(t, secs) in Buckets(rows, secs)
  {
    AtTsNone(rows, t);
    hide Bucket;
  }

  /** One coarser bar out of the finer ones. */
  lemma CoarserBar(rows: seq<Bar>, m: int, k: int, bucket: int)
    requires m > 0 && k > 0 && m * k > 0 && InBucket(rows, bucket, m * k) != []
    ensures InBucket(Aggregated(rows, m), bucket, m * k) != []
    ensures BarAt(Aggregated(rows, m), bucket, m * k) == BarAt(rows, bucket, m * k)
  {
    var big := m * k;
    var all := Ascending(Buckets(rows, m));
    var inside := Within(all, bucket, big);
    BucketsFilled(rows, m);
    hide Bucket, Ascending, AtTs, ByTs, InBucket, Buckets, Joined, Within, Fold;
    WithinIs(all, bucket, big);
    CoarserIsJoined(rows, m, k, bucket);
    ByTsCount(InBucket(rows, bucket, big));
    forall i | 0 <= i < |inside| ensures InBucket(rows, inside[i], m) != [] {
      assert inside[i] in inside && inside[i] in all;
      var j :| 0 <= j < |all| && all[j] == inside[i];
    }
    if inside == [] { JoinedNone(rows, m); }
    BarsInBucket(rows, all, m, bucket, big);
    BarsFold(rows, inside, m);
    BarsOrdered(rows, inside, m);
  }

  lemma JoinedNone(rows: seq<Bar>, secs: int)
    requires secs > 0
    ensures Joined(rows, [], secs) == []
  {
  }

  lemma BucketsAgain(rows: seq<Bar>, m: int, k: int)
    requires m > 0 && k > 0
    ensures m * k > 0 && Buckets(Aggregated(rows, m), m * k) == Buckets(rows, m * k)
  {
    BucketsNest(0, m, k);
    var big := m * k;
    BucketsFilled(rows, m);
    var all, bars := Ascending(Buckets(rows, m)), Aggregated(rows, m);
    BarsOfCount(rows, all, m);
    hide Bucket, Ascending, InBucket, ByTs, Fold, Aggregated;
    forall i | 0 <= i < |bars| ensures bars[i].ts == all[i] {
      AggregatedAt(rows, m, i);
    }
    forall b ensures b in Buckets(bars, big) <==> b in Buckets(rows, big) {
      if b in Buckets(bars, big) {
        var i :| 0 <= i < |bars| && Bucket(bars[i].ts, big) == b;
        assert all[i] in all && all[i] in Buckets(rows, m);
        var j :| 0 <= j < |rows| && Bucket(rows[j].ts, m) == all[i];
        BucketsNest(rows[j].ts, m, k);
        assert Bucket(rows[j].ts, big) == b;
      }
      if b in Buckets(rows, big) {
        var j :| 0 <= j < |rows| && Bucket(rows[j].ts, big) == b;
        BucketsNest(rows[j].ts, m, k);
        assert Bucket(rows[j].ts, m) in Buckets(rows, m) && Bucket(rows[j].ts, m) in all;
        var i :| 0 <= i < |all| && all[i] == Bucket(rows[j].ts, m);
        assert Bucket(bars[i].ts, big) == b;
      }
    }
  }

  lemma AggregatedAt(rows: seq<Bar>, secs: int, i: nat)
    requires secs > 0 && i < |Ascending(Buckets(rows, secs))|
    ensures |Aggregated(rows, secs)| == |Ascending(Buckets(rows, secs))|
    ensures Aggregated(rows, secs)[i].ts == Ascending(Buckets(rows, secs))[i]
  {
    BucketsFilled(rows, secs);
    BarsOfAt(rows, Ascending(Buckets(rows, secs)), secs, i);
    hide Fold, ByTs, InBucket, Ascending;
  }

  lemma AggregatedTwice(rows: seq<Bar>, m: int, k: int)
    requires m > 0 && k > 0
    ensures m * k > 0 && Aggregated(Aggregated(rows, m), m * k) == Aggregated(rows, m * k)
  {
    BucketsAgain(rows, m, k);
    var big := m * k;
    var fine := Aggregated(rows, m);
    var buckets := Ascending(Buckets(rows, big));
    BucketsFilled(rows, big);
    BucketsFilled(fine, big);
    hide Bucket, Ascending, InBucket, ByTs, Fold, Buckets;
    BarsOfCount(rows, buckets, big);
    BarsOfCount(fine, buckets, big);
    forall i | 0 <= i < |buckets| ensures BarsOf(fine, buckets, big)[i] == BarsOf(rows, buckets, big)[i] {
      BarsOfAt(rows, buckets, big, i);
      BarsOfAt(fine, buckets, big, i);
      CoarserBar(rows, m, k, buckets[i]);
    }
    assert BarsOf(fine, buckets, big) == BarsOf(rows, buckets, big);
  }

  // ---- the roll-up

  /** One group of a group-by: its key and its rows, in frame order. */
  datatype Group = Group(key: int, rows: seq<Bar>)

  function PlaceOf(groups: seq<Group>, key: int, from: nat): (i: nat)
    requires from <= |groups|
    ensures from <= i <= |groups| && (i < |groups| ==> groups[i].key == key)
    ensures forall k :: from <= k < i ==> groups[k].key != key
    decreases |groups| - from
  {
    if from == |groups| || groups[from].key == key then from else PlaceOf(groups, key, from + 1)
  }

  /** `group_by(key, maintain_order=True)`: groups in the order their keys first appear. */
  function Grouped(rows: seq<Bar>, secs: int): (groups: seq<Group>)
    requires secs > 0
    ensures forall i :: 0 <= i < |groups| ==> groups[i].rows != []
  {
    if rows == [] then []
    else
      var groups, last := Grouped(rows[..|rows| - 1], secs), rows[|rows| - 1];
      var key := Bucket(last.ts, secs);
      var i := PlaceOf(groups, key, 0);
      if i < |groups| then groups[i := Group(key, groups[i].rows + [last])] else groups + [Group(key, [last])]
  }

  function MaxHigh(rows: seq<Bar>): real
    requires rows != []
  {
    if |rows| == 1 then rows[0].high else Higher(MaxHigh(rows[..|rows| - 1]), rows[|rows| - 1].high)
  }

  function MinLow(rows: seq<Bar>): real
    requires rows != []
  {
    if |rows| == 1 then rows[0].low else Lower(MinLow(rows[..|rows| - 1]), rows[|rows| - 1].low)
  }

  function SumVolume(rows: seq<Bar>): real {
    if rows == [] then 0.0 else SumVolume(rows[..|rows| - 1]) + rows[|rows| - 1].volume
  }

  function SumCount(rows: seq<Bar>): int {
    if rows == [] then 0 else SumCount(rows[..|rows| - 1]) + rows[|rows| - 1].count
  }

  /** First, max, min, last, sum, sum, under the group's key. */
  function RolledBar(g: Group): Bar
    requires g.rows != []
  {
    Bar(g.key, g.rows[0].open, MaxHigh(g.rows), MinLow(g.rows), g.rows[|g.rows| - 1].close, SumVolume(g.rows), SumCount(g.rows))
  }

  /** The hourly roll-up of a frame sorted by stamp. */
  function RolledUp(sorted: seq<Bar>, secs: int): (bars: seq<Bar>)
    requires secs > 0
    ensures |bars| == |Grouped(sorted, secs)|
  {
    var groups := Grouped(sorted, secs);
    seq(|groups|, i requires 0 <= i < |groups| => RolledBar(groups[i]))
  }

  lemma {:induction false} RolledIsFold(rows: seq<Bar>)
    requires rows != []
    ensures Fold(rows) == Bar(rows[0].ts, rows[0].open, MaxHigh(rows), MinLow(rows), rows[|rows| - 1].close, SumVolume(rows), SumCount(rows))
  {
    if |rows| == 1 {
      assert rows[..0] == [];
      assert SumVolume(rows) == SumVolume([]) + rows[0].volume && SumCount(rows) == SumCount([]) + rows[0].count;
    } else {
      RolledIsFold(rows[..|rows| - 1]);
    }
  }

  function KeysOf(groups: seq<Group>): seq<int> {
    seq(|groups|, i requires 0 <= i < |groups| => groups[i].key)
  }

  /** The keys are the buckets with a row in them. */
  lemma {:induction false} GroupKeys(rows: seq<Bar>, secs: int)
    requires secs > 0
    ensures forall b :: b in KeysOf(Grouped(rows, secs)) <==> b in Buckets(rows, secs)
  {
    hide Bucket, Buckets;
    if rows == [] {
      NoRows(rows, secs);
      assert rows[..0] == rows;
    } else {
      var n := |rows| - 1;
      GroupKeys(rows[..n], secs);
      OneRowMore(rows, n, secs);
      assert rows[..n + 1] == rows;
      var groups, key := Grouped(rows[..n], secs), Bucket(rows[n].ts, secs);
      var i := PlaceOf(groups, key, 0);
      if i < |groups| {
        assert KeysOf(Grouped(rows, secs)) == KeysOf(groups);
        assert KeysOf(groups)[i] == key;
      } else {
        assert KeysOf(Grouped(rows, secs)) == KeysOf(groups) + [key];
      }
    }
  }

  /** Of an ordered frame they come in order, the last row's bucket last. */
  lemma {:induction false} GroupsRise(rows: seq<Bar>, secs: int)
    requires secs > 0 && TsOrdered(rows)
    ensures Increasing(KeysOf(Grouped(rows, secs)))
    ensures rows != [] ==> var keys := KeysOf(Grouped(rows, secs)); keys != [] && keys[|keys| - 1] == Bucket(rows[|rows| - 1].ts, secs)
  {
    hide Bucket;
    if rows != [] {
      var n := |rows| - 1;
      GroupsRise(rows[..n], secs);
      var groups, key := Grouped(rows[..n], secs), Bucket(rows[n].ts, secs);
      if n > 0 {
        BucketRises(rows[n - 1].ts, rows[n].ts, secs);
        assert KeysOf(groups)[|groups| - 1] <= key;
      }
      PlaceLast(groups, key);
      if PlaceOf(groups, key, 0) < |groups| {
        assert KeysOf(Grouped(rows, secs)) == KeysOf(groups);
      } else {
        assert KeysOf(Grouped(rows, secs)) == KeysOf(groups) + [key];
      }
    }
  }

  /** A key at or past every other one is the last one or new. */
  lemma PlaceLast(groups: seq<Group>, key: int)
    requires Increasing(KeysOf(groups)) && (groups != [] ==> groups[|groups| - 1].key <= key)
    ensures var i := PlaceOf(groups, key, 0); i < |groups| ==> i == |groups| - 1
    ensures PlaceOf(groups, key, 0) == |groups| ==> groups == [] || groups[|groups| - 1].key < key
  {
    var keys, i := KeysOf(groups), PlaceOf(groups, key, 0);
    assert forall k :: 0 <= k < |groups| - 1 ==> keys[k] < keys[|groups| - 1] && keys[k] == groups[k].key;
  }

  lemma LastGroup(front: seq<Bar>, secs: int, key: int)
    requires secs > 0 && TsOrdered(front) && (front != [] ==> Bucket(front[|front| - 1].ts, secs) <= key)
    ensures var i := PlaceOf(Grouped(front, secs), key, 0); i < |Grouped(front, secs)| ==> i == |Grouped(front, secs)| - 1
  {
    hide Bucket;
    GroupsRise(front, secs);
    var groups := Grouped(front, secs);
    assert groups != [] ==> KeysOf(groups)[|groups| - 1] == groups[|groups| - 1].key;
    PlaceLast(groups, key);
  }

  /** Each holds its bucket's rows, in frame order. */
  lemma {:induction false} GroupRows(rows: seq<Bar>, secs: int, i: nat)
    requires secs > 0 && TsOrdered(rows) && i < |Grouped(rows, secs)|
    ensures Grouped(rows, secs)[i].rows == InBucket(rows, Grouped(rows, secs)[i].key, secs)
  {
    hide Bucket, Buckets, InBucket;
    var n := |rows| - 1;
    var groups, key := Grouped(rows[..n], secs), Bucket(rows[n].ts, secs);
    OneRowMore(rows, n, secs);
    assert rows[..n + 1] == rows;
    if n > 0 { BucketRises(rows[n - 1].ts, rows[n].ts, secs); }
    GroupsRise(rows, secs);
    var keys := KeysOf(Grouped(rows, secs));
    assert i < |keys| - 1 ==> keys[i] < keys[|keys| - 1];
    if i < |groups| {
      GroupRows(rows[..n], secs, i);
      LastGroup(rows[..n], secs, key);
      var had := InBucket(rows[..n], groups[i].key, secs);
      assert had + [] == had;
    } else {
      GroupKeys(rows[..n], secs);
      BucketHas(rows[..n], key, secs);
      assert forall k :: 0 <= k < |groups| ==> KeysOf(groups)[k] != key;
    }
  }

  lemma {:induction false} InBucketOrdered(rows: seq<Bar>, bucket: int, secs: int)
    requires secs > 0 && TsOrdered(rows)
    ensures TsOrdered(InBucket(rows, bucket, secs))
    ensures forall i :: 0 <= i < |InBucket(rows, bucket, secs)| ==> InBucket(rows, bucket, secs)[i] in rows
  {
    hide Bucket;
    if rows != [] {
      var n := |rows| - 1;
      InBucketOrdered(rows[..n], bucket, secs);
      var inside := InBucket(rows[..n], bucket, secs);
      forall i | 0 <= i < |inside| ensures inside[i].ts <= rows[n].ts && inside[i] in rows {
        var k :| 0 <= k < n && rows[..n][k] == inside[i];
        assert rows[k] == inside[i];
      }
    }
  }

  lemma ByTsFixed(rows: seq<Bar>)
    requires TsOrdered(rows)
    ensures ByTs(rows) == rows
  {
    var key := (r: Bar) => r.ts;
    assert SortedBy(key, rows);
    SortByFixed(key, rows);
  }

  /** One group's bar is the bucket's fold. */
  lemma RolledIsBar(rows: seq<Bar>, secs: int, i: nat)
    requires secs > 0 && TsOrdered(rows) && i < |Grouped(rows, secs)|
    ensures var g := Grouped(rows, secs)[i];
      InBucket(rows, g.key, secs) != [] && RolledBar(g) == BarAt(rows, g.key, secs)
  {
    hide Grouped, InBucket, ByTs, Fold, MaxHigh, MinLow, SumVolume, SumCount, TsOrdered;
    var g := Grouped(rows, secs)[i];
    GroupRows(rows, secs, i);
    InBucketOrdered(rows, g.key, secs);
    ByTsFixed(g.rows);
    RolledIsFold(g.rows);
  }

  /** On an ordered frame the roll-up and the aggregator agree. */
  lemma RollsUp(rows: seq<Bar>, secs: int)
    requires secs > 0 && TsOrdered(rows)
    ensures RolledUp(rows, secs) == Aggregated(rows, secs)
  {
    hide Bucket, Buckets, InBucket, BarAt, RolledBar, Grouped, TsOrdered, BarsOf;
    var groups, buckets := Grouped(rows, secs), Ascending(Buckets(rows, secs));
    GroupKeys(rows, secs);
    GroupsRise(rows, secs);
    AscendingUnique(Buckets(rows, secs), KeysOf(groups));
    BucketsFilled(rows, secs);
    BarsOfCount(rows, buckets, secs);
    forall i | 0 <= i < |groups| ensures RolledUp(rows, secs)[i] == Aggregated(rows, secs)[i] {
      RolledIsBar(rows, secs, i);
      BarsOfAt(rows, buckets, secs, i);
      assert KeysOf(groups)[i] == buckets[i];
    }
  }

  ghost predicate TsRising(rows: seq<Bar>) {
    forall i, j :: 0 <= i < j < |rows| ==> rows[i].ts < rows[j].ts
  }

  lemma LastSame(sorted: seq<Bar>, rising: seq<Bar>, x: Bar, y: Bar)
    requires TsOrdered(sorted) && TsRising(rising) && sorted != [] && rising != []
    requires x == sorted[|sorted| - 1] && y == rising[|rising| - 1] && x in rising && y in sorted
    ensures x == y
  {
    var i :| 0 <= i < |rising| && rising[i] == x;
    var j :| 0 <= j < |sorted| && sorted[j] == y;
    assert i < |rising| - 1 ==> x.ts < y.ts;
    assert y.ts <= x.ts;
  }

  lemma Fronts(a: seq<Bar>, b: seq<Bar>, x: Bar)
    requires multiset(a + [x]) == multiset(b + [x])
    ensures multiset(a) == multiset(b)
  {
    assert multiset(a) + multiset{x} == multiset(b) + multiset{x};
    assert multiset(a) == (multiset(a) + multiset{x}) - multiset{x};
  }

  /** Rows of distinct stamps sort in one way only. */
  lemma {:induction false} SortedSame(sorted: seq<Bar>, rising: seq<Bar>)
    requires TsOrdered(sorted) && TsRising(rising) && multiset(sorted) == multiset(rising)
    ensures sorted == rising
  {
    hide TsOrdered, TsRising;
    assert |multiset(sorted)| == |multiset(rising)|;
    if sorted != [] {
      var n := |sorted| - 1;
      var x, y := sorted[n], rising[n];
      assert x in multiset(rising) && y in multiset(sorted);
      LastSame(sorted, rising, x, y);
      FrontsOrdered(sorted, rising);
      assert sorted == sorted[..n] + [x] && rising == rising[..n] + [x];
      Fronts(sorted[..n], rising[..n], x);
      SortedSame(sorted[..n], rising[..n]);
    }
  }

  lemma FrontsOrdered(sorted: seq<Bar>, rising: seq<Bar>)
    requires TsOrdered(sorted) && TsRising(rising) && sorted != [] && rising != []
    ensures TsOrdered(sorted[..|sorted| - 1]) && TsRising(rising[..|rising| - 1])
  {
  }

  lemma AggregatedRises(rows: seq<Bar>, secs: int)
    requires secs > 0
    ensures TsRising(Aggregated(rows, secs))
  {
    var buckets := Ascending(Buckets(rows, secs));
    BucketsFilled(rows, secs);
    BarsOfCount(rows, buckets, secs);
    hide Bucket, Buckets, InBucket, BarsOf, Aggregated;
    forall i, j | 0 <= i < j < |Aggregated(rows, secs)| ensures Aggregated(rows, secs)[i].ts < Aggregated(rows, secs)[j].ts {
      AggregatedAt(rows, secs, i);
      AggregatedAt(rows, secs, j);
    }
  }

  /** The two stages are one: minutes aggregated to fine bars, those stored in any order, sorted by stamp and rolled
      up by group, are the minutes aggregated to coarse bars at once. */
  lemma TwoStagesAreOne(rows: seq<Bar>, m: int, k: int, sorted: seq<Bar>)
    requires m > 0 && k > 0 && TsOrdered(sorted) && multiset(sorted) == multiset(Aggregated(rows, m))
    ensures m * k > 0 && RolledUp(sorted, m * k) == Aggregated(rows, m * k)
  {
    hide Aggregated, RolledUp;
    AggregatedRises(rows, m);
    SortedSame(sorted, Aggregated(rows, m));
    AggregatedTwice(rows, m, k);
    RollsUp(sorted, m * k);
  }
}
