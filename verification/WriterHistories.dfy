/** Whole histories of one tree: processes that start, take events, stop or are killed between any two steps
    of the disk, and start again. */
module WriterHistories {
  import opened Prelude
  import opened Clock
  import opened Sorting
  import opened HourOracles
  import opened SegmentFiles
  import opened MergeProtocol
  import opened WriterModel
  import opened WriterSoundness
  import opened WriterConservation
  import opened WriterRuns
  import opened WriterLives

  /** What reaches one writer and the oracle it shares: an event of its own stream, an event another stream's
      writer accepted, a stop. */
  datatype Input = Arrives(row: Row, now: Readings) | Elsewhere(stream: Stream, ts: int, observed: int, asked: int) | Stops

  function Sighted(o: OracleState, stream: Stream, ts: int, observed: int, asked: int): OracleState {
    Asked(Observed(o, stream, ts, observed), asked)
  }

  function Fed(w: Writer, o: OracleState, input: Input): (r: (Writer, OracleState))
    requires Shaped(w)
    ensures Shaped(r.0)
  {
    match input
    case Arrives(row, now) => Appended(w, o, row, now)
    case Elsewhere(stream, ts, observed, asked) => (w, Sighted(o, stream, ts, observed, asked))
    case Stops => (Closed(w), o)
  }

  function FedAll(w: Writer, o: OracleState, inputs: seq<Input>): (r: (Writer, OracleState))
    requires Shaped(w)
    ensures Shaped(r.0)
  {
    if inputs == [] then (w, o)
    else
      var (v, p) := FedAll(w, o, inputs[..|inputs| - 1]);
      Fed(v, p, inputs[|inputs| - 1])
  }

  /** The row an input adds, if it adds one. */
  function TakenRow(w: Writer, o: OracleState, input: Input): seq<Row>
    requires Shaped(w)
  {
    if input.Arrives? && Taken(FateOf(w, o, input.row, input.now)) then [input.row] else []
  }

  /** The rows the writer took, in the order it took them. */
  function TakenRows(w: Writer, o: OracleState, inputs: seq<Input>): seq<Row>
    requires Shaped(w)
  {
    if inputs == [] then []
    else
      var (v, p) := FedAll(w, o, inputs[..|inputs| - 1]);
      TakenRows(w, o, inputs[..|inputs| - 1]) + TakenRow(v, p, inputs[|inputs| - 1])
  }

  function OfHour(rows: seq<Row>, hour: int): seq<Row> {
    if rows == [] then []
    else
      var last := rows[|rows| - 1];
      OfHour(rows[..|rows| - 1], hour) + if HourStart(last.ts) == hour then [last] else []
  }

  lemma OfHourSnoc(rows: seq<Row>, row: Row, hour: int)
    ensures OfHour(rows + [row], hour) == OfHour(rows, hour) + Added(HourStart(row.ts), hour, [row])
  {
    assert (rows + [row])[..|rows|] == rows;
  }

  /** The readings an input's guard and oracle make are within the window of `bound`. */
  predicate InputBy(input: Input, bound: int) {
    match input
    case Arrives(_, now) => now.guarded + MAX_TS_AHEAD <= bound && OracleBy(now, bound)
    case Elsewhere(_, _, observed, asked) => observed + MAX_TS_AHEAD <= bound && asked + MAX_TS_AHEAD <= bound
    case Stops => true
  }

  /** Every clock reading a guard or the oracle makes on the way is within the window of `bound`. */
  ghost predicate ReadBy(inputs: seq<Input>, bound: int) {
    forall i :: 0 <= i < |inputs| ==> InputBy(inputs[i], bound)
  }

  lemma SightedKeeps(w: Writer, o: OracleState, stream: Stream, ts: int, observed: int, asked: int, m: Mode)
    requires Running(w, o, m)
    requires m.ends.Some? ==> observed + MAX_TS_AHEAD <= m.ends.value && asked + MAX_TS_AHEAD <= m.ends.value
    ensures Running(w, Sighted(o, stream, ts, observed, asked), m)
  {
    hide Asked, Observed, Sound;
    var seen := Observed(o, stream, ts, observed);
    ObservedConfirms(o, stream, ts, observed);
    if m.ends.Some? {
      ObservedWithin(o, stream, ts, observed, m.ends.value);
      AskedWithin(seen, asked, m.ends.value);
    }
    if w.current.Some? && w.config.hasOracle { AskedKeeps(seen, asked, w.current.value); }
  }

  lemma ClosedRunning(w: Writer, o: OracleState, m: Mode)
    requires Running(w, o, m)
    ensures Shaped(w) && Running(Closed(w), o, m) && Continues(w.disk, Closed(w).disk)
    ensures forall h: int :: Content(Closed(w), h) == Content(w, h) == Kept(Closed(w).disk.Of(h))
    ensures Closed(w).config == w.config
  {
    ClosedConserves(w, m);
    assert Shaped(w);
    var v := Closed(w);
    hide Sound, Closed, Kept, Ram;
    forall h: int ensures Content(v, h) == Content(w, h) {
      ClosedEmpty(w, h);
      assert Content(v, h) == Kept(v.disk.Of(h)) + Ram(v, h);
    }
  }

  lemma ClosedEmpty(w: Writer, h: int)
    requires Shaped(w)
    ensures Ram(Closed(w), h) == []
  {
    ClosedIs(w);
    AllSpilledEmpty(w);
    hide AllSpilled, Closed;
  }

  lemma AllSpilledEmpty(w: Writer)
    requires Shaped(w)
    ensures AllSpilled(w).buffer == []
  {
    SpilledEmpties(Flushed(w), Ascending(w.held.Keys));
    hide Spilled, Flushed;
  }

  /** Each hour has gained the rows of it, in order. */
  ghost predicate Gains(w: Writer, v: Writer, rows: seq<Row>)
    requires w.disk.images != [] && v.disk.images != []
  {
    forall h: int :: Content(v, h) == Content(w, h) + OfHour(rows, h)
  }

  lemma OfHourOne(row: Row, h: int)
    ensures OfHour([row], h) == Added(HourStart(row.ts), h, [row])
  {
    OfHourSnoc([], row, h);
    assert [] + [row] == [row];
  }

  lemma {:induction false} OfHourSum(a: seq<Row>, b: seq<Row>, h: int)
    ensures OfHour(a + b, h) == OfHour(a, h) + OfHour(b, h)
  {
    if b == [] {
      assert a + b == a;
    } else {
      var front, last := b[..|b| - 1], b[|b| - 1];
      OfHourSum(a, front, h);
      assert b == front + [last] && a + b == a + front + [last];
      OfHourSnoc(a + front, last, h);
      OfHourSnoc(front, last, h);
    }
  }

  lemma GainsThrough(w: Writer, v: Writer, x: Writer, a: seq<Row>, b: seq<Row>)
    requires w.disk.images != [] && v.disk.images != [] && x.disk.images != []
    requires Gains(w, v, a) && Gains(v, x, b)
    ensures Gains(w, x, a + b)
  {
    hide Content, OfHour;
    forall h: int ensures Content(x, h) == Content(w, h) + OfHour(a + b, h) {
      assert Content(x, h) == Content(v, h) + OfHour(b, h);
      OfHourSum(a, b, h);
      Associate(Content(w, h), OfHour(a, h), OfHour(b, h));
    }
  }

  lemma AddsGains(w: Writer, v: Writer, row: Row, taken: bool)
    requires w.disk.images != [] && v.disk.images != []
    requires Adds(w, v, HourStart(row.ts), if taken then [row] else [])
    ensures Gains(w, v, if taken then [row] else [])
  {
    hide Content;
    forall h: int ensures Content(v, h) == Content(w, h) + OfHour(if taken then [row] else [], h) {
      OfHourOne(row, h);
    }
  }

  lemma NothingGained(w: Writer, v: Writer)
    requires w.disk.images != [] && v.disk.images != []
    requires SameContent(w, v)
    ensures Gains(w, v, [])
  {
    hide Content;
  }

  /** One input: the invariant holds, the disk has moved forward, each hour has gained what was taken of it. */
  lemma FedConserves(w: Writer, o: OracleState, m: Mode, input: Input)
    requires Running(w, o, m)
    requires m.ends.Some? ==> InputBy(input, m.ends.value)
    ensures Shaped(w)
    ensures var (v, p) := Fed(w, o, input);
      Running(v, p, m) && Continues(w.disk, v.disk) && Gains(w, v, TakenRow(w, o, input))
  {
    assert Shaped(w);
    hide Appended, Closed, Sighted, Running, FateOf, Content, Gains, Adds;
    var v := Fed(w, o, input).0;
    match input {
      case Arrives(row, now) =>
        AppendConserves(w, o, m, row, now);
        AddsGains(w, v, row, Taken(FateOf(w, o, row, now)));
      case Elsewhere(stream, ts, observed, asked) =>
        SightedKeeps(w, o, stream, ts, observed, asked, m);
        NothingGained(w, v);
      case Stops =>
        ClosedRunning(w, o, m);
        NothingGained(w, v);
    }
  }

  lemma ContinuesSelf(d: Disk)
    requires d.images != []
    ensures Continues(d, d)
  {
  }

  lemma ReadByFront(inputs: seq<Input>, bound: int)
    requires ReadBy(inputs, bound) && inputs != []
    ensures ReadBy(inputs[..|inputs| - 1], bound)
    ensures InputBy(inputs[|inputs| - 1], bound)
  {
  }

  /** Any run of a process, from any sound state: whatever the stamps, the clocks and the other streams, every
      hour ends with what it began with, then the rows taken of it, in the order they were taken. */
  lemma {:induction false} RunConserves(w: Writer, o: OracleState, m: Mode, inputs: seq<Input>)
    requires Running(w, o, m)
    requires m.ends.Some? ==> ReadBy(inputs, m.ends.value)
    ensures Shaped(w)
    ensures var (v, p) := FedAll(w, o, inputs);
      Running(v, p, m) && Continues(w.disk, v.disk) && Gains(w, v, TakenRows(w, o, inputs))
  {
    RunningShaped(w, o, m);
    if inputs == [] { NothingGained(w, w); }
    hide Fed, Running, Gains, TakenRow, ReadBy, Continues;
    if inputs == [] {
      ContinuesSelf(w.disk);
    } else {
      var front, last := inputs[..|inputs| - 1], inputs[|inputs| - 1];
      if m.ends.Some? { ReadByFront(inputs, m.ends.value); }
      RunConserves(w, o, m, front);
      var (v, p) := FedAll(w, o, front);
      FedConserves(v, p, m, last);
      ContinuesThrough(w.disk, v.disk, Fed(v, p, last).0.disk);
      GainsThrough(w, v, Fed(v, p, last).0, TakenRows(w, o, front), TakenRow(v, p, last));
    }
  }

  // ---- one life, and a crash anywhere in it

  /** A process started on the tree it finds, killed once `survives` further steps of the disk have happened. */
  datatype Life = Life(bornAt: int, inputs: seq<Input>, survives: nat)

  function Lived(t: Tree, config: Config, life: Life): (w: Writer)
    ensures Shaped(w)
  {
    FedAll(Constructed(t, config, life.bornAt), FRESH, life.inputs).0
  }

  /** The trees the life shows after the one it found. */
  function Shown(t: Tree, config: Config, life: Life): seq<Tree> {
    var images := Lived(t, config, life).disk.images;
    images[1..Max(1, Min(1 + life.survives, |images|))]
  }

  function History(config: Config, lives: seq<Life>): (trees: seq<Tree>)
    ensures trees != []
  {
    if lives == [] then [map[]]
    else
      var before := History(config, lives[..|lives| - 1]);
      before + Shown(before[|before| - 1], config, lives[|lives| - 1])
  }

  /** The tree at `k` grows into the next. */
  ghost predicate Step(trees: seq<Tree>, k: nat)
    requires k + 1 < |trees|
  {
    TreeGrows(trees[k], trees[k + 1])
  }

  /** Everything a history promises under `m`. */
  ghost predicate Sturdy(trees: seq<Tree>, m: Mode) {
    && (forall i :: 0 <= i < |trees| ==> TreeOk(trees[i], m))
    && (forall i :: 0 <= i < |trees| - 1 ==> Step(trees, i))
  }

  lemma LivedSound(t: Tree, config: Config, life: Life, m: Mode)
    requires TreeOk(t, m) && m.dedup == config.dedup
    requires m.ends.Some? ==> config.hasOracle && ReadBy(life.inputs, m.ends.value)
    requires m.clean ==> ClockNotBehind(t, life.bornAt)
    ensures DiskOk(Lived(t, config, life).disk, m)
    ensures Continues(Disk([t]), Lived(t, config, life).disk)
  {
    hide TreeOk, ClockNotBehind, Constructed, FedAll, DiskOk;
    ConstructedSound(t, config, life.bornAt, m);
    var w := Constructed(t, config, life.bornAt);
    RunConserves(w, FRESH, m, life.inputs);
  }

  lemma PrefixSturdy(d: Disk, n: nat, m: Mode)
    requires DiskOk(d, m) && 1 <= n <= |d.images|
    ensures Sturdy(d.images[..n], m)
  {
    hide TreeOk, TreeGrows;
    var trees := d.images[..n];
    forall i | 0 <= i < |trees| - 1 ensures Step(trees, i) {
      assert trees[i] == d.images[i] && trees[i + 1] == d.images[i + 1];
    }
  }

  lemma ShownSturdy(t: Tree, config: Config, life: Life, m: Mode)
    requires TreeOk(t, m) && m.dedup == config.dedup
    requires m.ends.Some? ==> config.hasOracle && ReadBy(life.inputs, m.ends.value)
    requires m.clean ==> ClockNotBehind(t, life.bornAt)
    ensures Sturdy([t] + Shown(t, config, life), m)
  {
    hide DiskOk, Sturdy, Lived, ClockNotBehind, ReadBy, TreeOk;
    LivedSound(t, config, life, m);
    var d := Lived(t, config, life).disk;
    var n := Max(1, Min(1 + life.survives, |d.images|));
    PrefixSturdy(d, n, m);
    assert d.images[0] == t;
    assert [t] + Shown(t, config, life) == d.images[..n];
  }

  lemma SturdyJoined(before: seq<Tree>, more: seq<Tree>, m: Mode)
    requires before != []
    requires Sturdy(before, m) && Sturdy([before[|before| - 1]] + more, m)
    ensures Sturdy(before + more, m)
  {
    hide TreeOk, TreeGrows;
    var n, all := |before|, before + more;
    var tail := [before[n - 1]] + more;
    forall i | 0 <= i < |all| ensures TreeOk(all[i], m) {
      if i < n { assert all[i] == before[i]; } else { assert all[i] == tail[i - n + 1]; }
    }
    forall i | 0 <= i < |all| - 1 ensures Step(all, i) {
      if i < n - 1 {
        assert Step(before, i);
        assert all[i] == before[i] && all[i + 1] == before[i + 1];
      } else {
        assert Step(tail, i - n + 1);
        assert all[i] == tail[i - n + 1] && all[i + 1] == tail[i - n + 2];
      }
    }
  }

  lemma TreeGrowsSelf(t: Tree)
    ensures TreeGrows(t, t)
  {
  }

  lemma {:induction false} GrowsAlong(trees: seq<Tree>, i: nat, j: nat)
    requires forall k :: 0 <= k < |trees| - 1 ==> Step(trees, k)
    requires i <= j < |trees|
    ensures TreeGrows(trees[i], trees[j])
    decreases j
  {
    hide TreeGrows;
    if i == j {
      TreeGrowsSelf(trees[i]);
    } else {
      GrowsAlong(trees, i, j - 1);
      assert Step(trees, j - 1);
      TreeGrowsThrough(trees[i], trees[j - 1], trees[j]);
    }
  }

  lemma EmptySturdy(m: Mode)
    ensures Sturdy([map[]], m)
  {
  }

  lemma {:induction false} HistorySturdy(config: Config, lives: seq<Life>)
    ensures Sturdy(History(config, lives), Mode(config.dedup, false, None))
  {
    var m := Mode(config.dedup, false, None);
    if lives == [] {
      EmptySturdy(m);
    } else {
      hide Sturdy, Shown;
      var before := History(config, lives[..|lives| - 1]);
      HistorySturdy(config, lives[..|lives| - 1]);
      assert TreeOk(before[|before| - 1], m) by { SturdyAt(before, |before| - 1, m); }
      ShownSturdy(before[|before| - 1], config, lives[|lives| - 1], m);
      SturdyJoined(before, Shown(before[|before| - 1], config, lives[|lives| - 1]), m);
    }
  }

  lemma SturdyAt(trees: seq<Tree>, i: nat, m: Mode)
    requires Sturdy(trees, m) && i < |trees|
    ensures TreeOk(trees[i], m)
  {
  }

  /** Crash safety: from an empty tree, over any number of processes, each fed anything and killed between any
      two steps of the disk, every hour's durable rows only ever grow at the end, a published final never
      changes, its manifest is the digest of its rows, every row is under the hour its stamp names, and with a
      de-dup key no two unpublished rows of an hour and no two rows of its final share a key. */
  lemma CrashSafe(config: Config, lives: seq<Life>, i: nat, j: nat, hour: int)
    requires i <= j < |History(config, lives)|
    ensures var f, g := At(History(config, lives)[i], hour), At(History(config, lives)[j], hour);
      && Durable(f) <= Durable(g) && Kept(f) <= Kept(g)
      && (f.final.Some? ==> g.final == f.final)
      && (g.final.Some? ==> g.manifest == Some(Sha256(g.final.value)))
      && (g.merging.Some? ==> g.final.None?)
      && InHour(Kept(g), hour)
      && (config.dedup ==> Distinct(Live(g) + Flat(g.held)) && Distinct(Rows(g.final)))
  {
    var trees := History(config, lives);
    var m := Mode(config.dedup, false, None);
    HistorySturdy(config, lives);
    GrowsAlong(trees, i, j);
    hide Durable, Kept, Flat, Distinct, InHour, Live, History;
    assert Grows(At(trees[i], hour), At(trees[j], hour));
    assert TreeOk(trees[j], m);
    AtOk(trees[j], hour, m);
  }

  lemma AtOk(t: Tree, hour: int, m: Mode)
    requires TreeOk(t, m)
    ensures FilesOk(hour, At(t, hour), m)
  {
    FlatOfNone();
  }

  // ---- no early close, and no part beside a final

  ghost predicate AllReadBy(lives: seq<Life>, bound: int) {
    forall i :: 0 <= i < |lives| ==> ReadBy(lives[i].inputs, bound)
  }

  /** No process starts on a clock behind any reading an earlier one made. */
  ghost predicate BornInOrder(lives: seq<Life>) {
    forall i, j :: 0 <= i < j < |lives| ==> ReadBy(lives[i].inputs, lives[j].bornAt + MAX_TS_AHEAD)
  }

  /** Every hour closed so far is over by `now` plus twice the window, so a start at `now` sees it. */
  lemma NotBehind(t: Tree, m: Mode, now: int)
    requires TreeOk(t, m)
    requires m.ends.Some? && m.ends.value <= now + 2 * MAX_TS_AHEAD
    ensures ClockNotBehind(t, now)
  {
  }

  lemma {:induction false} HistoryClosesLate(config: Config, lives: seq<Life>, bound: int)
    requires config.hasOracle && AllReadBy(lives, bound)
    ensures Sturdy(History(config, lives), Mode(config.dedup, false, Some(bound)))
  {
    var m := Mode(config.dedup, false, Some(bound));
    if lives == [] {
      EmptySturdy(m);
    } else {
      hide Sturdy, Shown, ReadBy;
      var n := |lives| - 1;
      var before := History(config, lives[..n]);
      HistoryClosesLate(config, lives[..n], bound);
      SturdyAt(before, |before| - 1, m);
      ShownSturdy(before[|before| - 1], config, lives[n], m);
      SturdyJoined(before, Shown(before[|before| - 1], config, lives[n]), m);
    }
  }

  /** The lives up to the moment the `n`-th of them has been fed `q` inputs. */
  function Until(lives: seq<Life>, n: nat, q: nat): seq<Life>
    requires n < |lives| && q <= |lives[n].inputs|
  {
    lives[..n] + [lives[n].(inputs := lives[n].inputs[..q])]
  }

  /** What a process has shown after some inputs it has still shown after more. */
  lemma {:induction false} FedGrows(w: Writer, o: OracleState, m: Mode, inputs: seq<Input>, q: nat)
    requires Running(w, o, m) && m.ends.None? && q <= |inputs|
    ensures Shaped(w) && Continues(FedAll(w, o, inputs[..q]).0.disk, FedAll(w, o, inputs).0.disk)
    decreases |inputs|
  {
    hide Running, Fed, Continues, Gains;
    RunningShaped(w, o, m);
    if q == |inputs| {
      assert inputs[..q] == inputs;
      ContinuesSelf(FedAll(w, o, inputs).0.disk);
    } else {
      var front, last := inputs[..|inputs| - 1], inputs[|inputs| - 1];
      FedGrows(w, o, m, front, q);
      assert front[..q] == inputs[..q];
      RunConserves(w, o, m, front);
      var (v, p) := FedAll(w, o, front);
      FedConserves(v, p, m, last);
      ContinuesThrough(FedAll(w, o, inputs[..q]).0.disk, v.disk, Fed(v, p, last).0.disk);
    }
  }

  lemma FirstImages(a: seq<Tree>, b: seq<Tree>, k: nat)
    requires a != [] && a <= b
    ensures a[1..Max(1, Min(1 + k, |a|))] <= b[1..Max(1, Min(1 + k, |b|))]
  {
  }

  lemma ShownGrows(t: Tree, config: Config, life: Life, q: nat)
    requires TreeOk(t, Mode(config.dedup, false, None)) && q <= |life.inputs|
    ensures Shown(t, config, life.(inputs := life.inputs[..q])) <= Shown(t, config, life)
  {
    hide TreeOk, Running, Constructed, FedAll;
    var m := Mode(config.dedup, false, None);
    var w := Constructed(t, config, life.bornAt);
    ConstructedSound(t, config, life.bornAt, m);
    FedGrows(w, FRESH, m, life.inputs, q);
    FirstImages(FedAll(w, FRESH, life.inputs[..q]).0.disk.images, FedAll(w, FRESH, life.inputs).0.disk.images, life.survives);
  }

  lemma {:induction false} HistoryGrows(config: Config, lives: seq<Life>, n: nat)
    requires n <= |lives|
    ensures History(config, lives[..n]) <= History(config, lives)
  {
    hide Shown;
    if n < |lives| {
      var front := lives[..|lives| - 1];
      HistoryGrows(config, front, n);
      assert front[..n] == lives[..n];
    } else {
      assert lives[..n] == lives;
    }
  }

  lemma HistoryUntil(config: Config, lives: seq<Life>, n: nat, q: nat)
    requires n < |lives| && q <= |lives[n].inputs|
    ensures History(config, Until(lives, n, q)) <= History(config, lives)
  {
    hide Shown, Sturdy, TreeOk;
    var before := History(config, lives[..n]);
    HistorySturdy(config, lives[..n]);
    SturdyAt(before, |before| - 1, Mode(config.dedup, false, None));
    ShownGrows(before[|before| - 1], config, lives[n], q);
    var short := Until(lives, n, q);
    assert short[..n] == lives[..n] && lives[..n + 1][..n] == lives[..n];
    assert History(config, short) <= History(config, lives[..n + 1]);
    HistoryGrows(config, lives, n + 1);
  }

  /** No early close: with an oracle, a tree shown by the time the `n`-th process has been fed `q` inputs holds no
      published hour, and none it is committed to publishing, unless some clock reading made by then came within the
      window of the hour's end. */
  lemma NeverClosedEarly(config: Config, lives: seq<Life>, bound: int, n: nat, q: nat, i: nat, hour: int)
    requires config.hasOracle && n < |lives| && q <= |lives[n].inputs|
    requires AllReadBy(Until(lives, n, q), bound) && i < |History(config, Until(lives, n, q))|
    ensures i < |History(config, lives)|
    ensures var f := At(History(config, lives)[i], hour);
      f.final.Some? || f.merging.Some? ==> hour + HOUR <= bound
  {
    hide History, AllReadBy, FilesOk;
    HistoryUntil(config, lives, n, q);
    var trees := History(config, Until(lives, n, q));
    HistoryClosesLate(config, Until(lives, n, q), bound);
    SturdyAt(trees, i, Mode(config.dedup, false, Some(bound)));
    AtOk(trees[i], hour, Mode(config.dedup, false, Some(bound)));
    ClosedBy(hour, At(trees[i], hour), Mode(config.dedup, false, Some(bound)));
  }

  lemma ClosedBy(hour: int, f: Files, m: Mode)
    requires FilesOk(hour, f, m) && m.ends.Some?
    ensures f.final.Some? || f.merging.Some? ==> hour + HOUR <= m.ends.value
  {
  }

  /** The newest reading of the lives but the last, as a bound. */
  lemma BornFront(lives: seq<Life>, bound: int)
    requires lives != [] && BornInOrder(lives) && AllReadBy(lives, bound)
    ensures BornInOrder(lives[..|lives| - 1]) && AllReadBy(lives[..|lives| - 1], bound)
    ensures AllReadBy(lives[..|lives| - 1], lives[|lives| - 1].bornAt + MAX_TS_AHEAD)
    ensures ReadBy(lives[|lives| - 1].inputs, bound)
  {
    hide ReadBy;
    var n := |lives| - 1;
    var front := lives[..n];
    forall i, j | 0 <= i < j < n ensures ReadBy(front[i].inputs, front[j].bornAt + MAX_TS_AHEAD) {
      assert front[i] == lives[i] && front[j] == lives[j];
    }
    forall i | 0 <= i < n ensures ReadBy(front[i].inputs, bound) && ReadBy(front[i].inputs, lives[n].bornAt + MAX_TS_AHEAD) {
      assert front[i] == lives[i];
    }
  }

  lemma {:induction false} HistoryClean(config: Config, lives: seq<Life>, bound: int)
    requires config.hasOracle && BornInOrder(lives) && AllReadBy(lives, bound)
    ensures Sturdy(History(config, lives), Mode(config.dedup, true, Some(bound)))
  {
    hide Sturdy, Shown, ReadBy, ClockNotBehind, TreeOk, BornInOrder, AllReadBy;
    var m := Mode(config.dedup, true, Some(bound));
    if lives == [] {
      EmptySturdy(m);
    } else {
      var n := |lives| - 1;
      var last := lives[n];
      var before := History(config, lives[..n]);
      var t := before[|before| - 1];
      var found := Mode(config.dedup, true, Some(last.bornAt + MAX_TS_AHEAD));
      BornFront(lives, bound);
      HistoryClean(config, lives[..n], last.bornAt + MAX_TS_AHEAD);
      SturdyAt(before, |before| - 1, found);
      NotBehind(t, found, last.bornAt);
      HistoryClean(config, lives[..n], bound);
      SturdyAt(before, |before| - 1, m);
      ShownSturdy(t, config, last, m);
      SturdyJoined(before, Shown(t, config, last), m);
    }
  }

  /** No part ever lies beside a final, provided no process starts on a clock behind what was read before it. */
  lemma NoPartBesideFinal(config: Config, lives: seq<Life>, i: nat, hour: int)
    requires config.hasOracle && BornInOrder(lives)
    requires i < |History(config, lives)|
    ensures var f := At(History(config, lives)[i], hour);
      f.final.Some? ==> f.parts == map[]
  {
    var bound := EveryReading(lives);
    HistoryClean(config, lives, bound);
    AtOk(History(config, lives)[i], hour, Mode(config.dedup, true, Some(bound)));
  }

  /** Each process starts on a clock not behind the closed hours it finds. */
  ghost predicate StartsNotBehind(config: Config, lives: seq<Life>) {
    forall n :: 0 <= n < |lives| ==> StartNotBehind(config, lives, n)
  }

  ghost predicate StartNotBehind(config: Config, lives: seq<Life>, n: nat)
    requires n < |lives|
  {
    var found := History(config, lives[..n]);
    ClockNotBehind(found[|found| - 1], lives[n].bornAt)
  }

  /** The same with or without an oracle, told from what each start finds on disk. */
  lemma {:induction false} NoPartBesideFinalFrom(config: Config, lives: seq<Life>)
    requires StartsNotBehind(config, lives)
    ensures Sturdy(History(config, lives), Mode(config.dedup, true, None))
  {
    hide Sturdy, Shown, ClockNotBehind, TreeOk;
    var m := Mode(config.dedup, true, None);
    if lives == [] {
      EmptySturdy(m);
    } else {
      var n := |lives| - 1;
      var front := lives[..n];
      var before := History(config, front);
      forall k | 0 <= k < n ensures StartNotBehind(config, front, k) {
        assert StartNotBehind(config, lives, k) && front[..k] == lives[..k] && front[k] == lives[k];
      }
      NoPartBesideFinalFrom(config, front);
      assert StartNotBehind(config, lives, n);
      SturdyAt(before, |before| - 1, m);
      ShownSturdy(before[|before| - 1], config, lives[n], m);
      SturdyJoined(before, Shown(before[|before| - 1], config, lives[n]), m);
    }
  }

  lemma {:induction false} LatestReading(inputs: seq<Input>, least: int) returns (bound: int)
    ensures bound >= least && ReadBy(inputs, bound)
  {
    bound := least;
    if inputs != [] {
      bound := LatestReading(inputs[..|inputs| - 1], least);
      var last := inputs[|inputs| - 1];
      match last {
        case Arrives(_, now) => bound := Max(bound, Max(now.guarded, Max(now.observed, now.asked)) + MAX_TS_AHEAD);
        case Elsewhere(_, _, observed, asked) => bound := Max(bound, Max(observed, asked) + MAX_TS_AHEAD);
        case Stops =>
      }
    }
  }

  lemma {:induction false} EveryReading(lives: seq<Life>) returns (bound: int)
    ensures AllReadBy(lives, bound)
  {
    bound := 0;
    if lives != [] {
      var front := EveryReading(lives[..|lives| - 1]);
      bound := LatestReading(lives[|lives| - 1].inputs, front);
    }
  }

  // ---- what a crash costs

  /** What an hour held when the life began, then what the life took of it. */
  function FoundAndTaken(t: Tree, config: Config, life: Life, hour: int): seq<Row> {
    Kept(At(t, hour)) + OfHour(TakenRows(Constructed(t, config, life.bornAt), FRESH, life.inputs), hour)
  }

  lemma LivedContent(t: Tree, config: Config, life: Life, hour: int)
    requires TreeOk(t, Mode(config.dedup, false, None))
    ensures Content(Lived(t, config, life), hour) == FoundAndTaken(t, config, life, hour)
  {
    var m := Mode(config.dedup, false, None);
    var w := Constructed(t, config, life.bornAt);
    ConstructedSound(t, config, life.bornAt, m);
    RunConserves(w, FRESH, m, life.inputs);
    hide Constructed, FedAll, Kept, TakenRows, TreeOk, Running, Content, OfHour;
  }

  /** A process killed anywhere leaves, of every hour, what it found followed by a prefix of what it took: no row
      it did not take, none twice, none out of order. */
  lemma KilledKeepsPrefix(t: Tree, config: Config, life: Life, i: nat, hour: int)
    requires TreeOk(t, Mode(config.dedup, false, None))
    requires i < |Lived(t, config, life).disk.images|
    ensures Kept(At(t, hour)) <= Kept(At(Lived(t, config, life).disk.images[i], hour))
    ensures Kept(At(Lived(t, config, life).disk.images[i], hour)) <= FoundAndTaken(t, config, life, hour)
  {
    var m := Mode(config.dedup, false, None);
    hide Kept, TreeOk, DiskOk, Lived, Ram, FoundAndTaken;
    LivedSound(t, config, life, m);
    LivedContent(t, config, life, hour);
    var v := Lived(t, config, life);
    KeptBetween(v.disk, i, hour, m);
    assert Content(v, hour) == Kept(v.disk.Of(hour)) + Ram(v, hour);
  }

  /** A process that is stopped leaves all of it. */
  lemma StoppedKeepsAll(t: Tree, config: Config, life: Life, hour: int)
    requires TreeOk(t, Mode(config.dedup, false, None))
    requires life.inputs != [] && life.inputs[|life.inputs| - 1].Stops?
    ensures Kept(Lived(t, config, life).disk.Of(hour)) == FoundAndTaken(t, config, life, hour)
  {
    hide Kept, TreeOk, Ram, FoundAndTaken, Constructed, FedAll;
    LivedContent(t, config, life, hour);
    StoppedEmpty(Constructed(t, config, life.bornAt), life.inputs, hour);
  }

  lemma KeptBetween(d: Disk, i: nat, hour: int, m: Mode)
    requires DiskOk(d, m) && i < |d.images|
    ensures Kept(At(d.images[0], hour)) <= Kept(At(d.images[i], hour)) <= Kept(d.Of(hour))
  {
    hide TreeOk, Kept, Durable;
    var last := |d.images| - 1;
    forall k | 0 <= k < last ensures Step(d.images, k) {
      assert TreeGrows(d.images[k], d.images[k + 1]);
    }
    GrowsAlong(d.images, 0, i);
    GrowsAlong(d.images, i, last);
    assert Grows(At(d.images[0], hour), At(d.images[i], hour));
    assert Grows(At(d.images[i], hour), At(d.images[last], hour));
  }

  lemma StoppedEmpty(w: Writer, inputs: seq<Input>, hour: int)
    requires Shaped(w) && inputs != [] && inputs[|inputs| - 1].Stops?
    ensures Ram(FedAll(w, FRESH, inputs).0, hour) == []
  {
    var v := FedAll(w, FRESH, inputs[..|inputs| - 1]).0;
    ClosedEmpty(v, hour);
    hide Closed;
  }
}
