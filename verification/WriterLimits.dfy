/** How much a writer keeps in memory, what it may hold, and where its promises end. */
module WriterLimits {
  import opened Prelude
  import opened Clock
  import opened Sorting
  import opened HourOracles
  import opened PlausibilityGuard
  import opened SegmentFiles
  import opened MergeProtocol
  import opened WriterModel
  import opened WriterSoundness
  import opened WriterConservation
  import opened WriterRuns
  import opened WriterLives
  import opened WriterHistories

  // ---- rows in memory

  /** No hour has `flushRows` rows in memory. */
  ghost predicate Bounded(w: Writer) {
    && |w.buffer| < Max(1, w.config.flushRows)
    && (forall h :: h in w.held ==> |w.held[h]| < Max(1, w.config.flushRows))
  }

  lemma EnteredBounded(w: Writer, hour: int)
    requires Shaped(w) && Bounded(w)
    ensures Bounded(Entered(w, hour))
  {
    hide Redeem, MergeHour, MergeAll, PutPart;
  }

  lemma AdmittedBounded(w: Writer, row: Row, now: int)
    requires Shaped(w) && w.current.Some? && Bounded(w)
    ensures Bounded(Admitted(w, row, now))
  {
    hide PutPart;
  }

  lemma {:induction false} AdmittedAllBounded(w: Writer, rows: seq<Row>, now: int -> int)
    requires Shaped(w) && w.current.Some? && Bounded(w)
    ensures Bounded(AdmittedAll(w, rows, now))
  {
    hide Admitted, Bounded;
    if rows != [] {
      AdmittedAllBounded(w, rows[..|rows| - 1], now);
      AdmittedBounded(AdmittedAll(w, rows[..|rows| - 1], now), rows[|rows| - 1], now(|rows| - 1));
    }
  }

  lemma {:induction false} DrainedBounded(w: Writer, hours: seq<int>, now: int -> int -> int)
    requires Shaped(w) && Bounded(w)
    ensures Bounded(Drained(w, hours, now))
    decreases |hours|
  {
    if hours != [] {
      var hour := hours[0];
      var released := w.(held := w.held - {hour}, heldSeen := w.heldSeen - {hour});
      assert Bounded(released);
      hide Entered, AdmittedAll, Bounded;
      EnteredBounded(released, hour);
      AdmittedAllBounded(Entered(released, hour), if hour in w.held then w.held[hour] else [], now(hour));
      DrainedBounded(DrainedOne(w, hour, now(hour)), hours[1..], now);
    }
  }

  lemma HeldBackBounded(w: Writer, hour: int, row: Row, now: int)
    requires Shaped(w) && Bounded(w)
    ensures Bounded(HeldBack(w, hour, row, now))
  {
    hide PutHeld, Keys, Flat;
  }

  lemma AppendedBounded(w: Writer, o: OracleState, row: Row, now: Readings)
    requires Shaped(w) && Bounded(w)
    ensures Bounded(Appended(w, o, row, now).0)
  {
    var hour := HourStart(row.ts);
    var armed := w.(guard := Rearmed(w.guard));
    var asked := Sighted(o, w.config.stream, row.ts, now.observed, now.asked);
    var drained := Drained(armed, Drainable(armed, hour, asked.confirmed), now.drained);
    assert Bounded(armed) && Bounded(w.(guard := Refused(w.guard, row.ts)));
    hide Drained, Entered, Admitted, HeldBack, Implausible, Drainable, Asked, Observed, Bounded;
    DrainedBounded(armed, Drainable(armed, hour, asked.confirmed), now.drained);
    HeldBackBounded(drained, hour, row, now.anchored);
    EnteredBounded(drained, hour);
    AdmittedBounded(Entered(drained, hour), row, now.anchored);
    EnteredBounded(armed, hour);
    AdmittedBounded(Entered(armed, hour), row, now.anchored);
  }

  lemma FedBounded(w: Writer, o: OracleState, input: Input)
    requires Shaped(w) && Bounded(w)
    ensures Bounded(Fed(w, o, input).0)
  {
    match input {
      case Arrives(row, now) => AppendedBounded(w, o, row, now);
      case Elsewhere(_, _, _, _) =>
      case Stops =>
        ClosedIs(w);
        AllSpilledEmpty(w);
    }
  }

  lemma {:induction false} FedAllBounded(w: Writer, o: OracleState, inputs: seq<Input>)
    requires Shaped(w) && Bounded(w)
    ensures Bounded(FedAll(w, o, inputs).0)
  {
    hide Fed, Bounded;
    if inputs != [] {
      FedAllBounded(w, o, inputs[..|inputs| - 1]);
      var (v, p) := FedAll(w, o, inputs[..|inputs| - 1]);
      FedBounded(v, p, inputs[|inputs| - 1]);
    }
  }

  /** A kill costs each hour fewer than `flushRows` of the rows taken of it, whatever the hour's traffic. */
  lemma KilledLosesFew(t: Tree, config: Config, life: Life, hour: int)
    requires TreeOk(t, Mode(config.dedup, false, None))
    ensures |FoundAndTaken(t, config, life, hour)| < |Kept(Lived(t, config, life).disk.Of(hour))| + Max(1, config.flushRows)
  {
    hide FedAll, Kept, FoundAndTaken, Recover, TreeOk;
    var w := Constructed(t, config, life.bornAt);
    assert Bounded(w) && w.config == config;
    hide Constructed;
    FedAllBounded(w, FRESH, life.inputs);
    LivedContent(t, config, life, hour);
    LivedConfig(w, FRESH, life.inputs);
    var v := Lived(t, config, life);
    assert |Content(v, hour)| == |Kept(v.disk.Of(hour))| + |Ram(v, hour)|;
  }

  lemma {:induction false} LivedConfig(w: Writer, o: OracleState, inputs: seq<Input>)
    requires Shaped(w)
    ensures FedAll(w, o, inputs).0.config == w.config
  {
    hide Drained, Entered, Admitted, HeldBack, Implausible, Drainable, Asked, Observed, Closed;
    if inputs != [] {
      LivedConfig(w, o, inputs[..|inputs| - 1]);
    }
  }

  // ---- what may still be held

  /** After an event, an hour is still held only if the event is older or no quorum has reached it: what a held
      hour waits for is its corroboration and then the stream itself. */
  lemma AppendDrains(w: Writer, o: OracleState, m: Mode, row: Row, now: Readings, h: int)
    requires Running(w, o, m) && w.config.hasOracle
    requires m.ends.Some? ==> OracleBy(now, m.ends.value)
    requires !Implausible(w.guard, row.ts, now.guarded)
    requires FloorHour(w).Some? ==> HourStart(row.ts) >= FloorHour(w).value
    requires Shaped(w) && h in Appended(w, o, row, now).0.held
    ensures h > HourStart(row.ts) || !Confirmed(Appended(w, o, row, now).1, h)
    ensures Ahead(Appended(w, o, row, now).0, h)
  {
    var hour := HourStart(row.ts);
    var armed := w.(guard := Rearmed(w.guard));
    var asked := AskedBy(w, o, row, now);
    ArmedSound(w, m, Rearmed(w.guard));
    AppendedLands(w, o, row, now);
    AppendConserves(w, o, m, row, now);
    AskedByConfig(w, armed, o, row, now);
    AskedByKeeps(armed, o, row, now, m);
    assert FloorHour(armed) == FloorHour(w);
    HeldStaysAhead(Appended(w, o, row, now).0, m, h);
    hide Drained, Drainable, Implausible, AskedBy, Appended, Running;
    DrainedRunning(armed, asked, m, hour, now.drained);
    LandedHolds(Drained(armed, Drainable(armed, hour, asked.confirmed), now.drained), asked, row, now.anchored);
  }

  /** The open hour is at or behind the confirmed one, and every held hour is past it. */
  ghost predicate Between(w: Writer, o: OracleState) {
    && (w.current.Some? ==> Confirmed(o, w.current.value))
    && (forall h :: h in w.held ==> !Confirmed(o, h))
  }

  /** An event that passes the guard and is not behind the floor. */
  predicate Accepted(w: Writer, row: Row, now: Readings) {
    && !Implausible(w.guard, row.ts, now.guarded)
    && (FloorHour(w).Some? ==> HourStart(row.ts) >= FloorHour(w).value)
  }

  /** When the confirmed hour stays below every held one: after any event, exactly when none of the hours held before it
      that the event leaves held (all of them when it is dropped, those past its own hour otherwise) is confirmed by the
      question it asks. */
  lemma HeldPastConfirmedExactly(w: Writer, o: OracleState, m: Mode, row: Row, now: Readings)
    requires Running(w, o, m) && w.config.hasOracle
    requires m.ends.Some? ==> OracleBy(now, m.ends.value)
    ensures Shaped(w)
    ensures var (v, o') := Appended(w, o, row, now);
      var asked := if Accepted(w, row, now) then AskedBy(w, o, row, now) else o;
      Between(v, o') <==>
        forall h :: h in w.held && (Accepted(w, row, now) ==> h > HourStart(row.ts)) ==> !Confirmed(asked, h)
  {
    hide Appended, AskedBy, Running, Confirmed, Accepted;
    RunningShaped(w, o, m);
    AppendConserves(w, o, m, row, now);
    var (v, o') := Appended(w, o, row, now);
    AfterConfirmed(v, o', m);
    if Accepted(w, row, now) {
      AcceptedHolds(w, o, m, row, now);
    } else {
      DroppedHolds(w, o, row, now);
    }
  }

  lemma AfterConfirmed(w: Writer, o: OracleState, m: Mode)
    requires Running(w, o, m)
    ensures w.config.hasOracle && w.current.Some? ==> Confirmed(o, w.current.value)
  {
  }

  lemma DroppedHolds(w: Writer, o: OracleState, row: Row, now: Readings)
    requires Shaped(w) && !Accepted(w, row, now)
    ensures var (v, o') := Appended(w, o, row, now); v.held == w.held && v.config == w.config && o' == o
  {
    hide Drained, Entered, Admitted, HeldBack, Drainable, Asked, Observed;
  }

  /** What an accepted event leaves held: the hours held before that are past it or unconfirmed, and possibly its own,
      unconfirmed. */
  lemma AcceptedHolds(w: Writer, o: OracleState, m: Mode, row: Row, now: Readings)
    requires Running(w, o, m) && w.config.hasOracle && Accepted(w, row, now)
    requires m.ends.Some? ==> OracleBy(now, m.ends.value)
    ensures Shaped(w)
    ensures var (v, o') := Appended(w, o, row, now); var hour := HourStart(row.ts);
      && o' == AskedBy(w, o, row, now) && v.config == w.config
      && (forall h :: h in v.held ==> !Confirmed(o', h) || (h in w.held && h > hour))
      && (forall h :: h in w.held && h > hour ==> h in v.held)
  {
    hide Drained, Drainable, Implausible, Appended, Running, Landed, Sound, Confirmed;
    RunningShaped(w, o, m);
    var hour := HourStart(row.ts);
    var armed := w.(guard := Rearmed(w.guard));
    var asked := AskedBy(w, o, row, now);
    ArmedRunning(w, o, m, Rearmed(w.guard));
    AskedByConfig(w, armed, o, row, now);
    AskedByKeeps(armed, o, row, now, m);
    AppendedLands(w, o, row, now);
    hide AskedBy;
    var hours := Drainable(armed, hour, asked.confirmed);
    var drained := Drained(armed, hours, now.drained);
    DrainedHolds(armed, asked, m, hour, now.drained);
    LandedHolds(drained, asked, row, now.anchored);
    LandedKeepsHeld(drained, asked, row, now.anchored);
  }

  lemma ArmedRunning(w: Writer, o: OracleState, m: Mode, guard: Guard)
    requires Running(w, o, m)
    ensures Running(w.(guard := guard), o, m)
  {
    ArmedSound(w, m, guard);
    hide Sound, Within;
  }

  lemma DrainedHolds(w: Writer, o: OracleState, m: Mode, hour: int, now: int -> int -> int)
    requires Running(w, o, m)
    ensures Shaped(w)
    ensures var v := Drained(w, Drainable(w, hour, o.confirmed), now);
      v.config == w.config && forall h :: h in v.held <==> h in w.held && !(h <= hour && Confirmed(o, h))
  {
    assert Shaped(w);
    hide Sound, Drained, DrainPlan, Drainable, Confirmed;
    var hours := Drainable(w, hour, o.confirmed);
    DrainablePlan(w, o, m, hour);
    hide Running;
    assert forall i :: 0 <= i < |hours| ==> hours[i] in hours;
    DrainedSound(w, m, hours, hour, now);
    forall h ensures h in Elements(hours) <==> h in w.held && h <= hour && Confirmed(o, h) {}
  }

  lemma LandedKeepsHeld(w: Writer, o: OracleState, row: Row, now: int)
    requires Shaped(w)
    ensures Landed(w, o, row, now).config == w.config
    ensures forall h :: h in w.held ==> h in Landed(w, o, row, now).held
  {
    hide Redeem, MergeHour, MergeAll, PutPart, PutHeld, Keys, Flat;
  }

  lemma LandedHolds(w: Writer, o: OracleState, row: Row, now: int)
    requires Shaped(w) && w.config.hasOracle
    ensures forall h :: h in Landed(w, o, row, now).held ==> h in w.held || (h == HourStart(row.ts) && !Confirmed(o, h))
  {
    hide Redeem, MergeHour, MergeAll, PutPart, PutHeld, Keys, Flat;
  }

  /** The confirmed hour may have passed an hour that is still held: two other streams are enough to bring it there,
      and only the writer's own next event of that hour or later drains it. */
  lemma ConfirmedWhileHeld(w: Writer, o: OracleState, hour: int, s: Stream, s': Stream, now: int)
    requires Shaped(w) && hour in w.held && hour % HOUR == 0
    requires s != s' && now + MAX_TS_AHEAD >= hour
    ensures var (v, p) := FedAll(w, o, [Elsewhere(s, hour, now, now), Elsewhere(s', hour, now, now)]);
      hour in v.held && Confirmed(p, hour)
  {
    var inputs := [Elsewhere(s, hour, now, now), Elsewhere(s', hour, now, now)];
    assert inputs[..1] == [Elsewhere(s, hour, now, now)] && inputs[..1][..0] == [];
    var first := Sighted(o, s, hour, now, now);
    var seen := Observed(first, s', hour, now);
    assert FedAll(w, o, inputs[..1]) == (w, first);
    assert FedAll(w, o, inputs) == (w, Asked(seen, now));
    AskedWitnessed(Observed(o, s, hour, now), now);
    assert Reached(seen, s, hour) && Reached(seen, s', hour);
    AskedConfirms(seen, now, hour);
  }

  lemma AskedWitnessed(o: OracleState, now: int)
    ensures Asked(o, now).witnessed == o.witnessed
  {
    hide Witnesses, Newest;
  }

  // ---- a clock behind the disk

  /** A row stored in an hour the writer may enter lies, once the writer has stopped, in a part beside whatever final
      the hour has. */
  lemma StoredBeside(w: Writer, m: Mode, row: Row, now: int)
    requires Sound(w, m) && w.held == map[] && !m.clean && m.ends.None?
    requires w.config.dedup ==> row.key !in Keys(Unpublished(w, HourStart(row.ts)))
    requires FloorHour(w).Some? ==> FloorHour(w).value <= HourStart(row.ts)
    ensures Shaped(w)
    ensures var f := Closed(Admitted(Entered(w, HourStart(row.ts)), row, now)).disk.Of(HourStart(row.ts));
      f.final == w.disk.Of(HourStart(row.ts)).final && f.parts != map[]
  {
    hide Sound, DiskOk, FilesOk, Kept, Flat, Entered, Content, Unpublished, Keys, Closed, PutPart;
    SoundMode(w, m);
    var hour := HourStart(row.ts);
    EnteredSound(w, m, hour);
    var entered := Entered(w, hour);
    OpenKeys(entered, m, hour);
    AdmittedFlushes(entered, row, now);
    PartAdded(Buffered(entered, row, now), hour);
    ClosedFlushes(Admitted(entered, row, now));
  }

  lemma AdmittedFlushes(w: Writer, row: Row, now: int)
    requires Shaped(w) && w.current.Some? && (w.config.dedup ==> row.key !in w.seen)
    ensures Flushed(Admitted(w, row, now)).disk == Flushed(Buffered(w, row, now)).disk
    ensures Admitted(w, row, now).held == w.held
  {
    hide PutPart;
  }

  lemma OpenKeys(w: Writer, m: Mode, hour: int)
    requires Sound(w, m) && w.current == Some(hour)
    ensures w.config.dedup ==> w.seen == Keys(Unpublished(w, hour))
  {
    hide Keys, Unpublished, DiskOk;
  }

  lemma ClosedFlushes(w: Writer)
    requires Shaped(w) && w.held == map[]
    ensures Closed(w).disk == Flushed(w).disk
  {
    hide PutPart;
    assert w.held.Keys == {};
    assert Ascending({}) == [];
    ClosedIs(w);
  }

  /** Every tree keeps its parts apart from its finals. */
  ghost predicate Apart(t: Tree) {
    forall hour: int :: At(t, hour).final.Some? ==> At(t, hour).parts == map[]
  }

  ghost predicate AlwaysApart(d: Disk) {
    forall k :: 0 <= k < |d.images| ==> Apart(d.images[k])
  }

  function FreshKey(keys: set<int>): (k: int)
    ensures k !in keys
  {
    var sorted := Ascending(keys);
    assert forall i :: 0 <= i < |sorted| ==> sorted[i] in sorted;
    if sorted == [] then 0 else sorted[|sorted| - 1] + 1
  }

  /** A life that re-opens `hour`: another stream reaches it, one row of it arrives, and the process stops. */
  function Reopening(config: Config, bornAt: int, hour: int, key: int): Life {
    Life(bornAt, [Elsewhere(config.stream + 1, hour, hour, hour), Arrives(Row(hour, key, 0), Still(hour)), Stops], 0)
  }

  lemma FedThree(w: Writer, o: OracleState, a: Input, b: Input, c: Input)
    requires Shaped(w)
    ensures var (v, p) := Fed(w, o, a); var (x, q) := Fed(v, p, b);
      FedAll(w, o, [a, b, c]) == Fed(x, q, c)
  {
    hide Fed;
    var inputs := [a, b, c];
    assert inputs[..2] == [a, b] && inputs[..2][..1] == [a] && inputs[..2][..1][..0] == [];
    var first, second := inputs[..2][..1], inputs[..2];
    assert FedAll(w, o, first) == Fed(w, o, a);
    assert FedAll(w, o, second) == Fed(FedAll(w, o, first).0, FedAll(w, o, first).1, b);
  }

  lemma ReopeningFeeds(w: Writer, config: Config, bornAt: int, hour: int, key: int)
    requires Shaped(w) && w.config == config && w.held == map[] && w.current.None?
    requires w.guard == Guard(None, bornAt, 0, None)
    requires hour % HOUR == 0 && (w.floor.Some? ==> w.floor.value <= hour)
    ensures FedAll(w, FRESH, Reopening(config, bornAt, hour, key).inputs).0 == Closed(Admitted(Entered(w, hour), Row(hour, key, 0), hour))
  {
    hide Closed, Admitted, Entered, Appended, Sighted;
    var row := Row(hour, key, 0);
    var first := Sighted(FRESH, config.stream + 1, hour, hour, hour);
    FedThree(w, FRESH, Elsewhere(config.stream + 1, hour, hour, hour), Arrives(row, Still(hour)), Stops);
    assert Fed(w, FRESH, Elsewhere(config.stream + 1, hour, hour, hour)) == (w, first);
    assert Fed(w, first, Arrives(row, Still(hour))) == Appended(w, first, row, Still(hour));
    assert Reopening(config, bornAt, hour, key).inputs == [Elsewhere(config.stream + 1, hour, hour, hour), Arrives(row, Still(hour)), Stops];
    ReopeningAppends(w, bornAt, hour, row);
  }

  lemma ReopeningAppends(w: Writer, bornAt: int, hour: int, row: Row)
    requires Shaped(w) && w.held == map[] && w.current.None? && row.ts == hour
    requires w.guard == Guard(None, bornAt, 0, None)
    requires hour % HOUR == 0 && (w.floor.Some? ==> w.floor.value <= hour)
    ensures Appended(w, Sighted(FRESH, w.config.stream + 1, hour, hour, hour), row, Still(hour)).0 == Admitted(Entered(w, hour), row, hour)
  {
    hide Admitted, Entered, HeldBack, Asked, Drained, Observed, Drainable;
    var first := Sighted(FRESH, w.config.stream + 1, hour, hour, hour);
    assert HourStart(hour) == hour && w.(guard := Rearmed(w.guard)) == w;
    if w.config.hasOracle {
      TwoAgree(first, w.config.stream, hour);
      NothingDrained(w, hour, Asked(Observed(first, w.config.stream, hour, hour), hour).confirmed, Still(hour).drained);
    }
  }

  lemma TwoAgree(first: OracleState, stream: Stream, hour: int)
    requires first == Sighted(FRESH, stream + 1, hour, hour, hour) && hour % HOUR == 0
    ensures Confirmed(Asked(Observed(first, stream, hour, hour), hour), hour)
  {
    AskedWitnessed(Observed(FRESH, stream + 1, hour, hour), hour);
    var seen := Observed(first, stream, hour, hour);
    assert Reached(seen, stream, hour) && Reached(seen, stream + 1, hour);
    AskedConfirms(seen, hour, hour);
  }

  lemma DrainableHeld(w: Writer, hour: int, confirmed: Option<int>)
    ensures Drainable(w, hour, confirmed) != [] ==> w.held != map[]
  {
    var hours := Drainable(w, hour, confirmed);
    if hours != [] {
      assert hours[0] in hours;
      assert hours[0] in w.held;
    }
  }

  lemma NothingDrained(w: Writer, hour: int, confirmed: Option<int>, now: int -> int -> int)
    requires Shaped(w) && w.held == map[]
    ensures Drained(w, Drainable(w, hour, confirmed), now) == w
  {
    hide DrainedOne, Drainable;
    DrainableHeld(w, hour, confirmed);
  }

  /** An hour already published that a start does not see, its clock lagging the disk: whatever the configuration, the
      hour's next row is written beside the final. */
  lemma ReopenedBesideFinal(t: Tree, config: Config, bornAt: int, hour: int) returns (life: Life)
    requires TreeOk(t, Mode(config.dedup, false, None))
    requires hour in t && (t[hour].final.Some? || t[hour].merging.Some?) && hour > bornAt + MAX_TS_AHEAD
    ensures life.bornAt == bornAt && !AlwaysApart(Lived(t, config, life).disk)
  {
    hide Constructed, TreeOk, Sound, Closed, Entered, Admitted, FedAll, Unpublished, Keys;
    var m := Mode(config.dedup, false, None);
    var w := Constructed(t, config, bornAt);
    StartedAs(t, config, bornAt, hour, m);
    var row := Row(hour, FreshKey(Keys(Unpublished(w, hour))), 0);
    life := Reopening(config, bornAt, hour, row.key);
    ReopeningFeeds(w, config, bornAt, hour, row.key);
    StoredBeside(w, m, row, hour);
    var d := Lived(t, config, life).disk;
    assert d.Of(hour).final.Some? && d.Of(hour).parts != map[];
    assert At(d.images[|d.images| - 1], hour) == d.Of(hour);
    assert !Apart(d.images[|d.images| - 1]);
  }

  lemma StartedAs(t: Tree, config: Config, bornAt: int, hour: int, m: Mode)
    requires m == Mode(config.dedup, false, None) && TreeOk(t, m)
    requires hour in t && (t[hour].final.Some? || t[hour].merging.Some?) && hour > bornAt + MAX_TS_AHEAD
    ensures hour % HOUR == 0 && HourStart(hour) == hour
    ensures var w := Constructed(t, config, bornAt);
      && Sound(w, m) && w.config == config && w.held == map[] && w.current.None? && w.guard == Guard(None, bornAt, 0, None)
      && (w.floor.Some? ==> w.floor.value <= hour) && w.disk.Of(hour).final.Some?
  {
    TreeHours(t, m, hour);
    FloorBehind(t, bornAt, hour, m);
    ConstructedSound(t, config, bornAt, m);
    ConstructedHours(t, config, bornAt, m);
    hide TreeOk, Sound, Recover, FloorOf, Content, Kept;
  }

  lemma TreeHours(t: Tree, m: Mode, hour: int)
    requires TreeOk(t, m) && hour in t
    ensures hour % HOUR == 0
  {
  }

  lemma FloorBehind(t: Tree, bornAt: int, hour: int, m: Mode)
    requires TreeOk(t, m) && hour % HOUR == 0 && hour > bornAt + MAX_TS_AHEAD
    ensures var floor := FloorOf(Recover(t).Now(), bornAt);
      floor.Some? ==> floor.value <= hour
  {
    RecoverMoves(t, m);
    hide Recover, FloorOf, FilesOk;
    var u := Recover(t).Now();
    assert TreeOk(u, m);
    FloorOfRead(u, bornAt);
    var floor := FloorOf(u, bornAt);
    if floor.Some? {
      var h :| h in u && h <= bornAt + MAX_TS_AHEAD && floor.value == h + HOUR;
      HoursApart(h, hour);
    }
  }

  lemma CleanApart(t: Tree, m: Mode)
    requires TreeOk(t, m)
    ensures TreeOk(t, m.(clean := true)) <==> Apart(t) || m.clean
    ensures m.clean ==> Apart(t)
  {
    hide InHour, Kept, EndsWith, Distinct, Flat, Live;
    var strict := m.(clean := true);
    if Apart(t) {
      forall h | h in t ensures h % HOUR == 0 && FilesOk(h, t[h], strict) {
        assert FilesOk(h, t[h], m) && At(t, h) == t[h];
      }
    }
    if TreeOk(t, strict) {
      forall h: int | At(t, h).final.Some? ensures At(t, h).parts == map[] {
        assert h in t && FilesOk(h, t[h], strict);
      }
    }
  }

  lemma StartedWith(t: Tree, config: Config, life: Life)
    requires TreeOk(t, Mode(config.dedup, false, None))
    ensures var images := Lived(t, config, life).disk.images; images != [] && images[0] == t
  {
    LivedSound(t, config, life, Mode(config.dedup, false, None));
    hide Lived;
    assert [t][0] == t;
  }

  /** When no part ever lies beside a final: over everything a process born at `bornAt` can be fed, exactly when none does
      in the tree it finds and no closed hour there is dated past its clock's window. */
  lemma NoPartBesideFinalExactly(t: Tree, config: Config, bornAt: int)
    requires TreeOk(t, Mode(config.dedup, false, None))
    ensures (forall life: Life :: life.bornAt == bornAt ==> AlwaysApart(Lived(t, config, life).disk))
      <==> Apart(t) && ClockNotBehind(t, bornAt)
  {
    hide TreeOk, Apart, ClockNotBehind, Lived, DiskOk;
    var m := Mode(config.dedup, false, None);
    CleanApart(t, m);
    if Apart(t) && ClockNotBehind(t, bornAt) {
      forall life: Life | life.bornAt == bornAt ensures AlwaysApart(Lived(t, config, life).disk) {
        LivedSound(t, config, life, m.(clean := true));
        SoundApart(Lived(t, config, life).disk, m.(clean := true));
      }
    }
    if forall life: Life :: life.bornAt == bornAt ==> AlwaysApart(Lived(t, config, life).disk) {
      var still := Life(bornAt, [], 0);
      StartedWith(t, config, still);
      assert AlwaysApart(Lived(t, config, still).disk);
      if !ClockNotBehind(t, bornAt) {
        LaggingAt(t, bornAt, m, config);
      }
    }
  }

  lemma LaggingAt(t: Tree, bornAt: int, m: Mode, config: Config)
    requires m == Mode(config.dedup, false, None) && TreeOk(t, m) && !ClockNotBehind(t, bornAt)
    ensures exists life: Life :: life.bornAt == bornAt && !AlwaysApart(Lived(t, config, life).disk)
  {
    hide TreeOk, Lived;
    var h :| h in t && (t[h].final.Some? || t[h].merging.Some?) && h > bornAt + MAX_TS_AHEAD;
    var life := ReopenedBesideFinal(t, config, bornAt, h);
  }

  lemma SoundApart(d: Disk, m: Mode)
    requires DiskOk(d, m) && m.clean
    ensures AlwaysApart(d)
  {
    hide TreeOk, Apart, TreeGrows;
    forall k | 0 <= k < |d.images| ensures Apart(d.images[k]) {
      CleanApart(d.images[k], m);
    }
  }

  lemma PartAdded(w: Writer, hour: int)
    requires Shaped(w) && w.current == Some(hour) && w.buffer != []
    ensures Flushed(w).disk.Of(hour).parts != map[]
    ensures Flushed(w).disk.Of(hour).final == w.disk.Of(hour).final
  {
    var f := w.disk.Of(hour);
    assert NextNumber(f.parts) in Flushed(w).disk.Of(hour).parts;
  }

  // ---- nothing a day ahead

  ghost predicate NoneAfter(rows: seq<Row>, latest: int) {
    forall i :: 0 <= i < |rows| ==> rows[i].ts <= latest
  }

  lemma TakenNotAbsurd(w: Writer, o: OracleState, input: Input, latest: int)
    requires Shaped(w) && (input.Arrives? ==> input.now.guarded + MAX_TS_ABSURD <= latest)
    ensures NoneAfter(TakenRow(w, o, input), latest)
  {
    hide FloorHour, Unpublished, Keys, AskedBy;
  }

  lemma {:induction false} RunNotAbsurd(w: Writer, o: OracleState, inputs: seq<Input>, bound: int)
    requires Shaped(w) && ReadBy(inputs, bound)
    ensures NoneAfter(TakenRows(w, o, inputs), bound - MAX_TS_AHEAD + MAX_TS_ABSURD)
  {
    hide TakenRow, Fed;
    if inputs != [] {
      var n := |inputs| - 1;
      RunNotAbsurd(w, o, inputs[..n], bound);
      var (v, p) := FedAll(w, o, inputs[..n]);
      TakenNotAbsurd(v, p, inputs[n], bound - MAX_TS_AHEAD + MAX_TS_ABSURD);
    }
  }

  lemma {:induction false} OfHourNoneAfter(rows: seq<Row>, hour: int, latest: int)
    requires NoneAfter(rows, latest)
    ensures NoneAfter(OfHour(rows, hour), latest)
  {
    if rows != [] {
      OfHourNoneAfter(rows[..|rows| - 1], hour, latest);
    }
  }

  lemma NoneAfterPrefix(found: seq<Row>, taken: seq<Row>, rows: seq<Row>, latest: int)
    requires NoneAfter(found, latest) && NoneAfter(taken, latest) && rows <= found + taken
    ensures NoneAfter(rows, latest)
  {
    forall i | 0 <= i < |rows| ensures rows[i].ts <= latest {
      assert rows[i] == (found + taken)[i];
    }
  }

  /** No row of any hour, in any tree of any history, is stamped a day past the newest clock reading: the one bound
      that is never stood down. */
  lemma {:induction false} NothingAbsurdKept(config: Config, lives: seq<Life>, bound: int, i: nat, hour: int)
    requires AllReadBy(lives, bound) && i < |History(config, lives)|
    ensures NoneAfter(Kept(At(History(config, lives)[i], hour)), bound - MAX_TS_AHEAD + MAX_TS_ABSURD)
    decreases |lives|
  {
    hide NoneAfter, Kept, Lived, ReadBy, OfHour, Constructed, TakenRows;
    if lives == [] {
      EmptyKept(hour, bound - MAX_TS_AHEAD + MAX_TS_ABSURD);
    } else {
      var n := |lives| - 1;
      var before := History(config, lives[..n]);
      if i < |before| {
        NothingAbsurdKept(config, lives[..n], bound, i, hour);
      } else {
        var t, life, k := before[|before| - 1], lives[n], 1 + i - |before|;
        NothingAbsurdKept(config, lives[..n], bound, |before| - 1, hour);
        HistorySturdy(config, lives[..n]);
        SturdyAt(before, |before| - 1, Mode(config.dedup, false, None));
        assert History(config, lives)[i] == Lived(t, config, life).disk.images[k];
        KilledKeepsPrefix(t, config, life, k, hour);
        var w := Constructed(t, config, life.bornAt);
        RunNotAbsurd(w, FRESH, life.inputs, bound);
        OfHourNoneAfter(TakenRows(w, FRESH, life.inputs), hour, bound - MAX_TS_AHEAD + MAX_TS_ABSURD);
        NoneAfterPrefix(Kept(At(t, hour)), OfHour(TakenRows(w, FRESH, life.inputs), hour),
          Kept(At(History(config, lives)[i], hour)), bound - MAX_TS_AHEAD + MAX_TS_ABSURD);
      }
    }
  }

  lemma EmptyKept(hour: int, latest: int)
    ensures NoneAfter(Kept(At(map[], hour)), latest)
  {
    FlatOfNone();
  }
}
