/** Whole lives of the writer: events, stops, crashes between any two steps, and restarts. */
module WriterRuns {
  import opened Clock
  import opened Sorting
  import opened HourOracles
  import opened PlausibilityGuard
  import opened SegmentFiles
  import opened MergeProtocol
  import opened WriterModel
  import opened WriterSoundness
  import opened WriterConservation

  // ---- what becomes of one event

  datatype Fate = Garbage | Late | Replay | Stored | Quarantined

  predicate Taken(fate: Fate) {
    fate.Stored? || fate.Quarantined?
  }

  function AskedBy(w: Writer, o: OracleState, row: Row, now: Readings): OracleState {
    Asked(Observed(o, w.config.stream, row.ts, now.observed), now.asked)
  }

  /** Decided from the rows the hour holds, not from the writer's sets of keys. */
  function FateOf(w: Writer, o: OracleState, row: Row, now: Readings): Fate
    requires Shaped(w)
  {
    var hour := HourStart(row.ts);
    if Implausible(w.guard, row.ts, now.guarded) then Garbage
    else if FloorHour(w).Some? && hour < FloorHour(w).value then Late
    else if w.config.dedup && row.key in Keys(Unpublished(w, hour)) then Replay
    else if w.config.hasOracle &&
         !(AskedBy(w, o, row, now).confirmed.Some? && hour <= AskedBy(w, o, row, now).confirmed.value) then Quarantined
    else Stored
  }

  /** Every witness and every confirmed hour is within `bound`. */
  ghost predicate Within(o: OracleState, bound: int) {
    && (forall s :: s in o.witnessed ==> o.witnessed[s] <= bound)
    && (o.confirmed.Some? ==> o.confirmed.value <= bound)
  }

  lemma ObservedWithin(o: OracleState, stream: Stream, ts: int, now: int, bound: int)
    requires Within(o, bound) && now + MAX_TS_AHEAD <= bound
    ensures Within(Observed(o, stream, ts, now), bound)
  {
  }

  lemma AskedWithin(o: OracleState, now: int, bound: int)
    requires Within(o, bound) && now + MAX_TS_AHEAD <= bound
    ensures Within(Asked(o, now), bound)
  {
    hide Witnesses, Newest, Ascending;
    var ws := Witnesses(o, now);
    forall i | 0 <= i < |ws| ensures ws[i] <= bound {
      WitnessAt(o, now, i);
    }
    if |ws| >= 2 {
      SecondNewestReached(ws, bound + 1);
      AskedTakesLater(o, now);
    }
  }

  /** A question never takes back a confirmed hour. */
  lemma AskedKeeps(o: OracleState, now: int, hour: int)
    requires Confirmed(o, hour)
    ensures Confirmed(Asked(o, now), hour)
  {
  }

  lemma ObservedConfirms(o: OracleState, stream: Stream, ts: int, now: int)
    ensures Observed(o, stream, ts, now).confirmed == o.confirmed
  {
  }

  /** A writer and the oracle it shares, both within what `m` claims. */
  ghost predicate Running(w: Writer, o: OracleState, m: Mode) {
    && Sound(w, m)
    && Corroborated(w, o)
    && (m.ends.Some? ==> Within(o, m.ends.value))
    && (!w.config.hasOracle ==> w.held == map[])
  }

  lemma ArmedSound(w: Writer, m: Mode, guard: Guard)
    requires Sound(w, m)
    ensures Sound(w.(guard := guard), m)
    ensures SameContent(w, w.(guard := guard))
    ensures forall h: int :: Unpublished(w.(guard := guard), h) == Unpublished(w, h)
  {
    hide FilesOk, Kept, Live, Flat, Distinct, Keys, InHour, DiskOk;
    var v := w.(guard := guard);
    forall h: int ensures HeldHourOk(v, m, h) {
      assert HeldHourOk(w, m, h);
      HeldHourCarried(w, v, m, h);
    }
  }

  /** The held hours an event may drain form a plan, and every hour still held afterwards is newer than both the
      event and the confirmed hour allow. */
  lemma DrainablePlan(w: Writer, o: OracleState, m: Mode, hour: int)
    requires Sound(w, m)
    requires m.ends.Some? ==> Within(o, m.ends.value)
    ensures DrainPlan(w, m, Drainable(w, hour, o.confirmed))
    ensures forall h :: h in Drainable(w, hour, o.confirmed) <==> h in w.held && h <= hour && Confirmed(o, h)
  {
    hide FilesOk, Kept, Live, Flat, Distinct, Keys, InHour, DiskOk, OpenHourOk, Unpublished;
    var hours := Drainable(w, hour, o.confirmed);
    forall i | 0 <= i < |hours|
      ensures hours[i] in w.held && hours[i] % HOUR == 0
      ensures FloorHour(w).Some? ==> hours[i] >= FloorHour(w).value
      ensures hours[i] <= hour && Confirmed(o, hours[i])
    {
      assert hours[i] in hours;
      assert HeldHourOk(w, m, hours[i]);
    }
  }

  /** Unpublished rows of an hour, told from what the hour holds in all. */
  lemma UnpublishedOfContent(w: Writer, v: Writer, m: Mode, hour: int)
    requires Sound(w, m) && Sound(v, m)
    requires Content(v, hour) == Content(w, hour)
    requires v.disk.Of(hour).final == w.disk.Of(hour).final
    ensures Unpublished(v, hour) == Unpublished(w, hour)
  {
    assert w.disk.images != [] && v.disk.images != [];
    hide FilesOk, Live, Flat, DiskOk, Sound;
    var fin := Rows(w.disk.Of(hour).final);
    UnpublishedSuffix(w, hour);
    UnpublishedSuffix(v, hour);
    assert Content(w, hour)[|fin|..] == Unpublished(w, hour);
  }

  lemma UnpublishedSuffix(w: Writer, hour: int)
    requires w.disk.images != []
    ensures Content(w, hour) == Rows(w.disk.Of(hour).final) + Unpublished(w, hour)
  {
    hide Live, Flat;
    var f := w.disk.Of(hour);
    Associate(Rows(f.final), Live(f), Flat(f.held));
    Associate(Rows(f.final), Live(f) + Flat(f.held), Ram(w, hour));
  }

  lemma DrainedRunning(w: Writer, o: OracleState, m: Mode, hour: int, now: int -> int -> int)
    requires Running(w, o, m)
    requires FloorHour(w).Some? ==> hour >= FloorHour(w).value
    ensures var v := Drained(w, Drainable(w, hour, o.confirmed), now);
      && Running(v, o, m) && Continues(w.disk, v.disk) && SameContent(w, v) && v.config == w.config
      && Unpublished(v, hour) == Unpublished(w, hour)
      && (forall h :: h in v.held ==> h > hour || !Confirmed(o, h))
      && (FloorHour(v).Some? ==> hour >= FloorHour(v).value)
      && (v.current == w.current || (v.current.Some? && Confirmed(o, v.current.value)))
  {
    assert Shaped(w);
    var hours := Drainable(w, hour, o.confirmed);
    DrainablePlan(w, o, m, hour);
    hide FilesOk, Kept, Live, Flat, DiskOk, Sound, Content, Unpublished, Drained, DrainPlan, Drainable;
    DrainedSound(w, m, hours, hour, now);
    UnpublishedOfContent(w, Drained(w, hours, now), m, hour);
    if hours != [] { assert hours[|hours| - 1] in hours; }
  }

  // ---- one event

  lemma ConfirmedLess(o: OracleState, hour: int, earlier: int)
    requires Confirmed(o, hour) && earlier <= hour
    ensures Confirmed(o, earlier)
  {
  }

  lemma AskedByKeeps(w: Writer, o: OracleState, row: Row, now: Readings, m: Mode)
    requires Running(w, o, m)
    requires m.ends.Some? ==> OracleBy(now, m.ends.value)
    ensures Running(w, AskedBy(w, o, row, now), m)
  {
    hide Asked, Observed, Sound;
    var seen := Observed(o, w.config.stream, row.ts, now.observed);
    ObservedConfirms(o, w.config.stream, row.ts, now.observed);
    if m.ends.Some? {
      ObservedWithin(o, w.config.stream, row.ts, now.observed, m.ends.value);
      AskedWithin(seen, now.asked, m.ends.value);
    }
    if w.current.Some? && w.config.hasOracle { AskedKeeps(seen, now.asked, w.current.value); }
  }

  /** The last step of an event that passed the guard and the floor, on a drained writer: it is stored when its
      hour may be entered, held otherwise. */
  function Landed(w: Writer, o: OracleState, row: Row, now: int): (v: Writer)
    requires Shaped(w)
    ensures Shaped(v)
  {
    var hour := HourStart(row.ts);
    if w.config.hasOracle && !(o.confirmed.Some? && hour <= o.confirmed.value)
    then HeldBack(w, hour, row, now)
    else Admitted(Entered(w, hour), row, now)
  }

  ghost predicate Landable(w: Writer, o: OracleState, hour: int) {
    && (FloorHour(w).Some? ==> hour >= FloorHour(w).value)
    && (forall h :: h in w.held ==> h > hour || !Confirmed(o, h))
    && (!w.config.hasOracle ==> w.held == map[])
  }

  lemma LandedHeld(w: Writer, o: OracleState, m: Mode, row: Row, now: int)
    requires Running(w, o, m) && Landable(w, o, HourStart(row.ts))
    requires w.config.hasOracle && !Confirmed(o, HourStart(row.ts))
    ensures Shaped(w) && Running(HeldBack(w, HourStart(row.ts), row, now), o, m)
    ensures Continues(w.disk, HeldBack(w, HourStart(row.ts), row, now).disk)
    ensures Lands(w, HeldBack(w, HourStart(row.ts), row, now), row)
  {
    assert Shaped(w);
    assert Ahead(w, HourStart(row.ts));
    hide FilesOk, Kept, Live, Flat, DiskOk, Sound, Content, Unpublished, HeldBack, Keys;
    HeldBackSound(w, m, row, now);
  }

  lemma LandedStored(w: Writer, o: OracleState, m: Mode, row: Row, now: int)
    requires Running(w, o, m) && Landable(w, o, HourStart(row.ts))
    requires w.config.hasOracle ==> Confirmed(o, HourStart(row.ts))
    ensures Shaped(w) && Running(Admitted(Entered(w, HourStart(row.ts)), row, now), o, m)
    ensures Continues(w.disk, Admitted(Entered(w, HourStart(row.ts)), row, now).disk)
    ensures Lands(w, Admitted(Entered(w, HourStart(row.ts)), row, now), row)
  {
    assert Shaped(w) && (m.ends.Some? ==> w.config.hasOracle);
    var hour := HourStart(row.ts);
    forall h | h in w.held ensures hour < h {
      if h <= hour && w.config.hasOracle { ConfirmedLess(o, hour, h); }
    }
    hide FilesOk, Kept, Live, Flat, DiskOk, Sound, Content, Unpublished, Entered, Admitted, Keys;
    var entered := Entered(w, hour);
    EnteredSound(w, m, hour);
    AdmittedSound(entered, m, row, now);
    assert SameContent(w, entered);
  }

  lemma LandedSound(w: Writer, o: OracleState, m: Mode, row: Row, now: int)
    requires Running(w, o, m) && Landable(w, o, HourStart(row.ts))
    ensures Shaped(w) && Running(Landed(w, o, row, now), o, m)
    ensures Continues(w.disk, Landed(w, o, row, now).disk)
    ensures Lands(w, Landed(w, o, row, now), row)
  {
    assert Shaped(w);
    hide Running, Lands, HeldBack, Entered, Admitted, Landable;
    if w.config.hasOracle && !Confirmed(o, HourStart(row.ts)) {
      LandedHeld(w, o, m, row, now);
    } else {
      LandedStored(w, o, m, row, now);
    }
  }

  /** Where an event that passed the guard and the floor lands, and the oracle it leaves. */
  lemma AppendedLands(w: Writer, o: OracleState, row: Row, now: Readings)
    requires Shaped(w) && !Implausible(w.guard, row.ts, now.guarded)
    requires FloorHour(w).Some? ==> HourStart(row.ts) >= FloorHour(w).value
    ensures var armed, asked := w.(guard := Rearmed(w.guard)), AskedBy(w, o, row, now);
      Appended(w, o, row, now) ==
        if !w.config.hasOracle then (Landed(armed, o, row, now.anchored), o)
        else (Landed(Drained(armed, Drainable(armed, HourStart(row.ts), asked.confirmed), now.drained), asked, row, now.anchored), asked)
  {
    hide Drained, Entered, Admitted, HeldBack, Implausible, Drainable, Asked, Observed;
  }

  lemma RunningShaped(w: Writer, o: OracleState, m: Mode)
    requires Running(w, o, m)
    ensures Shaped(w)
  {
  }

  /** An event that passed the guard and the floor, on the writer the guard re-armed. */
  lemma LandsAfterDrain(w: Writer, o: OracleState, m: Mode, row: Row, now: Readings)
    requires Running(w, o, m) && w.config.hasOracle
    requires FloorHour(w).Some? ==> HourStart(row.ts) >= FloorHour(w).value
    ensures Shaped(w)
    ensures var v := Landed(Drained(w, Drainable(w, HourStart(row.ts), o.confirmed), now.drained), o, row, now.anchored);
      Running(v, o, m) && Continues(w.disk, v.disk) && Lands(w, v, row)
  {
    hide Running, Content, Unpublished, Landed, Drained, Drainable, Lands, SameContent;
    RunningShaped(w, o, m);
    var hour := HourStart(row.ts);
    var drained := Drained(w, Drainable(w, hour, o.confirmed), now.drained);
    DrainedRunning(w, o, m, hour, now.drained);
    LandedSound(drained, o, m, row, now.anchored);
    LandsThrough(w, drained, Landed(drained, o, row, now.anchored), row);
  }

  lemma LandsThrough(w: Writer, drained: Writer, v: Writer, row: Row)
    requires w.disk.images != [] && drained.disk.images != [] && v.disk.images != []
    requires SameContent(w, drained) && drained.config == w.config
    requires Unpublished(drained, HourStart(row.ts)) == Unpublished(w, HourStart(row.ts))
    requires Lands(drained, v, row)
    ensures Lands(w, v, row)
  {
    hide Content, Unpublished, Keys;
  }

  lemma LandsFate(w: Writer, armed: Writer, v: Writer, o: OracleState, row: Row, now: Readings)
    requires Shaped(w) && v.disk.images != []
    requires armed == w.(guard := Rearmed(w.guard))
    requires !Implausible(w.guard, row.ts, now.guarded)
    requires FloorHour(w).Some? ==> HourStart(row.ts) >= FloorHour(w).value
    requires Lands(armed, v, row)
    ensures Adds(w, v, HourStart(row.ts), if Taken(FateOf(w, o, row, now)) then [row] else [])
  {
    hide Kept, Keys, Live, Flat;
    forall h: int ensures Content(armed, h) == Content(w, h) {}
  }

  /** An event that is garbage or late leaves only the guard behind. */
  lemma DroppedConserves(w: Writer, o: OracleState, m: Mode, row: Row, now: Readings)
    requires Running(w, o, m)
    requires Implausible(w.guard, row.ts, now.guarded) || (FloorHour(w).Some? && HourStart(row.ts) < FloorHour(w).value)
    ensures Shaped(w)
    ensures var (v, o') := Appended(w, o, row, now);
      && Running(v, o', m) && Continues(w.disk, v.disk) && !Taken(FateOf(w, o, row, now))
      && Adds(w, v, HourStart(row.ts), [])
  {
    hide Sound, Content, Unpublished, DiskOk, Within, Asked, Observed, Keys;
    SoundOpen(w, m);
    if Implausible(w.guard, row.ts, now.guarded) {
      ArmedSound(w, m, Refused(w.guard, row.ts));
    } else {
      ArmedSound(w, m, Rearmed(w.guard));
    }
  }

  /** An event that passed the guard and the floor. */
  lemma TakenConserves(w: Writer, o: OracleState, m: Mode, row: Row, now: Readings)
    requires Running(w, o, m)
    requires m.ends.Some? ==> OracleBy(now, m.ends.value)
    requires !Implausible(w.guard, row.ts, now.guarded)
    requires FloorHour(w).Some? ==> HourStart(row.ts) >= FloorHour(w).value
    ensures Shaped(w)
    ensures var (v, o') := Appended(w, o, row, now);
      && Running(v, o', m) && Continues(w.disk, v.disk)
      && Adds(w, v, HourStart(row.ts), if Taken(FateOf(w, o, row, now)) then [row] else [])
  {
    hide Sound, DiskOk, Content, Landed, Drained, Drainable, Implausible, AskedBy, Appended, Lands, Continues, Adds, Within, FateOf;
    SoundOpen(w, m);
    var armed := w.(guard := Rearmed(w.guard));
    var (v, o') := Appended(w, o, row, now);
    ArmedSound(w, m, Rearmed(w.guard));
    AppendedLands(w, o, row, now);
    if w.config.hasOracle {
      AskedByConfig(w, armed, o, row, now);
      AskedByKeeps(armed, o, row, now, m);
      LandsAfterDrain(armed, o', m, row, now);
    } else {
      LandedSound(armed, o, m, row, now.anchored);
    }
    LandsFate(w, armed, v, o, row, now);
  }

  /** One event, whatever its stamp and whatever its steps read of the clock: the invariant holds, the disk has only moved
      forward, and the one row that may have been added is the event itself, last in its own hour, exactly when its fate
      says so. */
  lemma AppendConserves(w: Writer, o: OracleState, m: Mode, row: Row, now: Readings)
    requires Running(w, o, m)
    requires m.ends.Some? ==> OracleBy(now, m.ends.value)
    ensures Shaped(w)
    ensures var (v, o') := Appended(w, o, row, now);
      && Running(v, o', m) && Continues(w.disk, v.disk)
      && Adds(w, v, HourStart(row.ts), if Taken(FateOf(w, o, row, now)) then [row] else [])
  {
    hide Running, Appended, Implausible, Adds, Continues, FateOf;
    if Implausible(w.guard, row.ts, now.guarded) || (FloorHour(w).Some? && HourStart(row.ts) < FloorHour(w).value) {
      DroppedConserves(w, o, m, row, now);
    } else {
      TakenConserves(w, o, m, row, now);
    }
  }

  lemma AskedByConfig(w: Writer, v: Writer, o: OracleState, row: Row, now: Readings)
    requires v.config == w.config
    ensures AskedBy(v, o, row, now) == AskedBy(w, o, row, now)
  {
  }
}
