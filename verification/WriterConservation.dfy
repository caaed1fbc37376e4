/** What one event, one stop and one start do to every hour's rows. */
module WriterConservation {
  import opened Prelude
  import opened Clock
  import opened Sorting
  import opened PlausibilityGuard
  import opened SegmentFiles
  import opened MergeProtocol
  import opened WriterModel
  import opened WriterSoundness

  /** Only what is held, and the guard, may differ. */
  predicate SameStore(w: Writer, v: Writer) {
    && v.config == w.config && v.disk == w.disk && v.current == w.current && v.floor == w.floor
    && v.buffer == w.buffer && v.seen == w.seen
  }

  lemma SoundCarried(w: Writer, v: Writer, m: Mode)
    requires Sound(w, m) && SameStore(w, v)
    requires forall h: int :: HeldHourOk(v, m, h)
    ensures Sound(v, m)
  {
    hide FilesOk, Kept, Live, Flat, Distinct, Keys, InHour, DiskOk, HeldHourOk;
    if w.current.Some? { assert Unpublished(v, w.current.value) == Unpublished(w, w.current.value); }
  }

  // ---- admitting rows to the open hour

  /** The row appended in memory, before any flush. */
  function Buffered(w: Writer, row: Row, now: int): Writer {
    w.(
      seen := if w.config.dedup then w.seen + {row.key} else w.seen,
      guard := Anchored(w.guard, row.ts, now),
      buffer := w.buffer + [row])
  }

  lemma KeysOfOne(row: Row)
    ensures Keys([row]) == {row.key}
  {
    assert [row][0] == row;
  }

  lemma MoreKeys(rows: seq<Row>, row: Row)
    ensures Keys(rows + [row]) == Keys(rows) + {row.key}
  {
    KeysOfSum(rows, [row]);
    KeysOfOne(row);
  }

  /** `rows` at `hour`, nothing at any other hour. */
  function Added(hour: int, h: int, rows: seq<Row>): seq<Row> {
    if h == hour then rows else []
  }

  /** `rows` come last in `hour`, and no other hour's rows change. */
  ghost predicate Adds(w: Writer, v: Writer, hour: int, rows: seq<Row>)
    requires w.disk.images != [] && v.disk.images != []
  {
    forall h: int :: Content(v, h) == Content(w, h) + Added(hour, h, rows)
  }

  lemma BufferedSound(w: Writer, m: Mode, row: Row, now: int)
    requires Sound(w, m) && w.current == Some(HourStart(row.ts))
    requires w.config.dedup ==> row.key !in Keys(Unpublished(w, HourStart(row.ts)))
    ensures Sound(Buffered(w, row, now), m)
    ensures Adds(w, Buffered(w, row, now), HourStart(row.ts), [row])
    ensures Unpublished(Buffered(w, row, now), HourStart(row.ts)) == Unpublished(w, HourStart(row.ts)) + [row]
  {
    hide FilesOk, Kept, Live, Flat, Distinct, Keys;
    var hour := HourStart(row.ts);
    var v := Buffered(w, row, now);
    Associate(Kept(w.disk.Of(hour)), w.buffer, [row]);
    Associate(Live(w.disk.Of(hour)) + Flat(w.disk.Of(hour).held), w.buffer, [row]);
    MoreKeys(Unpublished(w, hour), row);
    DistinctSnoc(Unpublished(w, hour), row);
    forall h: int
      ensures HeldHourOk(v, m, h)
      ensures Content(v, h) == Content(w, h) + Added(hour, h, [row])
    {
      assert HeldHourOk(w, m, h);
    }
  }

  /** A row of the open hour: a replay changes nothing, any other row comes last in its hour. */
  lemma AdmittedSound(w: Writer, m: Mode, row: Row, now: int)
    requires Sound(w, m) && w.current == Some(HourStart(row.ts))
    ensures Sound(Admitted(w, row, now), m)
    ensures Continues(w.disk, Admitted(w, row, now).disk)
    ensures SameHolds(w, Admitted(w, row, now))
    ensures var replay := w.config.dedup && row.key in Keys(Unpublished(w, HourStart(row.ts)));
      && Adds(w, Admitted(w, row, now), HourStart(row.ts), if replay then [] else [row])
      && Unpublished(Admitted(w, row, now), HourStart(row.ts)) ==
           Unpublished(w, HourStart(row.ts)) + if replay then [] else [row]
    ensures forall h: int :: Admitted(w, row, now).disk.Of(h).final == w.disk.Of(h).final
  {
    hide FilesOk, Kept, Live, Flat, Distinct, Keys, DiskOk;
    var hour := HourStart(row.ts);
    assert w.config.dedup ==> w.seen == Keys(Unpublished(w, hour));
    if w.config.dedup && row.key in w.seen {
    } else {
      BufferedSound(w, m, row, now);
      FlushedSound(Buffered(w, row, now), m);
      assert SameContent(Buffered(w, row, now), Flushed(Buffered(w, row, now)));
    }
  }

  lemma {:induction false} AdmittedAllSound(w: Writer, m: Mode, hour: int, rows: seq<Row>, now: int -> int)
    requires Sound(w, m) && w.current == Some(hour)
    requires InHour(rows, hour)
    requires m.dedup ==> Distinct(Unpublished(w, hour) + rows)
    ensures Sound(AdmittedAll(w, rows, now), m)
    ensures Continues(w.disk, AdmittedAll(w, rows, now).disk)
    ensures SameHolds(w, AdmittedAll(w, rows, now))
    ensures Adds(w, AdmittedAll(w, rows, now), hour, rows)
    ensures Unpublished(AdmittedAll(w, rows, now), hour) == Unpublished(w, hour) + rows
    ensures forall h: int :: AdmittedAll(w, rows, now).disk.Of(h).final == w.disk.Of(h).final
  {
    assert Shaped(w) && m.dedup == w.config.dedup;
    hide FilesOk, Kept, Live, Flat, DiskOk, Keys, Sound, Content, Unpublished, Admitted;
    if rows != [] {
      var n := |rows| - 1;
      var front, last := rows[..n], rows[n];
      assert rows == front + [last];
      var before := Unpublished(w, hour);
      Associate(before, front, [last]);
      if m.dedup {
        DistinctFront(before + front, [last]);
        DistinctSnoc(before + front, last);
      }
      AdmittedAllSound(w, m, hour, front, now);
      var v := AdmittedAll(w, front, now);
      assert v.config == w.config;
      assert HourStart(last.ts) == hour;
      AdmittedSound(v, m, last, now(|rows| - 1));
      forall h: int ensures Content(AdmittedAll(w, rows, now), h) == Content(w, h) + Added(hour, h, rows) {
        if h == hour {
          assert Content(v, h) == Content(w, h) + front;
          Associate(Content(w, h), front, [last]);
        }
      }
    }
  }

  // ---- draining held hours

  /** `hour` may be entered: it is not behind, and nothing held is older. */
  ghost predicate Enterable(w: Writer, m: Mode, hour: int) {
    && hour % HOUR == 0
    && (FloorHour(w).Some? ==> hour >= FloorHour(w).value)
    && (m.ends.Some? ==> hour <= m.ends.value)
  }

  function Released(w: Writer, hour: int): Writer {
    w.(held := w.held - {hour}, heldSeen := w.heldSeen - {hour})
  }

  lemma ReleasedSound(w: Writer, m: Mode, hour: int)
    requires Sound(w, m) && hour in w.held
    ensures Sound(Released(w, hour), m)
    ensures forall h: int :: h != hour ==> Content(Released(w, hour), h) == Content(w, h)
    ensures Content(Released(w, hour), hour) + w.held[hour] == Content(w, hour)
    ensures Unpublished(Released(w, hour), hour) + w.held[hour] == Unpublished(w, hour)
    ensures InHour(w.held[hour], hour)
    ensures m.dedup ==> Distinct(Unpublished(w, hour))
  {
    hide FilesOk, Kept, Live, Flat, Distinct, Keys, DiskOk;
    var v := Released(w, hour);
    assert HeldHourOk(w, m, hour);
    assert v.disk == w.disk;
    forall h: int ensures HeldHourOk(v, m, h) {
      assert HeldHourOk(w, m, h);
      assert h != hour ==> RamHeld(v, h) == RamHeld(w, h);
    }
  }

  /** One held hour drained: its rows, spilled and in memory, become the hour's last rows. */
  lemma DrainedOneSound(w: Writer, m: Mode, hour: int, now: int -> int)
    requires Sound(w, m) && hour in w.held && Enterable(w, m, hour)
    requires forall h :: h in w.held ==> hour <= h
    ensures Sound(DrainedOne(w, hour, now), m)
    ensures Continues(w.disk, DrainedOne(w, hour, now).disk)
    ensures SameHolds(Released(w, hour), DrainedOne(w, hour, now)) && DrainedOne(w, hour, now).current == Some(hour)
    ensures SameContent(w, DrainedOne(w, hour, now))
    ensures Unpublished(DrainedOne(w, hour, now), hour) == Unpublished(w, hour)
    ensures FinalsKept(w, DrainedOne(w, hour, now), hour)
  {
    hide DiskOk, Sound, Content, Unpublished, AdmittedAll, Entered, Distinct, InHour, OpenHourOk, Continues;
    SoundOpen(w, m);
    var rows := w.held[hour];
    var released := Released(w, hour);
    ReleasedSound(w, m, hour);
    EnteredSound(released, m, hour);
    var entered := Entered(released, hour);
    AdmittedAllSound(entered, m, hour, rows, now);
    ContinuesThrough(w.disk, entered.disk, DrainedOne(w, hour, now).disk);
    forall h: int ensures Content(DrainedOne(w, hour, now), h) == Content(w, h) {
      assert Content(entered, h) == Content(released, h);
    }
  }

  function Elements(hours: seq<int>): set<int> {
    set h | h in hours
  }

  lemma ElementsSplit(hours: seq<int>)
    requires hours != []
    ensures Elements(hours) == {hours[0]} + Elements(hours[1..])
  {
    assert hours == [hours[0]] + hours[1..];
  }

  /** The hours to drain, oldest first: each is held and may be entered, and every other held hour is newer. */
  ghost predicate DrainPlan(w: Writer, m: Mode, hours: seq<int>) {
    && Increasing(hours)
    && (forall i :: 0 <= i < |hours| ==> hours[i] in w.held && hours[i] % HOUR == 0)
    && (forall i :: 0 <= i < |hours| ==> m.ends.Some? ==> hours[i] <= m.ends.value)
    && (forall i :: 0 <= i < |hours| ==> FloorHour(w).Some? ==> hours[i] >= FloorHour(w).value)
    && (forall h, i :: h in w.held && h !in hours && 0 <= i < |hours| ==> hours[i] < h)
  }

  lemma DrainPlanFirst(w: Writer, m: Mode, hours: seq<int>)
    requires DrainPlan(w, m, hours) && hours != []
    ensures hours[0] in w.held && Enterable(w, m, hours[0])
    ensures forall h :: h in w.held ==> hours[0] <= h
  {
    forall h | h in w.held ensures hours[0] <= h {
      if h in hours {
        var i :| 0 <= i < |hours| && hours[i] == h;
        assert i == 0 || hours[0] < hours[i];
      }
    }
  }

  lemma DrainPlanRest(w: Writer, v: Writer, m: Mode, hours: seq<int>)
    requires DrainPlan(w, m, hours) && hours != []
    requires v.held == w.held - {hours[0]} && v.current == Some(hours[0])
    ensures DrainPlan(v, m, hours[1..])
    ensures hours[0] !in hours[1..]
  {
    var rest := hours[1..];
    forall i | 0 <= i < |rest| ensures rest[i] > hours[0] && rest[i] in v.held {
      assert rest[i] == hours[i + 1];
    }
    forall h, i | h in v.held && h !in rest && 0 <= i < |rest| ensures rest[i] < h {
      assert hours == [hours[0]] + rest;
      assert h in w.held && h !in hours;
      assert rest[i] == hours[i + 1];
    }
  }

  /** What a drain leaves: the held hours fewer, the last drained hour open. */
  ghost predicate DrainLeaves(w: Writer, v: Writer, hours: seq<int>) {
    && v.held == w.held - Elements(hours)
    && v.config == w.config && v.floor == w.floor
    && v.current == (if hours == [] then w.current else Some(hours[|hours| - 1]))
  }

  lemma DrainLeavesMore(w: Writer, v: Writer, x: Writer, hours: seq<int>)
    requires hours != []
    requires v.held == w.held - {hours[0]} && v.config == w.config && v.floor == w.floor && v.current == Some(hours[0])
    requires DrainLeaves(v, x, hours[1..])
    ensures DrainLeaves(w, x, hours)
  {
    ElementsSplit(hours);
    assert w.held - {hours[0]} - Elements(hours[1..]) == w.held - Elements(hours);
  }

  /** Draining moves every row of the drained hours into them and touches no other row. */
  lemma {:induction false} DrainedSound(w: Writer, m: Mode, hours: seq<int>, top: int, now: int -> int -> int)
    requires Sound(w, m) && DrainPlan(w, m, hours)
    requires forall i :: 0 <= i < |hours| ==> hours[i] <= top
    ensures FinalsKept(w, Drained(w, hours, now), top)
    ensures Sound(Drained(w, hours, now), m)
    ensures Continues(w.disk, Drained(w, hours, now).disk)
    ensures SameContent(w, Drained(w, hours, now))
    ensures DrainLeaves(w, Drained(w, hours, now), hours)
    decreases |hours|
  {
    assert Shaped(w);
    if hours == [] {
      assert w.held - Elements(hours) == w.held;
    } else {
      hide FilesOk, Kept, Live, Flat, DiskOk, Sound, Content, Unpublished, DrainedOne, DrainPlan, Enterable, Elements, DrainLeaves;
      var first, rest := hours[0], hours[1..];
      DrainPlanFirst(w, m, hours);
      DrainedOneSound(w, m, first, now(first));
      var v := DrainedOne(w, first, now(first));
      DrainPlanRest(w, v, m, hours);
      assert forall i :: 0 <= i < |rest| ==> rest[i] == hours[i + 1];
      DrainedSound(v, m, rest, top, now);
      DrainLeavesMore(w, v, Drained(v, rest, now), hours);
      forall h: int ensures Content(Drained(w, hours, now), h) == Content(w, h) {
        assert Content(v, h) == Content(w, h);
      }
    }
  }

  // ---- parking a row

  lemma StartingKeys(w: Writer, m: Mode, hour: int)
    requires Sound(w, m) && m.dedup && Ahead(w, hour)
    ensures (if hour in w.heldSeen then w.heldSeen[hour] else DiskKeys(w.disk.Of(hour))) == Keys(Unpublished(w, hour))
    ensures Distinct(Unpublished(w, hour))
  {
    assert HeldHourOk(w, m, hour);
    if hour !in w.heldSeen {
      hide Flat, Keys, Distinct;
      var f := w.disk.Of(hour);
      NowOk(w.disk, hour, m);
      assert f.merging.None?;
      KeysOfSum(Flat(f.parts), Flat(f.held));
      assert Unpublished(w, hour) == Live(f) + Flat(f.held);
    }
  }

  /** The row parked in memory, before any spill. */
  function Parked(w: Writer, hour: int, row: Row, now: int): Writer
    requires Shaped(w)
  {
    var seen := if hour in w.heldSeen then w.heldSeen[hour] else DiskKeys(w.disk.Of(hour));
    w.(
      heldSeen := if w.config.dedup then w.heldSeen[hour := seen + {row.key}] else w.heldSeen,
      guard := Anchored(w.guard, row.ts, now),
      held := w.held[hour := RamHeld(w, hour) + [row]])
  }

  function SpilledAt(w: Writer, hour: int): Writer
    requires Shaped(w)
  {
    w.(disk := PutHeld(w.disk, hour, RamHeld(w, hour)), held := w.held[hour := []])
  }

  lemma SpilledMoves(w: Writer, m: Mode, hour: int)
    requires Sound(w, m) && hour in w.held
    ensures Shaped(w) && Moves(w.disk, SpilledAt(w, hour).disk, hour, m)
    ensures var f, g := w.disk.Of(hour), SpilledAt(w, hour).disk.Of(hour);
      g == f.(held := g.held) && Flat(g.held) == Flat(f.held) + w.held[hour]
  {
    assert HeldHourOk(w, m, hour);
    assert Unpublished(w, hour) == Live(w.disk.Of(hour)) + Flat(w.disk.Of(hour).held) + w.held[hour];
    assert m.dedup ==> Distinct(Unpublished(w, hour));
    hide DiskOk, Live, Flat, Distinct, PutHeld, InHour, Keys;
    HeldStep(w.disk, hour, w.held[hour], m);
  }

  lemma SpilledRows(f: Files, g: Files, rows: seq<Row>)
    requires g == f.(held := g.held) && Flat(g.held) == Flat(f.held) + rows
    ensures Kept(g) + [] == Kept(f) + rows
    ensures Live(g) + Flat(g.held) + [] == Live(f) + Flat(f.held) + rows
  {
    assert Live(g) == Live(f) && Durable(g) == Durable(f);
    hide Flat, Live, Durable;
    Associate(Durable(f), Flat(f.held), rows);
    Associate(Live(f), Flat(f.held), rows);
  }

  lemma SpilledSame(w: Writer, m: Mode, hour: int, h: int)
    requires Sound(w, m) && hour in w.held
    ensures Shaped(w)
    ensures var v := SpilledAt(w, hour);
      && Content(v, h) == Content(w, h) && Unpublished(v, h) == Unpublished(w, h)
      && v.disk.Of(h).final == w.disk.Of(h).final && v.disk.Of(h).merging.None?
  {
    hide FilesOk, Flat, Live, Sound, DiskOk, Kept, PutHeld, HeldHourOk, Continues;
    SpilledMoves(w, m, hour);
    HeldStaysAhead(w, m, hour);
    SoundHour(w, m, h);
    var v := SpilledAt(w, hour);
    if h == hour {
      SpilledRows(w.disk.Of(hour), v.disk.Of(hour), w.held[hour]);
    } else {
      assert v.disk.Of(h) == w.disk.Of(h);
    }
  }

  lemma SpilledHeld(w: Writer, m: Mode, hour: int, h: int)
    requires Sound(w, m) && hour in w.held
    ensures Shaped(w) && HeldHourOk(SpilledAt(w, hour), m, h)
  {
    hide FilesOk, Flat, Live, Sound, Keys, DiskOk, Kept, PutHeld, Content, Unpublished, Distinct;
    SoundHour(w, m, h);
    SpilledSame(w, m, hour, h);
    EmptyInHour(hour);
    if h != hour { HeldHourCarried(w, SpilledAt(w, hour), m, h); }
  }

  lemma SpilledOpen(w: Writer, m: Mode, hour: int)
    requires Sound(w, m) && hour in w.held
    ensures Shaped(w) && OpenHourOk(SpilledAt(w, hour), m)
    ensures m.clean ==> FinalsBehind(SpilledAt(w, hour))
  {
    hide FilesOk, Flat, Live, Keys, DiskOk, Kept, PutHeld, Content, Unpublished, Distinct, Sound, InHour;
    SoundOpen(w, m);
    var v := SpilledAt(w, hour);
    SpilledMoves(w, m, hour);
    HeldStaysAhead(w, m, hour);
    if w.current.Some? {
      SpilledSame(w, m, hour, w.current.value);
      assert v.disk.Of(w.current.value) == w.disk.Of(w.current.value);
    }
    forall h: int ensures v.disk.Of(h).final == w.disk.Of(h).final {
      SpilledSame(w, m, hour, h);
    }
  }

  /** A held hour's rows written as its next spill. */
  lemma SpilledSound(w: Writer, m: Mode, hour: int)
    requires Sound(w, m) && hour in w.held
    ensures Sound(SpilledAt(w, hour), m)
    ensures Continues(w.disk, SpilledAt(w, hour).disk)
    ensures SameContent(w, SpilledAt(w, hour))
    ensures forall h: int :: Unpublished(SpilledAt(w, hour), h) == Unpublished(w, h)
  {
    var v := SpilledAt(w, hour);
    SpilledMoves(w, m, hour);
    SpilledOpen(w, m, hour);
    hide DiskOk, PutHeld, Content, Unpublished, HeldHourOk, OpenHourOk, Continues, FinalsBehind;
    forall h: int
      ensures HeldHourOk(v, m, h) && Content(v, h) == Content(w, h) && Unpublished(v, h) == Unpublished(w, h)
      ensures v.disk.Of(h).merging.None?
    {
      SpilledHeld(w, m, hour, h);
      SpilledSame(w, m, hour, h);
    }
  }

  lemma EmptyInHour(hour: int)
    ensures InHour([], hour)
  {
  }

  lemma ParkedRows(w: Writer, row: Row, now: int)
    requires Shaped(w) && Ahead(w, HourStart(row.ts))
    ensures var hour, v := HourStart(row.ts), Parked(w, HourStart(row.ts), row, now);
      && Content(v, hour) == Content(w, hour) + [row]
      && Unpublished(v, hour) == Unpublished(w, hour) + [row]
      && RamHeld(v, hour) == RamHeld(w, hour) + [row]
  {
    hide FilesOk, Kept, Live, Flat, Keys, DiskKeys;
    var hour := HourStart(row.ts);
    Associate(Kept(w.disk.Of(hour)), RamHeld(w, hour), [row]);
    Associate(Live(w.disk.Of(hour)) + Flat(w.disk.Of(hour).held), RamHeld(w, hour), [row]);
  }

  /** The parked hour itself. */
  lemma ParkedHere(w: Writer, m: Mode, row: Row, now: int)
    requires Sound(w, m) && Ahead(w, HourStart(row.ts))
    requires FloorHour(w).Some? ==> HourStart(row.ts) >= FloorHour(w).value
    requires w.config.dedup ==> row.key !in Keys(Unpublished(w, HourStart(row.ts)))
    ensures HeldHourOk(Parked(w, HourStart(row.ts), row, now), m, HourStart(row.ts))
  {
    var hour := HourStart(row.ts);
    assert InHour(RamHeld(w, hour) + [row], hour) by {
      assert HeldHourOk(w, m, hour);
      InHourOfSum(RamHeld(w, hour), [row], hour);
    }
    if m.dedup { StartingKeys(w, m, hour); }
    hide FilesOk, Kept, Live, Flat, Distinct, Keys, InHour, DiskKeys, DiskOk, Unpublished, HeldBack, Content;
    ParkedRows(w, row, now);
    MoreKeys(Unpublished(w, hour), row);
    DistinctSnoc(Unpublished(w, hour), row);
  }

  lemma ParkedElsewhere(w: Writer, row: Row, now: int, h: int)
    requires Shaped(w) && h != HourStart(row.ts)
    ensures var v := Parked(w, HourStart(row.ts), row, now);
      HeldAlike(w, v, h) && Unpublished(v, h) == Unpublished(w, h) && Content(v, h) == Content(w, h)
  {
    hide FilesOk, Kept, Live, Flat, Keys, DiskKeys;
  }

  lemma ParkedSound(w: Writer, m: Mode, row: Row, now: int)
    requires Sound(w, m) && Ahead(w, HourStart(row.ts))
    requires FloorHour(w).Some? ==> HourStart(row.ts) >= FloorHour(w).value
    requires w.config.dedup ==> row.key !in Keys(Unpublished(w, HourStart(row.ts)))
    ensures Sound(Parked(w, HourStart(row.ts), row, now), m)
    ensures Adds(w, Parked(w, HourStart(row.ts), row, now), HourStart(row.ts), [row])
  {
    var hour := HourStart(row.ts);
    var v := Parked(w, hour, row, now);
    ParkedHere(w, m, row, now);
    ParkedRows(w, row, now);
    assert SameStore(w, v);
    assert forall h: int :: HeldHourOk(w, m, h);
    hide Sound, Keys, HeldHourOk, Content, Unpublished, Parked;
    forall h: int
      ensures HeldHourOk(v, m, h)
      ensures Content(v, h) == Content(w, h) + Added(hour, h, [row])
    {
      if h != hour {
        ParkedElsewhere(w, row, now, h);
        HeldHourCarried(w, v, m, h);
      }
    }
    SoundCarried(w, v, m);
  }

  lemma ReplayHere(w: Writer, m: Mode, hour: int)
    requires Sound(w, m) && m.dedup && Ahead(w, hour)
    ensures HeldHourOk(w.(heldSeen := w.heldSeen[hour := Keys(Unpublished(w, hour))]), m, hour)
  {
    StartingKeys(w, m, hour);
    hide FilesOk, Kept, Live, Flat, Distinct, Keys, InHour, DiskKeys, DiskOk;
    assert HeldHourOk(w, m, hour);
  }

  /** A replay of a held row leaves only the hour's keys behind. */
  lemma ReplaySound(w: Writer, m: Mode, hour: int)
    requires Sound(w, m) && m.dedup && Ahead(w, hour)
    ensures Sound(w.(heldSeen := w.heldSeen[hour := Keys(Unpublished(w, hour))]), m)
    ensures Adds(w, w.(heldSeen := w.heldSeen[hour := Keys(Unpublished(w, hour))]), hour, [])
  {
    hide Kept, Live, Flat, Distinct, Keys, InHour, Sound, HeldHourOk, Ahead;
    SoundHour(w, m, hour);
    var v := w.(heldSeen := w.heldSeen[hour := Keys(Unpublished(w, hour))]);
    ReplayHere(w, m, hour);
    forall h: int ensures HeldHourOk(v, m, h) {
      SoundHour(w, m, h);
      if h != hour { HeldHourCarried(w, v, m, h); }
    }
    SoundCarried(w, v, m);
  }

  lemma SoundMode(w: Writer, m: Mode)
    requires Sound(w, m)
    ensures Shaped(w) && w.config.dedup == m.dedup
  {
  }

  lemma HeldBackIs(w: Writer, m: Mode, hour: int, row: Row, now: int)
    requires Sound(w, m) && Ahead(w, hour)
    ensures w.config.dedup == m.dedup
    ensures var parked := Parked(w, hour, row, now);
      HeldBack(w, hour, row, now) ==
        if w.config.dedup && row.key in Keys(Unpublished(w, hour))
        then w.(heldSeen := w.heldSeen[hour := Keys(Unpublished(w, hour))])
        else if |RamHeld(parked, hour)| >= w.config.flushRows then SpilledAt(parked, hour)
        else parked
  {
    hide FilesOk, Kept, Live, Flat, Distinct, Keys, InHour, DiskKeys, Sound, PutHeld, Unpublished, Ahead, Anchored;
    SoundMode(w, m);
    if m.dedup { StartingKeys(w, m, hour); }
    var parked := Parked(w, hour, row, now);
    assert parked.held[hour := []] == w.held[hour := []];
  }

  /** A row no rows of its hour share a key with, parked and, when the hour is full, spilled. */
  lemma TakenBackSound(w: Writer, m: Mode, row: Row, now: int)
    requires Sound(w, m) && Ahead(w, HourStart(row.ts))
    requires FloorHour(w).Some? ==> HourStart(row.ts) >= FloorHour(w).value
    requires w.config.dedup ==> row.key !in Keys(Unpublished(w, HourStart(row.ts)))
    ensures var parked := Parked(w, HourStart(row.ts), row, now);
      var v := if |RamHeld(parked, HourStart(row.ts))| >= w.config.flushRows then SpilledAt(parked, HourStart(row.ts)) else parked;
      Sound(v, m) && Continues(w.disk, v.disk) && v.current == w.current && Adds(w, v, HourStart(row.ts), [row])
  {
    var hour := HourStart(row.ts);
    var parked := Parked(w, hour, row, now);
    hide Keys, Sound, PutHeld, Unpublished, Content, Ahead;
    ParkedSound(w, m, row, now);
    if |RamHeld(parked, hour)| >= w.config.flushRows {
      SpilledSound(parked, m, hour);
      assert SameContent(parked, SpilledAt(parked, hour));
    }
  }

  /** What an event does to every hour's rows when its hour may take it: a replay of a row the hour holds
      unpublished changes nothing, any other row comes last. */
  ghost predicate Lands(w: Writer, v: Writer, row: Row)
    requires w.disk.images != [] && v.disk.images != []
  {
    var replay := w.config.dedup && row.key in Keys(Unpublished(w, HourStart(row.ts)));
    Adds(w, v, HourStart(row.ts), if replay then [] else [row])
  }

  /** A row of an hour no quorum has reached. */
  lemma HeldBackSound(w: Writer, m: Mode, row: Row, now: int)
    requires Sound(w, m) && Ahead(w, HourStart(row.ts))
    requires FloorHour(w).Some? ==> HourStart(row.ts) >= FloorHour(w).value
    ensures Shaped(w)
    ensures var v := HeldBack(w, HourStart(row.ts), row, now);
      Sound(v, m) && Continues(w.disk, v.disk) && v.current == w.current && Lands(w, v, row)
  {
    var hour := HourStart(row.ts);
    HeldBackIs(w, m, hour, row, now);
    assert Shaped(w);
    hide Keys, Sound, Unpublished, HeldBack, Parked, SpilledAt, RamHeld, Content, Ahead, Adds;
    if w.config.dedup && row.key in Keys(Unpublished(w, hour)) {
      ReplaySound(w, m, hour);
    } else {
      TakenBackSound(w, m, row, now);
    }
  }
}
