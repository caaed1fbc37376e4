/** Whole lives of the writer: starts, events, stops, and a crash between any two steps of the disk. */
module WriterLives {
  import opened Clock
  import opened Sorting
  import opened HourOracles
  import opened SegmentFiles
  import opened MergeProtocol
  import opened WriterModel
  import opened WriterSoundness
  import opened WriterConservation
  import opened WriterRuns

  // ---- a stop

  /** What a stop leaves in memory of the held hours it has spilled so far. */
  ghost predicate Emptied(w: Writer, v: Writer, hours: seq<int>) {
    && v.held.Keys == w.held.Keys
    && v.current == w.current && v.buffer == w.buffer
    && (forall h :: h in w.held && w.held[h] == [] ==> v.held[h] == [])
    && (forall i :: 0 <= i < |hours| && hours[i] in w.held ==> v.held[hours[i]] == [])
  }

  function SpilledOne(w: Writer, hour: int): (v: Writer)
    requires Shaped(w)
    ensures Shaped(v)
  {
    if RamHeld(w, hour) == [] then w else SpilledAt(w, hour)
  }

  lemma {:induction false} SpilledEmpties(w: Writer, hours: seq<int>)
    requires Shaped(w)
    ensures Emptied(w, Spilled(w, hours), hours)
    decreases |hours|
  {
    hide PutHeld;
    if hours != [] {
      var hour, rest := hours[0], hours[1..];
      var v := SpilledOne(w, hour);
      SpilledEmpties(v, rest);
      var z := Spilled(w, hours);
      assert z == Spilled(v, rest);
      forall i | 0 <= i < |hours| && hours[i] in w.held ensures z.held[hours[i]] == [] {
        if i > 0 { assert hours[i] == rest[i - 1]; }
      }
    }
  }

  lemma SpilledOneSound(w: Writer, m: Mode, hour: int)
    requires Sound(w, m)
    ensures Shaped(w) && Sound(SpilledOne(w, hour), m)
    ensures Continues(w.disk, SpilledOne(w, hour).disk)
    ensures SameContent(w, SpilledOne(w, hour))
  {
    assert Shaped(w);
    hide Sound, Content, SpilledAt, DiskOk;
    if RamHeld(w, hour) != [] { SpilledSound(w, m, hour); }
  }

  lemma {:induction false} SpilledAllSound(w: Writer, m: Mode, hours: seq<int>)
    requires Sound(w, m)
    ensures Shaped(w) && Sound(Spilled(w, hours), m)
    ensures Continues(w.disk, Spilled(w, hours).disk)
    ensures SameContent(w, Spilled(w, hours))
    decreases |hours|
  {
    assert Shaped(w);
    hide Sound, Content, DiskOk, PutHeld;
    if hours != [] {
      var v := SpilledOne(w, hours[0]);
      SpilledOneSound(w, m, hours[0]);
      SpilledAllSound(v, m, hours[1..]);
      assert Spilled(w, hours) == Spilled(v, hours[1..]);
      assert SameContent(w, v);
    }
  }

  lemma ForgottenSound(w: Writer, m: Mode)
    requires Sound(w, m)
    requires forall h :: h in w.held ==> w.held[h] == []
    ensures Sound(w.(held := map[], heldSeen := map[]), m)
    ensures SameContent(w, w.(held := map[], heldSeen := map[]))
  {
    hide FilesOk, Kept, DiskOk, Live, Flat, Keys, Distinct;
    var v := w.(held := map[], heldSeen := map[]);
    assert OpenHourOk(v, m);
    forall h: int ensures Content(v, h) == Content(w, h) {
      assert Ram(v, h) == Ram(w, h);
    }
  }

  function AllSpilled(w: Writer): (v: Writer)
    requires Shaped(w)
    ensures Shaped(v)
  {
    Spilled(Flushed(w), Ascending(w.held.Keys))
  }

  lemma AllSpilledSound(w: Writer, m: Mode)
    requires Sound(w, m)
    ensures Shaped(w) && Sound(AllSpilled(w), m)
    ensures Continues(w.disk, AllSpilled(w).disk)
    ensures SameContent(w, AllSpilled(w))
    ensures AllSpilled(w).current == w.current && AllSpilled(w).buffer == []
    ensures forall h :: h in AllSpilled(w).held ==> AllSpilled(w).held[h] == []
  {
    assert Shaped(w);
    hide Sound, Content, DiskOk, Flushed, Spilled, Unpublished;
    var flushed := Flushed(w);
    FlushedSound(w, m);
    var hours := Ascending(w.held.Keys);
    SpilledAllSound(flushed, m, hours);
    SpilledEmpties(flushed, hours);
    var spilled := AllSpilled(w);
    forall h | h in spilled.held ensures spilled.held[h] == [] {
      assert h in hours;
      var i :| 0 <= i < |hours| && hours[i] == h;
    }
    assert SameContent(w, flushed);
  }

  /** A stop puts every row it holds on disk, under its own hour and in order, and publishes nothing. */
  lemma ClosedConserves(w: Writer, m: Mode)
    requires Sound(w, m)
    ensures Sound(Closed(w), m)
    ensures Continues(w.disk, Closed(w).disk)
    ensures forall h: int :: Kept(Closed(w).disk.Of(h)) == Content(w, h)
    ensures Closed(w).current == w.current && Closed(w).held == map[]
  {
    assert Shaped(w);
    AllSpilledSound(w, m);
    ForgottenSound(AllSpilled(w), m);
    hide Sound, DiskOk, Kept, AllSpilled;
    assert Closed(w) == AllSpilled(w).(held := map[], heldSeen := map[]) by { ClosedIs(w); }
    forall h: int ensures Kept(Closed(w).disk.Of(h)) == Content(w, h) {
      assert Content(Closed(w), h) == Content(AllSpilled(w), h) == Content(w, h);
    }
  }

  lemma ClosedIs(w: Writer)
    requires Shaped(w)
    ensures Closed(w) == AllSpilled(w).(held := map[], heldSeen := map[])
  {
    hide Spilled, Flushed;
  }

  // ---- a start

  lemma FloorOfRead(t: Tree, now: int)
    ensures var f := FloorOf(t, now);
      && (f.Some? ==> exists h :: h in t && (t[h].final.Some? || t[h].merging.Some?) && h <= now + MAX_TS_AHEAD && f.value == h + HOUR)
      && (forall h :: h in t && (t[h].final.Some? || t[h].merging.Some?) && h <= now + MAX_TS_AHEAD ==> f.Some? && h < f.value)
  {
    var hours := set h | h in t && (t[h].final.Some? || t[h].merging.Some?) && h <= now + MAX_TS_AHEAD;
    var closed := Ascending(hours);
    if closed != [] { assert closed[|closed| - 1] in closed; }
    forall h | h in t && (t[h].final.Some? || t[h].merging.Some?) && h <= now + MAX_TS_AHEAD
      ensures closed != [] && h <= closed[|closed| - 1]
    {
      assert h in closed;
      var i :| 0 <= i < |closed| && closed[i] == h;
    }
  }

  /** A published hour is behind the floor a start reads off the disk exactly when it is not dated past the
      clock's window: a clock lagging the disk is the one way an hour already published can be opened again. */
  lemma FloorCoversExactly(t: Tree, now: int, hour: int)
    requires At(t, hour).final.Some?
    requires forall h :: h in t ==> h % HOUR == 0
    ensures hour <= now + MAX_TS_AHEAD <==> FloorOf(t, now).Some? && hour < FloorOf(t, now).value
  {
    FloorOfRead(t, now);
    var f := FloorOf(t, now);
    if f.Some? {
      var h :| h in t && h <= now + MAX_TS_AHEAD && f.value == h + HOUR;
      assert hour % HOUR == 0;
      if h < hour { HoursApart(h, hour); }
    }
  }

  /** No segment on disk is dated past the clock a process starts with. */
  ghost predicate ClockNotBehind(t: Tree, now: int) {
    forall h :: h in t && (t[h].final.Some? || t[h].merging.Some?) ==> h <= now + MAX_TS_AHEAD
  }

  /** Every hour as a start finds it: its interrupted merge published, nothing open and nothing in memory. */
  lemma ConstructedHours(t: Tree, config: Config, now: int, m: Mode)
    requires TreeOk(t, m)
    ensures var w := Constructed(t, config, now);
      && DiskOk(w.disk, m) && Continues(Disk([t]), w.disk)
      && (forall h: int :: w.disk.Of(h).merging.None?)
      && (forall h: int :: w.disk.Of(h).final.Some? <==> At(t, h).final.Some? || At(t, h).merging.Some?)
      && (forall h: int :: Content(w, h) == Kept(At(t, h)))
  {
    var w := Constructed(t, config, now);
    RecoverMoves(t, m);
    hide TreeOk, FilesOk, DiskOk, Recover, FloorOf, Flat, Kept;
    forall h: int
      ensures Content(w, h) == Kept(At(t, h)) && w.disk.Of(h).merging.None?
      ensures w.disk.Of(h).final.Some? <==> At(t, h).final.Some? || At(t, h).merging.Some?
    {
      assert w.disk.Of(h) == PublishedFrom(At(t, h));
      PublishedKept(h, At(t, h), m, t);
    }
  }

  lemma ConstructedFinals(t: Tree, config: Config, now: int, m: Mode)
    requires TreeOk(t, m) && ClockNotBehind(t, now)
    ensures FinalsBehind(Constructed(t, config, now))
  {
    var w := Constructed(t, config, now);
    ConstructedHours(t, config, now, m);
    hide TreeOk, FilesOk, DiskOk, Recover, FloorOf;
    FloorOfRead(w.disk.Now(), now);
    forall h: int | w.disk.Of(h).final.Some? ensures w.floor.Some? && h < w.floor.value {
      assert h in w.disk.Now() && h in t;
    }
  }

  /** A start loses nothing: interrupted merges are published, every other file is where it was. */
  lemma ConstructedSound(t: Tree, config: Config, now: int, m: Mode)
    requires TreeOk(t, m) && m.dedup == config.dedup
    requires m.ends.Some? ==> config.hasOracle
    requires m.clean ==> ClockNotBehind(t, now)
    ensures Running(Constructed(t, config, now), FRESH, m)
    ensures Continues(Disk([t]), Constructed(t, config, now).disk)
    ensures forall h: int :: Content(Constructed(t, config, now), h) == Kept(At(t, h))
  {
    hide TreeOk, DiskOk, Recover, FloorOf, Kept, Unpublished, FinalsBehind, ClockNotBehind, Content, Continues, Keys, Distinct;
    ConstructedHours(t, config, now, m);
    if m.clean { ConstructedFinals(t, config, now, m); }
  }

  lemma PublishedKept(h: int, f: Files, m: Mode, t: Tree)
    requires f == At(t, h) && TreeOk(t, m)
    ensures Kept(PublishedFrom(f)) == Kept(f)
  {
    hide Flat, InHour, Distinct, Keys, EndsWith;
    FlatOfNone();
    if h in t {
      assert FilesOk(h, t[h], m);
    }
    assert f.merging.Some? ==> f.final.None?;
  }
}
