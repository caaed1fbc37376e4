/** Every operation of the writer keeps the invariant and conserves each hour's rows. */
module WriterSoundness {
  import opened Prelude
  import opened Clock
  import opened SegmentFiles
  import opened MergeProtocol
  import opened WriterModel

  /** `w` to `v`: only the disk, the buffer, the open hour, its keys and the guard differ. */
  predicate SameHolds(w: Writer, v: Writer) {
    v.config == w.config && v.held == w.held && v.heldSeen == w.heldSeen && v.floor == w.floor
  }

  ghost predicate SameContent(w: Writer, v: Writer)
    requires w.disk.images != [] && v.disk.images != []
  {
    forall h: int :: Content(v, h) == Content(w, h)
  }

  /** No final at or past `hour` appears, changes or goes. */
  ghost predicate FinalsKept(w: Writer, v: Writer, hour: int)
    requires w.disk.images != [] && v.disk.images != []
  {
    forall h: int :: h >= hour ==> v.disk.Of(h).final == w.disk.Of(h).final
  }

  // ---- what soundness says

  lemma HeldStaysAhead(w: Writer, m: Mode, h: int)
    requires Sound(w, m) && h in w.held
    ensures Ahead(w, h)
  {
    assert HeldHourOk(w, m, h);
  }

  /** What soundness says of one hour. */
  lemma SoundHour(w: Writer, m: Mode, h: int)
    requires Sound(w, m)
    ensures Shaped(w) && HeldHourOk(w, m, h) && w.disk.Of(h).merging.None?
  {
    hide FilesOk, DiskOk, HeldHourOk, OpenHourOk;
  }

  /** What soundness says of the open hour and of the finals. */
  lemma SoundOpen(w: Writer, m: Mode)
    requires Sound(w, m)
    ensures Shaped(w) && OpenHourOk(w, m) && DiskOk(w.disk, m) && m.dedup == w.config.dedup
    ensures m.clean ==> FinalsBehind(w)
    ensures m.ends.Some? ==> w.config.hasOracle
  {
    hide FilesOk, DiskOk, HeldHourOk, OpenHourOk;
  }

  lemma ContinuesThrough(c: Disk, d: Disk, e: Disk)
    requires Continues(c, d) && Continues(d, e)
    ensures Continues(c, e)
  {
  }

  // ---- flushing

  lemma FlushedFiles(f: Files, g: Files, rows: seq<Row>)
    requires f.merging.None? && f.held == map[]
    requires g == f.(parts := g.parts) && Flat(g.parts) == Flat(f.parts) + rows
    ensures Kept(g) + [] == Kept(f) + rows
    ensures Live(g) + Flat(g.held) + [] == Live(f) + Flat(f.held) + rows
  {
    hide Flat;
    FlatOfNone();
    var fin, parts := Rows(f.final), Flat(f.parts);
    Associate(fin, parts, rows);
    assert Kept(g) == fin + (parts + rows) + [];
    assert Kept(f) == fin + parts + [];
  }

  /** `hour` is held alike in both. */
  predicate HeldAlike(w: Writer, v: Writer, hour: int) {
    && (hour in v.held <==> hour in w.held) && (hour in w.held ==> v.held[hour] == w.held[hour])
    && (hour in v.heldSeen <==> hour in w.heldSeen) && (hour in w.heldSeen ==> v.heldSeen[hour] == w.heldSeen[hour])
  }

  lemma HeldHourCarried(w: Writer, v: Writer, m: Mode, h: int)
    requires w.disk.images != [] && v.disk.images != []
    requires HeldAlike(w, v, h) && v.current == w.current && v.floor == w.floor
    requires HeldHourOk(w, m, h) && Unpublished(v, h) == Unpublished(w, h)
    ensures HeldHourOk(v, m, h)
  {
  }

  /** The open hour's buffer written as its next part. */
  lemma FlushedMoves(w: Writer, m: Mode)
    requires Sound(w, m) && w.buffer != []
    ensures Moves(w.disk, Flushed(w).disk, w.current.value, m)
    ensures var f, g := w.disk.Of(w.current.value), Flushed(w).disk.Of(w.current.value);
      && f.merging.None? && f.held == map[]
      && g == f.(parts := g.parts) && Flat(g.parts) == Flat(f.parts) + w.buffer
  {
    var hour := w.current.value;
    var f := w.disk.Of(hour);
    FlatOfNone();
    assert f.merging.None?;
    assert m.clean ==> f.final.None?;
    assert Unpublished(w, hour) == Live(f) + w.buffer;
    PartStep(w.disk, hour, w.buffer, m);
  }

  lemma FlushedSound(w: Writer, m: Mode)
    requires Sound(w, m)
    ensures Sound(Flushed(w), m)
    ensures Continues(w.disk, Flushed(w).disk)
    ensures SameHolds(w, Flushed(w)) && Flushed(w).current == w.current && Flushed(w).guard == w.guard
    ensures SameContent(w, Flushed(w))
    ensures forall h: int :: Unpublished(Flushed(w), h) == Unpublished(w, h)
    ensures forall h: int :: w.current != Some(h) ==> Flushed(w).disk.Of(h) == w.disk.Of(h)
    ensures forall h: int :: Flushed(w).disk.Of(h).final == w.disk.Of(h).final
  {
    if w.buffer != [] {
      var hour := w.current.value;
      var v := Flushed(w);
      var f, g := w.disk.Of(hour), v.disk.Of(hour);
      FlushedMoves(w, m);
      FlushedFiles(f, g, w.buffer);
      forall h: int
        ensures Content(v, h) == Content(w, h) && Unpublished(v, h) == Unpublished(w, h)
        ensures HeldHourOk(v, m, h) && v.disk.Of(h).merging.None? && v.disk.Of(h).final == w.disk.Of(h).final
      {
        assert HeldHourOk(w, m, h) && w.disk.Of(h).merging.None?;
        if h != hour { assert v.disk.Of(h) == w.disk.Of(h); }
        HeldHourCarried(w, v, m, h);
      }
      assert OpenHourOk(v, m);
    }
  }

  // ---- opening an hour

  ghost predicate Waiting(w: Writer, m: Mode, hour: int, h: int)
    requires w.disk.images != []
  {
    var f := w.disk.Of(h);
    && (h in w.held ==> hour < h && h % HOUR == 0 && InHour(w.held[h], h) && (m.dedup ==> h in w.heldSeen))
    && (m.dedup && h in w.heldSeen && hour < h ==>
         && w.heldSeen[h] == Keys(Live(f) + Flat(f.held) + RamHeld(w, h))
         && Distinct(Live(f) + Flat(f.held) + RamHeld(w, h)))
  }

  /** Nothing is open, and `hour` may be. */
  ghost predicate Openable(w: Writer, m: Mode, hour: int) {
    && w.disk.images != [] && w.buffer == []
    && m.dedup == w.config.dedup
    && (m.ends.Some? ==> w.config.hasOracle && hour <= m.ends.value)
    && DiskOk(w.disk, m)
    && hour % HOUR == 0
    && (forall h: int :: w.disk.Of(h).merging.None?)
    && (forall h: int :: Waiting(w, m, hour, h))
    && (m.clean ==> forall h: int :: w.disk.Of(h).final.Some? ==> h < hour)
  }

  lemma RedeemedKept(f: Files, g: Files)
    requires f.merging.None?
    requires g == f.(parts := g.parts, held := map[]) && Flat(g.parts) == Flat(f.parts) + Flat(f.held)
    ensures Kept(g) == Kept(f)
    ensures Live(g) + Flat(g.held) + [] == Live(f) + Flat(f.held) == Flat(g.parts)
  {
    FlatOfNone();
    Associate(Rows(f.final), Flat(f.parts), Flat(f.held));
  }

  lemma JustOpened(v: Writer, m: Mode, hour: int)
    requires v.disk.images != [] && v.current == Some(hour) && v.buffer == []
    requires hour % HOUR == 0 && (m.ends.Some? ==> hour <= m.ends.value)
    requires v.disk.Of(hour).held == map[] && v.disk.Of(hour).merging.None?
    requires m.dedup ==> v.seen == Keys(Flat(v.disk.Of(hour).parts))
    requires FilesOk(hour, v.disk.Of(hour), m)
    ensures OpenHourOk(v, m)
  {
    FlatOfNone();
    assert Unpublished(v, hour) == Flat(v.disk.Of(hour).parts);
    assert Live(v.disk.Of(hour)) + Flat(v.disk.Of(hour).held) == Flat(v.disk.Of(hour).parts);
  }

  lemma OpenedSound(w: Writer, m: Mode, hour: int)
    requires Openable(w, m, hour)
    ensures Shaped(w)
    ensures Sound(Opened(w, hour), m)
    ensures Continues(w.disk, Opened(w, hour).disk)
    ensures SameHolds(w, Opened(w, hour)) && Opened(w, hour).current == Some(hour) && Opened(w, hour).guard == w.guard
    ensures forall h: int :: Content(Opened(w, hour), h) == Kept(w.disk.Of(h)) + RamHeld(w, h)
    ensures Unpublished(Opened(w, hour), hour) == Live(w.disk.Of(hour)) + Flat(w.disk.Of(hour).held)
    ensures FinalsKept(w, Opened(w, hour), hour)
  {
    hide Redeem, Kept, FilesOk, DiskOk, Distinct, InHour, Keys, Flat, Recover;
    var v := Opened(w, hour);
    assert Waiting(w, m, hour, hour);
    assert w.disk.Of(hour).merging.None?;
    assert m.clean ==> w.disk.Of(hour).final.None?;
    RedeemMoves(w.disk, hour, m);
    RedeemedKept(w.disk.Of(hour), v.disk.Of(hour));
    NowOk(v.disk, hour, m);
    JustOpened(v, m, hour);
    forall h: int
      ensures HeldHourOk(v, m, h) && v.disk.Of(h).merging.None?
      ensures Content(v, h) == Kept(w.disk.Of(h)) + RamHeld(w, h)
    {
      assert Waiting(w, m, hour, h);
      assert w.disk.Of(h).merging.None?;
      if h != hour { assert v.disk.Of(h) == w.disk.Of(h); }
    }
    if m.clean {
      forall h: int | v.disk.Of(h).final.Some? ensures h < hour {
        if h != hour { assert v.disk.Of(h) == w.disk.Of(h); }
        assert w.disk.Of(h).final.Some?;
      }
    }
  }

  lemma SweptKept(f: Files, g: Files)
    requires f.merging.None? && SweptTo(f, g)
    ensures g.merging.None?
    ensures Kept(g) == Kept(f)
  {
    FlatOfNone();
    if !(f.parts == map[] || f.final.Some?) {
      assert Durable(f) == Flat(f.parts) == Durable(g);
    }
  }

  lemma SweptMoves(w: Writer, m: Mode, hour: int)
    requires Sound(w, m) && hour % HOUR == 0
    requires m.ends.Some? ==> hour <= m.ends.value
    ensures Shaped(w) && DiskOk(Swept(w, hour).disk, m) && Continues(w.disk, Swept(w, hour).disk)
    ensures forall h: int :: SweptTo(w.disk.Of(h), Swept(w, hour).disk.Of(h)) || Swept(w, hour).disk.Of(h) == w.disk.Of(h)
    ensures forall h: int :: h >= hour ==> Swept(w, hour).disk.Of(h) == w.disk.Of(h)
  {
    hide FilesOk, HeldHourOk, OpenHourOk, MergeAll, TreeGrows;
    var hours := Unswept(w.disk.Now(), hour);
    assert TreeOk(w.disk.Now(), m);
    forall i | 0 <= i < |hours| ensures Over(hours[i], m) {
      assert hours[i] in hours;
      HoursApart(hours[i], hour);
    }
    MergeAllMoves(w.disk, hours, m);
  }

  lemma SweptHour(w: Writer, m: Mode, hour: int, h: int)
    requires Sound(w, m) && w.current.None?
    requires hour % HOUR == 0
    requires FloorHour(w).Some? ==> hour >= FloorHour(w).value
    requires m.ends.Some? ==> hour <= m.ends.value
    requires h in w.held ==> hour < h
    ensures Shaped(w)
    ensures Swept(w, hour).disk.Of(h).merging.None? && Waiting(Swept(w, hour), m, hour, h)
    ensures Kept(Swept(w, hour).disk.Of(h)) == Kept(w.disk.Of(h))
    ensures m.clean && Swept(w, hour).disk.Of(h).final.Some? ==> h < hour
  {
    hide Sound, DiskOk, MergeAll, Unswept, Kept, Continues, Keys, Distinct, InHour, Flat;
    SoundHour(w, m, h);
    SoundOpen(w, m);
    SweptMoves(w, m, hour);
    var f, g := w.disk.Of(h), Swept(w, hour).disk.Of(h);
    if g != f { SweptKept(f, g); }
  }

  lemma SweepOpenable(w: Writer, m: Mode, hour: int)
    requires Sound(w, m) && w.current.None?
    requires hour % HOUR == 0
    requires FloorHour(w).Some? ==> hour >= FloorHour(w).value
    requires m.ends.Some? ==> hour <= m.ends.value
    requires forall h :: h in w.held ==> hour < h
    ensures Openable(Swept(w, hour), m, hour)
    ensures Continues(w.disk, Swept(w, hour).disk)
    ensures forall h: int :: Kept(Swept(w, hour).disk.Of(h)) == Kept(w.disk.Of(h))
    ensures Swept(w, hour).disk.Of(hour) == w.disk.Of(hour)
    ensures FinalsKept(w, Swept(w, hour), hour)
  {
    hide Sound, DiskOk, MergeAll, Unswept, Kept, Waiting, OpenHourOk, Continues, FinalsBehind, SweptTo;
    SoundOpen(w, m);
    SweptMoves(w, m, hour);
    var v := Swept(w, hour);
    forall h: int
      ensures v.disk.Of(h).merging.None? && Waiting(v, m, hour, h)
      ensures Kept(v.disk.Of(h)) == Kept(w.disk.Of(h))
      ensures m.clean && v.disk.Of(h).final.Some? ==> h < hour
    {
      SweptHour(w, m, hour, h);
    }
  }

  lemma HoursApart(a: int, b: int)
    requires a % HOUR == 0 && b % HOUR == 0 && a < b
    ensures a + HOUR <= b
  {
  }

  lemma MergedHour(w: Writer, m: Mode, hour: int, h: int)
    requires Sound(w, m) && w.buffer == [] && w.current.Some? && hour > w.current.value
    requires hour % HOUR == 0
    requires m.ends.Some? ==> hour <= m.ends.value
    requires h in w.held ==> hour < h
    ensures Shaped(w)
    ensures var v := w.(disk := MergeHour(w.disk, w.current.value));
      && v.disk.Of(h).merging.None? && Waiting(v, m, hour, h)
      && Kept(v.disk.Of(h)) == Kept(w.disk.Of(h))
      && (m.clean && v.disk.Of(h).final.Some? ==> h < hour)
  {
    hide Sound, DiskOk, MergeHour, Kept, Continues, Keys, Distinct, InHour, Flat;
    SoundHour(w, m, h);
    SoundOpen(w, m);
    var open := w.current.value;
    var v := w.(disk := MergeHour(w.disk, open));
    HoursApart(open, hour);
    MergeHourMoves(w.disk, open, m);
    if h == open {
      SweptKept(w.disk.Of(h), v.disk.Of(h));
    } else {
      assert v.disk.Of(h) == w.disk.Of(h);
    }
  }

  /** What the merge of the hour left behind makes of a flushed writer. */
  lemma MergedOpenable(w: Writer, m: Mode, hour: int)
    requires Sound(w, m) && w.buffer == [] && w.current.Some? && hour > w.current.value
    requires hour % HOUR == 0
    requires m.ends.Some? ==> hour <= m.ends.value
    requires forall h :: h in w.held ==> hour < h
    ensures Openable(w.(disk := MergeHour(w.disk, w.current.value)), m, hour)
    ensures Continues(w.disk, MergeHour(w.disk, w.current.value))
    ensures forall h: int :: Kept(MergeHour(w.disk, w.current.value).Of(h)) == Kept(w.disk.Of(h))
    ensures MergeHour(w.disk, w.current.value).Of(hour) == w.disk.Of(hour)
    ensures FinalsKept(w, w.(disk := MergeHour(w.disk, w.current.value)), hour)
  {
    hide Sound, DiskOk, MergeHour, Kept, Waiting, Continues, Keys, Distinct, InHour, Flat, Live, FinalsBehind;
    SoundOpen(w, m);
    var open := w.current.value;
    var v := w.(disk := MergeHour(w.disk, open));
    HoursApart(open, hour);
    MergeHourMoves(w.disk, open, m);
    forall h: int
      ensures v.disk.Of(h).merging.None? && Waiting(v, m, hour, h)
      ensures Kept(v.disk.Of(h)) == Kept(w.disk.Of(h))
      ensures m.clean && v.disk.Of(h).final.Some? ==> h < hour
    {
      MergedHour(w, m, hour, h);
    }
  }

  lemma FinalizeOpenable(w: Writer, m: Mode, hour: int)
    requires Sound(w, m) && w.current.Some? && hour > w.current.value
    requires hour % HOUR == 0
    requires m.ends.Some? ==> hour <= m.ends.value
    requires forall h :: h in w.held ==> hour < h
    ensures Openable(Finalized(w, w.current.value), m, hour)
    ensures Continues(w.disk, Finalized(w, w.current.value).disk)
    ensures SameHolds(w, Finalized(w, w.current.value)) && Finalized(w, w.current.value).guard == w.guard
    ensures forall h: int :: Kept(Finalized(w, w.current.value).disk.Of(h)) + RamHeld(w, h) == Content(w, h)
    ensures Finalized(w, w.current.value).disk.Of(hour) == w.disk.Of(hour)
    ensures FinalsKept(w, Finalized(w, w.current.value), hour)
  {
    hide MergeHour, Kept, FilesOk, Live, DiskOk;
    var open := w.current.value;
    var flushed := Flushed(w);
    FlushedSound(w, m);
    MergedOpenable(flushed, m, hour);
    assert HeldHourOk(w, m, open);
    forall h: int ensures Kept(Finalized(w, open).disk.Of(h)) + RamHeld(w, h) == Content(w, h) {
      assert Kept(flushed.disk.Of(h)) + Ram(flushed, h) == Content(w, h);
      assert Ram(flushed, h) == RamHeld(w, h);
    }
  }

  lemma EnteredFirst(w: Writer, m: Mode, hour: int)
    requires Sound(w, m) && w.current.None?
    requires hour % HOUR == 0
    requires FloorHour(w).Some? ==> hour >= FloorHour(w).value
    requires m.ends.Some? ==> hour <= m.ends.value
    requires forall h :: h in w.held ==> hour < h
    ensures Sound(Entered(w, hour), m)
    ensures Continues(w.disk, Entered(w, hour).disk)
    ensures SameHolds(w, Entered(w, hour)) && Entered(w, hour).current == Some(hour) && Entered(w, hour).guard == w.guard
    ensures SameContent(w, Entered(w, hour))
    ensures Unpublished(Entered(w, hour), hour) == Unpublished(w, hour)
    ensures FinalsKept(w, Entered(w, hour), hour)
  {
    hide MergeAll, Redeem, Kept, FilesOk, Live, DiskOk;
    var swept := Swept(w, hour);
    var v := Entered(w, hour);
    SweepOpenable(w, m, hour);
    OpenedSound(swept, m, hour);
    assert Ram(w, hour) == [];
    forall h: int ensures Content(v, h) == Content(w, h) {
      assert Kept(swept.disk.Of(h)) == Kept(w.disk.Of(h));
      assert Content(v, h) == Kept(swept.disk.Of(h)) + RamHeld(swept, h);
    }
  }

  lemma EnteredNext(w: Writer, m: Mode, hour: int)
    requires Sound(w, m) && w.current.Some? && hour > w.current.value
    requires hour % HOUR == 0
    requires m.ends.Some? ==> hour <= m.ends.value
    requires forall h :: h in w.held ==> hour < h
    ensures Sound(Entered(w, hour), m)
    ensures Continues(w.disk, Entered(w, hour).disk)
    ensures SameHolds(w, Entered(w, hour)) && Entered(w, hour).current == Some(hour) && Entered(w, hour).guard == w.guard
    ensures SameContent(w, Entered(w, hour))
    ensures Unpublished(Entered(w, hour), hour) == Unpublished(w, hour)
    ensures FinalsKept(w, Entered(w, hour), hour)
  {
    hide MergeHour, Redeem, Kept, FilesOk, Live, DiskOk;
    var done := Finalized(w, w.current.value);
    var v := Entered(w, hour);
    FinalizeOpenable(w, m, hour);
    OpenedSound(done, m, hour);
    assert Ram(w, hour) == [];
    forall h: int ensures Content(v, h) == Content(w, h) {
      assert Content(v, h) == Kept(done.disk.Of(h)) + RamHeld(done, h);
      assert RamHeld(done, h) == RamHeld(w, h);
    }
  }

  /** Entering an hour, first of a process or next of the stream: rows move between files, never in or out. */
  lemma EnteredSound(w: Writer, m: Mode, hour: int)
    requires Sound(w, m)
    requires hour % HOUR == 0
    requires FloorHour(w).Some? ==> hour >= FloorHour(w).value
    requires m.ends.Some? ==> hour <= m.ends.value
    requires forall h :: h in w.held ==> hour < h
    ensures Sound(Entered(w, hour), m)
    ensures Continues(w.disk, Entered(w, hour).disk)
    ensures SameHolds(w, Entered(w, hour)) && Entered(w, hour).current == Some(hour) && Entered(w, hour).guard == w.guard
    ensures SameContent(w, Entered(w, hour))
    ensures Unpublished(Entered(w, hour), hour) == Unpublished(w, hour)
    ensures FinalsKept(w, Entered(w, hour), hour)
  {
    if w.current.None? {
      EnteredFirst(w, m, hour);
    } else if hour > w.current.value {
      EnteredNext(w, m, hour);
    }
  }
}
