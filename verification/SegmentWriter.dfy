/** `SegmentWriter` of `cli/capture/segment_writer.py`: the fields it updates and the files it changes, each method
    proved to make of them what `WriterModel` says. */
module SegmentWriters {
  import opened Prelude
  import opened Clock
  import opened Sorting
  import opened HourOracles
  import opened PlausibilityGuard
  import opened SegmentFiles
  import opened MergeProtocol
  import opened WriterModel

  lemma {:induction false} MergeAllSnoc(d: Disk, hours: seq<int>, n: nat)
    requires d.images != [] && n < |hours|
    ensures MergeAll(d, hours[..n + 1]) == MergeHour(MergeAll(d, hours[..n]), hours[n])
  {
    assert hours[..n + 1][..n] == hours[..n];
  }

  lemma {:induction false} CommitAllSnoc(d: Disk, hours: seq<int>, n: nat)
    requires d.images != [] && n < |hours|
    ensures CommitAll(d, hours[..n + 1]) ==
      var before := CommitAll(d, hours[..n]);
      if before.Of(hours[n]).final.Some? then before else Commit(before, hours[n])
  {
    assert hours[..n + 1][..n] == hours[..n];
  }

  lemma AdmittedAllSnoc(w: Writer, rows: seq<Row>, n: nat, now: int -> int)
    requires Shaped(w) && w.current.Some? && n < |rows|
    ensures AdmittedAll(w, rows[..n + 1], now) == Admitted(AdmittedAll(w, rows[..n], now), rows[n], now(n))
  {
    assert rows[..n + 1][..n] == rows[..n];
  }

  /** The first spill of a list that is the listing of `held`. */
  lemma FirstOf(files: map<int, seq<Row>>)
    requires Listing(files) != []
    ensures Listing(files)[0] in files
    ensures Listing(files - {Listing(files)[0]}) == Listing(files)[1..]
  {
    ListingEmpty(files);
    ListingDropsFirst(files);
  }

  class SegmentWriter {
    const config: Config
    const oracle: HourOracle?
    var disk: Disk
    var held: map<int, seq<Row>>
    var heldSeen: map<int, set<int>>
    var buffer: seq<Row>
    var currentHour: Option<int>
    var maxTs: Option<int>
    var maxAt: int
    var seen: set<int>
    var floor: Option<int>
    var drops: nat
    var lastDropTs: Option<int>

    ghost function State(): Writer
      reads this
    {
      Writer(config, disk, currentHour, floor, buffer, seen, held, heldSeen, Guard(maxTs, maxAt, drops, lastDropTs))
    }

    ghost function OracleState(): OracleState
      reads this, oracle
    {
      if oracle == null then FRESH else oracle.State()
    }

    ghost predicate Valid()
      reads this
    {
      Shaped(State()) && (config.hasOracle <==> oracle != null)
    }

    constructor (tree: Tree, config: Config, oracle: HourOracle?, now: int)
      requires config.hasOracle <==> oracle != null
      ensures Valid() && this.config == config && this.oracle == oracle
      ensures State() == Constructed(tree, config, now)
    {
      this.config, this.oracle := config, oracle;
      held, heldSeen, buffer, seen := map[], map[], [], {};
      currentHour, maxTs, maxAt, drops, lastDropTs := None, None, now, 0, None;
      floor := None;
      disk := Disk([tree]);
      new;
      RecoverDisk(now);
    }

    /** Finishes what a previous process left mid-merge, and reads off disk which hours are closed. */
    method RecoverDisk(now: int)
      requires Shaped(State()) && |disk.images| == 1
      modifies this`disk, this`floor
      ensures disk == Recover(old(disk.images[0]))
      ensures floor == FloorOf(disk.Now(), now)
    {
      ghost var start := disk;
      assert start == Disk([disk.images[0]]);
      var hours := Interrupted(disk.Now());
      assert hours[..|hours|] == hours;
      var i := 0;
      while i < |hours|
        invariant 0 <= i <= |hours|
        invariant disk.images != [] && disk == CommitAll(start, hours[..i])
      {
        CommitAllSnoc(start, hours, i);
        if disk.Of(hours[i]).final.None? {
          CommitMerge(hours[i]);
        }
        i := i + 1;
      }
      floor := FloorOf(disk.Now(), now);
    }

    /** The manifest, the parts, the rename. */
    method CommitMerge(hour: int)
      requires disk.images != []
      modifies this`disk
      ensures disk == Commit(old(disk), hour)
    {
      disk := PutManifest(disk, hour);
      ghost var before := disk;
      var parts := Listing(disk.Of(hour).parts);
      var i := 0;
      while i < |parts|
        invariant 0 <= i <= |parts|
        invariant disk.images != []
        invariant Listing(disk.Of(hour).parts) == parts[i..]
        invariant UnlinkAll(disk, hour) == UnlinkAll(before, hour)
      {
        FirstOf(disk.Of(hour).parts);
        disk := UnlinkFirst(disk, hour);
        i := i + 1;
      }
      disk := Publish(disk, hour);
    }

    method MergeHourParts(hour: int)
      requires disk.images != []
      modifies this`disk
      ensures disk == MergeHour(old(disk), hour)
    {
      var files := disk.Of(hour);
      if Listing(files.parts) == [] || files.merging.Some? || files.final.Some? { return; }
      disk := PutMerging(disk, hour);
      CommitMerge(hour);
    }

    /** The rows in a file of their own, behind every part (or spill) the hour has on disk, none of them replaced. */
    method WritePart(rows: seq<Row>, hour: int, spill: bool)
      requires disk.images != []
      modifies this`disk
      ensures disk.images != [] && Wrote(old(disk), disk, hour, rows, spill)
      ensures disk == if spill then PutHeld(old(disk), hour, rows) else PutPart(old(disk), hour, rows)
    {
      PutWrites(disk, hour, rows, spill);
      hide Wrote;
      var files := disk.Of(hour);
      var number := NextNumber(if spill then files.held else files.parts);
      if spill {
        disk := disk.Put(hour, files.(held := files.held[number := rows]));
      } else {
        disk := disk.Put(hour, files.(parts := files.parts[number := rows]));
      }
    }

    method FlushBuffer()
      requires Valid()
      modifies this`disk, this`buffer
      ensures Valid() && State() == Flushed(old(State()))
    {
      hide Wrote;
      if buffer == [] { return; }
      WritePart(buffer, currentHour.value, false);
      buffer := [];
    }

    method FinalizeHour(hour: int)
      requires Valid()
      modifies this`disk, this`buffer
      ensures Valid() && State() == Finalized(old(State()), hour)
    {
      FlushBuffer();
      MergeHourParts(hour);
    }

    method Sweep(before: int)
      requires Valid()
      modifies this`disk
      ensures Valid() && State() == Swept(old(State()), before)
    {
      ghost var start := disk;
      var hours := Unswept(disk.Now(), before);
      assert hours[..|hours|] == hours;
      var i := 0;
      while i < |hours|
        invariant 0 <= i <= |hours|
        invariant disk.images != [] && disk == MergeAll(start, hours[..i])
      {
        MergeAllSnoc(start, hours, i);
        MergeHourParts(hours[i]);
        i := i + 1;
      }
    }

    method RedeemHeld(hour: int)
      requires disk.images != []
      modifies this`disk
      ensures disk.images != [] && disk == Redeem(old(disk), hour)
    {
      ghost var start := disk;
      var spills := Listing(disk.Of(hour).held);
      var i := 0;
      while i < |spills|
        invariant 0 <= i <= |spills|
        invariant disk.images != []
        invariant Listing(disk.Of(hour).held) == spills[i..]
        invariant Redeem(disk, hour) == Redeem(start, hour)
      {
        FirstOf(disk.Of(hour).held);
        disk := RedeemFirst(disk, hour);
        i := i + 1;
      }
    }

    method OpenHour(hour: int)
      requires Valid()
      modifies this`disk, this`currentHour, this`seen
      ensures Valid() && State() == Opened(old(State()), hour)
    {
      currentHour := Some(hour);
      RedeemHeld(hour);
      seen := {};
      if !config.dedup { return; }
      seen := Keys(Flat(disk.Of(hour).parts));
    }

    method EnterHour(hour: int)
      requires Valid()
      modifies this`disk, this`buffer, this`currentHour, this`seen
      ensures Valid() && State() == Entered(old(State()), hour)
    {
      if currentHour.None? {
        Sweep(hour);
        OpenHour(hour);
      } else if hour > currentHour.value {
        FinalizeHour(currentHour.value);
        OpenHour(hour);
      }
    }

    method Anchor(ts: int, now: int)
      modifies this`maxTs, this`maxAt
      ensures Guard(maxTs, maxAt, drops, lastDropTs) == Anchored(old(Guard(maxTs, maxAt, drops, lastDropTs)), ts, now)
    {
      if maxTs.None? || ts > maxTs.value {
        maxTs, maxAt := Some(ts), now;
      }
    }

    method Admit(row: Row, now: int)
      requires Valid() && currentHour.Some?
      modifies this`disk, this`buffer, this`seen, this`maxTs, this`maxAt
      ensures Valid() && State() == Admitted(old(State()), row, now)
    {
      if config.dedup {
        if row.key in seen { return; }
        seen := seen + {row.key};
      }
      Anchor(row.ts, now);
      buffer := buffer + [row];
      if |buffer| >= config.flushRows {
        FlushBuffer();
      }
    }

    method Hold(hour: int, row: Row, now: int)
      requires Valid()
      modifies this`disk, this`held, this`heldSeen, this`maxTs, this`maxAt
      ensures Valid() && State() == HeldBack(old(State()), hour, row, now)
    {
      hide PutHeld, DiskKeys, Anchored, Wrote;
      if config.dedup {
        var known := if hour in heldSeen then heldSeen[hour] else DiskKeys(disk.Of(hour));
        if row.key in known {
          heldSeen := heldSeen[hour := known];
          return;
        }
        heldSeen := heldSeen[hour := known + {row.key}];
      }
      Anchor(row.ts, now);
      var rows := (if hour in held then held[hour] else []) + [row];
      if |rows| >= config.flushRows {
        WritePart(rows, hour, true);
        held := held[hour := []];
      } else {
        held := held[hour := rows];
      }
    }

    /** One held hour taken out, entered, and its rows admitted one by one. */
    method DrainHour(hour: int, now: int -> int)
      requires Valid() && hour in held
      modifies this`disk, this`buffer, this`currentHour, this`seen, this`held, this`heldSeen, this`maxTs, this`maxAt
      ensures Valid() && State() == DrainedOne(old(State()), hour, now)
    {
      var rows := held[hour];
      held, heldSeen := held - {hour}, heldSeen - {hour};
      EnterHour(hour);
      ghost var entered := State();
      assert rows[..|rows|] == rows;
      var i := 0;
      while i < |rows|
        invariant 0 <= i <= |rows|
        invariant Valid() && currentHour.Some?
        invariant State() == AdmittedAll(entered, rows[..i], now)
      {
        AdmittedAllSnoc(entered, rows, i, now);
        Admit(rows[i], now(i));
        i := i + 1;
      }
    }

    /** Every held hour an event of `hour` may drain, oldest first. */
    method Drain(hour: int, confirmed: Option<int>, now: int -> int -> int)
      requires Valid()
      modifies this`disk, this`buffer, this`currentHour, this`seen, this`held, this`heldSeen, this`maxTs, this`maxAt
      ensures Valid() && State() == Drained(old(State()), Drainable(old(State()), hour, confirmed), now)
    {
      hide DrainedOne, Drained;
      ghost var start := State();
      var hours := Ascending(set h | h in held && h <= hour && confirmed.Some? && h <= confirmed.value);
      assert hours == Drainable(start, hour, confirmed);
      assert forall k :: 0 <= k < |hours| ==> hours[k] in hours;
      assert hours[0..] == hours;
      var i := 0;
      while i < |hours|
        invariant 0 <= i <= |hours|
        invariant Valid()
        invariant forall k :: i <= k < |hours| ==> hours[k] in held
        invariant Drained(State(), hours[i..], now) == Drained(start, hours, now)
      {
        DrainedOneHeld(State(), hours[i], now(hours[i]));
        DrainedStep(State(), hours, i, now);
        DrainHour(hours[i], now(hours[i]));
        i := i + 1;
      }
      assert hours[i..] == [];
      DrainedNone(State(), now);
    }

    /** One event: dropped, held, or stored under the hour its stamp names. */
    method Append(row: Row, now: Readings)
      requires Valid()
      modifies this, oracle
      ensures Valid()
      ensures (State(), OracleState()) == Appended(old(State()), old(OracleState()), row, now)
    {
      hide Entered, Admitted, HeldBack, Drained, Drainable, Asked, Observed, HourStart;
      if Implausible(Guard(maxTs, maxAt, drops, lastDropTs), row.ts, now.guarded) {
        if lastDropTs != Some(row.ts) {
          lastDropTs, drops := Some(row.ts), drops + 1;
        }
        return;
      }
      drops, lastDropTs := 0, None;
      var hour := HourStart(row.ts);
      var least := if currentHour.Some? then currentHour else floor;
      if least.Some? && hour < least.value { return; }
      if oracle != null {
        oracle.Observe(config.stream, row.ts, now.observed);
        var confirmed := oracle.ConfirmedHour(now.asked);
        Drain(hour, confirmed, now.drained);
        if confirmed.None? || hour > confirmed.value {
          Hold(hour, row, now.anchored);
          return;
        }
      }
      EnterHour(hour);
      Admit(row, now.anchored);
    }

    /** Flushes the buffer and spills what is held; the open hour is not published. */
    method Close()
      requires Valid()
      modifies this`disk, this`buffer, this`held, this`heldSeen
      ensures Valid() && State() == Closed(old(State()))
    {
      hide PutHeld, PutPart, SpillDisk, Flushed, Spilled, Closed, Ascending, Wrote;
      FlushBuffer();
      var hours := Ascending(held.Keys);
      ClosedDisk(old(State()), hours);
      ghost var flushed := State();
      assert hours[0..] == hours;
      var i := 0;
      while i < |hours|
        invariant 0 <= i <= |hours|
        invariant disk.images != [] && State() == flushed.(disk := disk)
        invariant SpillDisk(disk, held, hours[i..]) == SpillDisk(flushed.disk, held, hours)
      {
        SpillStep(disk, held, hours, i);
        if hours[i] in held && held[hours[i]] != [] {
          WritePart(held[hours[i]], hours[i], true);
        }
        i := i + 1;
      }
      SpillNone(disk, held, hours[i..]);
      held, heldSeen := map[], map[];
    }
  }

  /** The spills of a stop, written one after the other. */
  function SpillDisk(d: Disk, held: map<int, seq<Row>>, hours: seq<int>): (e: Disk)
    requires d.images != []
    ensures e.images != []
    decreases |hours|
  {
    if hours == [] then d
    else SpillDisk(if hours[0] in held && held[hours[0]] != [] then PutHeld(d, hours[0], held[hours[0]]) else d, held, hours[1..])
  }

  lemma SpillStep(d: Disk, held: map<int, seq<Row>>, hours: seq<int>, i: nat)
    requires d.images != [] && i < |hours|
    ensures SpillDisk(d, held, hours[i..]) ==
      SpillDisk(if hours[i] in held && held[hours[i]] != [] then PutHeld(d, hours[i], held[hours[i]]) else d, held, hours[i + 1..])
  {
    hide PutHeld;
    assert hours[i..][1..] == hours[i + 1..];
  }

  lemma SpillNone(d: Disk, held: map<int, seq<Row>>, hours: seq<int>)
    requires d.images != [] && hours == []
    ensures SpillDisk(d, held, hours) == d
  {
  }

  lemma {:induction false} SpillSame(d: Disk, held: map<int, seq<Row>>, other: map<int, seq<Row>>, hours: seq<int>)
    requires d.images != []
    requires forall i :: 0 <= i < |hours| ==> hours[i] in held && hours[i] in other && held[hours[i]] == other[hours[i]]
    ensures SpillDisk(d, held, hours) == SpillDisk(d, other, hours)
    decreases |hours|
  {
    hide PutHeld;
    if hours != [] {
      SpillSame(if held[hours[0]] != [] then PutHeld(d, hours[0], held[hours[0]]) else d, held, other, hours[1..]);
    }
  }

  lemma {:induction false} SpilledDisk(w: Writer, hours: seq<int>)
    requires Shaped(w) && Increasing(hours)
    requires forall i :: 0 <= i < |hours| ==> hours[i] in w.held
    ensures Spilled(w, hours) == w.(disk := SpillDisk(w.disk, w.held, hours), held := Spilled(w, hours).held)
    decreases |hours|
  {
    hide PutHeld;
    if hours != [] {
      var hour, rest := hours[0], hours[1..];
      var v := if w.held[hour] == [] then w else w.(disk := PutHeld(w.disk, hour, w.held[hour]), held := w.held[hour := []]);
      forall i | 0 <= i < |rest| ensures rest[i] in v.held && v.held[rest[i]] == w.held[rest[i]] {
        assert rest[i] == hours[i + 1];
      }
      SpilledDisk(v, rest);
      SpillSame(v.disk, v.held, w.held, rest);
    }
  }

  lemma ClosedDisk(w: Writer, hours: seq<int>)
    requires Shaped(w) && hours == Ascending(w.held.Keys)
    ensures Closed(w) ==
      Flushed(w).(disk := SpillDisk(Flushed(w).disk, w.held, hours), held := map[], heldSeen := map[])
  {
    hide PutHeld, SpillDisk, Spilled, PutPart, Ascending;
    forall i | 0 <= i < |hours| ensures hours[i] in w.held {
      assert hours[i] in hours;
    }
    SpilledDisk(Flushed(w), hours);
  }

  lemma DrainedStep(w: Writer, hours: seq<int>, i: nat, now: int -> int -> int)
    requires Shaped(w) && i < |hours|
    ensures Drained(w, hours[i..], now) == Drained(DrainedOne(w, hours[i], now(hours[i])), hours[i + 1..], now)
  {
    hide DrainedOne;
    assert hours[i..][1..] == hours[i + 1..];
  }

  lemma DrainedNone(w: Writer, now: int -> int -> int)
    requires Shaped(w)
    ensures Drained(w, [], now) == w
  {
  }

  lemma {:induction false} AdmittedAllHolds(w: Writer, rows: seq<Row>, now: int -> int)
    requires Shaped(w) && w.current.Some?
    ensures AdmittedAll(w, rows, now).held == w.held
  {
    if rows != [] {
      AdmittedAllHolds(w, rows[..|rows| - 1], now);
    }
  }

  /** Draining an hour takes that hour alone out of the held ones. */
  lemma DrainedOneHeld(w: Writer, hour: int, now: int -> int)
    requires Shaped(w)
    ensures DrainedOne(w, hour, now).held == w.held - {hour}
  {
    var released := w.(held := w.held - {hour}, heldSeen := w.heldSeen - {hour});
    AdmittedAllHolds(Entered(released, hour), if hour in w.held then w.held[hour] else [], now);
    hide AdmittedAll, Redeem, MergeAll, MergeHour, PutPart;
  }
}
