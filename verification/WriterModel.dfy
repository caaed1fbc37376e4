/** The writer of `cli/capture/segment_writer.py` on values: what each of its operations makes of the buffer,
    the held rows and the disk. */
module WriterModel {
  import opened Prelude
  import opened Clock
  import opened Sorting
  import opened HourOracles
  import opened PlausibilityGuard
  import opened SegmentFiles
  import opened MergeProtocol

  datatype Config = Config(dedup: bool, flushRows: int, hasOracle: bool, stream: Stream)

  datatype Writer = Writer(
    config: Config,
    disk: Disk,
    current: Option<int>,
    floor: Option<int>,
    buffer: seq<Row>,
    seen: set<int>,
    held: map<int, seq<Row>>,
    heldSeen: map<int, set<int>>,
    guard: Guard)

  /** A disk to read, and no buffered row without an open hour. */
  predicate Shaped(w: Writer) {
    w.disk.images != [] && (w.current.None? ==> w.buffer == [])
  }

  function Constructed(t: Tree, config: Config, now: int): (w: Writer)
    ensures Shaped(w)
  {
    var d := Recover(t);
    Writer(config, d, None, FloorOf(d.Now(), now), [], {}, map[], map[], Guard(None, now, 0, None))
  }

  // ---- the write path

  function Flushed(w: Writer): (r: Writer)
    requires Shaped(w)
    ensures Shaped(r) && r.config == w.config && r.buffer == []
  {
    if w.buffer == [] then w
    else w.(disk := PutPart(w.disk, w.current.value, w.buffer), buffer := [])
  }

  function Finalized(w: Writer, hour: int): (r: Writer)
    requires Shaped(w)
    ensures Shaped(r) && r.config == w.config && r.buffer == []
  {
    var flushed := Flushed(w);
    flushed.(disk := MergeHour(flushed.disk, hour))
  }

  function Swept(w: Writer, before: int): (r: Writer)
    requires Shaped(w)
    ensures Shaped(r) && r.config == w.config
  {
    w.(disk := MergeAll(w.disk, Unswept(w.disk.Now(), before)))
  }

  /** The hour becomes the open one: its spills are redeemed, its parts' keys remembered. */
  function Opened(w: Writer, hour: int): (r: Writer)
    requires Shaped(w)
    ensures Shaped(r) && r.config == w.config
  {
    var d := Redeem(w.disk, hour);
    w.(current := Some(hour), disk := d, seen := if w.config.dedup then Keys(Flat(d.Of(hour).parts)) else {})
  }

  function Entered(w: Writer, hour: int): (r: Writer)
    requires Shaped(w)
    ensures Shaped(r) && r.config == w.config && r.current.Some?
  {
    if w.current.None? then Opened(Swept(w, hour), hour)
    else if hour > w.current.value then Opened(Finalized(w, w.current.value), hour)
    else w
  }

  function Admitted(w: Writer, row: Row, now: int): (r: Writer)
    requires Shaped(w) && w.current.Some?
    ensures Shaped(r) && r.config == w.config && r.current == w.current
  {
    if w.config.dedup && row.key in w.seen then w
    else
      var kept := w.(
        seen := if w.config.dedup then w.seen + {row.key} else w.seen,
        guard := Anchored(w.guard, row.ts, now),
        buffer := w.buffer + [row]);
      if |kept.buffer| >= w.config.flushRows then Flushed(kept) else kept
  }

  function AdmittedAll(w: Writer, rows: seq<Row>, now: int -> int): (r: Writer)
    requires Shaped(w) && w.current.Some?
    ensures Shaped(r) && r.config == w.config && r.current == w.current
  {
    if rows == [] then w else Admitted(AdmittedAll(w, rows[..|rows| - 1], now), rows[|rows| - 1], now(|rows| - 1))
  }

  // ---- rows of an hour no quorum has confirmed

  /** The keys a hold window starts from: the hour's parts and its spills. */
  function DiskKeys(f: Files): set<int> {
    Keys(Flat(f.parts)) + Keys(Flat(f.held))
  }

  function HeldBack(w: Writer, hour: int, row: Row, now: int): (r: Writer)
    requires Shaped(w)
    ensures Shaped(r) && r.config == w.config
  {
    var seen := if hour in w.heldSeen then w.heldSeen[hour] else DiskKeys(w.disk.Of(hour));
    if w.config.dedup && row.key in seen then w.(heldSeen := w.heldSeen[hour := seen])
    else
      var rows := (if hour in w.held then w.held[hour] else []) + [row];
      var parked := w.(
        heldSeen := if w.config.dedup then w.heldSeen[hour := seen + {row.key}] else w.heldSeen,
        guard := Anchored(w.guard, row.ts, now));
      if |rows| >= w.config.flushRows
      then parked.(disk := PutHeld(w.disk, hour, rows), held := w.held[hour := []])
      else parked.(held := w.held[hour := rows])
  }

  /** The held hours an event of `hour` may drain, oldest first. */
  function Drainable(w: Writer, hour: int, confirmed: Option<int>): seq<int> {
    Ascending(set h | h in w.held && h <= hour && confirmed.Some? && h <= confirmed.value)
  }

  function DrainedOne(w: Writer, hour: int, now: int -> int): (r: Writer)
    requires Shaped(w)
    ensures Shaped(r) && r.config == w.config
  {
    var rows := if hour in w.held then w.held[hour] else [];
    AdmittedAll(Entered(w.(held := w.held - {hour}, heldSeen := w.heldSeen - {hour}), hour), rows, now)
  }

  function Drained(w: Writer, hours: seq<int>, now: int -> int -> int): (r: Writer)
    requires Shaped(w)
    ensures Shaped(r) && r.config == w.config
    decreases |hours|
  {
    if hours == [] then w else Drained(DrainedOne(w, hours[0], now(hours[0])), hours[1..], now)
  }

  function FloorHour(w: Writer): Option<int> {
    if w.current.Some? then w.current else w.floor
  }

  /** One event through `append`: the new writer and the new shared oracle. */
  function Appended(w: Writer, o: OracleState, row: Row, now: Readings): (r: (Writer, OracleState))
    requires Shaped(w)
    ensures Shaped(r.0)
  {
    if Implausible(w.guard, row.ts, now.guarded) then (w.(guard := Refused(w.guard, row.ts)), o)
    else
      var armed := w.(guard := Rearmed(w.guard));
      var hour := HourStart(row.ts);
      if FloorHour(armed).Some? && hour < FloorHour(armed).value then (armed, o)
      else if !w.config.hasOracle then (Admitted(Entered(armed, hour), row, now.anchored), o)
      else
        var asked := Asked(Observed(o, w.config.stream, row.ts, now.observed), now.asked);
        var drained := Drained(armed, Drainable(armed, hour, asked.confirmed), now.drained);
        if asked.confirmed.None? || hour > asked.confirmed.value
        then (HeldBack(drained, hour, row, now.anchored), asked)
        else (Admitted(Entered(drained, hour), row, now.anchored), asked)
  }

  /** `close`: what is buffered becomes a part, what is held becomes a spill; the open hour is not published. */
  function Spilled(w: Writer, hours: seq<int>): (r: Writer)
    requires Shaped(w)
    ensures Shaped(r) && r.config == w.config
    decreases |hours|
  {
    if hours == [] then w
    else
      var hour := hours[0];
      var rows := if hour in w.held then w.held[hour] else [];
      Spilled(if rows == [] then w else w.(disk := PutHeld(w.disk, hour, rows), held := w.held[hour := []]), hours[1..])
  }

  function Closed(w: Writer): (r: Writer)
    requires Shaped(w)
    ensures Shaped(r) && r.config == w.config
  {
    Spilled(Flushed(w), Ascending(w.held.Keys)).(held := map[], heldSeen := map[])
  }

  // ---- the invariant

  function RamHeld(w: Writer, hour: int): seq<Row> {
    if hour in w.held then w.held[hour] else []
  }

  /** The rows of an hour this process has taken and not written yet. */
  function Ram(w: Writer, hour: int): seq<Row> {
    if w.current == Some(hour) then w.buffer else RamHeld(w, hour)
  }

  /** Every row of an hour, on disk or not, in the order it was taken. */
  function Content(w: Writer, hour: int): seq<Row>
    requires w.disk.images != []
  {
    Kept(w.disk.Of(hour)) + Ram(w, hour)
  }

  /** The rows a replay of is recognised. */
  function Unpublished(w: Writer, hour: int): seq<Row>
    requires w.disk.images != []
  {
    Live(w.disk.Of(hour)) + Flat(w.disk.Of(hour).held) + Ram(w, hour)
  }

  ghost predicate Ahead(w: Writer, hour: int) {
    w.current.None? || w.current.value < hour
  }

  /** No final at or past the hour this writer may still open. */
  ghost predicate FinalsBehind(w: Writer)
    requires w.disk.images != []
  {
    forall h: int :: w.disk.Of(h).final.Some? ==> FloorHour(w).Some? && h < FloorHour(w).value
  }

  ghost predicate OpenHourOk(w: Writer, m: Mode)
    requires w.disk.images != []
  {
    w.current.Some? ==>
      var hour := w.current.value;
      && hour % HOUR == 0
      && (m.ends.Some? ==> hour <= m.ends.value)
      && InHour(w.buffer, hour)
      && w.disk.Of(hour).held == map[]
      && (m.dedup ==> w.seen == Keys(Unpublished(w, hour)) && Distinct(Unpublished(w, hour)))
  }

  ghost predicate HeldHourOk(w: Writer, m: Mode, hour: int)
    requires w.disk.images != []
  {
    && (hour in w.held ==>
         && hour % HOUR == 0
         && InHour(w.held[hour], hour)
         && Ahead(w, hour)
         && (FloorHour(w).Some? ==> hour >= FloorHour(w).value)
         && (m.dedup ==> hour in w.heldSeen))
    && (m.dedup && hour in w.heldSeen && Ahead(w, hour) ==>
         w.heldSeen[hour] == Keys(Unpublished(w, hour)) && Distinct(Unpublished(w, hour)))
  }

  ghost predicate Sound(w: Writer, m: Mode) {
    && Shaped(w)
    && m.dedup == w.config.dedup
    && (m.ends.Some? ==> w.config.hasOracle)
    && DiskOk(w.disk, m)
    && (forall h: int :: w.disk.Of(h).merging.None?)
    && OpenHourOk(w, m)
    && (forall h: int :: HeldHourOk(w, m, h))
    && (m.clean ==> FinalsBehind(w))
  }

  /** The open hour never runs ahead of the corroboration. */
  ghost predicate Corroborated(w: Writer, o: OracleState) {
    w.config.hasOracle && w.current.Some? ==> Confirmed(o, w.current.value)
  }
}
