/** The merge of an hour's parts into its committed final, step by step: `_merge_hour`, `_write_merging`,
    `_commit`, `_redeem_held` and `_recover` of `cli/capture/segment_writer.py`. */
module MergeProtocol {
  import opened Prelude
  import opened Clock
  import opened Sorting
  import opened SegmentFiles

  // ---- the protocol

  function UnlinkAll(d: Disk, hour: int): (e: Disk)
    requires d.images != []
    ensures e.images != []
    decreases |d.Of(hour).parts|
  {
    var f := d.Of(hour);
    ListingEmpty(f.parts);
    if Listing(f.parts) == [] then d
    else
      var e := UnlinkFirst(d, hour);
      assert |e.Of(hour).parts| < |f.parts| by { FlatDropsFirst(f.parts); Smaller(f.parts, Listing(f.parts)[0]); }
      UnlinkAll(e, hour)
  }

  lemma Smaller(files: map<int, seq<Row>>, n: int)
    requires n in files
    ensures |files - {n}| < |files|
  {
    assert (files - {n}).Keys == files.Keys - {n};
    assert |(files - {n}).Keys| == |files.Keys| - 1;
  }

  /** The manifest, the parts, the rename: in that order. */
  function Commit(d: Disk, hour: int): (e: Disk)
    requires d.images != []
    ensures e.images != []
  {
    Publish(UnlinkAll(PutManifest(d, hour), hour), hour)
  }

  /** An uncommitted merge in the way, or parts beside a readable final, are left exactly as they are. */
  function MergeHour(d: Disk, hour: int): (e: Disk)
    requires d.images != []
    ensures e.images != []
  {
    var f := d.Of(hour);
    if Listing(f.parts) == [] || f.merging.Some? || f.final.Some? then d
    else Commit(PutMerging(d, hour), hour)
  }

  function MergeAll(d: Disk, hours: seq<int>): (e: Disk)
    requires d.images != []
    ensures e.images != []
  {
    if hours == [] then d else MergeHour(MergeAll(d, hours[..|hours| - 1]), hours[|hours| - 1])
  }

  /** The hours still holding parts strictly before `before`, oldest first. */
  function Unswept(t: Tree, before: int): seq<int> {
    Ascending(set h | h in t && t[h].parts != map[] && h < before)
  }

  function Redeem(d: Disk, hour: int): (e: Disk)
    requires d.images != []
    ensures e.images != []
    decreases |d.Of(hour).held|
  {
    var f := d.Of(hour);
    ListingEmpty(f.held);
    if Listing(f.held) == [] then d
    else
      var e := RedeemFirst(d, hour);
      assert |e.Of(hour).held| < |f.held| by { FlatDropsFirst(f.held); Smaller(f.held, Listing(f.held)[0]); }
      Redeem(e, hour)
  }

  /** The interrupted merges a previous process left, oldest first. */
  function Interrupted(t: Tree): seq<int> {
    Ascending(set h | h in t && t[h].merging.Some?)
  }

  function CommitAll(d: Disk, hours: seq<int>): (e: Disk)
    requires d.images != []
    ensures e.images != []
  {
    if hours == [] then d
    else
      var before := CommitAll(d, hours[..|hours| - 1]);
      var hour := hours[|hours| - 1];
      if before.Of(hour).final.Some? then before else Commit(before, hour)
  }

  /** What construction makes of the tree a previous process left. */
  function Recover(t: Tree): (d: Disk)
    ensures d.images != []
  {
    CommitAll(Disk([t]), Interrupted(t))
  }

  /** The oldest hour still open, read off the segments on disk; one dated in the future is ignored. */
  function FloorOf(t: Tree, now: int): Option<int> {
    var closed := Ascending(set h | h in t && (t[h].final.Some? || t[h].merging.Some?) && h <= now + MAX_TS_AHEAD);
    if closed == [] then None else Some(closed[|closed| - 1] + HOUR)
  }

  // ---- one step at a time

  lemma EndsWithRest(rows: seq<Row>, head: seq<Row>, rest: seq<Row>)
    requires EndsWith(rows, head + rest)
    ensures EndsWith(rows, rest)
  {
    assert rows[|rows| - |rest|..] == rows[|rows| - |head + rest|..][|head|..];
    assert (head + rest)[|head|..] == rest;
  }

  /** `c` to `d`: a sound disk that changes `hour` alone. */
  ghost predicate Moves(c: Disk, d: Disk, hour: int, m: Mode) {
    && DiskOk(d, m)
    && Continues(c, d)
    && (forall h :: h != hour ==> d.Of(h) == c.Of(h))
  }

  lemma MovesThrough(c: Disk, d: Disk, e: Disk, hour: int, m: Mode)
    requires Moves(c, d, hour, m) && Moves(d, e, hour, m)
    ensures Moves(c, e, hour, m)
  {
  }

  lemma UnlinkStep(d: Disk, hour: int, m: Mode)
    requires DiskOk(d, m)
    requires d.Of(hour).merging.Some?
    requires Listing(d.Of(hour).parts) != []
    ensures Moves(d, UnlinkFirst(d, hour), hour, m)
    ensures UnlinkFirst(d, hour).Of(hour) ==
      d.Of(hour).(parts := d.Of(hour).parts - {Listing(d.Of(hour).parts)[0]})
  {
    var f := d.Of(hour);
    NowOk(d, hour, m);
    ListingEmpty(f.parts);
    FlatDropsFirst(f.parts);
    var g := f.(parts := f.parts - {Listing(f.parts)[0]});
    EndsWithRest(f.merging.value, f.parts[Listing(f.parts)[0]], Flat(g.parts));
    PutOk(d, hour, g, m);
  }

  /** A kill between any two unlinks leaves the merge whole: only parts go. */
  lemma {:induction false} UnlinkAllMoves(d: Disk, hour: int, m: Mode)
    requires DiskOk(d, m)
    requires d.Of(hour).merging.Some?
    ensures Moves(d, UnlinkAll(d, hour), hour, m)
    ensures UnlinkAll(d, hour).Of(hour) == d.Of(hour).(parts := map[])
    decreases |d.Of(hour).parts|
  {
    var f := d.Of(hour);
    ListingEmpty(f.parts);
    if Listing(f.parts) != [] {
      var e := UnlinkFirst(d, hour);
      UnlinkStep(d, hour, m);
      FlatDropsFirst(f.parts);
      Smaller(f.parts, Listing(f.parts)[0]);
      UnlinkAllMoves(e, hour, m);
    }
  }

  lemma ManifestStep(d: Disk, hour: int, m: Mode)
    requires DiskOk(d, m)
    requires d.Of(hour).merging.Some?
    ensures Moves(d, PutManifest(d, hour), hour, m)
    ensures PutManifest(d, hour).Of(hour) == d.Of(hour).(manifest := Some(Sha256(d.Of(hour).merging.value)))
  {
    NowOk(d, hour, m);
    PutOk(d, hour, d.Of(hour).(manifest := Some(Sha256(Rows(d.Of(hour).merging)))), m);
  }

  lemma PublishStep(d: Disk, hour: int, m: Mode)
    requires DiskOk(d, m)
    requires d.Of(hour).merging.Some? && d.Of(hour).parts == map[]
    requires d.Of(hour).manifest == Some(Sha256(d.Of(hour).merging.value))
    ensures Moves(d, Publish(d, hour), hour, m)
    ensures Publish(d, hour).Of(hour) == d.Of(hour).(final := d.Of(hour).merging, merging := None)
  {
    var f := d.Of(hour);
    NowOk(d, hour, m);
    FlatOfNone();
    var g := f.(final := f.merging, merging := None);
    var rows := f.merging.value;
    assert Durable(f) == rows && Durable(g) == rows;
    assert Live(g) + Flat(g.held) == Flat(g.held);
    if m.dedup { DistinctFront(rows, Flat(f.held)); }
    PutOk(d, hour, g, m);
  }

  /** Committing a merge, complete or interrupted: the final holds exactly the merged bytes. */
  lemma CommitMoves(d: Disk, hour: int, m: Mode)
    requires DiskOk(d, m)
    requires d.Of(hour).merging.Some?
    ensures Moves(d, Commit(d, hour), hour, m)
    ensures Commit(d, hour).Of(hour) == Files(map[], d.Of(hour).held, None, Some(Sha256(d.Of(hour).merging.value)), d.Of(hour).merging)
  {
    var d1 := PutManifest(d, hour);
    var d2 := UnlinkAll(d1, hour);
    ManifestStep(d, hour, m);
    UnlinkAllMoves(d1, hour, m);
    PublishStep(d2, hour, m);
    MovesThrough(d, d1, d2, hour, m);
    MovesThrough(d, d2, Publish(d2, hour), hour, m);
  }

  /** `hour` is over by the instant no closed hour outlasts. */
  predicate Over(hour: int, m: Mode) {
    m.ends.Some? ==> hour + HOUR <= m.ends.value
  }

  lemma MergingStep(d: Disk, hour: int, m: Mode)
    requires DiskOk(d, m)
    requires d.Of(hour).merging.None? && d.Of(hour).final.None?
    requires hour % HOUR == 0 && Over(hour, m)
    ensures Moves(d, PutMerging(d, hour), hour, m)
    ensures PutMerging(d, hour).Of(hour) == d.Of(hour).(merging := Some(Flat(d.Of(hour).parts)))
  {
    var f := d.Of(hour);
    NowOk(d, hour, m);
    var g := f.(merging := Some(Flat(f.parts)));
    assert Durable(g) == Durable(f);
    PutOk(d, hour, g, m);
  }

  /** A merge changes nothing, or turns the hour's parts into its final, row for row. */
  lemma MergeHourMoves(d: Disk, hour: int, m: Mode)
    requires DiskOk(d, m)
    requires Over(hour, m)
    ensures Moves(d, MergeHour(d, hour), hour, m)
    ensures var f, g := d.Of(hour), MergeHour(d, hour).Of(hour);
      if f.parts == map[] || f.merging.Some? || f.final.Some? then g == f
      else g == Files(map[], f.held, None, Some(Sha256(Flat(f.parts))), Some(Flat(f.parts)))
  {
    var f := d.Of(hour);
    ListingEmpty(f.parts);
    if f.parts == map[] || f.merging.Some? || f.final.Some? {
    } else {
      var e := PutMerging(d, hour);
      MergingStep(d, hour, m);
      CommitMoves(e, hour, m);
      MovesThrough(d, e, Commit(e, hour), hour, m);
    }
  }

  /** More rows at the end of the parts of an hour without spills. */
  lemma WithMoreParts(f: Files, g: Files, hour: int, rows: seq<Row>, m: Mode)
    requires FilesOk(hour, f, m)
    requires f.merging.None? && f.held == map[]
    requires m.clean ==> f.final.None?
    requires g == f.(parts := g.parts) && Flat(g.parts) == Flat(f.parts) + rows
    requires InHour(rows, hour)
    requires m.dedup ==> Distinct(Live(f) + rows)
    ensures FilesOk(hour, g, m) && Grows(f, g)
  {
    hide Flat, Distinct;
    FlatOfNone();
    assert Durable(g) == Durable(f) + rows;
    assert Kept(f) == Durable(f) && Kept(g) == Durable(g);
    InHourOfSum(Durable(f), rows, hour);
    assert Live(g) + Flat(g.held) == Live(f) + rows;
  }

  /** More rows at the end of the spills. */
  lemma WithMoreHeld(f: Files, g: Files, hour: int, rows: seq<Row>, m: Mode)
    requires FilesOk(hour, f, m)
    requires g == f.(held := g.held) && Flat(g.held) == Flat(f.held) + rows
    requires InHour(rows, hour)
    requires m.dedup ==> Distinct(Live(f) + Flat(f.held) + rows)
    ensures FilesOk(hour, g, m) && Grows(f, g)
  {
    Associate(Durable(f), Flat(f.held), rows);
    Associate(Live(f), Flat(f.held), rows);
    assert Durable(g) == Durable(f);
    assert Kept(g) == Kept(f) + rows by { assert Kept(g) == Durable(f) + (Flat(f.held) + rows); }
    InHourOfSum(Kept(f), rows, hour);
    assert Live(g) + Flat(g.held) == Live(f) + Flat(f.held) + rows;
  }

  lemma Associate(a: seq<Row>, b: seq<Row>, c: seq<Row>)
    ensures a + (b + c) == a + b + c
  {
  }

  /** The first spill's rows moved to the end of the parts. */
  lemma WithOneRedeemed(f: Files, g: Files, hour: int, rows: seq<Row>, m: Mode)
    requires FilesOk(hour, f, m)
    requires f.merging.None?
    requires m.clean ==> f.final.None?
    requires g == f.(parts := g.parts, held := g.held)
    requires Flat(g.parts) == Flat(f.parts) + rows && Flat(f.held) == rows + Flat(g.held)
    ensures FilesOk(hour, g, m) && Grows(f, g)
    ensures Flat(g.parts) + Flat(g.held) == Flat(f.parts) + Flat(f.held)
  {
    var fin, parts, rest := Rows(f.final), Flat(f.parts), Flat(g.held);
    Associate(parts, rows, rest);
    Associate(fin, parts, rows);
    Associate(fin + parts, rows, rest);
    assert Durable(f) == fin + parts && Durable(g) == fin + parts + rows;
    assert Kept(f) == fin + parts + (rows + rest) == Kept(g);
  }

  lemma PartStep(d: Disk, hour: int, rows: seq<Row>, m: Mode)
    requires DiskOk(d, m)
    requires d.Of(hour).merging.None? && d.Of(hour).held == map[]
    requires hour % HOUR == 0 && (m.clean ==> d.Of(hour).final.None?)
    requires InHour(rows, hour)
    requires m.dedup ==> Distinct(Live(d.Of(hour)) + rows)
    ensures Moves(d, PutPart(d, hour, rows), hour, m)
    ensures Flat(PutPart(d, hour, rows).Of(hour).parts) == Flat(d.Of(hour).parts) + rows
    ensures PutPart(d, hour, rows).Of(hour) == d.Of(hour).(parts := PutPart(d, hour, rows).Of(hour).parts)
  {
    var f := d.Of(hour);
    var parts := f.parts[NextNumber(f.parts) := rows];
    NowOk(d, hour, m);
    FlatAppends(f.parts, rows);
    WithMoreParts(f, f.(parts := parts), hour, rows, m);
    PutOk(d, hour, f.(parts := parts), m);
  }

  lemma HeldStep(d: Disk, hour: int, rows: seq<Row>, m: Mode)
    requires DiskOk(d, m)
    requires hour % HOUR == 0
    requires InHour(rows, hour)
    requires m.dedup ==> Distinct(Live(d.Of(hour)) + Flat(d.Of(hour).held) + rows)
    ensures Moves(d, PutHeld(d, hour, rows), hour, m)
    ensures Flat(PutHeld(d, hour, rows).Of(hour).held) == Flat(d.Of(hour).held) + rows
    ensures PutHeld(d, hour, rows).Of(hour) == d.Of(hour).(held := PutHeld(d, hour, rows).Of(hour).held)
  {
    var f := d.Of(hour);
    var held := f.held[NextNumber(f.held) := rows];
    NowOk(d, hour, m);
    FlatAppends(f.held, rows);
    WithMoreHeld(f, f.(held := held), hour, rows, m);
    PutOk(d, hour, f.(held := held), m);
  }

  lemma RedeemStep(d: Disk, hour: int, m: Mode)
    requires DiskOk(d, m)
    requires d.Of(hour).merging.None?
    requires m.clean ==> d.Of(hour).final.None?
    requires Listing(d.Of(hour).held) != []
    ensures Moves(d, RedeemFirst(d, hour), hour, m)
    ensures var f, g := d.Of(hour), RedeemFirst(d, hour).Of(hour);
      && g == f.(parts := g.parts, held := f.held - {Listing(f.held)[0]})
      && Flat(g.parts) + Flat(g.held) == Flat(f.parts) + Flat(f.held)
  {
    var f := d.Of(hour);
    ListingEmpty(f.held);
    FlatDropsFirst(f.held);
    var n := Listing(f.held)[0];
    var rows := f.held[n];
    var held, parts := f.held - {n}, f.parts[NextNumber(f.parts) := rows];
    NowOk(d, hour, m);
    FlatAppends(f.parts, rows);
    WithOneRedeemed(f, f.(held := held, parts := parts), hour, rows, m);
    PutOk(d, hour, f.(held := held, parts := parts), m);
  }

  /** Redeeming moves every held row behind the hour's parts: none lost, none duplicated, none reordered. */
  lemma {:induction false} RedeemMoves(d: Disk, hour: int, m: Mode)
    requires DiskOk(d, m)
    requires d.Of(hour).merging.None?
    requires m.clean ==> d.Of(hour).final.None?
    ensures Moves(d, Redeem(d, hour), hour, m)
    ensures var f, g := d.Of(hour), Redeem(d, hour).Of(hour);
      g == f.(parts := g.parts, held := map[]) && Flat(g.parts) == Flat(f.parts) + Flat(f.held)
    decreases |d.Of(hour).held|
  {
    var f := d.Of(hour);
    ListingEmpty(f.held);
    FlatOfNone();
    if Listing(f.held) == [] {
      assert Flat(f.parts) + [] == Flat(f.parts);
    } else {
      var e := RedeemFirst(d, hour);
      RedeemStep(d, hour, m);
      FlatDropsFirst(f.held);
      Smaller(f.held, Listing(f.held)[0]);
      RedeemMoves(e, hour, m);
      MovesThrough(d, e, Redeem(d, hour), hour, m);
    }
  }

  // ---- every hour at once

  /** What a sweep makes of one hour's files. */
  predicate SweptTo(f: Files, g: Files) {
    if f.parts == map[] || f.merging.Some? || f.final.Some? then g == f
    else g == Files(map[], f.held, None, Some(Sha256(Flat(f.parts))), Some(Flat(f.parts)))
  }

  lemma {:induction false} MergeAllMoves(d: Disk, hours: seq<int>, m: Mode)
    requires DiskOk(d, m)
    requires Increasing(hours)
    requires forall i :: 0 <= i < |hours| ==> Over(hours[i], m)
    ensures DiskOk(MergeAll(d, hours), m)
    ensures Continues(d, MergeAll(d, hours))
    ensures forall h :: h !in hours ==> MergeAll(d, hours).Of(h) == d.Of(h)
    ensures forall h :: h in hours ==> SweptTo(d.Of(h), MergeAll(d, hours).Of(h))
  {
    if hours != [] {
      var n := |hours| - 1;
      var front, hour := hours[..n], hours[n];
      var e := MergeAll(d, front);
      MergeAllMoves(d, front, m);
      assert hour !in front;
      assert hours == front + [hour];
      MergeHourMoves(e, hour, m);
      var g := MergeAll(d, hours);
      forall h ensures g.Of(h) == if h == hour then MergeHour(e, hour).Of(h) else e.Of(h) {
      }
      assert SweptTo(d.Of(hour), g.Of(hour));
    }
  }

  /** An interrupted merge published: its bytes are the final, its parts are gone. */
  function PublishedFrom(f: Files): Files {
    if f.merging.None? then f
    else Files(map[], f.held, None, Some(Sha256(f.merging.value)), f.merging)
  }

  /** The interrupted merges committed one after the other, read at any one hour `h`. */
  lemma {:induction false} CommitAllMoves(d: Disk, hours: seq<int>, h: int, m: Mode)
    requires DiskOk(d, m)
    requires Increasing(hours)
    requires forall i :: 0 <= i < |hours| ==> d.Of(hours[i]).merging.Some?
    ensures DiskOk(CommitAll(d, hours), m)
    ensures Continues(d, CommitAll(d, hours))
    ensures CommitAll(d, hours).Of(h) == if h in hours then PublishedFrom(d.Of(h)) else d.Of(h)
    decreases |hours|
  {
    hide Commit, FilesOk, TreeOk;
    if hours != [] {
      var n := |hours| - 1;
      var front, hour := hours[..n], hours[n];
      var e := CommitAll(d, front);
      assert hour !in front;
      CommitAllMoves(d, front, h, m);
      CommitAllMoves(d, front, hour, m);
      NowOk(e, hour, m);
      InterruptedHasNoFinal(hour, e.Of(hour), m);
      CommitMoves(e, hour, m);
      assert h in hours <==> h in front || h == hour;
    }
  }

  lemma InterruptedHasNoFinal(hour: int, f: Files, m: Mode)
    requires FilesOk(hour, f, m) && f.merging.Some?
    ensures f.final.None?
  {
  }

  /** Recovery from any tree a crash can leave: every interrupted merge is published and no other file moves. */
  lemma RecoverMoves(t: Tree, m: Mode)
    requires TreeOk(t, m)
    ensures DiskOk(Recover(t), m)
    ensures Continues(Disk([t]), Recover(t))
    ensures forall h: int :: Recover(t).Of(h) == PublishedFrom(At(t, h))
  {
    hide CommitAll, FilesOk, Kept, Durable;
    var d := Disk([t]);
    var hours := Interrupted(t);
    assert d.Now() == t;
    assert forall i :: 0 <= i < |hours| ==> hours[i] in hours;
    CommitAllMoves(d, hours, 0, m);
    forall h: int ensures Recover(t).Of(h) == PublishedFrom(At(t, h)) {
      CommitAllMoves(d, hours, h, m);
    }
  }
}
