/** The files of one (pair, kind) tree and the atomic steps `cli/capture/segment_writer.py` changes them by.
    A `Disk` is every tree the machine has shown, oldest first: a crash leaves one of them behind. */
module SegmentFiles {
  import opened Prelude
  import opened Clock
  import opened Sorting

  datatype Row = Row(ts: int, key: int, body: int)

  /** SHA-256, taken as injective. */
  datatype Digest = Sha256(rows: seq<Row>)

  /** One hour: numbered parts, numbered held spills, the interrupted merge, the sidecar and the final. */
  datatype Files = Files(
    parts: map<int, seq<Row>>,
    held: map<int, seq<Row>>,
    merging: Option<seq<Row>>,
    manifest: Option<Digest>,
    final: Option<seq<Row>>)

  const NO_FILES: Files := Files(map[], map[], None, None, None)

  type Tree = map<int, Files>

  function At(t: Tree, hour: int): Files {
    if hour in t then t[hour] else NO_FILES
  }

  // ---- numbered files

  /** The numbers on disk, in sequence order. */
  function Listing(files: map<int, seq<Row>>): seq<int> {
    Ascending(files.Keys)
  }

  function NextNumber(files: map<int, seq<Row>>): int {
    var numbers := Listing(files);
    if numbers == [] then 0 else numbers[|numbers| - 1] + 1
  }

  function Concat(files: map<int, seq<Row>>, numbers: seq<int>): seq<Row>
    requires forall i :: 0 <= i < |numbers| ==> numbers[i] in files
  {
    if numbers == [] then [] else files[numbers[0]] + Concat(files, numbers[1..])
  }

  /** The rows of numbered files, in sequence order. */
  function Flat(files: map<int, seq<Row>>): seq<Row> {
    assert forall i :: 0 <= i < |Listing(files)| ==> Listing(files)[i] in Listing(files);
    Concat(files, Listing(files))
  }

  lemma {:induction false} ConcatSame(a: map<int, seq<Row>>, b: map<int, seq<Row>>, numbers: seq<int>)
    requires forall i :: 0 <= i < |numbers| ==> numbers[i] in a && numbers[i] in b && a[numbers[i]] == b[numbers[i]]
    ensures Concat(a, numbers) == Concat(b, numbers)
  {
    if numbers != [] {
      ConcatSame(a, b, numbers[1..]);
    }
  }

  lemma {:induction false} ConcatSnoc(files: map<int, seq<Row>>, numbers: seq<int>, n: int)
    requires forall i :: 0 <= i < |numbers| ==> numbers[i] in files
    requires n in files
    ensures Concat(files, numbers + [n]) == Concat(files, numbers) + files[n]
  {
    if numbers == [] {
      assert numbers + [n] == [n];
      assert Concat(files, [n]) == files[n] + Concat(files, []);
    } else {
      ConcatSnoc(files, numbers[1..], n);
      assert (numbers + [n])[1..] == numbers[1..] + [n];
    }
  }

  lemma NextNumberAbove(files: map<int, seq<Row>>)
    ensures forall k :: k in files ==> k < NextNumber(files)
  {
    var numbers := Listing(files);
    forall k | k in files ensures k < NextNumber(files) {
      assert k in numbers;
      var i :| 0 <= i < |numbers| && numbers[i] == k;
    }
  }

  /** A file written under the next number overwrites nothing and its rows come last. */
  lemma FlatAppends(files: map<int, seq<Row>>, rows: seq<Row>)
    ensures NextNumber(files) !in files
    ensures Flat(files[NextNumber(files) := rows]) == Flat(files) + rows
  {
    NextNumberAbove(files);
    FlatAppendsAbove(files, NextNumber(files), rows);
  }

  lemma FlatAppendsAbove(files: map<int, seq<Row>>, n: int, rows: seq<Row>)
    requires forall k :: k in files ==> k < n
    ensures Flat(files[n := rows]) == Flat(files) + rows
  {
    hide Ascending, Concat;
    var numbers := Listing(files);
    forall i | 0 <= i < |numbers| ensures numbers[i] in files && numbers[i] != n {
      assert numbers[i] in numbers;
    }
    var wider := files[n := rows];
    assert wider.Keys == files.Keys + {n};
    AscendingAbove(files.Keys, n);
    ConcatSnoc(wider, numbers, n);
    ConcatSame(files, wider, numbers);
  }

  lemma ListingDropsFirst(files: map<int, seq<Row>>)
    requires files != map[]
    ensures Listing(files) != [] && Listing(files)[0] in files
    ensures Listing(files - {Listing(files)[0]}) == Listing(files)[1..]
    ensures forall i :: 1 <= i < |Listing(files)| ==> Listing(files)[i] in files && Listing(files)[i] != Listing(files)[0]
  {
    assert files.Keys != {} by { assert files.Keys == {} ==> files == map[]; }
    hide Ascending;
    AscendingRest(files.Keys);
    var numbers := Listing(files);
    assert forall i :: 0 <= i < |numbers| ==> numbers[i] in numbers;
    assert (files - {numbers[0]}).Keys == files.Keys - {numbers[0]};
  }

  /** The first file's rows come first, and the rest are the files without it. */
  lemma FlatDropsFirst(files: map<int, seq<Row>>)
    requires files != map[]
    ensures Listing(files) != [] && Listing(files)[0] in files
    ensures Listing(files - {Listing(files)[0]}) == Listing(files)[1..]
    ensures Flat(files) == files[Listing(files)[0]] + Flat(files - {Listing(files)[0]})
  {
    hide Listing, Ascending;
    ListingDropsFirst(files);
    var numbers := Listing(files);
    ConcatSame(files, files - {numbers[0]}, numbers[1..]);
  }

  lemma FlatOfNone()
    ensures Listing(map[]) == []
    ensures Flat(map[]) == []
  {
  }

  lemma ListingEmpty(files: map<int, seq<Row>>)
    ensures Listing(files) == [] <==> files == map[]
  {
    if Listing(files) == [] {
      assert forall k :: k in files.Keys ==> k in Listing(files);
    }
  }

  // ---- what an hour holds

  function Rows(r: Option<seq<Row>>): seq<Row> {
    if r.Some? then r.value else []
  }

  /** The rows not yet published: the interrupted merge when there is one, else the parts. */
  function Live(f: Files): seq<Row> {
    if f.merging.Some? then f.merging.value else Flat(f.parts)
  }

  function Durable(f: Files): seq<Row> {
    Rows(f.final) + Live(f)
  }

  /** Every row on disk for the hour, quarantined spills last. */
  function Kept(f: Files): seq<Row> {
    Durable(f) + Flat(f.held)
  }

  predicate InHour(rows: seq<Row>, hour: int) {
    forall i :: 0 <= i < |rows| ==> HourStart(rows[i].ts) == hour
  }

  predicate Distinct(rows: seq<Row>) {
    forall i, j :: 0 <= i < j < |rows| ==> rows[i].key != rows[j].key
  }

  function Keys(rows: seq<Row>): set<int> {
    set i | 0 <= i < |rows| :: rows[i].key
  }

  predicate EndsWith(rows: seq<Row>, tail: seq<Row>) {
    |tail| <= |rows| && rows[|rows| - |tail|..] == tail
  }

  /** What is claimed of a tree: whether rows carry a de-dup key, whether every process read a clock not behind
      the segments it found (`clean`), and the instant no closed hour outlasts (`ends`). */
  datatype Mode = Mode(dedup: bool, clean: bool, ends: Option<int>)

  /** What every tree the writer leaves satisfies, hour by hour. */
  predicate FilesOk(hour: int, f: Files, m: Mode) {
    && InHour(Kept(f), hour)
    && (f.merging.Some? ==> f.final.None? && EndsWith(f.merging.value, Flat(f.parts)))
    && (f.final.Some? ==> f.manifest == Some(Sha256(f.final.value)))
    && (m.dedup ==> Distinct(Live(f) + Flat(f.held)) && Distinct(Rows(f.final)))
    && (m.clean && f.final.Some? ==> f.parts == map[])
    && (m.ends.Some? && (f.final.Some? || f.merging.Some?) ==> hour + HOUR <= m.ends.value)
  }

  predicate TreeOk(t: Tree, m: Mode) {
    forall hour :: hour in t ==> hour % HOUR == 0 && FilesOk(hour, t[hour], m)
  }

  /** Rows are only ever added, at the end, and a published final is frozen. */
  predicate Grows(f: Files, g: Files) {
    && Durable(f) <= Durable(g)
    && Kept(f) <= Kept(g)
    && (f.final.Some? ==> g.final == f.final)
  }

  ghost predicate TreeGrows(t: Tree, u: Tree) {
    forall hour: int :: Grows(At(t, hour), At(u, hour))
  }

  lemma TreeGrowsThrough(t: Tree, u: Tree, v: Tree)
    requires TreeGrows(t, u) && TreeGrows(u, v)
    ensures TreeGrows(t, v)
  {
    forall hour: int ensures Grows(At(t, hour), At(v, hour)) {
      assert Grows(At(t, hour), At(u, hour)) && Grows(At(u, hour), At(v, hour));
    }
  }

  // ---- the disk: every image it has shown

  datatype Disk = Disk(images: seq<Tree>) {
    function Now(): Tree
      requires images != []
    {
      images[|images| - 1]
    }

    function Then(t: Tree): (d: Disk)
      ensures d.images == images + [t]
    {
      Disk(images + [t])
    }

    /** The files of `hour` become `f`, in one atomic step. */
    function Put(hour: int, f: Files): (d: Disk)
      requires images != []
      ensures d.images != []
    {
      Then(Now()[hour := f])
    }

    function Of(hour: int): Files
      requires images != []
    {
      At(Now(), hour)
    }
  }

  ghost predicate DiskOk(d: Disk, m: Mode) {
    && d.images != []
    && (forall i :: 0 <= i < |d.images| ==> TreeOk(d.images[i], m))
    && (forall i :: 0 <= i < |d.images| - 1 ==> TreeGrows(d.images[i], d.images[i + 1]))
  }

  /** `d` has only shown more images than `c`. */
  predicate Continues(c: Disk, d: Disk) {
    c.images != [] && c.images <= d.images
  }

  lemma PutTreeOk(t: Tree, hour: int, f: Files, m: Mode)
    requires hour % HOUR == 0
    requires TreeOk(t, m) && FilesOk(hour, f, m) && Grows(At(t, hour), f)
    ensures TreeOk(t[hour := f], m)
    ensures TreeGrows(t, t[hour := f])
  {
    var u := t[hour := f];
    forall h | h in u ensures h % HOUR == 0 && FilesOk(h, u[h], m) {
      if h != hour { assert h in t && u[h] == t[h]; }
    }
    forall h: int ensures Grows(At(t, h), At(u, h)) {
      if h != hour { assert At(u, h) == At(t, h); }
    }
  }

  lemma ThenOk(d: Disk, t: Tree, m: Mode)
    requires DiskOk(d, m) && TreeOk(t, m) && TreeGrows(d.Now(), t)
    ensures DiskOk(d.Then(t), m)
    ensures Continues(d, d.Then(t))
  {
    hide TreeOk, TreeGrows;
    var e := d.Then(t);
    forall i | 0 <= i < |e.images| ensures TreeOk(e.images[i], m) {
      if i < |d.images| { assert e.images[i] == d.images[i]; }
    }
    forall i | 0 <= i < |e.images| - 1 ensures TreeGrows(e.images[i], e.images[i + 1]) {
      if i < |d.images| - 1 { assert e.images[i] == d.images[i] && e.images[i + 1] == d.images[i + 1]; }
    }
  }

  lemma PutOk(d: Disk, hour: int, f: Files, m: Mode)
    requires DiskOk(d, m)
    requires hour % HOUR == 0 && FilesOk(hour, f, m)
    requires Grows(d.Of(hour), f)
    ensures DiskOk(d.Put(hour, f), m)
    ensures Continues(d, d.Put(hour, f))
    ensures d.Put(hour, f).Of(hour) == f
    ensures forall h :: h != hour ==> d.Put(hour, f).Of(h) == d.Of(h)
  {
    assert TreeOk(d.Now(), m);
    PutTreeOk(d.Now(), hour, f, m);
    ThenOk(d, d.Now()[hour := f], m);
  }

  /** The files any hour of a sound disk has now. */
  lemma NowOk(d: Disk, hour: int, m: Mode)
    requires DiskOk(d, m)
    ensures FilesOk(hour, d.Of(hour), m)
  {
    assert TreeOk(d.Now(), m);
    FlatOfNone();
  }

  // ---- the atomic steps

  function PutPart(d: Disk, hour: int, rows: seq<Row>): (e: Disk)
    requires d.images != []
    ensures e.images != []
  {
    var f := d.Of(hour);
    d.Put(hour, f.(parts := f.parts[NextNumber(f.parts) := rows]))
  }

  function PutHeld(d: Disk, hour: int, rows: seq<Row>): (e: Disk)
    requires d.images != []
    ensures e.images != []
  {
    var f := d.Of(hour);
    d.Put(hour, f.(held := f.held[NextNumber(f.held) := rows]))
  }

  /** `e` is `d` after one step that leaves `rows` in a file of their own under `hour`: a spill or a part, behind every
      file of its kind, no file replaced and no other file of any hour touched. */
  ghost predicate Wrote(d: Disk, e: Disk, hour: int, rows: seq<Row>, spill: bool)
    requires d.images != [] && e.images != []
  {
    var f, g := d.Of(hour), e.Of(hour);
    && e.images == d.images + [e.Now()]
    && (forall h: int :: h != hour ==> e.Of(h) == d.Of(h))
    && g == (if spill then f.(held := g.held) else f.(parts := g.parts))
    && (if spill then OneMore(f.held, g.held, rows) else OneMore(f.parts, g.parts, rows))
  }

  ghost predicate OneMore(before: map<int, seq<Row>>, after: map<int, seq<Row>>, rows: seq<Row>) {
    && (forall n :: n in before ==> n in after && after[n] == before[n])
    && |after| == |before| + 1
    && Flat(after) == Flat(before) + rows
  }

  lemma NextIsOneMore(files: map<int, seq<Row>>, rows: seq<Row>)
    ensures OneMore(files, files[NextNumber(files) := rows], rows)
  {
    FlatAppends(files, rows);
    hide Flat, NextNumber;
    var after := files[NextNumber(files) := rows];
    assert after.Keys == files.Keys + {NextNumber(files)};
  }

  /** Rows written under the next number come last in their hour, and nothing else changes. */
  lemma PutWrites(d: Disk, hour: int, rows: seq<Row>, spill: bool)
    requires d.images != []
    ensures Wrote(d, if spill then PutHeld(d, hour, rows) else PutPart(d, hour, rows), hour, rows, spill)
  {
    hide OneMore, NextNumber;
    var f := d.Of(hour);
    NextIsOneMore(if spill then f.held else f.parts, rows);
    var e := if spill then PutHeld(d, hour, rows) else PutPart(d, hour, rows);
    forall h: int | h != hour ensures e.Of(h) == d.Of(h) {}
  }

  /** A held spill renamed to the next part. */
  function RedeemFirst(d: Disk, hour: int): (e: Disk)
    requires d.images != [] && Listing(d.Of(hour).held) != []
    ensures e.images != []
  {
    var f := d.Of(hour);
    var n := Listing(f.held)[0];
    assert n in Listing(f.held);
    d.Put(hour, f.(held := f.held - {n}, parts := f.parts[NextNumber(f.parts) := f.held[n]]))
  }

  function PutMerging(d: Disk, hour: int): (e: Disk)
    requires d.images != []
    ensures e.images != []
  {
    var f := d.Of(hour);
    d.Put(hour, f.(merging := Some(Flat(f.parts))))
  }

  function PutManifest(d: Disk, hour: int): (e: Disk)
    requires d.images != []
    ensures e.images != []
  {
    var f := d.Of(hour);
    d.Put(hour, f.(manifest := Some(Sha256(Rows(f.merging)))))
  }

  function UnlinkFirst(d: Disk, hour: int): (e: Disk)
    requires d.images != [] && Listing(d.Of(hour).parts) != []
    ensures e.images != []
  {
    var f := d.Of(hour);
    d.Put(hour, f.(parts := f.parts - {Listing(f.parts)[0]}))
  }

  function Publish(d: Disk, hour: int): (e: Disk)
    requires d.images != []
    ensures e.images != []
  {
    var f := d.Of(hour);
    d.Put(hour, f.(final := f.merging, merging := None))
  }

  // ---- facts about rows

  lemma KeysOfSum(a: seq<Row>, b: seq<Row>)
    ensures Keys(a + b) == Keys(a) + Keys(b)
  {
    var ab := a + b;
    forall k | k in Keys(a) ensures k in Keys(ab) {
      var i :| 0 <= i < |a| && a[i].key == k;
      assert ab[i].key == k;
    }
    forall k | k in Keys(b) ensures k in Keys(ab) {
      var i :| 0 <= i < |b| && b[i].key == k;
      assert ab[|a| + i].key == k;
    }
    forall k | k in Keys(ab) ensures k in Keys(a) + Keys(b) {
      var i :| 0 <= i < |ab| && ab[i].key == k;
      if i < |a| { assert a[i].key == k; } else { assert b[i - |a|].key == k; }
    }
  }

  lemma DistinctSnoc(rows: seq<Row>, row: Row)
    ensures Distinct(rows + [row]) <==> Distinct(rows) && row.key !in Keys(rows)
  {
    var more := rows + [row];
    if Distinct(more) {
      forall i, j | 0 <= i < j < |rows| ensures rows[i].key != rows[j].key {
        assert more[i] == rows[i] && more[j] == rows[j];
      }
      forall i | 0 <= i < |rows| ensures rows[i].key != row.key {
        assert more[i] == rows[i] && more[|rows|] == row;
      }
    }
    if Distinct(rows) && row.key !in Keys(rows) {
      forall i, j | 0 <= i < j < |more| ensures more[i].key != more[j].key {
        if j == |rows| { assert rows[i].key in Keys(rows); }
      }
    }
  }

  lemma DistinctFront(a: seq<Row>, b: seq<Row>)
    requires Distinct(a + b)
    ensures Distinct(a) && Distinct(b)
  {
    var ab := a + b;
    forall i, j | 0 <= i < j < |a| ensures a[i].key != a[j].key {
      assert ab[i] == a[i] && ab[j] == a[j];
    }
    forall i, j | 0 <= i < j < |b| ensures b[i].key != b[j].key {
      assert ab[|a| + i] == b[i] && ab[|a| + j] == b[j];
    }
  }

  lemma InHourOfSum(a: seq<Row>, b: seq<Row>, hour: int)
    ensures InHour(a + b, hour) <==> InHour(a, hour) && InHour(b, hour)
  {
    var ab := a + b;
    if InHour(ab, hour) {
      forall i | 0 <= i < |a| ensures HourStart(a[i].ts) == hour { assert ab[i] == a[i]; }
      forall i | 0 <= i < |b| ensures HourStart(b[i].ts) == hour { assert ab[|a| + i] == b[i]; }
    }
  }
}
